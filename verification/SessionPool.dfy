// The life of the pre-allocated links as a state machine: a link is free, or
// belongs to a session that was accepted and has not joined a room yet, or to
// a session inside one room. One step is one mutex-protected body of the
// server (server/server/ws_handler.go, session.go, server.go). A link is named
// by its position in the order of allocation.
module SessionPool {
  import opened Arithmetic
  import opened Options
  import opened Sequences
  import Bytes
  import Relay

  // What a live client record holds for the pool and for message routing.
  datatype Session = Session(spot: int, connection: int, spectator: bool, room: string, x: int, y: int, joined: bool)

  datatype Pool = Pool(
    max: nat,                         // MaxPlayers
    free: seq<nat>,                   // free_clients, head first
    spots: seq<int>,                  // free_spots, bottom first
    live: map<nat, Session>,          // links whose client holds a session
    rooms: map<string, seq<nat>>,     // ActiveClients of every room, head first
    wedged: bool)                     // free_clients has lost its tail

  // A panic inside an accept is recovered by the web framework; a panic in a
  // session goroutine ends the process.
  datatype Machine = Running(pool: Pool) | Crashed

  datatype Event =
    | Accept(connection: int, spectator: bool, room: string, x: int, y: int)
    | Join(link: nat)
    | ChangeRoom(link: nat, to: string)
    | Move(link: nat, x: int, y: int)
    | Leave(link: nat)
    | Receive(link: nat, m: seq<Bytes.Byte>, zone: bool)  // zone: the room named has the zone named

  const FALLBACK_ROOM := "umbral"

  // ---------------------------------------------------------------- steps

  /** Push on a full stack is refused and the refusal is ignored. */
  function PushSpot(max: nat, spots: seq<int>, spot: int): seq<int> {
    if |spots| >= max then spots else spots + [spot]
  }

  /** Pop of an empty stack answers zero and the error is ignored. */
  function PopSpot(spots: seq<int>): (int, seq<int>) {
    if spots == [] then (0, []) else (spots[|spots| - 1], spots[..|spots| - 1])
  }

  /** TakeLink panics on a list of at most one link, and wedges a list of exactly one. */
  function AcceptStep(p: Pool, c: int, spectator: bool, room: string, x: int, y: int): Pool {
    if p.wedged || p.free == [] then p
    else if |p.free| == 1 then p.(wedged := true)
    else
      var link, (spot, spots) := p.free[|p.free| - 1], PopSpot(p.spots);
      p.(free := p.free[..|p.free| - 1],
         spots := spots,
         live := p.live[link := Session(spot, c, spectator, room, x, y, false)])
  }

  /** The room a session is put in: its own when the server has it. */
  function RoomFor(p: Pool, room: string): string {
    if room in p.rooms then room else FALLBACK_ROOM
  }

  ghost function Enter(p: Pool, link: nat, room: string): Machine
    requires link in p.live
  {
    if room !in p.rooms then Crashed
    else Running(p.(live := p.live[link := p.live[link].(room := room, joined := true)],
                    rooms := p.rooms[room := p.rooms[room] + [link]]))
  }

  /** The room lists once `link` is taken out of the one its session names. */
  ghost function RoomsWithout(p: Pool, link: nat): map<string, seq<nat>>
    requires link in p.live
  {
    var room := p.live[link].room;
    if room in p.rooms then p.rooms[room := Without(p.rooms[room], link)] else p.rooms
  }

  /** The session's current room must exist and own its link, or the move panics. */
  ghost function ChangeRoomStep(p: Pool, link: nat, to: string): Machine
    requires link in p.live
  {
    if p.live[link].room !in p.rooms || link !in p.rooms[p.live[link].room] then Crashed
    else Enter(p.(rooms := RoomsWithout(p, link)), link, to)
  }

  /** Recycling pushes the spot, unlinks the client and appends the link to the
      free list; appending to a wedged list is a panic outside any recovery. */
  ghost function LeaveStep(p: Pool, link: nat): Machine
    requires link in p.live
  {
    if p.wedged then Crashed
    else Running(p.(free := p.free + [link],
                    spots := PushSpot(p.max, p.spots, p.live[link].spot),
                    live := p.live - {link},
                    rooms := RoomsWithout(p, link)))
  }

  /** What the environment may do next: a new connection is unlike the open
      ones, a session joins once, and only a joined session talks or leaves. */
  ghost predicate Enabled(p: Pool, e: Event) {
    match e
    case Accept(c, _, _, _, _) => forall l :: l in p.live ==> p.live[l].connection != c
    case Join(l) => l in p.live && !p.live[l].joined
    case ChangeRoom(l, to) => l in p.live && p.live[l].joined && to in p.rooms
    case Move(l, _, _) => l in p.live && p.live[l].joined
    case Leave(l) => l in p.live && p.live[l].joined
    case Receive(l, _, _) => l in p.live && p.live[l].joined
  }

  /** A name as the message carries it. */
  function Text(b: seq<Bytes.Byte>): string {
    seq(|b|, k requires 0 <= k < |b| => b[k] as char)
  }

  /** What a received message makes its session do, if anything. A handler that
      reads past the end panics in the session's goroutine, where nothing recovers. */
  datatype Meaning = Nothing | Does(e: Event) | Dies

  function MeaningOf(p: Pool, l: nat, m: seq<Bytes.Byte>, zone: bool): (r: Meaning)
    requires l in p.live
    ensures r.Does? ==> r.e.Move? || r.e.ChangeRoom? || r.e.Leave?
  {
    match Relay.Received(m, p.live[l].spot, Relay.HANDLERS)
    case Panicked => Dies
    case Ejected => Does(Leave(l))
    case Moved(x, y, _) => Does(Move(l, x, y))
    case Entering(room, _) => if zone && Text(room) in p.rooms then Does(ChangeRoom(l, Text(room))) else Nothing
    case _ => Nothing
  }

  ghost function Step(p: Pool, e: Event): Machine
    requires Enabled(p, e)
    decreases e.Receive?
  {
    match e
    case Accept(c, spectator, room, x, y) => Running(AcceptStep(p, c, spectator, room, x, y))
    case Join(l) => Enter(p, l, RoomFor(p, p.live[l].room))
    case ChangeRoom(l, to) => ChangeRoomStep(p, l, to)
    case Move(l, x, y) => Running(p.(live := p.live[l := p.live[l].(x := x, y := y)]))
    case Leave(l) => LeaveStep(p, l)
    case Receive(l, m, zone) =>
      match MeaningOf(p, l, m, zone)
      case Nothing => Running(p)
      case Does(d) => Step(p, d)
      case Dies => Crashed
  }

  /** The machine may take this event, and it leads from `p` to `q`. */
  ghost predicate Takes(p: Pool, e: Event, q: Pool) {
    Enabled(p, e) && Step(p, e) == Running(q)
  }

  // ------------------------------------------------------------ invariant

  /** Free links and live links share out all the links. */
  ghost predicate LinksPlaced(p: Pool) {
    && Distinct(p.free)
    && (forall l :: l in p.free ==> l < p.max)
    && (forall l :: l in p.live ==> l < p.max && l !in p.free)
    && (forall l: nat :: l < p.max ==> l in p.free || l in p.live)
  }

  /** Free spots and the spots of live sessions are distinct numbers below max,
      as many free spots as free links. */
  ghost predicate SpotsPlaced(p: Pool) {
    && |p.spots| == |p.free|
    && Distinct(p.spots)
    && (forall s :: s in p.spots ==> 0 <= s < p.max)
    && (forall l :: l in p.live ==> 0 <= p.live[l].spot < p.max && p.live[l].spot !in p.spots)
    && (forall l, m :: l in p.live && m in p.live && l != m ==> p.live[l].spot != p.live[m].spot)
  }

  ghost predicate RoomHolds(live: map<nat, Session>, room: string, links: seq<nat>) {
    && Distinct(links)
    && forall l :: l in links ==> l in live && live[l].joined && live[l].room == room
  }

  /** A room list holds, once each, the joined sessions that name the room. */
  ghost predicate RoomsPlaced(p: Pool) {
    && FALLBACK_ROOM in p.rooms
    && (forall r :: r in p.rooms ==> RoomHolds(p.live, r, p.rooms[r]))
    && (forall l :: l in p.live && p.live[l].joined ==>
          p.live[l].room in p.rooms && l in p.rooms[p.live[l].room])
  }

  ghost predicate ConnectionsDistinct(p: Pool) {
    forall l, m :: l in p.live && m in p.live && l != m ==> p.live[l].connection != p.live[m].connection
  }

  ghost predicate Inv(p: Pool) {
    && LinksPlaced(p)
    && SpotsPlaced(p)
    && RoomsPlaced(p)
    && ConnectionsDistinct(p)
    && (p.wedged ==> |p.free| == 1)
    && (p.max > 0 ==> p.free != [])
  }

  lemma AcceptKeepsInv(p: Pool, e: Event)
    requires Inv(p) && e.Accept? && Enabled(p, e)
    ensures Step(p, e).Running? && Inv(Step(p, e).pool)
  {
    hide LinksPlaced, SpotsPlaced, RoomsPlaced, ConnectionsDistinct, Distinct;
    HasLinks(p);
    FreshLink(p);
    if p.wedged || |p.free| <= 1 {
      SamePlaces(p, Step(p, e).pool);
      SameRooms(p, Step(p, e).pool);
    } else {
      var q := Step(p, e).pool;
      var link, spot := p.free[|q.free|], p.spots[|q.spots|];
      assert p.free == q.free + [link];
      assert p.spots == q.spots + [spot];
      AcceptPlaces(p, q, link, q.live[link]);
      AcceptRooms(p, q, link, q.live[link]);
    }
  }

  lemma SameRooms(p: Pool, q: Pool)
    requires RoomsPlaced(p) && q.live == p.live && q.rooms == p.rooms
    ensures RoomsPlaced(q)
  {
  }

  lemma AcceptRooms(p: Pool, q: Pool, link: nat, s: Session)
    requires RoomsPlaced(p) && ConnectionsDistinct(p) && link !in p.live && !s.joined
    requires forall l :: l in p.live ==> p.live[l].connection != s.connection
    requires q.live == p.live[link := s] && q.rooms == p.rooms
    ensures RoomsPlaced(q) && ConnectionsDistinct(q)
  {
    hide Distinct;
    forall r | r in q.rooms
      ensures RoomHolds(q.live, r, q.rooms[r])
    {
      assert RoomHolds(p.live, r, p.rooms[r]);
    }
  }

  lemma AcceptPlaces(p: Pool, q: Pool, link: nat, s: Session)
    requires LinksPlaced(p) && SpotsPlaced(p)
    requires p.free == q.free + [link] && p.spots == q.spots + [s.spot]
    requires q.live == p.live[link := s] && q.max == p.max
    ensures LinksPlaced(q) && SpotsPlaced(q)
  {
    DistinctAppend(q.free, link);
    DistinctAppend(q.spots, s.spot);
  }

  /** Links, spots and connections stay placed while only rooms, positions and the
      joined marks change. */
  lemma SamePlaces(p: Pool, q: Pool)
    requires LinksPlaced(p) && SpotsPlaced(p) && ConnectionsDistinct(p)
    requires q.max == p.max && q.free == p.free && q.spots == p.spots && q.live.Keys == p.live.Keys
    requires forall l :: l in p.live ==> q.live[l].spot == p.live[l].spot && q.live[l].connection == p.live[l].connection
    ensures LinksPlaced(q) && SpotsPlaced(q) && ConnectionsDistinct(q)
  {
    hide Distinct;
  }

  lemma EnterKeepsInv(p: Pool, link: nat, room: string)
    requires Inv(p) && link in p.live && !p.live[link].joined && room in p.rooms
    ensures Enter(p, link, room).Running? && Inv(Enter(p, link, room).pool)
  {
    hide LinksPlaced, SpotsPlaced, ConnectionsDistinct;
    DistinctAppend(p.rooms[room], link);
    var q := Enter(p, link, room).pool;
    SamePlaces(p, q);
    forall r | r in q.rooms
      ensures RoomHolds(q.live, r, q.rooms[r])
    {
      assert RoomHolds(p.live, r, p.rooms[r]);
    }
  }

  /** `p` with a joined session taken out of its room, pending again. */
  ghost function Outside(p: Pool, link: nat): Pool
    requires link in p.live
  {
    p.(live := p.live[link := p.live[link].(joined := false)], rooms := RoomsWithout(p, link))
  }

  lemma OutsideKeepsInv(p: Pool, link: nat)
    requires Inv(p) && link in p.live && p.live[link].joined
    ensures Inv(Outside(p, link))
  {
    hide LinksPlaced, SpotsPlaced, ConnectionsDistinct;
    var room := p.live[link].room;
    var k, rest := Deletion(p.rooms[room], link);
    var q := Outside(p, link);
    assert q.rooms == p.rooms[room := rest];
    SamePlaces(p, q);
    forall r | r in q.rooms
      ensures RoomHolds(q.live, r, q.rooms[r])
    {
      assert RoomHolds(p.live, r, p.rooms[r]);
    }
  }

  /** A room change is a step outside followed by an entry. */
  lemma ChangeRoomSplits(p: Pool, l: nat, to: string)
    requires Inv(p) && Enabled(p, ChangeRoom(l, to))
    ensures Step(p, ChangeRoom(l, to)) == Enter(Outside(p, l), l, to)
  {
    hide Inv, RoomsWithout;
    HasRoom(p, l);
    var s := p.live[l];
    var out, back := s.(joined := false), s.(room := to, joined := true);
    assert p.live[l := out][l := back] == p.live[l := back];
  }

  lemma ChangeRoomKeepsInv(p: Pool, link: nat, to: string)
    requires Inv(p) && Enabled(p, ChangeRoom(link, to))
    ensures ChangeRoomStep(p, link, to).Running? && Inv(ChangeRoomStep(p, link, to).pool)
  {
    hide Inv, Enter;
    OutsideKeepsInv(p, link);
    EnterKeepsInv(Outside(p, link), link, to);
    ChangeRoomSplits(p, link, to);
  }

  /** A pending session gives its spot and its link back. */
  lemma DropPending(q: Pool, link: nat)
    requires Inv(q) && link in q.live && !q.live[link].joined && !q.wedged && |q.spots| < q.max
    ensures Inv(q.(free := q.free + [link], spots := q.spots + [q.live[link].spot], live := q.live - {link}))
  {
    DistinctAppend(q.free, link);
    DistinctAppend(q.spots, q.live[link].spot);
    var r := q.(free := q.free + [link], spots := q.spots + [q.live[link].spot], live := q.live - {link});
    assert forall l :: l in r.live ==> l in q.live && r.live[l] == q.live[l];
    assert LinksPlaced(r) && SpotsPlaced(r) by {
      hide Distinct;
    }
    assert RoomsPlaced(r) by {
      forall s | s in r.rooms
        ensures RoomHolds(r.live, s, r.rooms[s])
      {
        assert RoomHolds(q.live, s, q.rooms[s]);
      }
    }
  }

  lemma LeaveKeepsInv(p: Pool, link: nat)
    requires Inv(p) && Enabled(p, Leave(link)) && !p.wedged
    ensures LeaveStep(p, link).Running? && Inv(LeaveStep(p, link).pool)
  {
    hide Inv, RoomsWithout;
    OutsideKeepsInv(p, link);
    HasLinks(p);
    FreeIsBounded(p, link);
    DropPending(Outside(p, link), link);
    assert LeaveStep(p, link).pool.live == Outside(p, link).live - {link};
  }

  lemma HasLinks(p: Pool)
    requires Inv(p)
    ensures LinksPlaced(p) && |p.spots| == |p.free| && (p.wedged ==> |p.free| == 1)
  {
  }

  lemma MoveKeepsInv(p: Pool, l: nat, x: int, y: int)
    requires Inv(p) && l in p.live
    ensures Inv(p.(live := p.live[l := p.live[l].(x := x, y := y)]))
  {
    hide LinksPlaced, SpotsPlaced, ConnectionsDistinct;
    var q := p.(live := p.live[l := p.live[l].(x := x, y := y)]);
    SamePlaces(p, q);
    forall r | r in q.rooms
      ensures RoomHolds(q.live, r, q.rooms[r])
    {
      assert RoomHolds(p.live, r, p.rooms[r]);
    }
  }

  lemma LiveCount(p: Pool)
    requires LinksPlaced(p)
    ensures |p.free| + |p.live| == p.max
  {
    DistinctCard(p.free);
    FullSet(Elems(p.free) + p.live.Keys, p.max);
  }

  /** While a session is live the stack of free spots is not full. */
  lemma FreeIsBounded(p: Pool, link: nat)
    requires LinksPlaced(p) && link in p.live
    ensures |p.free| < p.max
  {
    LiveCount(p);
  }

  // ----------------------------------------------------------------- runs

  /** The events that end the process: a leave on a wedged pool, be it asked for or
      forced by a message too long, and a message whose handler reads past its end. */
  predicate Fatal(wedged: bool, e: Event) {
    match e
    case Leave(_) => wedged
    case Receive(_, m, _) => Relay.Overruns(m) || (|m| > Relay.MAX_LENGTH && wedged)
    case _ => false
  }

  lemma PlainStepKeepsInv(p: Pool, e: Event)
    requires Inv(p) && Enabled(p, e) && !e.Receive?
    ensures Step(p, e).Crashed? <==> Fatal(p.wedged, e)
    ensures Step(p, e).Running? ==> Inv(Step(p, e).pool) && Step(p, e).pool.max == p.max
  {
    match e
    case Accept(_, _, _, _, _) => AcceptKeepsInv(p, e);
    case Join(l) => EnterKeepsInv(p, l, RoomFor(p, p.live[l].room));
    case ChangeRoom(l, to) => ChangeRoomKeepsInv(p, l, to);
    case Move(l, x, y) => MoveKeepsInv(p, l, x, y);
    case Leave(l) =>
      if !p.wedged {
        LeaveKeepsInv(p, l);
      }
  }

  /** Exactly the fatal events end the process; every other step keeps the
      invariant. In particular no room is missing and no room refuses a link. */
  lemma StepKeepsInv(p: Pool, e: Event)
    requires Inv(p) && Enabled(p, e)
    ensures Step(p, e).Crashed? <==> Fatal(p.wedged, e)
    ensures Step(p, e).Running? ==> Inv(Step(p, e).pool) && Step(p, e).pool.max == p.max
  {
    hide Inv, Relay.Received, Relay.Overruns;
    if e.Receive? {
      Relay.HandlersRegistered();
      Relay.PanicsIff(e.m, p.live[e.link].spot, Relay.HANDLERS);
      var meaning := MeaningOf(p, e.link, e.m, e.zone);
      if meaning.Does? {
        PlainStepKeepsInv(p, meaning.e);
      }
    } else {
      PlainStepKeepsInv(p, e);
    }
  }

  /** No spot is popped from an empty stack or pushed on a full one, and a session
      that leaves is in the list of its own room. */
  lemma StacksAndRoomsFit(p: Pool, e: Event)
    requires Inv(p) && Enabled(p, e)
    ensures e.Accept? && p.free != [] ==> p.spots != []
    ensures e.Leave? || e.Receive? ==> |p.spots| < p.max && e.link in p.rooms[p.live[e.link].room]
  {
    if e.Leave? || e.Receive? {
      FreeIsBounded(p, e.link);
      HasRoom(p, e.link);
    }
  }

  /** A run: every event is enabled where it happens, and nothing follows a crash. */
  ghost predicate Run(p: Pool, es: seq<Event>)
    decreases |es|
  {
    es != [] ==>
      && Enabled(p, es[0])
      && match Step(p, es[0])
         case Running(q) => Run(q, es[1..])
         case Crashed => |es| == 1
  }

  ghost function After(p: Pool, es: seq<Event>): Machine
    requires Run(p, es)
    decreases |es|
  {
    if es == [] then Running(p) else
    match Step(p, es[0])
    case Running(q) => After(q, es[1..])
    case Crashed => Crashed
  }

  lemma {:induction false} RunOneMore(p: Pool, es: seq<Event>, e: Event)
    requires Run(p, es) && After(p, es).Running? && Enabled(After(p, es).pool, e)
    ensures Run(p, es + [e]) && After(p, es + [e]) == Step(After(p, es).pool, e)
    decreases |es|
  {
    hide Step, Enabled;
    if es == [] {
      assert [] + [e] == [e] && [e][1..] == [];
      LastStep(p, e);
    } else {
      assert (es + [e])[1..] == es[1..] + [e];
      RunOneMore(Step(p, es[0]).pool, es[1..], e);
    }
  }

  lemma LastStep(p: Pool, e: Event)
    requires Enabled(p, e)
    ensures Run(p, [e]) && After(p, [e]) == Step(p, e)
  {
    hide Step, Enabled;
    assert [e][1..] == [];
  }

  lemma NoEvents(p: Pool)
    ensures Run(p, []) && After(p, []) == Running(p)
  {
  }

  /** The event ends the session of this link. */
  predicate Ends(e: Event, l: nat) {
    (e.Leave? && e.link == l) || (e.Receive? && e.link == l && |e.m| > Relay.MAX_LENGTH)
  }

  /** A session goes on with its connection and spot until an event ends it, and is in
      a room once it has joined. */
  lemma SessionKept(p: Pool, e: Event, q: Pool, l: nat)
    requires Inv(p) && Takes(p, e, q) && l in p.live && !Ends(e, l)
    ensures l in q.live && q.live[l].connection == p.live[l].connection && q.live[l].spot == p.live[l].spot
    ensures q.live[l].joined == (p.live[l].joined || e == Join(l))
    decreases e.Receive?
  {
    hide Inv, Relay.Received, Relay.Overruns, RoomsWithout;
    if e.Receive? {
      Relay.HandlersRegistered();
      Relay.PanicsIff(e.m, p.live[e.link].spot, Relay.HANDLERS);
      var meaning := MeaningOf(p, e.link, e.m, e.zone);
      if meaning.Does? {
        SessionKept(p, meaning.e, q, l);
      }
    } else {
      FreshLink(p);
    }
  }

  lemma FreshLink(p: Pool)
    requires Inv(p)
    ensures p.free != [] ==> p.free[|p.free| - 1] !in p.live
  {
  }

  lemma SessionEnded(p: Pool, e: Event, q: Pool, l: nat)
    requires Inv(p) && Takes(p, e, q) && l in p.live && Ends(e, l)
    ensures l !in q.live
    decreases e.Receive?
  {
    hide Inv, Relay.Received, Relay.Overruns, RoomsWithout;
    if e.Receive? {
      Relay.HandlersRegistered();
      Relay.PanicsIff(e.m, p.live[e.link].spot, Relay.HANDLERS);
      SessionEnded(p, Leave(l), q, l);
    }
  }

  /** All connections so far have numbers below this one. */
  ghost predicate ConnectionsBelow(p: Pool, next: int) {
    forall l :: l in p.live ==> p.live[l].connection < next
  }

  lemma BelowKept(p: Pool, e: Event, q: Pool, next: int)
    requires Inv(p) && Takes(p, e, q) && ConnectionsBelow(p, next) && (e.Accept? ==> e.connection == next)
    ensures ConnectionsBelow(q, if e.Accept? then next + 1 else next)
  {
    hide Inv, Takes;
    forall l | l in q.live
      ensures q.live[l].connection < if e.Accept? then next + 1 else next
    {
      if l !in p.live {
        SessionNew(p, e, q, l);
      } else if Ends(e, l) {
        SessionEnded(p, e, q, l);
      } else {
        SessionKept(p, e, q, l);
      }
    }
  }

  /** A session there was not before is the accepted one. */
  lemma SessionNew(p: Pool, e: Event, q: Pool, l: nat)
    requires Takes(p, e, q) && l in q.live && l !in p.live
    ensures e.Accept? && q.live[l].connection == e.connection
    decreases e.Receive?
  {
    hide Relay.Received, RoomsWithout;
    if e.Receive? {
      var meaning := MeaningOf(p, e.link, e.m, e.zone);
      if meaning.Does? {
        SessionNew(p, meaning.e, q, l);
      }
    }
  }

  /** What the server starts with: every link free, spots in order, empty rooms. */
  function Start(max: nat, names: set<string>): Pool {
    Pool(max, seq(max, i => i), seq(max, i => i), map[], map r | r in names :: [], false)
  }

  lemma StartInv(max: nat, names: set<string>)
    requires FALLBACK_ROOM in names
    ensures Inv(Start(max, names))
  {
    var p := Start(max, names);
    assert forall l: nat {:trigger l in p.free} :: l < max ==> p.free[l] == l && p.spots[l] == l;
    assert LinksPlaced(p) && SpotsPlaced(p) && RoomsPlaced(p);
  }

  lemma {:induction false} RunKeepsInv(p: Pool, es: seq<Event>)
    requires Inv(p) && Run(p, es)
    ensures After(p, es).Running? ==> Inv(After(p, es).pool) && After(p, es).pool.max == p.max
    decreases |es|
  {
    hide Inv, Step, Enabled;
    if es != [] {
      StepKeepsInv(p, es[0]);
      if Step(p, es[0]).Running? {
        RunKeepsInv(Step(p, es[0]).pool, es[1..]);
      }
    }
  }

  /** What the invariant says of every link and every spot. */
  lemma EverythingPlaced(p: Pool)
    requires Inv(p)
    ensures |p.spots| == |p.free| == p.max - |p.live| && (p.max > 0 ==> |p.live| < p.max)
    ensures forall l: nat :: l < p.max ==>
              (l in p.free && l !in p.live && forall r :: r in p.rooms ==> l !in p.rooms[r])
              || (l in p.live && l !in p.free
                  && forall r :: r in p.rooms ==> (l in p.rooms[r] <==> p.live[l].joined && p.live[l].room == r))
    ensures forall s :: 0 <= s < p.max ==> (s in p.spots <==> !exists l :: l in p.live && p.live[l].spot == s)
  {
    LiveCount(p);
    Places(p);
    forall s | 0 <= s < p.max && s !in p.spots
      ensures exists l :: l in p.live && p.live[l].spot == s
    {
      SpotTaken(p, s);
    }
  }

  /** From the start, over every run that has not crashed: each link is in
      exactly one place, a joined link is in the list of its own room and of no
      other, every number below MaxPlayers is a free spot or the spot of a live
      session and not both, and at most MaxPlayers - 1 sessions are ever live. */
  lemma EveryRun(max: nat, names: set<string>, es: seq<Event>)
    requires FALLBACK_ROOM in names && Run(Start(max, names), es)
    requires After(Start(max, names), es).Running?
    ensures var p := After(Start(max, names), es).pool;
      && |p.spots| == |p.free| == max - |p.live|
      && (forall l: nat :: l < max ==>
            (l in p.free && l !in p.live && forall r :: r in p.rooms ==> l !in p.rooms[r])
            || (l in p.live && l !in p.free
                && forall r :: r in p.rooms ==> (l in p.rooms[r] <==> p.live[l].joined && p.live[l].room == r)))
      && (forall s :: 0 <= s < max ==>
            (s in p.spots <==> !exists l :: l in p.live && p.live[l].spot == s))
      && (max > 0 ==> |p.live| < max)
  {
    hide Inv, Run, After;
    StartInv(max, names);
    RunKeepsInv(Start(max, names), es);
    EverythingPlaced(After(Start(max, names), es).pool);
  }

  /** Pigeonhole: a spot that is not free is some session's. */
  lemma SpotTaken(p: Pool, s: int)
    requires LinksPlaced(p) && SpotsPlaced(p) && 0 <= s < p.max && s !in p.spots
    ensures exists l :: l in p.live && p.live[l].spot == s
  {
    LiveCount(p);
    DistinctCard(p.spots);
    TakenCard(p.live);
    Covers(Elems(p.spots), Taken(p.live), Below(p.max), s);
  }

  ghost function Taken(live: map<nat, Session>): set<int> {
    set l | l in live :: live[l].spot
  }

  lemma {:induction false} TakenCard(live: map<nat, Session>)
    requires forall l, m :: l in live && m in live && l != m ==> live[l].spot != live[m].spot
    ensures |Taken(live)| == |live|
    decreases |live|
  {
    if l :| l in live {
      TakenCard(live - {l});
      var rest := live - {l};
      assert forall m :: m in live ==> m == l || (m in rest && rest[m] == live[m]);
      assert Taken(live) == Taken(rest) + {live[l].spot};
    } else {
      assert live == map[];
    }
  }

  // ---------------------------------------------- when the server stays healthy

  /** What takes the health of a server: an accept that finds exactly one free
      link, and a message whose handler reads past its end. */
  predicate Harms(free: seq<nat>, e: Event) {
    (e.Accept? && |free| == 1) || (e.Receive? && Relay.Overruns(e.m))
  }

  ghost predicate Suffers(p: Pool, es: seq<Event>)
    requires Run(p, es)
    decreases |es|
  {
    es != [] && (Harms(p.free, es[0]) || (Step(p, es[0]).Running? && Suffers(Step(p, es[0]).pool, es[1..])))
  }

  lemma WedgesIff(p: Pool, e: Event)
    requires Inv(p) && !p.wedged && Enabled(p, e) && Step(p, e).Running?
    ensures Step(p, e).pool.wedged <==> e.Accept? && |p.free| == 1
  {
    hide Inv, Relay.Received, Without;
  }

  /** A whole server is running and whole at the end of a run if and only if no
      accept of the run found a single free link and no message overran. */
  lemma {:induction false} HealthyIff(p: Pool, es: seq<Event>)
    requires Inv(p) && !p.wedged && Run(p, es)
    ensures After(p, es).Running? && !After(p, es).pool.wedged <==> !Suffers(p, es)
    decreases |es|
  {
    hide Inv, Step, Enabled, Relay.Overruns;
    if es != [] {
      StepKeepsInv(p, es[0]);
      if Step(p, es[0]).Running? {
        var q := Step(p, es[0]).pool;
        WedgesIff(p, es[0]);
        if q.wedged {
          WedgedForGood(q, es[1..]);
        } else {
          HealthyIff(q, es[1..]);
        }
      }
    }
  }

  lemma WedgedStep(p: Pool, e: Event)
    requires Inv(p) && p.wedged && Enabled(p, e)
    ensures Step(p, e).Running? ==>
              var q := Step(p, e).pool;
              q.wedged && q.free == p.free && q.spots == p.spots && q.live.Keys == p.live.Keys
  {
    hide Inv, Relay.Received, Without;
  }

  /** A wedged pool never admits or releases anyone: until a fatal event ends the
      process the same links are live and the same one is free. */
  lemma {:induction false} WedgedForGood(p: Pool, es: seq<Event>)
    requires Inv(p) && p.wedged && Run(p, es)
    ensures After(p, es).Crashed? <==> exists i :: 0 <= i < |es| && Fatal(true, es[i])
    ensures After(p, es).Running? ==>
              var q := After(p, es).pool;
              q.wedged && q.free == p.free && q.spots == p.spots && q.live.Keys == p.live.Keys
    decreases |es|
  {
    hide Inv, Step, Enabled, Fatal;
    if es != [] {
      StepKeepsInv(p, es[0]);
      WedgedStep(p, es[0]);
      if Step(p, es[0]).Running? {
        WedgedForGood(Step(p, es[0]).pool, es[1..]);
        SomeFatal(es);
      }
    }
  }

  lemma SomeFatal(es: seq<Event>)
    requires es != []
    ensures (exists i :: 0 <= i < |es| && Fatal(true, es[i]))
            <==> Fatal(true, es[0]) || exists i :: 0 <= i < |es[1..]| && Fatal(true, es[1..][i])
  {
    hide Fatal;
    if i :| 0 < i < |es| && Fatal(true, es[i]) {
      assert es[1..][i - 1] == es[i];
    }
    if i :| 0 <= i < |es[1..]| && Fatal(true, es[1..][i]) {
      assert es[i + 1] == es[1..][i];
    }
  }

  // A run that does it: connections come until the pool is empty.

  /** The pool after `k` connections from the start. */
  ghost function Crowded(max: nat, names: set<string>, k: nat): Pool
    requires k < max
  {
    Pool(max, seq(max - k, i => i), seq(max - k, i => i),
         map l: nat | max - k <= l < max :: Session(l, l, false, FALLBACK_ROOM, 0, 0, false),
         map r | r in names :: [], false)
  }

  function Crowd(max: nat, k: nat): (es: seq<Event>)
    requires k < max
    decreases max - k
  {
    [Accept(max - k - 1, false, FALLBACK_ROOM, 0, 0)] + if k + 1 < max then Crowd(max, k + 1) else []
  }

  lemma CrowdStep(max: nat, names: set<string>, k: nat)
    requires k < max
    ensures var p, e := Crowded(max, names, k), Accept(max - k - 1, false, FALLBACK_ROOM, 0, 0);
      && Enabled(p, e)
      && Step(p, e) == Running(if k + 1 < max then Crowded(max, names, k + 1) else p.(wedged := true))
  {
    var p := Crowded(max, names, k);
    if k + 1 < max {
      assert p.free[..max - k - 1] == seq(max - k - 1, i => i);
      assert p.spots[..max - k - 1] == seq(max - k - 1, i => i);
    }
  }

  lemma {:induction false} CrowdWedges(max: nat, names: set<string>, k: nat, rest: seq<Event>)
    requires k < max
    requires Run(Crowded(max, names, max - 1).(wedged := true), rest)
    ensures var p, es := Crowded(max, names, k), Crowd(max, k) + rest;
      Run(p, es) && After(p, es) == After(Crowded(max, names, max - 1).(wedged := true), rest)
    decreases max - k
  {
    hide Crowded, Step, Enabled;
    var es, more := Crowd(max, k) + rest, if k + 1 < max then Crowd(max, k + 1) + rest else rest;
    CrowdStep(max, names, k);
    assert es[1..] == more;
    if k + 1 < max {
      CrowdWedges(max, names, k + 1, rest);
    }
  }

  /** Every pool can be wedged: as many connections as it has links do it. */
  lemma EveryPoolWedges(max: nat, names: set<string>)
    requires max > 0 && FALLBACK_ROOM in names
    ensures var es := Crowd(max, 0);
      Run(Start(max, names), es) && After(Start(max, names), es).Running? && After(Start(max, names), es).pool.wedged
      && Suffers(Start(max, names), es)
  {
    CrowdedStart(max, names);
    CrowdWedges(max, names, 0, []);
    assert Crowd(max, 0) + [] == Crowd(max, 0);
    StartInv(max, names);
    HealthyIff(Start(max, names), Crowd(max, 0));
  }

  lemma CrowdedStart(max: nat, names: set<string>)
    requires max > 0
    ensures Crowded(max, names, 0) == Start(max, names)
  {
  }

  lemma OneMore(p: Pool, e: Event, es: seq<Event>)
    requires Enabled(p, e) && match Step(p, e)
             case Running(q) => Run(q, es)
             case Crashed => es == []
    ensures Run(p, [e] + es)
    ensures After(p, [e] + es) == match Step(p, e) case Running(q) => After(q, es) case Crashed => Crashed
  {
    hide Step, Enabled;
    assert ([e] + es)[1..] == es;
  }

  lemma LastEvent(p: Pool, e: Event)
    requires Enabled(p, e) && Step(p, e).Crashed?
    ensures Run(p, [e]) && After(p, [e]) == Crashed
  {
    OneMore(p, e, []);
    assert [e] + [] == [e];
  }

  /** And then crashed by one session that joins and leaves, in a pool of two links
      or more; a pool of one link has no session to leave. */
  lemma WedgedPoolCrashes(max: nat, names: set<string>)
    requires max > 1 && FALLBACK_ROOM in names
    ensures var es := Crowd(max, 0) + [Join(max - 1), Leave(max - 1)];
      Run(Start(max, names), es) && After(Start(max, names), es).Crashed?
  {
    hide Run, After;
    var p, join, leave := Crowded(max, names, max - 1).(wedged := true), Join(max - 1), Leave(max - 1);
    LastEvent(Step(p, join).pool, leave);
    OneMore(p, join, [leave]);
    assert [join] + [leave] == [join, leave];
    CrowdedStart(max, names);
    CrowdWedges(max, names, 0, [join, leave]);
  }

  /** Three bytes from the first session to join end the process. */
  lemma ThreeBytesCrash(max: nat, names: set<string>)
    requires max > 1 && FALLBACK_ROOM in names
    ensures var es := [Accept(max - 1, false, FALLBACK_ROOM, 0, 0), Join(max - 1), Receive(max - 1, [10, 0, 0], false)];
      Run(Start(max, names), es) && After(Start(max, names), es).Crashed?
  {
    hide Run, After, Relay.Received;
    var accept, join := Accept(max - 1, false, FALLBACK_ROOM, 0, 0), Join(max - 1);
    var report := Receive(max - 1, [10, 0, 0], false);
    var p := Crowded(max, names, 1);
    var q := Step(p, join).pool;
    CrowdedStart(max, names);
    CrowdStep(max, names, 0);
    Relay.HandlersRegistered();
    Relay.PanicsIff([10, 0, 0], q.live[max - 1].spot, Relay.HANDLERS);
    LastEvent(q, report);
    OneMore(p, join, [report]);
    OneMore(Start(max, names), accept, [join] + [report]);
    assert [accept] + ([join] + [report]) == [accept, join, report];
  }

  // ------------------------------------------------------ the status page

  /** The sizes of some room lists, added up. */
  function Headcount(rooms: map<string, seq<nat>>, names: seq<string>): nat
    requires forall r :: r in names ==> r in rooms
  {
    if names == [] then 0 else |rooms[names[0]]| + Headcount(rooms, names[1..])
  }

  ghost function JoinedIn(p: Pool, names: seq<string>): set<nat> {
    set l | l in p.live && p.live[l].joined && p.live[l].room in names
  }

  ghost function Pending(p: Pool): set<nat> {
    set l | l in p.live && !p.live[l].joined
  }

  lemma RoomMembers(p: Pool, r: string)
    requires Inv(p) && r in p.rooms
    ensures |JoinedIn(p, [r])| == |p.rooms[r]|
  {
    hide LinksPlaced, SpotsPlaced, ConnectionsDistinct, Distinct;
    assert RoomHolds(p.live, r, p.rooms[r]);
    DistinctCard(p.rooms[r]);
    assert JoinedIn(p, [r]) == Elems(p.rooms[r]);
  }

  lemma {:induction false} HeadcountIsJoined(p: Pool, names: seq<string>)
    requires Inv(p) && Distinct(names) && forall r :: r in names ==> r in p.rooms
    ensures Headcount(p.rooms, names) == |JoinedIn(p, names)|
    decreases |names|
  {
    hide Inv;
    if names != [] {
      var r, rest := names[0], names[1..];
      assert names == [r] + rest && r !in rest;
      HeadcountIsJoined(p, rest);
      RoomMembers(p, r);
      assert JoinedIn(p, names) == JoinedIn(p, [r]) + JoinedIn(p, rest);
      assert JoinedIn(p, [r]) !! JoinedIn(p, rest);
    }
  }

  /** The players the server reports are those its rooms report and those that
      have not joined a room yet, whatever order the rooms are counted in. */
  lemma StatusAddsUp(p: Pool, names: seq<string>)
    requires Inv(p) && Distinct(names) && forall r :: r in names <==> r in p.rooms
    ensures p.max - |p.free| == Headcount(p.rooms, names) + |Pending(p)|
  {
    hide Headcount, LinksPlaced, SpotsPlaced, RoomsPlaced, ConnectionsDistinct, Distinct;
    HeadcountIsJoined(p, names);
    LiveCount(p);
    Places(p);
    JoinedSplit(p, names);
  }

  lemma JoinedSplit(p: Pool, names: seq<string>)
    requires forall l :: l in p.live && p.live[l].joined ==> p.live[l].room in names
    ensures |p.live| == |JoinedIn(p, names)| + |Pending(p)|
  {
    assert p.live.Keys == JoinedIn(p, names) + Pending(p);
    assert JoinedIn(p, names) !! Pending(p);
    assert |p.live.Keys| == |p.live|;
  }

  // --------------------------------------- what a step changes on the heap

  /** The part of the invariant that keeps list operations apart. */
  lemma Places(p: Pool)
    requires Inv(p)
    ensures forall l :: l in p.free ==> l < p.max && l !in p.live
    ensures forall l :: l in p.live ==> l < p.max
    ensures forall r, l :: r in p.rooms && l in p.rooms[r] ==> l < p.max && l !in p.free
    ensures forall r, l :: r in p.rooms && l in p.rooms[r] ==> l in p.live && p.live[l].joined && p.live[l].room == r
    ensures forall l :: l in p.live && p.live[l].joined ==> p.live[l].room in p.rooms && l in p.rooms[p.live[l].room]
  {
  }

  lemma HasRoom(p: Pool, l: nat)
    requires Inv(p) && l in p.live && p.live[l].joined
    ensures p.live[l].room in p.rooms && l in p.rooms[p.live[l].room] && Distinct(p.rooms[p.live[l].room])
    ensures forall m :: m in p.free ==> m !in p.rooms[p.live[l].room]
  {
    assert RoomHolds(p.live, p.live[l].room, p.rooms[p.live[l].room]);
  }

  lemma HasFallback(p: Pool)
    requires Inv(p)
    ensures FALLBACK_ROOM in p.rooms
  {
  }

  /** From `p` to `q` only the named rooms, and the free list if `free`, change;
      only the moved links change neighbours, only the filled ones their client. */
  ghost predicate Rewires(p: Pool, q: Pool, free: bool, rooms: set<string>, moved: seq<nat>, filled: set<nat>) {
    && q.max == p.max && q.rooms.Keys == p.rooms.Keys
    && (!free ==> q.free == p.free && q.wedged == p.wedged && forall l :: l in p.free ==> l !in moved)
    && (forall r :: r in p.rooms && r !in rooms ==> q.rooms[r] == p.rooms[r])
    && (forall r, l :: r in p.rooms && r !in rooms && l in p.rooms[r] ==> l !in moved)
    && (forall l :: l in q.live && l !in filled ==> l in p.live)
    && (forall l :: l in p.live && l !in filled ==> l in q.live && q.live[l] == p.live[l] && (l in moved ==> p.live[l].joined))
  }

  lemma AcceptEffect(p: Pool, e: Event) returns (q: Pool, filled: set<nat>)
    requires Inv(p) && e.Accept? && Enabled(p, e)
    ensures q == AcceptStep(p, e.connection, e.spectator, e.room, e.x, e.y) && Inv(q)
    ensures Rewires(p, q, true, {}, p.free, filled)
    ensures p.wedged ==> |p.free| == 1
    ensures p.wedged || |p.free| <= 1 ==>
              q.free == p.free && q.spots == p.spots && (q.wedged <==> |p.free| == 1) && filled == {}
    ensures !p.wedged && |p.free| > 1 ==>
              && p.spots != [] && !q.wedged
              && q.free == p.free[..|p.free| - 1] && q.spots == p.spots[..|p.spots| - 1]
              && var link := p.free[|p.free| - 1];
                 filled == {link} && link !in p.live && link in q.live
                 && q.live[link] == Session(p.spots[|p.spots| - 1], e.connection, e.spectator, e.room, e.x, e.y, false)
  {
    hide Inv, LinksPlaced, Distinct;
    q := AcceptStep(p, e.connection, e.spectator, e.room, e.x, e.y);
    filled := if p.wedged || |p.free| <= 1 then {} else {p.free[|p.free| - 1]};
    AcceptKeepsInv(p, e);
    HasLinks(p);
    FreshLink(p);
    Places(p);
  }

  lemma EnterEffect(p: Pool, l: nat, room: string) returns (q: Pool)
    requires Inv(p) && l in p.live && !p.live[l].joined && room in p.rooms
    ensures Enter(p, l, room) == Running(q) && Inv(q)
    ensures l !in p.rooms[room] && l !in p.free
    ensures Rewires(p, q, false, {room}, p.rooms[room] + [l], {l})
    ensures q.spots == p.spots && q.rooms[room] == p.rooms[room] + [l]
    ensures l in q.live && q.live[l] == p.live[l].(room := room, joined := true)
  {
    EnterKeepsInv(p, l, room);
    q := Enter(p, l, room).pool;
    Places(p);
  }

  lemma OutsideEffect(p: Pool, l: nat) returns (q: Pool)
    requires Inv(p) && l in p.live && p.live[l].joined
    ensures q == Outside(p, l) && Inv(q)
    ensures p.live[l].room in p.rooms && l in p.rooms[p.live[l].room] && Distinct(p.rooms[p.live[l].room])
    ensures q.rooms[p.live[l].room] == Without(p.rooms[p.live[l].room], l)
    ensures Rewires(p, q, false, {p.live[l].room}, p.rooms[p.live[l].room], {l})
    ensures q.spots == p.spots
    ensures l in q.live && q.live[l] == p.live[l].(joined := false)
  {
    OutsideKeepsInv(p, l);
    q := Outside(p, l);
    Places(p);
    assert RoomHolds(p.live, p.live[l].room, p.rooms[p.live[l].room]);
  }

  lemma LeaveEffect(p: Pool, l: nat) returns (q: Pool)
    requires Inv(p) && l in p.live && p.live[l].joined && !p.wedged
    ensures Step(p, Leave(l)) == Running(q) && Inv(q)
    ensures var room := p.live[l].room;
            && room in p.rooms && l in p.rooms[room] && Distinct(p.rooms[room])
            && q.rooms[room] == Without(p.rooms[room], l)
            && Rewires(p, q, true, {room}, p.rooms[room] + p.free, {l})
    ensures q.free == p.free + [l] && q.spots == PushSpot(p.max, p.spots, p.live[l].spot) && l !in q.live && !q.wedged
  {
    LeaveKeepsInv(p, l);
    q := LeaveStep(p, l).pool;
    Places(p);
    assert RoomHolds(p.live, p.live[l].room, p.rooms[p.live[l].room]);
  }

  lemma MoveEffect(p: Pool, l: nat, x: int, y: int) returns (q: Pool)
    requires Inv(p) && Enabled(p, Move(l, x, y))
    ensures Step(p, Move(l, x, y)) == Running(q) && Inv(q)
    ensures Rewires(p, q, false, {}, [], {l})
    ensures q.spots == p.spots && l in q.live && q.live[l] == p.live[l].(x := x, y := y)
  {
    MoveKeepsInv(p, l, x, y);
    q := Step(p, Move(l, x, y)).pool;
  }

  // ------------------------------------------------------ who hears a cast

  const EARSHOT := 320

  /** Not the sender, and at most EARSHOT away on each axis. */
  predicate InEarshot(s: Session, from: Option<int>, x: int, y: int) {
    && (from.Some? ==> s.connection != from.value)
    && Abs(x - s.x) <= EARSHOT && Abs(y - s.y) <= EARSHOT
  }

  /** The links of a room list that are sent to, in list order. */
  ghost function Heard(live: map<nat, Session>, links: seq<nat>, from: Option<int>, x: int, y: int): seq<nat>
    requires forall l :: l in links ==> l in live
  {
    if links == [] then [] else
    var n := |links| - 1;
    Heard(live, links[..n], from, x, y) + if InEarshot(live[links[n]], from, x, y) then [links[n]] else []
  }

  lemma {:induction false} HeardIn(live: map<nat, Session>, links: seq<nat>, from: Option<int>, x: int, y: int)
    requires forall l :: l in links ==> l in live
    ensures forall l :: l in Heard(live, links, from, x, y) <==> l in links && InEarshot(live[l], from, x, y)
    ensures Distinct(links) ==> Distinct(Heard(live, links, from, x, y))
  {
    if links != [] {
      var n := |links| - 1;
      assert links == links[..n] + [links[n]];
      HeardIn(live, links[..n], from, x, y);
      DistinctAppend(links[..n], links[n]);
      DistinctAppend(Heard(live, links[..n], from, x, y), links[n]);
    }
  }

  /** Filtering keeps the order of the list: it distributes over concatenation. */
  lemma {:induction false} HeardKeepsOrder(live: map<nat, Session>, a: seq<nat>, b: seq<nat>, from: Option<int>, x: int, y: int)
    requires forall l :: l in a + b ==> l in live
    requires forall l :: l in a ==> l in live
    requires forall l :: l in b ==> l in live
    ensures Heard(live, a + b, from, x, y) == Heard(live, a, from, x, y) + Heard(live, b, from, x, y)
  {
    if b == [] {
      assert a + b == a;
    } else {
      var n := |b| - 1;
      HeardKeepsOrder(live, a, b[..n], from, x, y);
      assert (a + b)[..|a + b| - 1] == a + b[..n];
    }
  }

  lemma HeardNext(live: map<nat, Session>, links: seq<nat>, k: nat, from: Option<int>, x: int, y: int)
    requires k < |links| && forall l :: l in links ==> l in live
    ensures Heard(live, links[..k + 1], from, x, y)
            == Heard(live, links[..k], from, x, y) + if InEarshot(live[links[k]], from, x, y) then [links[k]] else []
  {
    hide InEarshot;
    assert links[..k + 1][..k] == links[..k];
  }

  ghost function Recipients(p: Pool, room: string, from: Option<int>, x: int, y: int): seq<nat>
    requires Inv(p)
  {
    Places(p);
    if room in p.rooms then Heard(p.live, p.rooms[room], from, x, y) else []
  }

  /** A cast to a room from one of the live sessions reaches, once each, exactly
      the other sessions that are in that room and near enough. */
  lemma CastReachesExactly(p: Pool, room: string, sender: nat, x: int, y: int)
    requires Inv(p) && sender in p.live
    ensures var sent := Recipients(p, room, Some(p.live[sender].connection), x, y);
      && Distinct(sent)
      && forall l :: l in sent <==>
           && l in p.live && p.live[l].joined && p.live[l].room == room && l != sender
           && -EARSHOT <= x - p.live[l].x <= EARSHOT && -EARSHOT <= y - p.live[l].y <= EARSHOT
  {
    Places(p);
    if room in p.rooms {
      HeardIn(p.live, p.rooms[room], Some(p.live[sender].connection), x, y);
      assert RoomHolds(p.live, room, p.rooms[room]);
    }
  }

  /** Without a sender everyone near enough in the room is reached, the speaker too. */
  lemma CastFromServer(p: Pool, room: string, x: int, y: int)
    requires Inv(p)
    ensures var sent := Recipients(p, room, None, x, y);
      && Distinct(sent)
      && forall l :: l in sent <==>
           && l in p.live && p.live[l].joined && p.live[l].room == room
           && -EARSHOT <= x - p.live[l].x <= EARSHOT && -EARSHOT <= y - p.live[l].y <= EARSHOT
  {
    Places(p);
    if room in p.rooms {
      HeardIn(p.live, p.rooms[room], None, x, y);
      assert RoomHolds(p.live, room, p.rooms[room]);
    }
  }
}
