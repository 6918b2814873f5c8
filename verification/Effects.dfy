// What every event does to the pool, said of the pool before and the pool after it,
// and of received messages byte by byte; and where a session is after any history
// (server/server/ws_handler.go, session.go, server.go, handler_player.go).
module Effects {
  import opened Bytes
  import opened Options
  import opened Sequences
  import opened SessionPool
  import Relay

  // ------------------------------------------------------ joins and moves

  /** `q` is `p` but for the session of `l`, which became `s`. */
  ghost predicate Becomes(p: Pool, q: Pool, l: nat, s: Session) {
    && q.max == p.max && q.free == p.free && q.spots == p.spots && q.wedged == p.wedged
    && q.live.Keys == p.live.Keys && l in p.live && q.live[l] == s
    && (forall k :: k in p.live && k != l ==> q.live[k] == p.live[k])
    && q.rooms.Keys == p.rooms.Keys
  }

  /** The lists of all rooms but these are as they were. */
  ghost predicate OtherRooms(p: Pool, q: Pool, changed: set<string>) {
    forall r :: r in p.rooms && r in q.rooms && r !in changed ==> q.rooms[r] == p.rooms[r]
  }

  /** The list lost `l` and kept its order. */
  ghost predicate Lost(before: seq<nat>, after: seq<nat>, l: nat) {
    exists k :: 0 <= k < |before| && before[k] == l && after == before[..k] + before[k + 1..]
  }

  /** A session joins the room it was saved in if the server has it, and "umbral" if not:
      it is last in that room's list, and nothing else changes. */
  lemma JoinLands(p: Pool, l: nat, q: Pool)
    requires Inv(p) && Takes(p, Join(l), q)
    ensures var was := p.live[l];
      var room := if was.room in p.rooms then was.room else "umbral";
      && Becomes(p, q, l, Session(was.spot, was.connection, was.spectator, room, was.x, was.y, true))
      && room in p.rooms && q.rooms[room] == p.rooms[room] + [l] && OtherRooms(p, q, {room})
  {
    HasFallback(p);
  }

  /** A room change takes a session out of the list of its room, to the end of the
      other's, and changes nothing else. */
  lemma ChangeLands(p: Pool, l: nat, to: string, q: Pool)
    requires Inv(p) && Takes(p, ChangeRoom(l, to), q)
    ensures var was := p.live[l];
      && Becomes(p, q, l, Session(was.spot, was.connection, was.spectator, to, was.x, was.y, true))
      && was.room in p.rooms && to in p.rooms && OtherRooms(p, q, {was.room, to})
      && (was.room != to ==> Lost(p.rooms[was.room], q.rooms[was.room], l) && q.rooms[to] == p.rooms[to] + [l])
      && (was.room == to ==> exists rest :: Lost(p.rooms[to], rest, l) && q.rooms[to] == rest + [l])
  {
    hide Inv;
    ChangeRoomSplits(p, l, to);
    HasRoom(p, l);
    WithoutLoses(p.rooms[p.live[l].room], l);
  }

  lemma WithoutLoses(s: seq<nat>, l: nat)
    requires Distinct(s) && l in s
    ensures Lost(s, Without(s, l), l)
  {
    var k :| 0 <= k < |s| && s[k] == l;
    WithoutAt(s, k);
  }

  lemma MoveLands(p: Pool, l: nat, x: int, y: int, q: Pool)
    requires Takes(p, Move(l, x, y), q)
    ensures var was := p.live[l];
      && Becomes(p, q, l, Session(was.spot, was.connection, was.spectator, was.room, x, y, was.joined))
      && OtherRooms(p, q, {})
  {
  }

  /** A session that ends gives its spot and its link back, both last, leaves the list of
      its room, and changes nothing else. */
  lemma LeaveLands(p: Pool, l: nat, q: Pool)
    requires Inv(p) && Takes(p, Leave(l), q)
    ensures q.max == p.max && !p.wedged && !q.wedged
    ensures q.free == p.free + [l] && q.spots == p.spots + [p.live[l].spot]
    ensures q.live.Keys == p.live.Keys - {l} && forall k :: k in q.live ==> q.live[k] == p.live[k]
    ensures var room := p.live[l].room;
      && q.rooms.Keys == p.rooms.Keys && room in p.rooms
      && Lost(p.rooms[room], q.rooms[room], l) && OtherRooms(p, q, {room})
  {
    hide Inv;
    HasLinks(p);
    FreeIsBounded(p, l);
    HasRoom(p, l);
    WithoutLoses(p.rooms[p.live[l].room], l);
  }

  /** A connection gets the last free link and the top spot, waits at the saved place,
      and changes nothing else; with one free link or none nobody is admitted. */
  lemma AcceptLands(p: Pool, c: int, spectator: bool, room: string, x: int, y: int, q: Pool)
    requires Inv(p) && Takes(p, Accept(c, spectator, room, x, y), q)
    ensures q.max == p.max && q.rooms == p.rooms
    ensures if p.wedged || |p.free| <= 1 then q.free == p.free && q.spots == p.spots && q.live == p.live
            else
              && p.spots != []
              && var l, spot := p.free[|p.free| - 1], p.spots[|p.spots| - 1];
                 && p.free == q.free + [l] && p.spots == q.spots + [spot]
                 && l !in p.live && q.live == p.live[l := Session(spot, c, spectator, room, x, y, false)]
  {
    hide Inv;
    HasLinks(p);
    FreshLink(p);
  }

  // ------------------------------------------------------------- messages

  /** Bytes as the characters of a name. */
  function Name(b: seq<Byte>): (name: string)
    ensures |name| == |b| && forall k :: 0 <= k < |b| ==> name[k] as int == b[k]
  {
    seq(|b|, k requires 0 <= k < |b| => b[k] as char)
  }

  lemma SameName(b: seq<Byte>)
    ensures Text(b) == Name(b)
  {
  }

  /** The room that a map entry names. */
  function RoomNamed(m: seq<Byte>): string
    requires Relay.IsMapEntry(m)
  {
    Name(m[4..4 + m[3]])
  }

  /** From raw bytes to the pool. A position report moves its session to the two signed
      numbers in bytes 3 to 6, in this order; a map entry whose room the server has, with
      the zone, takes it to that room; a message too long ends the session; every other
      message leaves the pool as it is. */
  lemma ReceiveLands(p: Pool, l: nat, m: seq<Byte>, zone: bool, q: Pool)
    requires Inv(p) && Takes(p, Receive(l, m, zone), q)
    ensures var was := p.live[l];
      if Relay.IsReport(m) then
        && Becomes(p, q, l, was.(x := Relay.Signed(m[3], m[4]), y := Relay.Signed(m[5], m[6])))
        && OtherRooms(p, q, {})
      else if Relay.IsMapEntry(m) && zone && RoomNamed(m) in p.rooms then
        && Becomes(p, q, l, was.(room := RoomNamed(m)))
        && Takes(p, ChangeRoom(l, RoomNamed(m)), q)
      else if |m| > 256 then Takes(p, Leave(l), q)
      else q == p
  {
    hide Inv, Relay.Received;
    Relay.HandlersRegistered();
    Relay.OutcomeOfBytes(m, p.live[l].spot, Relay.HANDLERS);
    if Relay.IsReport(m) {
      MoveLands(p, l, Relay.Signed(m[3], m[4]), Relay.Signed(m[5], m[6]), q);
    } else if Relay.IsMapEntry(m) {
      SameName(m[4..4 + m[3]]);
      if zone && RoomNamed(m) in p.rooms {
        ChangeLands(p, l, RoomNamed(m), q);
      }
    }
  }

  // ---------------------------------------------------- after any history

  datatype Place = Place(room: string, x: int, y: int)

  ghost function PlaceOf(p: Pool, l: nat): Place
    requires l in p.live
  {
    Place(p.live[l].room, p.live[l].x, p.live[l].y)
  }

  /** Where an event of the session of `l` puts it, on a server with these rooms. */
  function Put(names: set<string>, at: Place, e: Event, l: nat): Place {
    match e
    case Join(k) => if k == l && at.room !in names then at.(room := "umbral") else at
    case ChangeRoom(k, to) => if k == l then at.(room := to) else at
    case Move(k, x, y) => if k == l then at.(x := x, y := y) else at
    case Receive(k, m, zone) =>
      if k != l then at
      else if Relay.IsReport(m) then at.(x := Relay.Signed(m[3], m[4]), y := Relay.Signed(m[5], m[6]))
      else if Relay.IsMapEntry(m) && zone && RoomNamed(m) in names then at.(room := RoomNamed(m))
      else at
    case _ => at
  }

  function PutAll(names: set<string>, at: Place, es: seq<Event>, l: nat): Place
    decreases |es|
  {
    if es == [] then at else PutAll(names, Put(names, at, es[0], l), es[1..], l)
  }

  /** What an event does to one session: only its own events move it, and as they say;
      a new session is where its connection was saved. */
  lemma StepPuts(p: Pool, e: Event, q: Pool, l: nat)
    requires Inv(p) && Takes(p, e, q)
    ensures q.rooms.Keys == p.rooms.Keys
    ensures l in p.live && !Ends(e, l) ==>
              && l in q.live && q.live[l].connection == p.live[l].connection
              && PlaceOf(q, l) == Put(p.rooms.Keys, PlaceOf(p, l), e, l)
    ensures l in q.live && l !in p.live ==>
              e.Accept? && e.connection == q.live[l].connection && PlaceOf(q, l) == Place(e.room, e.x, e.y)
  {
    hide Inv, Takes, Lost, OtherRooms, Relay.IsReport, Relay.IsMapEntry, RoomNamed, Relay.Signed;
    match e
    case Accept(c, spectator, room, x, y) => AcceptLands(p, c, spectator, room, x, y, q);
    case Join(k) => JoinLands(p, k, q);
    case ChangeRoom(k, to) => ChangeLands(p, k, to, q);
    case Move(k, x, y) => MoveLands(p, k, x, y, q);
    case Leave(k) => LeaveLands(p, k, q);
    case Receive(k, m, zone) =>
      ReceiveLands(p, k, m, zone, q);
      if |m| > 256 {
        TooLong(m);
        LeaveLands(p, k, q);
      }
  }

  lemma TooLong(m: seq<Byte>)
    requires |m| > 256
    ensures !Relay.IsReport(m) && !Relay.IsMapEntry(m)
  {
  }

  /** The session of `l` is there from the start, or it is that of the i-th event, a
      connection; and it is where the events since then put it. */
  ghost predicate Explained(p: Pool, es: seq<Event>, q: Pool, l: nat)
    requires l in q.live
  {
    || (l in p.live && q.live[l].connection == p.live[l].connection && Unended(es, 0, l)
        && PlaceOf(q, l) == PutAll(p.rooms.Keys, PlaceOf(p, l), es, l))
    || exists i :: 0 <= i < |es| && IsSince(es, i, p.rooms.Keys, q, l)
  }

  ghost predicate Unended(es: seq<Event>, from: nat, l: nat) {
    forall k :: from <= k < |es| ==> !Ends(es[k], l)
  }

  ghost predicate IsSince(es: seq<Event>, i: nat, names: set<string>, q: Pool, l: nat)
    requires l in q.live && i < |es|
  {
    && es[i].Accept? && es[i].connection == q.live[l].connection && Unended(es, i + 1, l)
    && PlaceOf(q, l) == PutAll(names, Place(es[i].room, es[i].x, es[i].y), es[i + 1..], l)
  }

  /** Over every run from any pool: each session is where its own history puts it, the
      room it joined or was last taken to and the position it last reported. */
  lemma {:induction false} EverySessionExplained(p: Pool, es: seq<Event>, l: nat)
    requires Inv(p) && Run(p, es) && After(p, es).Running? && l in After(p, es).pool.live
    ensures Explained(p, es, After(p, es).pool, l)
    decreases |es|
  {
    hide Inv, Step, Enabled, Put;
    if es != [] {
      var e, q, last := es[0], Step(p, es[0]).pool, After(p, es).pool;
      StepKeepsInv(p, e);
      EverySessionExplained(q, es[1..], l);
      StepPuts(p, e, q, l);
      if i :| 0 <= i < |es[1..]| && IsSince(es[1..], i, q.rooms.Keys, last, l) {
        assert es[1..][i + 1..] == es[i + 1 + 1..];
        assert forall k :: i + 2 <= k < |es| ==> es[k] == es[1..][k - 1];
        assert IsSince(es, i + 1, p.rooms.Keys, last, l);
      } else if l in p.live {
        if Ends(e, l) {
          SessionEnded(p, e, q, l);
          assert false;
        }
        assert forall k :: 1 <= k < |es| ==> es[k] == es[1..][k - 1];
      } else {
        assert forall k :: 1 <= k < |es| ==> es[k] == es[1..][k - 1];
        assert IsSince(es, 0, p.rooms.Keys, last, l);
      }
    }
  }

  /** From the start: every live session came by some connection, and is where its saved
      place and the events since then put it. */
  lemma EverySessionsPlace(max: nat, names: set<string>, es: seq<Event>, l: nat)
    requires FALLBACK_ROOM in names && Run(Start(max, names), es) && After(Start(max, names), es).Running?
    requires l in After(Start(max, names), es).pool.live
    ensures exists i :: 0 <= i < |es| && IsSince(es, i, names, After(Start(max, names), es).pool, l)
  {
    hide Inv, Run, After, IsSince;
    StartInv(max, names);
    assert Start(max, names).rooms.Keys == names;
    EverySessionExplained(Start(max, names), es, l);
  }
}
