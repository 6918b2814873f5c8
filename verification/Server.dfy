// The session pool and the rooms on the heap (server/server/ws_handler.go,
// session.go, server.go, client.go). Every method stands for one
// mutex-protected body and is proved to take the step that SessionPool gives
// for it.
module Server {
  import opened Arithmetic
  import opened Bytes
  import opened Options
  import opened Sequences
  import opened LinkedList
  import opened SpotStack
  import opened SessionPool
  import Effects
  import Relay

  class Client {
    var Active: bool
    var Connection: int
    var Spot: int
    var Spectator: bool
    var CurrentMap: string
    var X: int
    var Y: int
    var Link: Link?<Client>

    // Position, in the pool, of the link whose value this record is.
    ghost const id: nat

    /** A zeroed record, as the pool allocates it. */
    constructor (ghost id: nat)
      ensures !Active && this.id == id
    {
      Active, Connection, Spot, Spectator := false, 0, 0, false;
      CurrentMap, X, Y, Link := "", 0, 0, null;
      this.id := id;
    }

    method Fill(connection: int, spot: int, spectator: bool, room: string, x: int, y: int, link: Link<Client>)
      modifies this
      ensures Active && Link == link && Connection == connection && Spot == spot && Spectator == spectator
      ensures CurrentMap == room && X == x && Y == y
    {
      Active, Connection, Spot, Spectator := true, connection, spot, spectator;
      CurrentMap, X, Y, Link := room, x, y, link;
    }

    /** Overwrites the record with a zeroed one when its session ends. */
    method Reset()
      modifies this
      ensures !Active
    {
      Active, Connection, Spot, Spectator := false, 0, 0, false;
      CurrentMap, X, Y, Link := "", 0, 0, null;
    }
  }

  class Room {
    const ActiveClients: List<Client>

    constructor ()
      ensures fresh(ActiveClients) && ActiveClients.Valid() && ActiveClients.links == []
    {
      ActiveClients := new List();
    }
  }

  // ------------------------------------------------ links and their names

  /** `ids` are the pool positions of `links`. */
  ghost predicate Names(pool: seq<Link<Client>>, links: seq<Link<Client>>, ids: seq<nat>) {
    |links| == |ids| && forall k :: 0 <= k < |ids| ==> ids[k] < |pool| && links[k] == pool[ids[k]]
  }

  lemma NamesIn(pool: seq<Link<Client>>, links: seq<Link<Client>>, ids: seq<nat>, i: nat)
    requires Names(pool, links, ids) && Distinct(pool) && i < |pool|
    ensures i in ids <==> pool[i] in links
  {
  }

  lemma NamesAppend(pool: seq<Link<Client>>, links: seq<Link<Client>>, ids: seq<nat>, l: Link<Client>, i: nat)
    ensures Names(pool, links + [l], ids + [i]) <==> Names(pool, links, ids) && i < |pool| && l == pool[i]
  {
    var ls, ns := links + [l], ids + [i];
    assert ls[|links|] == l && ns[|ids|] == i;
    assert forall k :: 0 <= k < |links| ==> ls[k] == links[k];
    assert forall k :: 0 <= k < |ids| ==> ns[k] == ids[k];
  }

  lemma NamesWithout(pool: seq<Link<Client>>, links: seq<Link<Client>>, ids: seq<nat>, i: nat)
    requires Names(pool, links, ids) && Distinct(pool) && Distinct(ids) && i in ids
    ensures Names(pool, Without(links, pool[i]), Without(ids, i))
  {
    var k, rest := Deletion(ids, i);
    WithoutAt(links, k);
  }

  /** What the pool machine sees of a live client: it has joined once a list owns its link. */
  ghost function SessionOf(l: Link<Client>): Session
    reads l, l.Value
  {
    var c := l.Value;
    Session(c.Spot, c.Connection, c.Spectator, c.CurrentMap, c.X, c.Y, l.list != null)
  }

  /** The client of link `i` is live just when the pool says so, with that session. */
  ghost predicate ClientShows(l: Link<Client>, i: nat, live: map<nat, Session>)
    reads l, l.Value
  {
    && l.Value.id == i
    && (i in live <==> l.Value.Active)
    && (i in live ==> l.Value.Link == l && SessionOf(l) == live[i])
  }

  /** A list that no write touches stays what it is. */
  twostate lemma ListKept(list: List<Client>)
    requires unchanged(list)
    requires forall l :: l in list.links ==> unchanged(l)
    ensures old(list.Valid()) ==> list.Valid()
    ensures old(list.Wedged()) ==> list.Wedged()
  {
    assert forall i {:trigger list.links[i]} :: 0 <= i < |list.links| ==> list.links[i] in list.links;
  }

  class Server {
    const MaxPlayers: nat
    const maps: map<string, Room>
    const free_spots: Stack
    const free_clients: List<Client>

    // The links in the order of allocation, and every object the server owns.
    ghost const pool: seq<Link<Client>>
    ghost const Repr: set<object>

    // The pool machine's view of the heap, tied to it by Valid().
    ghost var state: Pool

    /** The objects are owned, links are distinct and rooms have lists of their own. */
    ghost predicate Separate() {
      && {free_spots, free_spots.data, free_clients} <= Repr
      && |pool| == MaxPlayers && Distinct(pool)
      && (forall i :: 0 <= i < |pool| ==> pool[i] in Repr && pool[i].Value in Repr)
      && (forall r :: r in maps ==> maps[r].ActiveClients in Repr && maps[r].ActiveClients != free_clients)
      && (forall r, s :: r in maps && s in maps && r != s ==> maps[r].ActiveClients != maps[s].ActiveClients)
    }

    ghost predicate FreeShows()
      reads this, Repr
    {
      && Separate() && Names(pool, free_clients.links, state.free)
      && if state.wedged then free_clients.Wedged() else free_clients.Valid()
    }

    ghost predicate SpotsShow()
      reads this, free_spots, free_spots.data
    {
      free_spots.Valid() && free_spots.size == MaxPlayers && free_spots.Contents() == state.spots
    }

    ghost predicate RoomShows(r: string)
      reads this, Repr
    {
      && Separate() && r in maps && r in state.rooms
      && Names(pool, maps[r].ActiveClients.links, state.rooms[r])
      && maps[r].ActiveClients.Valid()
    }

    /** The heap shows exactly `state`. */
    ghost predicate Shows()
      reads this, Repr
    {
      && Separate() && state.max == MaxPlayers && state.rooms.Keys == maps.Keys
      && FreeShows()
      && SpotsShow()
      && (forall r :: r in maps ==> RoomShows(r))
      && (forall i :: 0 <= i < |pool| ==> ClientShows(pool[i], i, state.live))
    }

    ghost predicate Valid()
      reads this, Repr
    {
      Shows() && Inv(state)
    }

    /** Pool initialisation: every link free, spot i pushed for link i, empty rooms. */
    constructor (max: nat, maps: map<string, Room>)
      requires FALLBACK_ROOM in maps
      requires forall r :: r in maps ==> maps[r].ActiveClients.Valid() && maps[r].ActiveClients.links == []
      requires forall r, s :: r in maps && s in maps && r != s ==> maps[r].ActiveClients != maps[s].ActiveClients
      ensures Valid()
      ensures MaxPlayers == max && this.maps == maps && state == Start(max, maps.Keys)
    {
      var clients, spots := AllocatePool(max);
      MaxPlayers, this.maps, free_spots, free_clients := max, maps, spots, clients;
      pool := clients.links;
      Repr := Owned(spots, clients, clients.links, maps);
      state := Start(max, maps.Keys);
      new;
      hide Inv, Distinct, List.Valid, List.Wedged, Stack.Valid, Shows, Start, Owned;
      OwnsAll(spots, clients, pool, maps);
      StartInv(max, maps.Keys);
      IsDistinct(free_clients);
      StartShows();
    }

    static ghost function Owned(spots: Stack, clients: List<Client>, links: seq<Link<Client>>, maps: map<string, Room>): set<object> {
      {spots, spots.data, clients} + (set r | r in maps :: maps[r].ActiveClients)
      + (set i | 0 <= i < |links| :: links[i]) + (set i | 0 <= i < |links| :: links[i].Value)
    }

    static lemma OwnsAll(spots: Stack, clients: List<Client>, links: seq<Link<Client>>, maps: map<string, Room>)
      ensures var repr := Owned(spots, clients, links, maps);
        && {spots, spots.data, clients} <= repr
        && (forall i :: 0 <= i < |links| ==> links[i] in repr && links[i].Value in repr)
        && forall r :: r in maps ==> maps[r].ActiveClients in repr
    {
    }

    static lemma IsDistinct(list: List<Client>)
      requires list.Valid()
      ensures Distinct(list.links)
    {
    }

    /** A server of free links, empty rooms and spots in order shows the first state. */
    lemma StartShows()
      requires Separate() && state == Start(MaxPlayers, maps.Keys)
      requires free_clients.Valid() && free_clients.links == pool
      requires free_spots.Valid() && free_spots.size == MaxPlayers && free_spots.Contents() == seq(MaxPlayers, k => k)
      requires forall r :: r in maps ==> maps[r].ActiveClients.Valid() && maps[r].ActiveClients.links == []
      requires forall i :: 0 <= i < |pool| ==> !pool[i].Value.Active && pool[i].Value.id == i
      ensures Shows()
    {
      hide Distinct, List.Valid, List.Wedged, Stack.Valid;
    }

    static method AllocatePool(max: nat) returns (clients: List<Client>, spots: Stack)
      ensures fresh(clients) && fresh(spots) && fresh(spots.data)
      ensures clients.Valid() && |clients.links| == max
      ensures forall i :: 0 <= i < max ==> fresh(clients.links[i]) && fresh(clients.links[i].Value)
      ensures forall i :: 0 <= i < max ==> !clients.links[i].Value.Active && clients.links[i].Value.id == i
      ensures spots.Valid() && spots.size == max && spots.Contents() == seq(max, k => k)
    {
      hide Distinct, List.Valid, List.Wedged, Stack.Valid;
      clients := new List<Client>();
      spots := new Stack(max);
      var i := 0;
      while i < max
        invariant 0 <= i <= max
        invariant fresh(clients) && fresh(spots) && fresh(spots.data)
        invariant clients.Valid() && |clients.links| == i
        invariant clients.tail != null ==> fresh(clients.tail)
        invariant forall j :: 0 <= j < i ==> fresh(clients.links[j]) && fresh(clients.links[j].Value)
        invariant forall j :: 0 <= j < i ==> !clients.links[j].Value.Active && clients.links[j].Value.id == j
        invariant spots.Valid() && spots.size == max && spots.Contents() == seq(i, k => k)
      {
        var client := new Client(i);
        var link := new Link(client);
        ghost var before := clients.links;
        var panicked := clients.AddLink(link);
        assert forall j :: 0 <= j < i ==> clients.links[j] == before[j];
        var failed := spots.Push(i);
        i := i + 1;
      }
    }

    // A method sees many heaps, so it hides the bodies of the predicates. It gets
    // what its writes need from an `Open` lemma over the heap before, and proves
    // Valid() again by a `Shows` lemma over the heaps before and after.

    lemma OpenClient(i: nat)
      requires Valid() && i in state.live
      ensures i < |pool| && pool[i].Value.Active && pool[i].Value.Link == pool[i] && SessionOf(pool[i]) == state.live[i]
      ensures {pool[i], pool[i].Value} <= Repr
      ensures forall j :: 0 <= j < |pool| && j != i ==> pool[j].Value != pool[i].Value
    {
      Places(state);
      assert ClientShows(pool[i], i, state.live);
    }

    /** The record of a session says what the machine says. */
    lemma HeldBy(client: Client, joined: bool)
      requires Valid() && HasSession(client, joined)
      ensures var s := state.live[client.id];
              && client.Spot == s.spot && client.Connection == s.connection && client.Spectator == s.spectator
              && client.CurrentMap == s.room && client.X == s.x && client.Y == s.y
      ensures state.rooms.Keys == maps.Keys && client in Repr
    {
      hide Inv;
      OpenClient(client.id);
    }

    lemma OpenRoom(r: string)
      requires Valid() && r in maps
      ensures Separate() && r in state.rooms && Distinct(pool)
      ensures var list := maps[r].ActiveClients;
              list.Valid() && Names(pool, list.links, state.rooms[r]) && list in Repr && forall l :: l in list.links ==> l in Repr
    {
      assert RoomShows(r);
    }

    lemma OpenMaps()
      requires Valid()
      ensures state.rooms.Keys == maps.Keys
    {
    }

    lemma OpenPut(i: nat, room: string)
      requires Valid() && i in state.live && !state.live[i].joined && room in maps
      ensures var list := maps[room].ActiveClients;
              && i < |pool| && pool[i] !in list.links && list != free_clients
              && forall l :: l in free_clients.links ==> l !in list.links && l != pool[i]
      ensures forall r :: r in maps && r != room ==> maps[r].ActiveClients != maps[room].ActiveClients
      ensures state.rooms.Keys == maps.Keys
    {
      hide Inv, Distinct, List.Valid, List.Wedged, Stack.Valid;
      Places(state);
      OpenClient(i);
      assert RoomShows(room);
      maps[room].ActiveClients.Owns();
      free_clients.Owns();
    }

    lemma OpenAccept()
      requires Valid()
      ensures |state.free| > 0 ==> state.free[|state.free| - 1] < |pool|
      ensures if state.wedged then free_clients.Wedged() && !free_clients.Valid() else free_clients.Valid()
      ensures |free_clients.links| == |state.free| && (state.wedged ==> |state.free| == 1)
      ensures |state.free| > 0 ==>
                free_clients.links[|state.free| - 1] == pool[state.free[|state.free| - 1]]
      ensures free_spots.Valid() && |free_spots.Contents()| == |state.free|
      ensures {free_spots, free_spots.data, free_clients} <= Repr
      ensures forall l :: l in free_clients.links ==> l in Repr && l.Value in Repr
      ensures forall r :: r in maps ==> maps[r].ActiveClients != free_clients
      ensures forall i, j :: 0 <= i < |pool| && 0 <= j < |pool| && i != j ==> pool[i].Value != pool[j].Value
      ensures forall i :: 0 <= i < |pool| ==> pool[i].Value.id == i
    {
      assert forall i :: 0 <= i < |pool| ==> ClientShows(pool[i], i, state.live);
    }

    /** What recycling a joined client starts from. */
    lemma OpenLeave(i: nat, room: string)
      requires Valid() && i in state.live && state.live[i].joined && state.live[i].room == room
      ensures i < |pool| && room in maps && Distinct(pool)
      ensures var client, list := pool[i].Value, maps[room].ActiveClients;
              && client.Link == pool[i] && client.Spot == state.live[i].spot && client.CurrentMap == room
              && pool[i].list == list && list.Valid() && pool[i] in list.links && list != free_clients
              && forall l :: l in free_clients.links ==> l !in list.links
      ensures free_spots.Valid() && free_spots.size == MaxPlayers
      ensures if state.wedged then !free_clients.Valid() && free_clients.Wedged() else free_clients.Valid()
      ensures {free_spots, free_spots.data, free_clients, maps[room].ActiveClients, pool[i].Value} <= Repr
      ensures forall l :: l in free_clients.links || l in maps[room].ActiveClients.links ==> l in Repr
      ensures forall j :: 0 <= j < |pool| && j != i ==> pool[j].Value != pool[i].Value
      ensures forall r :: r in maps && r != room ==> maps[r].ActiveClients != maps[room].ActiveClients
      ensures forall r :: r in maps ==> maps[r].ActiveClients != free_clients
    {
      hide Inv, Distinct, List.Valid, List.Wedged, Stack.Valid;
      Places(state);
      OpenClient(i);
      assert RoomShows(room);
      NamesIn(pool, maps[room].ActiveClients.links, state.rooms[room], i);
      maps[room].ActiveClients.Owns();
      free_clients.Owns();
      free_clients.NotBoth();
    }

    /** The heap shows the new state once the lists, the stack and the clients
        that were written show it and the rest of it did not change. */
    twostate lemma Reshow(new p: Pool, free: bool, new rooms: set<string>, new moved: seq<nat>, new filled: set<nat>)
      requires old(Valid()) && old(state) == p && Inv(state)
      requires Rewires(p, state, free, rooms, moved, filled)
      requires SpotsShow()
      requires if free then FreeShows() else unchanged(free_clients)
      requires forall r :: r in maps && r in rooms ==> RoomShows(r)
      requires forall r :: r in maps && r !in rooms ==> unchanged(maps[r].ActiveClients)
      requires forall i :: 0 <= i < |pool| && i !in moved ==> unchanged(pool[i])
      requires forall i :: 0 <= i < |pool| && i in filled ==> ClientShows(pool[i], i, state.live)
      requires forall i :: 0 <= i < |pool| && i !in filled ==> unchanged(pool[i].Value)
      ensures Valid()
    {
      hide Inv, Distinct, List.Valid, List.Wedged, Stack.Valid, RoomShows, FreeShows;
      ReshowLists(p, free, rooms, moved, filled);
      Places(p);
      Places(state);
      forall i | 0 <= i < |pool|
        ensures ClientShows(pool[i], i, state.live)
      {
        assert old(ClientShows(pool[i], i, p.live));
        if i !in filled && i in p.live && p.live[i].joined {
          OwnsInRoom(p.live[i].room, i);
        }
      }
    }

    lemma OwnsInRoom(r: string, i: nat)
      requires Separate() && RoomShows(r) && i in state.rooms[r]
      ensures i < |pool| && pool[i].list == maps[r].ActiveClients
    {
      hide Distinct, List.Valid;
      maps[r].ActiveClients.Owns();
    }

    twostate lemma ReshowLists(new p: Pool, free: bool, new rooms: set<string>, new moved: seq<nat>, new filled: set<nat>)
      requires old(Valid()) && old(state) == p && Rewires(p, state, free, rooms, moved, filled)
      requires if free then FreeShows() else unchanged(free_clients)
      requires forall r :: r in maps && r in rooms ==> RoomShows(r)
      requires forall r :: r in maps && r !in rooms ==> unchanged(maps[r].ActiveClients)
      requires forall i :: 0 <= i < |pool| && i !in moved ==> unchanged(pool[i])
      ensures FreeShows() && forall r :: r in maps ==> RoomShows(r)
    {
      hide Inv, Distinct, List.Valid, List.Wedged, ClientShows, SpotsShow;
      if !free {
        assert old(FreeShows());
        ListKept(free_clients);
      }
      forall r | r in maps && r !in rooms
        ensures RoomShows(r)
      {
        assert old(RoomShows(r));
        ListKept(maps[r].ActiveClients);
      }
    }

    // ------------------------------------------------------------- accept

    /** The heap after TakeLink, and after the spot and the client were written
        unless TakeLink panicked. */
    twostate lemma AcceptShows(new p: Pool, new e: Event)
      requires old(Valid()) && old(state) == p && e.Accept? && Enabled(p, e)
      requires state == AcceptStep(p, e.connection, e.spectator, e.room, e.x, e.y)
      requires forall r :: r in maps ==> unchanged(maps[r].ActiveClients)
      requires forall l :: l in pool && l !in old(free_clients.links) ==> unchanged(l)
      requires free_spots.Valid()
      requires p.wedged || |p.free| <= 1 ==>
                 && free_clients.links == old(free_clients.links)
                 && (if |p.free| == 0 then free_clients.Valid() else free_clients.Wedged())
                 && free_spots.Contents() == old(free_spots.Contents())
                 && forall j :: 0 <= j < |pool| ==> unchanged(pool[j].Value)
      requires !p.wedged && |p.free| > 1 ==>
                 var i, n := p.free[|p.free| - 1], |p.free| - 1;
                 && n == |old(free_clients.links)| - 1 && i < |pool|
                 && free_clients.Valid() && free_clients.links == old(free_clients.links)[..n]
                 && |old(free_spots.Contents())| > 0
                 && free_spots.Contents() == old(free_spots.Contents())[..|old(free_spots.Contents())| - 1]
                 && pool[i].Value.Active && pool[i].Value.Link == pool[i] && pool[i].list == null
                 && SessionOf(pool[i]) == Session(old(free_spots.Contents())[|free_spots.Contents()|],
                                                  e.connection, e.spectator, e.room, e.x, e.y, false)
                 && forall j :: 0 <= j < |pool| && j != i ==> unchanged(pool[j].Value)
      ensures Valid()
    {
      hide Inv, Distinct, List.Valid, List.Wedged, Stack.Valid, RoomHolds, AcceptStep, Enabled, Rewires;
      var q, filled := AcceptEffect(p, e);
      assert old(FreeShows()) && old(SpotsShow());
      forall j | 0 <= j < |pool| && j !in p.free
        ensures unchanged(pool[j])
      {
        NamesIn(pool, old(free_clients.links), p.free, j);
      }
      if !p.wedged && |p.free| > 1 {
        assert old(ClientShows(pool[p.free[|p.free| - 1]], p.free[|p.free| - 1], p.live));
      }
      Reshow(p, true, {}, p.free, filled);
    }

    /** Accepting a connection. The answer is null when TakeLink panicked. */
    method Accept(connection: int, spectator: bool, room: string, x: int, y: int) returns (client: Client?)
      requires Valid() && Enabled(state, Event.Accept(connection, spectator, room, x, y))
      modifies this, Repr
      ensures Valid()
      ensures state == AcceptStep(old(state), connection, spectator, room, x, y)
      ensures client == null <==> old(state).wedged || |old(state).free| <= 1
      ensures client != null ==> client.id == old(state).free[|old(state).free| - 1] && HasSession(client, false)
      ensures client != null ==> Welcomed(old(state), client, Event.Accept(connection, spectator, room, x, y))
    {
      hide Inv, Distinct, List.Valid, List.Wedged, Stack.Valid, Shows, AcceptStep, Enabled, Separate, Names, Welcomed;
      ghost var before, e := state, Event.Accept(connection, spectator, room, x, y);
      OpenAccept();
      var panicked, link := free_clients.TakeLink();
      client := null;
      if !panicked {
        var failed, id := free_spots.Pop();
        client := link.Value;
        client.Fill(connection, id, spectator, room, x, y, link);
      }
      state := AcceptStep(before, connection, spectator, room, x, y);
      AcceptShows(before, e);
      AcceptedSession(before, connection, spectator, room, x, y);
      if client != null {
        AcceptedRecord(before, client, e);
      }
    }

    /** The record of an accepted session. */
    ghost predicate Welcomed(p: Pool, client: Client, e: Event)
      requires e.Accept?
      reads client
    {
      && client.CurrentMap == e.room && client.X == e.x && client.Y == e.y
      && client.Connection == e.connection && client.Spectator == e.spectator
      && p.spots != [] && client.Spot == p.spots[|p.spots| - 1]
    }

    lemma AcceptedRecord(p: Pool, client: Client, e: Event)
      requires Inv(p) && e.Accept? && Enabled(p, e) && Valid() && HasSession(client, false) && !p.wedged && |p.free| > 1
      requires state == AcceptStep(p, e.connection, e.spectator, e.room, e.x, e.y) && client.id == p.free[|p.free| - 1]
      ensures Welcomed(p, client, e)
    {
      hide Inv, AcceptStep;
      HeldBy(client, false);
      Effects.AcceptLands(p, e.connection, e.spectator, e.room, e.x, e.y, state);
    }

    lemma AcceptedSession(p: Pool, connection: int, spectator: bool, room: string, x: int, y: int)
      ensures var q := AcceptStep(p, connection, spectator, room, x, y);
        !p.wedged && |p.free| > 1 ==>
          var l := p.free[|p.free| - 1]; l in q.live && !q.live[l].joined
    {
    }

    // ------------------------------------------------- rooms: in and out

    /** The client record of a session, as the session goroutine holds it. */
    ghost predicate HasSession(client: Client, joined: bool)
      reads this
    {
      && client.id < |pool| && pool[client.id].Value == client
      && client.id in state.live && state.live[client.id].joined == joined
    }

    twostate lemma PutShows(new p: Pool, i: nat, new room: string)
      requires old(Valid()) && old(state) == p && i in p.live && !p.live[i].joined && room in maps && i < |pool|
      requires Enter(p, i, room) == Running(state)
      requires unchanged(free_clients) && unchanged(free_spots) && unchanged(free_spots.data)
      requires var list := maps[room].ActiveClients;
               list.Valid() && list.links == old(maps[room].ActiveClients.links) + [pool[i]]
      requires forall r :: r in maps && r != room ==> unchanged(maps[r].ActiveClients)
      requires forall l :: l in pool && l !in old(maps[room].ActiveClients.links) && l != pool[i] ==> unchanged(l)
      requires forall j :: 0 <= j < |pool| && j != i ==> unchanged(pool[j].Value)
      requires pool[i].Value.Active && pool[i].Value.Link == pool[i]
      requires SessionOf(pool[i]).(joined := false) == p.live[i].(room := room)
      ensures Valid()
    {
      hide Inv, Distinct, List.Valid, List.Wedged, Stack.Valid, RoomHolds, Enter, Rewires;
      var q := EnterEffect(p, i, room);
      assert old(RoomShows(room)) && old(ClientShows(pool[i], i, p.live));
      NamesAppend(pool, old(maps[room].ActiveClients.links), p.rooms[room], pool[i], i);
      maps[room].ActiveClients.Owns();
      assert pool[i] == maps[room].ActiveClients.links[|p.rooms[room]|];
      forall j | 0 <= j < |pool| && j !in p.rooms[room] + [i]
        ensures unchanged(pool[j])
      {
        NamesIn(pool, old(maps[room].ActiveClients.links), p.rooms[room], j);
      }
      Reshow(p, false, {room}, p.rooms[room] + [i], {i});
    }

    /** Names a room in a pending client and appends its link to the room's list. */
    method PutIn(client: Client, room: string) returns (panicked: bool)
      requires Valid() && HasSession(client, false) && room in maps
      modifies this, Repr
      ensures !panicked && Valid() && HasSession(client, true)
      ensures Running(state) == Enter(old(state), client.id, room)
    {
      hide Inv, Distinct, List.Valid, List.Wedged, Stack.Valid, Shows, Names, Separate;
      ghost var before, i, list := state, client.id, maps[room].ActiveClients;
      OpenClient(i);
      OpenRoom(room);
      OpenPut(i, room);
      list.Owns();
      client.CurrentMap := room;
      panicked := maps[client.CurrentMap].ActiveClients.AddLink(client.Link);
      list.Owns();
      state := Enter(before, i, room).pool;
      PutShows(before, i, room);
    }

    twostate lemma TakeShows(new p: Pool, i: nat, new room: string)
      requires old(Valid()) && old(state) == p && i in p.live && p.live[i].joined && p.live[i].room == room
      requires room in maps && i < |pool| && state == Outside(p, i)
      requires unchanged(free_clients) && unchanged(free_spots) && unchanged(free_spots.data)
      requires maps[room].ActiveClients.Valid()
      requires maps[room].ActiveClients.links == Without(old(maps[room].ActiveClients.links), pool[i])
      requires forall r :: r in maps && r != room ==> unchanged(maps[r].ActiveClients)
      requires forall l :: l in pool && l !in old(maps[room].ActiveClients.links) ==> unchanged(l)
      requires forall j :: 0 <= j < |pool| ==> unchanged(pool[j].Value)
      requires pool[i].list == null
      ensures Valid()
    {
      hide Inv, Distinct, List.Valid, List.Wedged, Stack.Valid, RoomHolds, Outside, Rewires, Names, Without;
      var q := OutsideEffect(p, i);
      assert old(RoomShows(room)) && old(ClientShows(pool[i], i, p.live));
      NamesWithout(pool, old(maps[room].ActiveClients.links), p.rooms[room], i);
      forall j | 0 <= j < |pool| && j !in p.rooms[room]
        ensures unchanged(pool[j])
      {
        NamesIn(pool, old(maps[room].ActiveClients.links), p.rooms[room], j);
      }
      Reshow(p, false, {room}, p.rooms[room], {i});
    }

    /** Deletes a joined client's link from the list of the room it names. */
    method TakeOut(client: Client) returns (panicked: bool)
      requires Valid() && HasSession(client, true)
      modifies this, Repr
      ensures !panicked && Valid() && HasSession(client, false)
      ensures state == Outside(old(state), client.id)
    {
      hide Inv, Distinct, List.Valid, List.Wedged, Stack.Valid, Shows, Names, Separate;
      ghost var before, i, room := state, client.id, state.live[client.id].room;
      HasRoom(state, i);
      OpenLeave(i, room);
      panicked := maps[client.CurrentMap].ActiveClients.RemoveLink(client.Link);
      state := Outside(before, i);
      TakeShows(before, i, room);
    }

    /** A session enters the room its player was saved in, or the fallback room. */
    method Join(client: Client) returns (panicked: bool)
      requires Valid() && HasSession(client, false)
      modifies this, Repr
      ensures !panicked && Valid() && HasSession(client, true)
      ensures Takes(old(state), Event.Join(client.id), state)
      ensures client.CurrentMap == if old(client.CurrentMap) in maps then old(client.CurrentMap) else "umbral"
      ensures client.X == old(client.X) && client.Y == old(client.Y)
    {
      hide Inv, Distinct, Shows, Separate, FreeShows, RoomShows, SpotsShow, Enter;
      ghost var before := state;
      HeldBy(client, false);
      OpenClient(client.id);
      HasFallback(state);
      OpenMaps();
      var room := if client.CurrentMap in maps then client.CurrentMap else FALLBACK_ROOM;
      panicked := PutIn(client, room);
      HeldBy(client, true);
      Effects.JoinLands(before, client.id, state);
    }

    /** Moves a joined session to another room of the server. */
    method ChangeClientRoom(client: Client, to_room: string) returns (panicked: bool)
      requires Valid() && HasSession(client, true) && to_room in maps
      modifies this, Repr
      ensures !panicked && Valid() && HasSession(client, true)
      ensures Takes(old(state), Event.ChangeRoom(client.id, to_room), state)
      ensures client.CurrentMap == to_room && client.X == old(client.X) && client.Y == old(client.Y)
    {
      hide Inv, Distinct, Shows, Separate, FreeShows, RoomShows, SpotsShow, Enter, Step, Outside;
      ghost var before := state;
      HeldBy(client, true);
      OpenMaps();
      ChangeRoomSplits(state, client.id, to_room);
      panicked := TakeOut(client);
      panicked := PutIn(client, to_room);
      HeldBy(client, true);
      Effects.ChangeLands(before, client.id, to_room, state);
    }

    // -------------------------------------------------------------- leave

    /** Gives the spot back, unlinks the client and appends its link to the free list. */
    method RecycleClient(client: Client, ghost link: Link<Client>, ghost list: List<Client>) returns (panicked: bool)
      requires client.Link == link && link.list == list && list.Valid() && link in list.links
      requires free_spots.Valid() && (free_clients.Valid() || free_clients.Wedged())
      requires list != free_clients && forall l :: l in free_clients.links ==> l !in list.links
      modifies free_spots`top, free_spots.data, list, list.links, free_clients, free_clients.links
      ensures panicked <==> !old(free_clients.Valid())
      ensures free_spots.Valid()
      ensures free_spots.Contents() == PushSpot(free_spots.size, old(free_spots.Contents()), client.Spot)
      ensures list.Valid() && list.links == Without(old(list.links), link)
      ensures !panicked ==> free_clients.Valid() && free_clients.links == old(free_clients.links) + [link]
    {
      list.Owns();
      free_clients.Owns();
      var full := free_spots.Push(client.Spot);
      var alone := client.Link.RemoveFromList();
      ListKept(free_clients);
      free_clients.Owns();
      label Removed:
      panicked := free_clients.AddLink(client.Link);
      ListKept@Removed(list);
    }

    /** The heap after link `i` was recycled and its client zeroed. */
    twostate lemma LeaveShows(new p: Pool, i: nat, new room: string)
      requires old(Valid()) && old(state) == p && !p.wedged && i in p.live && p.live[i].joined && p.live[i].room == room
      requires room in maps && i < |pool|
      requires Step(p, Event.Leave(i)) == Running(state)
      requires free_spots.Valid()
      requires free_spots.Contents() == PushSpot(MaxPlayers, old(free_spots.Contents()), p.live[i].spot)
      requires maps[room].ActiveClients.Valid()
      requires maps[room].ActiveClients.links == Without(old(maps[room].ActiveClients.links), pool[i])
      requires free_clients.Valid() && free_clients.links == old(free_clients.links) + [pool[i]]
      requires forall r :: r in maps && r != room ==> unchanged(maps[r].ActiveClients)
      requires forall l :: l in pool && l !in old(free_clients.links) && l !in old(maps[room].ActiveClients.links) ==> unchanged(l)
      requires forall j :: 0 <= j < |pool| && j != i ==> unchanged(pool[j].Value)
      requires !pool[i].Value.Active
      ensures Valid()
    {
      hide Inv, Distinct, List.Valid, List.Wedged, Stack.Valid, RoomHolds, Step, Rewires, Names, Without;
      var q := LeaveEffect(p, i);
      HasRoom(p, i);
      assert old(RoomShows(room)) && old(FreeShows()) && old(ClientShows(pool[i], i, p.live));
      NamesWithout(pool, old(maps[room].ActiveClients.links), p.rooms[room], i);
      NamesAppend(pool, old(free_clients.links), p.free, pool[i], i);
      forall j | 0 <= j < |pool| && j !in p.rooms[room] + p.free
        ensures unchanged(pool[j])
      {
        NamesIn(pool, old(maps[room].ActiveClients.links), p.rooms[room], j);
        NamesIn(pool, old(free_clients.links), p.free, j);
      }
      Reshow(p, true, {room}, p.rooms[room] + p.free, {i});
    }

    /** The end of a joined session: recycled, and its record zeroed. On a wedged
        pool the append panics outside any recovery and the process is gone. */
    method EndSession(client: Client) returns (crashed: bool)
      requires Valid() && HasSession(client, true)
      modifies this, Repr
      ensures crashed <==> old(state).wedged
      ensures !crashed ==> Valid() && Takes(old(state), Event.Leave(client.id), state)
    {
      hide Inv, Distinct, List.Valid, List.Wedged, RoomHolds, Stack.Valid, Shows, Step, Names, Separate, PushSpot;
      ghost var before, i, room := state, client.id, state.live[client.id].room;
      OpenLeave(i, room);
      crashed := RecycleClient(client, pool[i], maps[room].ActiveClients);
      if crashed {
        return;
      }
      client.Reset();
      ghost var after := LeaveEffect(before, i);
      state := after;
      LeaveShows(before, i, room);
    }

    // ------------------------------------------------------------- status

    lemma OpenRooms()
      requires Valid()
      ensures state.rooms.Keys == maps.Keys && |state.free| + |state.live| == MaxPlayers
      ensures free_clients.size == |state.free|
      ensures forall r :: r in maps ==> maps[r].ActiveClients.size == |state.rooms[r]|
    {
      LiveCount(state);
      forall r | r in maps
        ensures maps[r].ActiveClients.size == |state.rooms[r]|
      {
        assert RoomShows(r);
      }
    }

    /** What the status page tells: the live sessions, the free links and the size
        of every room. */
    method Status() returns (totalPlayers: int, freeSpots: int, population: map<string, int>)
      requires Valid()
      ensures totalPlayers == |state.live| && freeSpots == |state.free|
      ensures population.Keys == state.rooms.Keys
      ensures forall r :: r in state.rooms ==> population[r] == |state.rooms[r]|
    {
      hide Inv, Shows, Separate;
      OpenRooms();
      population := map[];
      var names := maps.Keys;
      while names != {}
        invariant names <= maps.Keys && population.Keys == maps.Keys - names
        invariant forall r :: r in population ==> population[r] == |state.rooms[r]|
        decreases |names|
      {
        var name :| name in names;
        population := population[name := maps[name].ActiveClients.size];
        names := names - {name};
      }
      totalPlayers, freeSpots := MaxPlayers - free_clients.size, free_clients.size;
    }

    // ----------------------------------------------------- moves and casts

    /** The position of a joined session, overwritten by its own handler. */
    method Move(client: Client, x: int, y: int)
      requires Valid() && HasSession(client, true)
      modifies this, Repr
      ensures Valid() && HasSession(client, true)
      ensures Takes(old(state), Event.Move(client.id, x, y), state)
      ensures client.X == x && client.Y == y && client.CurrentMap == old(client.CurrentMap)
    {
      hide Inv, Distinct, List.Valid, List.Wedged, Stack.Valid;
      ghost var before, i := state, client.id;
      OpenClient(i);
      ghost var after := MoveEffect(before, i, x, y);
      client.X, client.Y := x, y;
      state := after;
      Reshow(before, false, {}, [], {i});
    }

    /** `ids` are the pool positions of the clients `cs`. */
    ghost predicate ClientsAt(cs: seq<Client>, ids: seq<nat>) {
      |cs| == |ids| && forall k :: 0 <= k < |ids| ==> ids[k] < |pool| && cs[k] == pool[ids[k]].Value
    }

    lemma NextClient(cs: seq<Client>, ids: seq<nat>, i: nat)
      requires ClientsAt(cs, ids) && i < |pool|
      ensures ClientsAt(cs + [pool[i].Value], ids + [i])
    {
    }

    /** The clients `sent` are those the pool machine says hear a cast. */
    ghost predicate Reached(sent: seq<Client>, mapname: string, from: Client?, x: int, y: int)
      requires Valid()
      reads this, Repr, from
    {
      ClientsAt(sent, Recipients(state, mapname, if from == null then None else Some(from.Connection), x, y))
    }

    /** Walks the list of a room: who is near (x, y), except the sender. `misplaced`
        tells of a client found in a list that is not its room's. */
    method CastInRoom(mapname: string, from: Client?, x: int, y: int) returns (misplaced: bool, sent: seq<Client>)
      requires Valid() && mapname in maps
      ensures !misplaced && Reached(sent, mapname, from, x, y)
    {
      hide Inv, Distinct, List.Valid, List.Wedged, Stack.Valid, Shows, Separate, Heard, ClientsAt;
      Places(state);
      OpenMaps();
      misplaced, sent := false, [];
      OpenRoom(mapname);
      ghost var conn := if from == null then None else Some(from.Connection);
      ghost var ids := state.rooms[mapname];
      var all := maps[mapname].ActiveClients.ForEach();
      NobodyHeard(conn, x, y);
      for k := 0 to |all|
        invariant !misplaced && ClientsAt(sent, Heard(state.live, ids[..k], conn, x, y))
      {
        var c := all[k];
        ghost var was := sent;
        OpenClient(ids[k]);
        HeardNext(state.live, ids, k, conn, x, y);
        NextClient(sent, Heard(state.live, ids[..k], conn, x, y), ids[k]);
        if c.CurrentMap != mapname {
          misplaced := true;
        } else if ((from != null && c.Connection != from.Connection) || from == null) && c.Active {
          if !(Abs(x - c.X) > EARSHOT || Abs(y - c.Y) > EARSHOT) {
            sent := sent + [c];
          }
        }
        assert sent == if InEarshot(state.live[ids[k]], conn, x, y) then was + [c] else was;
        assert Heard(state.live, ids[..k], conn, x, y) + [] == Heard(state.live, ids[..k], conn, x, y);
      }
      assert ids[..|all|] == ids;
    }

    lemma NobodyHeard(conn: Option<int>, x: int, y: int)
      ensures ClientsAt([], Heard(state.live, [], conn, x, y))
    {
    }

    /** Sends given bytes to the clients of a room near (x, y), if the room exists. */
    method MapcastBytes(mapname: string, from: Client?, x: int, y: int) returns (missing: bool, misplaced: bool, sent: seq<Client>)
      requires Valid()
      ensures missing <==> mapname !in maps
      ensures !misplaced && Reached(sent, mapname, from, x, y)
    {
      hide Inv, Distinct, Shows, Separate, Heard;
      OpenMaps();
      missing, misplaced, sent := mapname !in maps, false, [];
      if !missing {
        misplaced, sent := CastInRoom(mapname, from, x, y);
      }
    }

    /** Sends a message byte and payload; a room the server does not have is a nil
        dereference, and a client's own room is never that. */
    method Mapcast(client: Client, from: Client?, x: int, y: int, message: Byte, data: seq<seq<Byte>>)
        returns (panicked: bool, misplaced: bool, sent: seq<Client>, bytes: seq<Byte>)
      requires Valid() && HasSession(client, true)
      ensures !panicked && !misplaced && bytes == [message] + Relay.Concat(data)
      ensures Reached(sent, state.live[client.id].room, from, x, y)
    {
      hide Inv, Distinct, Shows, Separate, Heard;
      OpenClient(client.id);
      OpenMaps();
      HasRoom(state, client.id);
      var buffer := Relay.ConstructByteBuffer(message, data);
      var mapname := client.CurrentMap;
      panicked, misplaced, sent, bytes := mapname !in maps, false, [], buffer[..];
      if panicked {
        return;
      }
      misplaced, sent := CastInRoom(mapname, from, x, y);
    }

    // ------------------------------------------------------------ messages

    /** One received message of a joined session, from the raw bytes to what its
        handler does. `zone` tells whether the room named has the zone named. What a
        handler relays is sent from the position the session then has. */
    method Receive(client: Client, received: array<Byte>, table: seq<Relay.Entry>, zone: bool)
        returns (crashed: bool, outcome: Relay.Outcome, sent: seq<Client>)
      requires Valid() && HasSession(client, true) && received !in Repr && Relay.Registered(table)
      modifies this, Repr, received
      ensures outcome == Relay.Received(old(received[..]), old(client.Spot), table)
      ensures crashed <==> Fatal(old(state).wedged, Event.Receive(client.id, old(received[..]), zone))
      ensures !crashed ==> Valid() && Takes(old(state), Event.Receive(client.id, old(received[..]), zone), state)
      ensures !crashed && outcome.Moved? ==> Reached(sent, client.CurrentMap, client, client.X, client.Y)
      ensures !crashed && outcome.Said? ==> Reached(sent, client.CurrentMap, null, client.X, client.Y)
      ensures !outcome.Moved? && !outcome.Said? ==> sent == []
      ensures !crashed && received.Length <= 256 ==> Heeded(client, old(received[..]), zone, old(client.CurrentMap), old(client.X), old(client.Y))
    {
      hide Inv, Distinct, Shows, Separate, Relay.Received, Relay.Overruns, Relay.Registered, Heard, Heeded;
      ghost var m, spot, before := received[..], client.Spot, state;
      ghost var room, oldX, oldY := client.CurrentMap, client.X, client.Y;
      HeldBy(client, true);
      OpenReceive(client, m, table, zone);
      outcome := Relay.Receive(received, client.Spot, table);
      crashed, sent := false, [];
      var misplaced;
      match outcome {
        case Panicked => crashed := true;
        case Ejected => crashed := EndSession(client);
        case Moved(x, y, relay) =>
          Move(client, x, y);
          InItsRoom(client);
          misplaced, sent := CastInRoom(client.CurrentMap, client, client.X, client.Y);
        case Said(text, relay) =>
          InItsRoom(client);
          misplaced, sent := CastInRoom(client.CurrentMap, null, client.X, client.Y);
        case Entering(room, z) =>
          if Text(room) in maps && zone {
            var panicked := ChangeClientRoom(client, Text(room));
          }
        case _ =>
      }
      if !crashed && |m| <= 256 {
        ReceivedIsHeeded(before, client, m, zone, room, oldX, oldY);
      }
    }

    /** A message moved the client to the position it reports, or took it to the room it
        names, or did nothing to its record. */
    ghost predicate Heeded(client: Client, m: seq<Byte>, zone: bool, room: string, x: int, y: int)
      reads client
    {
      && client.X == (if Relay.IsReport(m) then Relay.Signed(m[3], m[4]) else x)
      && client.Y == (if Relay.IsReport(m) then Relay.Signed(m[5], m[6]) else y)
      && client.CurrentMap == if Relay.IsMapEntry(m) && zone && Effects.RoomNamed(m) in maps then Effects.RoomNamed(m) else room
    }

    lemma ReceivedIsHeeded(p: Pool, client: Client, m: seq<Byte>, zone: bool, room: string, x: int, y: int)
      requires Valid() && HasSession(client, true) && Inv(p) && Takes(p, Event.Receive(client.id, m, zone), state) && |m| <= 256
      requires p.live[client.id].room == room && p.live[client.id].x == x && p.live[client.id].y == y
      requires p.rooms.Keys == maps.Keys
      ensures Heeded(client, m, zone, room, x, y)
    {
      hide Inv, Takes, Effects.OtherRooms;
      HeldBy(client, true);
      Effects.ReceiveLands(p, client.id, m, zone, state);
    }

    lemma InItsRoom(client: Client)
      requires Valid() && HasSession(client, true)
      ensures client.CurrentMap in maps && client.CurrentMap == state.live[client.id].room
    {
      hide Inv, Distinct;
      OpenClient(client.id);
      OpenMaps();
      HasRoom(state, client.id);
    }

    /** What the pool machine makes of a message to this session. */
    lemma OpenReceive(client: Client, m: seq<Byte>, table: seq<Relay.Entry>, zone: bool)
      requires Valid() && HasSession(client, true) && Relay.Registered(table)
      ensures client in Repr && Enabled(state, Event.Receive(client.id, m, zone))
      ensures Relay.Received(m, client.Spot, table) == Relay.Received(m, state.live[client.id].spot, Relay.HANDLERS)
      ensures Relay.Received(m, client.Spot, table) == Relay.Panicked <==> Relay.Overruns(m)
      ensures Relay.Received(m, client.Spot, table) == Relay.Ejected <==> |m| > Relay.MAX_LENGTH
      ensures state.rooms.Keys == maps.Keys
    {
      hide Inv, Distinct, Relay.Received, Relay.Overruns, Relay.Registered;
      OpenClient(client.id);
      OpenMaps();
      Relay.TablesAgree(m, client.Spot, table);
      Relay.PanicsIff(m, client.Spot, table);
    }

    // ------------------------------------------------ what the lists hold

    /** Of the lists, the stack and the records themselves: each link is in exactly one
        place, the free list or a session's; a session in a room has its link in the
        list of the room it names and in no other, a waiting one in none; each spot is
        on the stack or some active client's, and not both. */
    lemma ListsPlaced()
      requires Valid()
      ensures |free_spots.Contents()| == |free_clients.links| && (MaxPlayers > 0 ==> free_clients.links != [])
      ensures forall i :: 0 <= i < |pool| ==>
                var c := pool[i].Value;
                (pool[i] in free_clients.links <==> !c.Active)
                && forall r :: r in maps ==>
                     (pool[i] in maps[r].ActiveClients.links <==> c.Active && pool[i].list != null && c.CurrentMap == r)
      ensures forall s :: 0 <= s < MaxPlayers ==>
                (s in free_spots.Contents() <==> !exists i :: 0 <= i < |pool| && pool[i].Value.Active && pool[i].Value.Spot == s)
    {
      hide Inv, Distinct, List.Valid, List.Wedged, Stack.Valid;
      EverythingPlaced(state);
      forall i | 0 <= i < |pool|
        ensures ClientShows(pool[i], i, state.live)
        ensures pool[i] in free_clients.links <==> i in state.free
        ensures forall r :: r in maps ==> (pool[i] in maps[r].ActiveClients.links <==> i in state.rooms[r])
      {
        NamesIn(pool, free_clients.links, state.free, i);
        forall r | r in maps
          ensures pool[i] in maps[r].ActiveClients.links <==> i in state.rooms[r]
        {
          assert RoomShows(r);
          NamesIn(pool, maps[r].ActiveClients.links, state.rooms[r], i);
        }
      }
      forall s | 0 <= s < MaxPlayers
        ensures s in free_spots.Contents() <==> !exists i :: 0 <= i < |pool| && pool[i].Value.Active && pool[i].Value.Spot == s
      {
        SpotOnHeap(s);
      }
    }

    lemma SpotOnHeap(s: int)
      requires Valid() && forall i :: 0 <= i < |pool| ==> ClientShows(pool[i], i, state.live)
      ensures (exists l :: l in state.live && state.live[l].spot == s)
              <==> exists i :: 0 <= i < |pool| && pool[i].Value.Active && pool[i].Value.Spot == s
      ensures free_spots.Contents() == state.spots
    {
      hide Inv, Distinct, List.Valid, List.Wedged, Stack.Valid;
      Places(state);
      if l :| l in state.live && state.live[l].spot == s {
        assert ClientShows(pool[l], l, state.live);
      }
      if i :| 0 <= i < |pool| && pool[i].Value.Active && pool[i].Value.Spot == s {
        assert ClientShows(pool[i], i, state.live);
      }
    }

    // ---------------------------------------------------------- whole runs

    /** This client record is that of a session of the pool. */
    ghost predicate SessionAt(p: Pool, c: Client, joined: bool) {
      c.id < |pool| && pool[c.id].Value == c && c.id in p.live && p.live[c.id].joined == joined
    }

    /** The sessions of the pool are these clients, waiting and in a room. */
    ghost predicate GuestsOf(p: Pool, waiting: set<Client>, inside: set<Client>) {
      && (forall c :: c in waiting ==> SessionAt(p, c, false))
      && (forall c :: c in inside ==> SessionAt(p, c, true))
      && (forall l :: l in p.live ==> l < |pool| && pool[l].Value.id == l)
      && (forall l :: l in p.live ==> pool[l].Value in if p.live[l].joined then inside else waiting)
    }

    lemma GuestsArrive(p: Pool, e: Event, q: Pool, waiting: set<Client>, inside: set<Client>, c: Client?)
      requires Inv(p) && Takes(p, e, q) && e.Accept? && GuestsOf(p, waiting, inside)
      requires if c == null then q.live == p.live else SessionAt(q, c, false) && q.live.Keys == p.live.Keys + {c.id}
      ensures GuestsOf(q, if c == null then waiting else waiting + {c}, inside)
    {
      hide Inv, Takes;
      forall l | l in p.live
        ensures l in q.live && q.live[l].joined == p.live[l].joined
      {
        SessionKept(p, e, q, l);
      }
    }

    lemma GuestsEnter(p: Pool, q: Pool, waiting: set<Client>, inside: set<Client>, c: Client)
      requires Inv(p) && Takes(p, Event.Join(c.id), q) && GuestsOf(p, waiting, inside) && c in waiting
      ensures GuestsOf(q, waiting - {c}, inside + {c})
    {
      hide Inv, Takes;
      GuestsStay(p, Event.Join(c.id), q);
    }

    lemma GuestsStay(p: Pool, e: Event, q: Pool)
      requires Inv(p) && Takes(p, e, q)
      ensures forall l :: l in p.live && !Ends(e, l) ==> l in q.live && q.live[l].joined == (p.live[l].joined || e == Event.Join(l))
      ensures forall l :: l in p.live && Ends(e, l) ==> l !in q.live
      ensures forall l :: l in q.live && l !in p.live ==> e.Accept?
    {
      hide Inv, Takes;
      forall l | l in p.live && !Ends(e, l)
        ensures l in q.live && q.live[l].joined == (p.live[l].joined || e == Event.Join(l))
      {
        SessionKept(p, e, q, l);
      }
      forall l | l in p.live && Ends(e, l)
        ensures l !in q.live
      {
        SessionEnded(p, e, q, l);
      }
      forall l | l in q.live && l !in p.live
        ensures e.Accept?
      {
        SessionNew(p, e, q, l);
      }
    }

    /** What one of those inside did leaves the others where they are. */
    lemma GuestsAct(p: Pool, e: Event, q: Pool, waiting: set<Client>, inside: set<Client>, c: Client)
      requires Inv(p) && Takes(p, e, q) && GuestsOf(p, waiting, inside) && c in inside && !e.Accept? && !e.Join? && e.link == c.id
      ensures GuestsOf(q, waiting, if Ends(e, c.id) then inside - {c} else inside)
    {
      hide Inv, Takes;
      GuestsStay(p, e, q);
    }

    /** Connections, joins, messages, room changes and ends in any order, of whichever
        sessions there are: what happens on the heap is a run of the pool machine, and
        the process ends when the machine crashes and not otherwise. */
    method Loop(choices: seq<Choice>, table: seq<Relay.Entry>) returns (crashed: bool, ghost es: seq<Event>)
      requires Valid() && state.live == map[] && Relay.Registered(table)
      modifies this, Repr
      ensures Run(old(state), es)
      ensures if crashed then After(old(state), es) == Crashed else Valid() && After(old(state), es) == Running(state)
    {
      hide Inv, Shows, Separate, Takes, Run, After, GuestsOf, Relay.Registered, ConnectionsBelow, Distinct;
      crashed, es := false, [];
      SessionPool.NoEvents(state);
      var waiting: set<Client>, inside: set<Client>, next := {}, {}, 0;
      NobodyYet(state);
      for k := 0 to |choices|
        invariant Underway(es, old(state), waiting, inside, next)
      {
        ghost var before := state;
        match choices[k] {
          case Connect(spectator, room, x, y) =>
            waiting, es := ConnectOne(waiting, inside, es, old(state), next, spectator, room, x, y);
            next := next + 1;
          case SomeoneJoins =>
            if waiting != {} {
              var c :| c in waiting;
              es := JoinOne(waiting, inside, es, old(state), next, c);
              waiting, inside := waiting - {c}, inside + {c};
            }
          case SomeoneSends(m, zone) =>
            if inside != {} {
              var c :| c in inside;
              crashed, inside, es := HearOne(waiting, inside, es, old(state), next, c, m, table, zone);
              if crashed {
                return;
              }
            }
          case SomeoneTravels(to) =>
            if inside != {} && to in maps {
              var c :| c in inside;
              es := TravelOne(waiting, inside, es, old(state), next, c, to);
            }
          case SomeoneLeaves =>
            if inside != {} {
              var c :| c in inside;
              crashed, inside, es := EndOne(waiting, inside, es, old(state), next, c);
              if crashed {
                return;
              }
            }
        }
      }
    }

    lemma NobodyYet(p: Pool)
      requires p.live == map[]
      ensures GuestsOf(p, {}, {}) && ConnectionsBelow(p, 0)
    {
    }

    lemma InsideHas(waiting: set<Client>, inside: set<Client>, c: Client)
      requires GuestsOf(state, waiting, inside)
      ensures c in waiting ==> HasSession(c, false)
      ensures c in inside ==> HasSession(c, true)
    {
    }

    /** What the steps of a run share: where it stands and who is in it. */
    ghost predicate Underway(es: seq<Event>, start: Pool, waiting: set<Client>, inside: set<Client>, next: int)
      reads this, Repr
    {
      && Valid() && Run(start, es) && After(start, es) == Running(state)
      && GuestsOf(state, waiting, inside) && ConnectionsBelow(state, next)
    }

    method ConnectOne(waiting: set<Client>, ghost inside: set<Client>, ghost es: seq<Event>, ghost start: Pool, next: int,
                      spectator: bool, room: string, x: int, y: int) returns (newWaiting: set<Client>, ghost more: seq<Event>)
      requires Underway(es, start, waiting, inside, next)
      modifies this, Repr
      ensures Underway(more, start, newWaiting, inside, next + 1)
    {
      hide Inv, Shows, Separate, Run, After, GuestsOf, Distinct, AcceptStep;
      ghost var p, e := state, Event.Accept(next, spectator, room, x, y);
      var c := Accept(next, spectator, room, x, y);
      AcceptTakes(p, e);
      RunOneMore(start, es, e);
      more := es + [e];
      BelowKept(p, e, state, next);
      GuestsArrive(p, e, state, waiting, inside, c);
      newWaiting := if c == null then waiting else waiting + {c};
    }

    lemma AcceptTakes(p: Pool, e: Event)
      requires Inv(p) && e.Accept? && Enabled(p, e)
      ensures var q := AcceptStep(p, e.connection, e.spectator, e.room, e.x, e.y);
        && Takes(p, e, q) && Inv(q)
        && if p.wedged || |p.free| <= 1 then q.live == p.live
           else q.live.Keys == p.live.Keys + {p.free[|p.free| - 1]}
    {
      hide Inv;
      AcceptKeepsInv(p, e);
    }

    method JoinOne(ghost waiting: set<Client>, ghost inside: set<Client>, ghost es: seq<Event>, ghost start: Pool, ghost next: int,
                   c: Client) returns (ghost more: seq<Event>)
      requires Underway(es, start, waiting, inside, next) && c in waiting
      modifies this, Repr
      ensures Underway(more, start, waiting - {c}, inside + {c}, next)
    {
      hide Inv, Shows, Separate, Run, After, GuestsOf, Distinct, Step, Enabled, ConnectionsBelow;
      ghost var p, e := state, Event.Join(c.id);
      InsideHas(waiting, inside, c);
      var panicked := Join(c);
      RunOneMore(start, es, e);
      more := es + [e];
      BelowKept(p, e, state, next);
      GuestsEnter(p, state, waiting, inside, c);
    }

    method TravelOne(ghost waiting: set<Client>, ghost inside: set<Client>, ghost es: seq<Event>, ghost start: Pool, ghost next: int,
                     c: Client, to: string) returns (ghost more: seq<Event>)
      requires Underway(es, start, waiting, inside, next) && c in inside && to in maps
      modifies this, Repr
      ensures Underway(more, start, waiting, inside, next)
    {
      hide Inv, Shows, Separate, Run, After, GuestsOf, Distinct, Step, Enabled, ConnectionsBelow;
      ghost var p, e := state, Event.ChangeRoom(c.id, to);
      InsideHas(waiting, inside, c);
      var panicked := ChangeClientRoom(c, to);
      RunOneMore(start, es, e);
      more := es + [e];
      BelowKept(p, e, state, next);
      GuestsAct(p, e, state, waiting, inside, c);
    }

    method EndOne(ghost waiting: set<Client>, inside: set<Client>, ghost es: seq<Event>, ghost start: Pool, ghost next: int,
                  c: Client) returns (crashed: bool, newInside: set<Client>, ghost more: seq<Event>)
      requires Underway(es, start, waiting, inside, next) && c in inside
      modifies this, Repr
      ensures if crashed then Run(start, more) && After(start, more) == Crashed else Underway(more, start, waiting, newInside, next)
    {
      hide Inv, Shows, Separate, Run, After, GuestsOf, Distinct, Step, ConnectionsBelow;
      ghost var p, e := state, Event.Leave(c.id);
      InsideHas(waiting, inside, c);
      StepKeepsInv(p, e);
      crashed := EndSession(c);
      newInside := inside - {c};
      RunOneMore(start, es, e);
      more := es + [e];
      if !crashed {
        BelowKept(p, e, state, next);
        GuestsAct(p, e, state, waiting, inside, c);
      }
    }

    method HearOne(ghost waiting: set<Client>, inside: set<Client>, ghost es: seq<Event>, ghost start: Pool, ghost next: int,
                   c: Client, m: seq<Byte>, table: seq<Relay.Entry>, zone: bool)
        returns (crashed: bool, newInside: set<Client>, ghost more: seq<Event>)
      requires Underway(es, start, waiting, inside, next) && c in inside && Relay.Registered(table)
      modifies this, Repr
      ensures if crashed then Run(start, more) && After(start, more) == Crashed else Underway(more, start, waiting, newInside, next)
    {
      hide Inv, Shows, Separate, Run, After, GuestsOf, Distinct, Step, ConnectionsBelow, Relay.Registered, Relay.Overruns,
        Relay.Received;
      ghost var p, e := state, Event.Receive(c.id, m, zone);
      InsideHas(waiting, inside, c);
      StepKeepsInv(p, e);
      var received := new Byte[|m|](i requires 0 <= i < |m| => m[i]);
      assert received[..] == m;
      var outcome, sent;
      crashed, outcome, sent := Receive(c, received, table, zone);
      newInside := if |m| > Relay.MAX_LENGTH then inside - {c} else inside;
      RunOneMore(start, es, e);
      more := es + [e];
      if !crashed {
        BelowKept(p, e, state, next);
        GuestsAct(p, e, state, waiting, inside, c);
      }
    }
  }

  // What may happen next; which session it happens to is open.
  datatype Choice =
    | Connect(spectator: bool, room: string, x: int, y: int)
    | SomeoneJoins
    | SomeoneSends(m: seq<Byte>, zone: bool)
    | SomeoneTravels(to: string)
    | SomeoneLeaves
}
