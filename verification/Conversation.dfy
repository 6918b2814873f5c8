// From one player's browser to the others': the relayed bytes of Relay and the
// recipients of SessionPool, put together (server/server/handler_player.go,
// server.go, session.go).
module Conversation {
  import opened Arithmetic
  import opened Bytes
  import opened ClientMessage
  import opened Options
  import Effects
  import Sequences
  import SessionPool
  import Relay

  type Pool = SessionPool.Pool

  /** No two live sessions answer to one spot, so a message names its sender. */
  lemma SpotNames(p: Pool, sender: nat, l: nat)
    requires SessionPool.Inv(p) && sender in p.live && l in p.live
    ensures p.live[l].spot == p.live[sender].spot <==> l == sender
  {
  }

  lemma SpotIsU16(p: Pool, sender: nat)
    requires SessionPool.Inv(p) && sender in p.live && p.max <= 0x1_0000
    ensures 0 <= p.live[sender].spot < 0x1_0000
  {
  }

  /** Near enough to be heard at (x, y) of a room. */
  predicate Near(s: SessionPool.Session, room: string, x: int, y: int) {
    s.joined && s.room == room && -320 <= x - s.x <= 320 && -320 <= y - s.y <= 320
  }

  /** A chat line of at most 252 code units, other than the test line, is sent once
      to each session near the speaker in the same room, the speaker's own among
      them, and to no other; it names the speaker and nobody else, and holds the
      low bytes of what was typed. */
  lemma ChatIsHeard(p: Pool, sender: nat, text: seq<CodeUnit>, m: seq<Byte>, zone: bool, table: seq<Relay.Entry>)
    requires SessionPool.Inv(p) && sender in p.live && p.live[sender].joined && p.max <= 0x1_0000
    requires m == U8(Relay.CHAT) + U16(0) + ShortString(LowBytes(text)) && Relay.Registered(table)
    requires |text| <= 252 && LowBytes(text) != Relay.TEST_TEXT
    ensures var s := p.live[sender];
      var o := Relay.Received(m, s.spot, table);
      var heard := SessionPool.Recipients(p, s.room, None, s.x, s.y);
      && Sequences.Distinct(heard) && sender in heard
      && (forall l :: l in heard <==> l in p.live && Near(p.live[l], s.room, s.x, s.y))
      && SessionPool.Step(p, SessionPool.Event.Receive(sender, m, zone)) == SessionPool.Running(p)
      && o.Said? && StringAt(o.relay, 3) == LowBytes(text)
      && forall l :: l in p.live ==> (p.live[l].spot == U16At(o.relay, 1) <==> l == sender)
  {
    hide Relay.Received, StringAt, U16At, SessionPool.Inv, SessionPool.Step, SessionPool.Recipients, Sequences.Distinct;
    var s := p.live[sender];
    SpotIsU16(p, sender);
    Relay.ChatEndToEnd(text, m, s.spot, table);
    Received(p, sender, m, zone, table);
    SessionPool.CastFromServer(p, s.room, s.x, s.y);
    forall l | l in p.live
      ensures p.live[l].spot == s.spot <==> l == sender
    {
      SpotNames(p, sender, l);
    }
  }

  /** A message that neither panics nor is too long leaves a pool with its invariant. */
  lemma Received(p: Pool, sender: nat, m: seq<Byte>, zone: bool, table: seq<Relay.Entry>)
    requires SessionPool.Inv(p) && sender in p.live && p.live[sender].joined && Relay.Registered(table)
    requires var o := Relay.Received(m, p.live[sender].spot, table); o.Said? || o.Moved?
    ensures var q := SessionPool.Step(p, SessionPool.Event.Receive(sender, m, zone));
      && q.Running? && SessionPool.Inv(q.pool)
      && if Relay.IsReport(m) then
           && Effects.Becomes(p, q.pool, sender,
                p.live[sender].(x := Relay.Signed(m[3], m[4]), y := Relay.Signed(m[5], m[6])))
         else q.pool == p
  {
    hide Relay.Received, SessionPool.Inv, SessionPool.Step, Effects.Becomes;
    var e := SessionPool.Event.Receive(sender, m, zone);
    Relay.OutcomeOfBytes(m, p.live[sender].spot, table);
    Relay.PanicsIff(m, p.live[sender].spot, table);
    SessionPool.StepKeepsInv(p, e);
    Effects.ReceiveLands(p, sender, m, zone, SessionPool.Step(p, e).pool);
  }

  /** A position report first moves its sender and is then sent once to each other
      session near the new position in the same room, and to no other; it names
      the sender, and shows the server's own coordinates if and only if both that
      were sent are below 2^15 modulo 2^16. */
  lemma StatusIsSeen(p: Pool, sender: nat, x: real, y: real, m: seq<Byte>, zone: bool, table: seq<Relay.Entry>)
    requires SessionPool.Inv(p) && sender in p.live && p.live[sender].joined && p.max <= 0x1_0000
    requires m == U8(Relay.STATUS) + U16(0) + U16(Trunc(x)) + U16(Trunc(y)) && Relay.Registered(table)
    ensures var o := Relay.Received(m, p.live[sender].spot, table);
      && o.Moved?
      && var q := SessionPool.Step(p, SessionPool.Event.Receive(sender, m, zone));
         q.Running? && SessionPool.Inv(q.pool) && sender in q.pool.live
         && var s := q.pool.live[sender];
            var seen := SessionPool.Recipients(q.pool, s.room, Some(s.connection), s.x, s.y);
            && s.room == p.live[sender].room
            && (s.x as real == x <==> x.Floor as real == x && -32768.0 <= x < 32768.0)
            && (s.y as real == y <==> y.Floor as real == y && -32768.0 <= y < 32768.0)
            && Sequences.Distinct(seen)
            && (forall l :: l in seen <==> l in p.live && l != sender && Near(p.live[l], s.room, s.x, s.y))
            && (forall l :: l in p.live ==> (p.live[l].spot == U16At(o.relay, 1) <==> l == sender))
            && (U16At(o.relay, 3) == s.x && U16At(o.relay, 5) == s.y <==>
                 Trunc(x) % 0x1_0000 < 0x8000 && Trunc(y) % 0x1_0000 < 0x8000)
  {
    hide Relay.Received, U16At, Relay.Signed, SessionPool.Inv, SessionPool.Step, SessionPool.Recipients, Sequences.Distinct;
    SpotIsU16(p, sender);
    Relay.StatusEndToEnd(x, y, m, p.live[sender].spot, table);
    Relay.OutcomeOfBytes(m, p.live[sender].spot, table);
    Received(p, sender, m, zone, table);
    var q := SessionPool.Step(p, SessionPool.Event.Receive(sender, m, zone)).pool;
    SessionPool.CastReachesExactly(q, q.live[sender].room, sender, q.live[sender].x, q.live[sender].y);
    forall l | l in p.live
      ensures p.live[l].spot == p.live[sender].spot <==> l == sender
    {
      SpotNames(p, sender, l);
    }
  }

  /** A room change takes a session's ears along: it hears what is said near it in
      the new room and nothing in any other, and everyone else hears what they did. */
  lemma RoomChangeMovesEars(p: Pool, l: nat, to: string, r: string, x: int, y: int)
    requires SessionPool.Inv(p) && SessionPool.Enabled(p, SessionPool.Event.ChangeRoom(l, to))
    ensures var q := SessionPool.Step(p, SessionPool.Event.ChangeRoom(l, to));
      && q.Running? && SessionPool.Inv(q.pool)
      && var before, after := SessionPool.Recipients(p, r, None, x, y), SessionPool.Recipients(q.pool, r, None, x, y);
         && (l in after <==> Near(p.live[l].(room := to), r, x, y))
         && forall m :: m != l ==> (m in after <==> m in before)
  {
    hide SessionPool.Inv, SessionPool.Recipients, Sequences.Distinct;
    SessionPool.ChangeRoomKeepsInv(p, l, to);
    var q := SessionPool.Step(p, SessionPool.Event.ChangeRoom(l, to)).pool;
    SessionPool.CastFromServer(p, r, x, y);
    SessionPool.CastFromServer(q, r, x, y);
    assert q.live == p.live[l := p.live[l].(room := to, joined := true)];
  }
}
