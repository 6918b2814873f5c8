// A player's vitals (server/entities/player.go, server/server/handler_player.go):
// moves add up the distance walked, every tick turns it into hunger, thirst,
// tiredness and damage.
module Vitals {
  import opened Arithmetic

  datatype Vitals = Vitals(energy: int, hunger: int, thirst: int, health: int, walked: int)

  function Min(a: int, b: int): int { if a < b then a else b }
  function Max(a: int, b: int): int { if a > b then a else b }

  function Ticked(v: Vitals): Vitals {
    var hunger, thirst := Min(100, v.hunger + 3), Min(100, v.thirst + 1);
    var energy := Max(0, v.energy - TruncDiv(v.walked, 10));
    var h1 := if hunger == 100 then Max(0, v.health - 1) else v.health;
    var h2 := if thirst == 100 then Max(0, h1 - 3) else h1;
    Vitals(energy, hunger, thirst, if energy == 0 then Max(0, h2 - 1) else h2, 0)
  }

  function Walked(v: Vitals, distance: int): Vitals {
    v.(walked := v.walked + distance)
  }

  datatype Beat = Tick | Walk(distance: nat)

  function Lived(v: Vitals, beats: seq<Beat>): Vitals
    decreases |beats|
  {
    if beats == [] then v
    else Lived(match beats[0] case Tick => Ticked(v) case Walk(d) => Walked(v, d), beats[1..])
  }

  function Ticks(beats: seq<Beat>): nat {
    if beats == [] then 0 else Ticks(beats[1..]) + One(beats[0].Tick?)
  }

  function Distance(beats: seq<Beat>): nat {
    if beats == [] then 0 else Distance(beats[1..]) + if beats[0].Walk? then beats[0].distance else 0
  }

  predicate InRange(v: Vitals) {
    0 <= v.energy <= 100 && 0 <= v.hunger <= 100 && 0 <= v.thirst <= 100 && 0 <= v.health <= 100 && 0 <= v.walked
  }

  /** Over any interleaving of moves and ticks: the vitals stay in 0..100, hunger
      and thirst depend on the number of ticks alone, health never rises, and the
      energy lost is a tenth of the distance walked, rounded down at every tick. */
  lemma {:induction false} AnyLife(v: Vitals, beats: seq<Beat>)
    requires InRange(v)
    ensures var w := Lived(v, beats);
      && InRange(w)
      && w.hunger == Min(100, v.hunger + 3 * Ticks(beats)) && w.thirst == Min(100, v.thirst + Ticks(beats))
      && w.health <= v.health && w.energy <= v.energy
      && 10 * (v.energy - w.energy) + w.walked <= v.walked + Distance(beats)
      && (w.energy > 0 ==> v.walked + Distance(beats) <= 10 * (v.energy - w.energy) + w.walked + 9 * Ticks(beats))
    decreases |beats|
  {
    if beats != [] {
      AnyLife(match beats[0] case Tick => Ticked(v) case Walk(d) => Walked(v, d), beats[1..]);
    }
  }

  lemma {:induction false} LivedLonger(v: Vitals, beats: seq<Beat>, b: Beat)
    ensures Lived(v, beats + [b]) == match b case Tick => Ticked(Lived(v, beats)) case Walk(d) => Walked(Lived(v, beats), d)
    ensures Ticks(beats + [b]) == Ticks(beats) + One(b.Tick?)
    decreases |beats|
  {
    hide Ticked, Walked;
    if beats == [] {
      assert ([] + [b])[1..] == [];
    } else {
      assert (beats + [b])[1..] == beats[1..] + [b];
      LivedLonger(match beats[0] case Tick => Ticked(v) case Walk(d) => Walked(v, d), beats[1..], b);
    }
  }

  /** How many ticks of a life end hungry, thirsty or tired, by the vitals reached. */
  function HungryTicks(v: Vitals, beats: seq<Beat>): nat {
    if beats == [] then 0
    else HungryTicks(v, beats[..|beats| - 1]) + One(beats[|beats| - 1].Tick? && Lived(v, beats).hunger == 100)
  }

  function ThirstyTicks(v: Vitals, beats: seq<Beat>): nat {
    if beats == [] then 0
    else ThirstyTicks(v, beats[..|beats| - 1]) + One(beats[|beats| - 1].Tick? && Lived(v, beats).thirst == 100)
  }

  function TiredTicks(v: Vitals, beats: seq<Beat>): nat {
    if beats == [] then 0
    else TiredTicks(v, beats[..|beats| - 1]) + One(beats[|beats| - 1].Tick? && Lived(v, beats).energy == 0)
  }

  /** Hungry and thirsty ticks are those from a known one on, however much is walked. */
  lemma {:induction false} HungerLedger(v: Vitals, beats: seq<Beat>)
    requires InRange(v)
    ensures HungryTicks(v, beats) == Max(0, Ticks(beats) - Max(0, (99 - v.hunger) / 3))
    ensures ThirstyTicks(v, beats) == Max(0, Ticks(beats) - Max(0, 99 - v.thirst))
    decreases |beats|
  {
    hide Lived, Ticks;
    AnyLife(v, beats);
    if beats == [] {
      NoBeats(v);
    } else {
      var n := |beats| - 1;
      assert beats == beats[..n] + [beats[n]];
      LivedLonger(v, beats[..n], beats[n]);
      HungerLedger(v, beats[..n]);
    }
  }

  lemma TickCosts(v: Vitals)
    requires InRange(v)
    ensures var w := Ticked(v);
      w.health == Max(0, v.health - One(w.hunger == 100) - 3 * One(w.thirst == 100) - One(w.energy == 0))
  {
  }

  /** Over any life health is lost for nothing else: one for each tick that ends
      with hunger 100, three for each with thirst 100, one for each without energy. */
  lemma {:induction false} HealthLedger(v: Vitals, beats: seq<Beat>)
    requires InRange(v)
    ensures Lived(v, beats).health
            == Max(0, v.health - HungryTicks(v, beats) - 3 * ThirstyTicks(v, beats) - TiredTicks(v, beats))
    decreases |beats|
  {
    hide Lived, Ticks, Ticked;
    if beats == [] {
      NoBeats(v);
    } else {
      var n := |beats| - 1;
      assert beats == beats[..n] + [beats[n]];
      LivedLonger(v, beats[..n], beats[n]);
      AnyLife(v, beats[..n]);
      TickCosts(Lived(v, beats[..n]));
      HealthLedger(v, beats[..n]);
    }
  }

  /** The distance walked since the last tick, after `walked` before the first beat. */
  function SinceTick(walked: int, beats: seq<Beat>): int {
    if beats == [] then walked
    else match beats[|beats| - 1]
      case Tick => 0
      case Walk(d) => SinceTick(walked, beats[..|beats| - 1]) + d
  }

  /** A tenth, rounded down, of what was walked before each tick and since the one before. */
  function Spent(walked: int, beats: seq<Beat>): int {
    if beats == [] then 0
    else
      var before := beats[..|beats| - 1];
      Spent(walked, before) + if beats[|beats| - 1].Tick? then SinceTick(walked, before) / 10 else 0
  }

  lemma TickSpends(v: Vitals)
    requires InRange(v)
    ensures Ticked(v).energy == Max(0, v.energy - v.walked / 10) && Ticked(v).walked == 0
  {
  }

  /** Over any life the energy lost is exactly that, down to 0, and each tick starts the
      distance anew: what is less than ten is never saved up. */
  lemma {:induction false} EnergyLedger(v: Vitals, beats: seq<Beat>)
    requires InRange(v)
    ensures Lived(v, beats).walked == SinceTick(v.walked, beats) >= 0
    ensures Lived(v, beats).energy == Max(0, v.energy - Spent(v.walked, beats))
    decreases |beats|
  {
    hide Lived, Ticks, Ticked;
    if beats == [] {
      NoBeats(v);
    } else {
      var n := |beats| - 1;
      assert beats == beats[..n] + [beats[n]];
      LivedLonger(v, beats[..n], beats[n]);
      AnyLife(v, beats[..n]);
      TickSpends(Lived(v, beats[..n]));
      EnergyLedger(v, beats[..n]);
    }
  }

  lemma NoBeats(v: Vitals)
    ensures Lived(v, []) == v && Ticks([]) == 0
  {
  }

  lemma StaysTired(v: Vitals, beats: seq<Beat>)
    requires InRange(v) && v.energy == 0
    ensures Lived(v, beats).energy == 0
  {
    AnyLife(v, beats);
  }

  /** Who is tired stays tired, so one without energy pays for it at every tick. */
  lemma {:induction false} TiredForGood(v: Vitals, beats: seq<Beat>)
    requires InRange(v) && v.energy == 0
    ensures TiredTicks(v, beats) == Ticks(beats)
    decreases |beats|
  {
    hide Lived, Ticks, InRange, Ticked;
    StaysTired(v, beats);
    if beats == [] {
      NoBeats(v);
    } else {
      var n := |beats| - 1;
      assert beats == beats[..n] + [beats[n]];
      LivedLonger(v, beats[..n], beats[n]);
      TiredForGood(v, beats[..n]);
    }
  }

  /** The health that hunger, thirst and, for who has no energy, tiredness have
      cost after `n` ticks. */
  function Drain(n: nat, tired: bool): int {
    Max(0, n - 33) + 3 * Max(0, n - 99) + if tired then n else 0
  }

  lemma {:induction false} HealthDrains(v: Vitals, beats: seq<Beat>, n: nat, tired: bool)
    requires InRange(v) && v.hunger >= Min(100, 3 * n) && v.thirst >= Min(100, n) && (tired ==> v.energy == 0)
    requires v.health <= Max(0, 100 - Drain(n, tired))
    ensures Lived(v, beats).health <= Max(0, 100 - Drain(n + Ticks(beats), tired))
    decreases |beats|
  {
    if beats != [] {
      match beats[0]
      case Tick => HealthDrains(Ticked(v), beats[1..], n + 1, tired);
      case Walk(d) => HealthDrains(Walked(v, d), beats[1..], n, tired);
    }
  }

  /** Nobody outlives 108 ticks, however little they walk, and nobody without energy 67. */
  lemma DeadBy108(v: Vitals, beats: seq<Beat>)
    requires InRange(v) && Ticks(beats) >= if v.energy == 0 then 67 else 108
    ensures Lived(v, beats).health == 0
  {
    HealthDrains(v, beats, 0, v.energy == 0);
    AnyLife(v, beats);
  }

  function Idle(n: nat): (beats: seq<Beat>)
    ensures |beats| == n
  {
    seq(n, _ => Tick)
  }

  /** Who stands still loses health to hunger, thirst and tiredness alone. */
  lemma {:induction false} IdleLife(v: Vitals, k: nat, n: nat)
    requires v.hunger == Min(100, 3 * k) && v.thirst == Min(100, k) && v.energy >= 0 && v.walked == 0
    requires v.health == Max(0, 100 - Drain(k, v.energy == 0))
    ensures Ticks(Idle(n)) == n && Lived(v, Idle(n)).health == Max(0, 100 - Drain(k + n, v.energy == 0))
    decreases n
  {
    if n > 0 {
      assert Idle(n)[1..] == Idle(n - 1);
      IdleLife(Ticked(v), k + 1, n - 1);
    }
  }

  /** Both bounds are exact: standing still, a rested player survives 107 ticks with
      two points of health, one without energy 66 with one. */
  lemma AliveAt107()
    ensures var rested, tired := Vitals(100, 0, 0, 100, 0), Vitals(0, 0, 0, 100, 0);
      && InRange(rested) && Ticks(Idle(107)) == 107 && Lived(rested, Idle(107)).health == 2
      && InRange(tired) && Ticks(Idle(66)) == 66 && Lived(tired, Idle(66)).health == 1
  {
    IdleLife(Vitals(100, 0, 0, 100, 0), 0, 107);
    IdleLife(Vitals(0, 0, 0, 100, 0), 0, 66);
  }
}
