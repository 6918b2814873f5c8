// The client's scene (client-svelte/src/lib/client/game_state.js, stack.js): two
// stacks that swap roles every frame. While the scene is updated, what stays
// alive and what is spawned is pushed on the other stack. A thing is named by a
// number; `dead` is the set of things whose flag is set. What a thing does when
// it is updated is arbitrary: it may spawn things and kill things.
module Scene {
  import opened Arithmetic
  import opened Options

  type Thing = nat

  datatype Action = Action(spawns: seq<Thing>, kills: set<Thing>)

  // ------------------------------------------------ one frame, as a value

  function DeadAfter(acts: seq<Action>, dead: set<Thing>): set<Thing> {
    if acts == [] then dead else DeadAfter(acts[..|acts| - 1], dead) + acts[|acts| - 1].kills
  }

  /** In order, what each thing spawned and then the thing itself, unless it was
      dead when its turn ended. */
  function Pass(objs: seq<Thing>, acts: seq<Action>, dead: set<Thing>): seq<Thing>
    requires |objs| == |acts|
  {
    if objs == [] then [] else
    var n := |objs| - 1;
    Pass(objs[..n], acts[..n], dead) + acts[n].spawns + (if objs[n] in DeadAfter(acts, dead) then [] else [objs[n]])
  }

  lemma NothingPassed(dead: set<Thing>)
    ensures Pass([], [], dead) == [] && DeadAfter([], dead) == dead
  {
  }

  /** One turn of a frame: the next thing's spawns follow what is there already, then
      the thing itself, unless it is dead by then. */
  lemma NextTurn(objs: seq<Thing>, acts: seq<Action>, i: nat, dead: set<Thing>)
    requires i < |objs| == |acts|
    ensures var now := DeadAfter(acts[..i], dead) + acts[i].kills;
      && DeadAfter(acts[..i + 1], dead) == now
      && Pass(objs[..i + 1], acts[..i + 1], dead)
         == Pass(objs[..i], acts[..i], dead) + acts[i].spawns + if objs[i] in now then [] else [objs[i]]
  {
    assert acts[..i + 1][..i] == acts[..i] && objs[..i + 1][..i] == objs[..i];
  }

  function Spawned(acts: seq<Action>): seq<Thing> {
    if acts == [] then [] else Spawned(acts[..|acts| - 1]) + acts[|acts| - 1].spawns
  }

  datatype State = State(scene: seq<Thing>, pending: seq<Thing>, dead: set<Thing>)

  datatype Event = Spawn(x: Thing) | Kill(x: Thing) | Frame(acts: seq<Action>) | Reset

  predicate Enabled(s: State, e: Event) {
    e.Frame? ==> |e.acts| == |s.scene|
  }

  function Next(s: State, e: Event): State
    requires Enabled(s, e)
  {
    match e
    case Spawn(x) => s.(pending := s.pending + [x])
    case Kill(x) => s.(dead := s.dead + {x})
    case Frame(acts) => State(s.pending + Pass(s.scene, acts, s.dead), [], DeadAfter(acts, s.dead))
    case Reset => s.(scene := [], pending := [])
  }

  lemma {:induction false} DeadGrows(acts: seq<Action>, dead: set<Thing>)
    ensures dead <= DeadAfter(acts, dead)
  {
    if acts != [] {
      DeadGrows(acts[..|acts| - 1], dead);
    }
  }

  lemma PassStep(objs: seq<Thing>, acts: seq<Action>, dead: set<Thing>, x: Thing)
    requires |objs| == |acts| > 0
    ensures var n := |objs| - 1;
      && multiset(objs)[x] == multiset(objs[..n])[x] + One(objs[n] == x)
      && multiset(Spawned(acts))[x] == multiset(Spawned(acts[..n]))[x] + multiset(acts[n].spawns)[x]
      && multiset(Pass(objs, acts, dead))[x] == multiset(Pass(objs[..n], acts[..n], dead))[x] + multiset(acts[n].spawns)[x]
         + One(objs[n] == x && x !in DeadAfter(acts, dead))
      && DeadAfter(acts[..n], dead) <= DeadAfter(acts, dead)
  {
    var n := |objs| - 1;
    assert objs == objs[..n] + [objs[n]];
    assert Pass(objs, acts, dead) == Pass(objs[..n], acts[..n], dead)
           + (acts[n].spawns + if objs[n] in DeadAfter(acts, dead) then [] else [objs[n]]);
  }

  /** How often a frame shows a thing: everything spawned, plus every old place of
      a thing still alive at the end, plus no old place of one dead from the start. */
  lemma {:induction false} PassCounts(objs: seq<Thing>, acts: seq<Action>, dead: set<Thing>, x: Thing)
    requires |objs| == |acts|
    ensures var now, spawned := multiset(Pass(objs, acts, dead))[x], multiset(Spawned(acts))[x];
      && spawned <= now <= multiset(objs)[x] + spawned
      && (x !in DeadAfter(acts, dead) ==> now == multiset(objs)[x] + spawned)
      && (x in dead ==> now == spawned)
  {
    if objs != [] {
      var n := |objs| - 1;
      PassStep(objs, acts, dead, x);
      PassCounts(objs[..n], acts[..n], dead, x);
      DeadGrows(acts, dead);
    }
  }

  // ------------------------------------------------------------- all runs

  ghost predicate Run(s: State, es: seq<Event>)
    decreases |es|
  {
    es != [] ==> Enabled(s, es[0]) && Run(Next(s, es[0]), es[1..])
  }

  ghost function After(s: State, es: seq<Event>): State
    requires Run(s, es)
    decreases |es|
  {
    if es == [] then s else After(Next(s, es[0]), es[1..])
  }

  function Copies(s: State, x: Thing): nat {
    multiset(s.scene)[x] + multiset(s.pending)[x]
  }

  function SpawnsOf(e: Event, x: Thing): nat {
    match e
    case Spawn(y) => One(x == y)
    case Frame(acts) => multiset(Spawned(acts))[x]
    case _ => 0
  }

  function AllSpawnsOf(es: seq<Event>, x: Thing): nat {
    if es == [] then 0 else SpawnsOf(es[0], x) + AllSpawnsOf(es[1..], x)
  }

  predicate Harms(e: Event, x: Thing) {
    match e
    case Kill(y) => x == y
    case Frame(acts) => x in DeadAfter(acts, {})
    case Reset => true
    case _ => false
  }

  lemma {:induction false} DeadSplits(acts: seq<Action>, dead: set<Thing>)
    ensures DeadAfter(acts, dead) == dead + DeadAfter(acts, {})
  {
    if acts != [] {
      DeadSplits(acts[..|acts| - 1], dead);
    }
  }

  /** Nothing that lives is lost or doubled: over a run without a reset in which x
      is not killed, x is in scene or pending as often as before, plus its spawns. */
  lemma {:induction false} LiveConserved(s: State, es: seq<Event>, x: Thing)
    requires Run(s, es) && x !in s.dead && forall e :: e in es ==> !Harms(e, x)
    ensures Copies(After(s, es), x) == Copies(s, x) + AllSpawnsOf(es, x) && x !in After(s, es).dead
    decreases |es|
  {
    hide Pass, Spawned, DeadAfter;
    if es != [] {
      var e := es[0];
      assert !Harms(e, x);
      if e.Frame? {
        PassCounts(s.scene, e.acts, s.dead, x);
        DeadSplits(e.acts, s.dead);
      }
      LiveConserved(Next(s, e), es[1..], x);
    }
  }

  /** After a reset, whatever came before, there is nothing in scene or pending. */
  lemma {:induction false} ResetLeavesNothing(s: State, es: seq<Event>, x: Thing)
    requires Run(s, es)
    ensures Run(s, es + [Reset]) && Copies(After(s, es + [Reset]), x) == 0
    decreases |es|
  {
    hide Pass, DeadAfter;
    if es == [] {
      assert [] + [Reset] == [Reset] && [Reset][1..] == [];
    } else {
      assert (es + [Reset])[1..] == es[1..] + [Reset];
      ResetLeavesNothing(Next(s, es[0]), es[1..], x);
    }
  }

  /** So what is there later was spawned since. */
  lemma SpawnedSinceReset(s: State, es: seq<Event>, more: seq<Event>, x: Thing)
    requires Run(s, es + [Reset]) && Run(After(s, es + [Reset]), more) && Run(s, es)
    requires x !in After(s, es + [Reset]).dead && forall e :: e in more ==> !Harms(e, x)
    ensures Copies(After(After(s, es + [Reset]), more), x) == AllSpawnsOf(more, x)
  {
    ResetLeavesNothing(s, es, x);
    LiveConserved(After(s, es + [Reset]), more, x);
  }

  function Frames(es: seq<Event>): nat {
    if es == [] then 0 else One(es[0].Frame?) + Frames(es[1..])
  }

  /** A thing marked dead is to be gone after the next update. One that nobody spawns
      again stays for that frame if and only if it was still pending. */
  lemma StaysOneFrameIff(s: State, acts: seq<Action>, x: Thing)
    requires |acts| == |s.scene| && x in s.dead && x !in Spawned(acts)
    ensures x in Next(s, Frame(acts)).scene <==> x in s.pending
  {
    PassCounts(s.scene, acts, s.dead, x);
  }

  /** Spawned, killed before it ever entered the scene, and in it after a frame. */
  lemma DeadOnArrival(x: Thing)
    ensures var s := Next(Next(State([], [], {}), Spawn(x)), Kill(x));
      Enabled(s, Frame([])) && x in Next(s, Frame([])).dead && x in Next(s, Frame([])).scene
  {
    var s := Next(Next(State([], [], {}), Spawn(x)), Kill(x));
    assert s.pending == [x] && s.pending + Pass([], [], s.dead) == [x];
  }

  /** A dead thing that nobody spawns again is gone after one frame if it was in
      the scene, after two if it was still waiting to enter it, and stays gone. */
  lemma {:induction false} DeadLeaves(s: State, es: seq<Event>, x: Thing)
    requires Run(s, es) && x in s.dead && AllSpawnsOf(es, x) == 0
    requires Frames(es) >= (if x in s.pending then 2 else if x in s.scene then 1 else 0)
    ensures x !in After(s, es).scene && x !in After(s, es).pending
    decreases |es|
  {
    if es != [] {
      var e := es[0];
      if e.Frame? {
        PassCounts(s.scene, e.acts, s.dead, x);
        DeadGrows(e.acts, s.dead);
      }
      DeadLeaves(Next(s, e), es[1..], x);
    }
  }

  // ---------------------------------------------------------- the stacks

  class Stack {
    var top: nat
    var stuff: seq<Option<Thing>>

    /** Every slot below the top is defined. */
    ghost predicate Valid()
      reads this
    {
      top <= |stuff| && forall i :: 0 <= i < top ==> stuff[i].Some?
    }

    ghost function Items(): seq<Thing>
      requires Valid()
      reads this
    {
      seq(top, i requires 0 <= i < top reads this requires Valid() => stuff[i].value)
    }

    constructor (capacity: nat)
      ensures Valid() && Items() == []
    {
      top, stuff := 0, seq(capacity, _ => None);
    }

    method Push(thing: Thing)
      requires Valid()
      modifies this
      ensures Valid() && Items() == old(Items()) + [thing]
    {
      stuff := stuff[..top] + [Some(thing)] + if top < |stuff| then stuff[top + 1..] else [];
      top := top + 1;
    }

    function At(i: nat): Option<Thing>
      reads this
    {
      if i < |stuff| then stuff[i] else None
    }

    method Forget(i: nat)
      requires i < |stuff|
      modifies `stuff
      ensures stuff == old(stuff)[i := None]
    {
      stuff := stuff[i := None];
    }

    method Reset()
      modifies this
      ensures Valid() && Items() == []
    {
      top := 0;
      stuff := [None] + if stuff == [] then [] else stuff[1..];
    }
  }

  class GameState {
    var scene: Stack
    var alives: Stack
    var dead: set<Thing>

    ghost predicate Valid()
      reads this, scene, alives
    {
      scene != alives && scene.Valid() && alives.Valid()
    }

    ghost function View(): State
      requires Valid()
      reads this, scene, alives
    {
      State(scene.Items(), alives.Items(), dead)
    }

    constructor (maxThings: nat)
      ensures Valid() && View() == State([], [], {}) && fresh(scene) && fresh(alives)
    {
      scene := new Stack(maxThings);
      alives := new Stack(maxThings);
      dead := {};
    }

    method Spawn(what: Thing)
      requires Valid()
      modifies alives
      ensures Valid() && View() == Next(old(View()), Event.Spawn(what))
      ensures View() == old(View()).(pending := old(View()).pending + [what])
    {
      alives.Push(what);
    }

    method Kill(what: Thing)
      requires Valid()
      modifies `dead
      ensures Valid() && View() == Next(old(View()), Event.Kill(what))
      ensures View() == old(View()).(dead := old(View()).dead + {what})
    {
      dead := dead + {what};
    }

    method Reset()
      requires Valid()
      modifies scene, alives
      ensures Valid() && View() == Next(old(View()), Event.Reset)
      ensures View() == State([], [], old(View()).dead)
    {
      alives.Reset();
      scene.Reset();
    }

    /** A thing's own update: it spawns and kills as it likes. */
    method Act(act: Action)
      requires alives.Valid() && scene != alives
      modifies alives, `dead
      ensures alives.Valid() && alives.Items() == old(alives.Items()) + act.spawns && dead == old(dead) + act.kills
    {
      for k := 0 to |act.spawns|
        invariant alives.Valid() && alives.Items() == old(alives.Items()) + act.spawns[..k] && dead == old(dead)
      {
        alives.Push(act.spawns[k]);
      }
      dead := dead + act.kills;
    }

    /** Updates every thing of the scene, keeps the living, swaps the stacks. */
    method Update(acts: seq<Action>)
      requires Valid() && |acts| == scene.top
      modifies this, scene, alives
      ensures Valid() && View() == Next(old(View()), Frame(acts))
      ensures View().scene == old(View()).pending + Pass(old(View()).scene, acts, old(View()).dead) && View().pending == []
      ensures {scene, alives} == old({scene, alives})
    {
      hide Pass, DeadAfter;
      ghost var was := View();
      NothingPassed(was.dead);
      for i := 0 to scene.top
        invariant scene == old(scene) && alives == old(alives) && scene != alives && alives.Valid()
        invariant scene.top == |was.scene| <= |scene.stuff|
        invariant forall j :: i <= j < scene.top ==> scene.stuff[j] == Some(was.scene[j])
        invariant alives.Items() == was.pending + Pass(was.scene[..i], acts[..i], was.dead)
        invariant dead == DeadAfter(acts[..i], was.dead)
      {
        NextTurn(was.scene, acts, i, was.dead);
        var obj := scene.At(i);
        if obj.None? {
          continue;
        }
        Act(acts[i]);
        if obj.value !in dead {
          alives.Push(obj.value);
        } else {
          scene.Forget(i);
        }
      }
      assert was.scene[..scene.top] == was.scene && acts[..scene.top] == acts;
      var tmp := scene;
      scene := alives;
      alives := tmp;
      alives.Reset();
    }

    /** Drawing reads every slot below the top without a guard. */
    method Render() returns (drawn: seq<Thing>)
      requires Valid()
      ensures drawn == View().scene
    {
      drawn := [];
      for i := 0 to scene.top
        invariant drawn == scene.Items()[..i]
      {
        var obj := scene.At(i);
        drawn := drawn + [obj.value];
      }
    }
  }
}
