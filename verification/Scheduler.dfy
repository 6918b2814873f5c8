// The scheduler of script coroutines (server/scheduler/scheduler.go). Coroutines
// are numbered in order of creation; a goroutine blocked sending to the
// unbuffered run queue is kept in `senders`, a sleep timer in `timers`. A script
// runs until it sleeps, finishes or fails, which it may choose at any time.
module Scheduler {
  import opened Arithmetic
  import opened Options

  datatype Status = Suspended | Running | Dead

  // What the scheduler's own goroutine is doing: waiting to receive, inside the
  // resumed coroutine, inside the sleep that coroutine asked for (the timer is
  // set, the yield not yet done), or stopped.
  datatype Phase = Waiting | Inside(c: nat) | Yielding(to_resume: nat) | Stopped

  datatype State = State(
    threads: seq<Status>, tables: seq<int>,
    senders: multiset<nat>, timers: multiset<nat>,
    current: Option<nat>, self: Option<int>, phase: Phase)

  datatype Event = Start(table: int) | Fire(c: nat) | Receive(c: nat) | Sleep | Yield | Finish | Stop

  const INITIAL := State([], [], multiset{}, multiset{}, None, None, Waiting)

  predicate Enabled(s: State, e: Event) {
    match e
    case Start(_) => true
    case Fire(c) => c in s.timers
    case Receive(c) => s.phase.Waiting? && c in s.senders
    case Sleep => s.phase.Inside?
    case Yield => s.phase.Yielding? && s.phase.to_resume < |s.threads|
    case Finish => s.phase.Inside? && s.phase.c < |s.threads|
    case Stop => s.phase.Waiting?
  }

  function Next(s: State, e: Event): State
    requires Enabled(s, e)
  {
    match e
    case Start(table) =>
      s.(threads := s.threads + [Suspended], tables := s.tables + [table], senders := s.senders + multiset{|s.threads|})
    case Fire(c) => s.(timers := s.timers - multiset{c}, senders := s.senders + multiset{c})
    case Receive(c) => Received(s.(senders := s.senders - multiset{c}, current := Some(c)), c)
    case Sleep =>
      if s.current.None? then s
      else s.(timers := s.timers + multiset{s.current.value}, phase := Yielding(s.current.value))
    case Yield => s.(threads := s.threads[s.phase.to_resume := Suspended], phase := Waiting)
    case Finish => s.(threads := s.threads[s.phase.c := Dead], phase := Waiting)
    case Stop => s.(phase := Stopped)
  }

  /** Only a suspended coroutine is resumed, with its table as `self`; for any
      other the wake-up is used up and nothing runs. */
  function Received(s: State, c: nat): State {
    if c < |s.threads| && c < |s.tables| && s.threads[c] == Suspended then
      s.(threads := s.threads[c := Running], self := Some(s.tables[c]), phase := Inside(c))
    else s
  }

  // ---------------------------------------------------------- the invariant

  function WakeUps(s: State, c: nat): nat {
    s.senders[c] + s.timers[c] + One(s.phase == Inside(c))
  }

  predicate Runs(s: State, c: nat) {
    s.phase == Inside(c) || s.phase == Yielding(c)
  }

  /** A live coroutine has exactly one wake-up, a dead or unborn one has none; a
      running one is the current one and sees its own table. */
  ghost predicate Fits(s: State, c: nat)
    requires |s.tables| == |s.threads|
  {
    && WakeUps(s, c) == (if c < |s.threads| && s.threads[c] != Dead then 1 else 0)
    && (Runs(s, c) <==> c < |s.threads| && s.threads[c] == Running)
    && (Runs(s, c) ==> s.current == Some(c) && s.self == Some(s.tables[c]))
  }

  ghost predicate Inv(s: State) {
    |s.tables| == |s.threads| && forall c: nat :: Fits(s, c)
  }

  lemma StepFits(s: State, e: Event, c: nat)
    requires Inv(s) && Enabled(s, e)
    ensures var t := Next(s, e); |t.tables| == |t.threads| && Fits(t, c)
  {
    hide Inv, Fits, Next;
    Fitting(s, c);
    match e
    case Start(table) => StartFits(s, table, c);
    case Fire(d) => FireFits(s, d, c);
    case Receive(d) =>
      Fitting(s, d);
      ReceiveFits(s, d, c);
    case Sleep =>
      Fitting(s, s.phase.c);
      SleepFits(s, c);
    case Yield =>
      Fitting(s, s.phase.to_resume);
      BackFits(s, e, s.phase.to_resume, c);
    case Finish =>
      Fitting(s, s.phase.c);
      BackFits(s, e, s.phase.c, c);
    case Stop => StopFits(s, c);
  }

  lemma StartFits(s: State, table: int, c: nat)
    requires |s.tables| == |s.threads| && Fits(s, c)
    ensures var t := Next(s, Start(table)); |t.tables| == |t.threads| && Fits(t, c)
  {
  }

  lemma FireFits(s: State, d: nat, c: nat)
    requires |s.tables| == |s.threads| && Fits(s, c) && d in s.timers
    ensures var t := Next(s, Fire(d)); |t.tables| == |t.threads| && Fits(t, c)
  {
  }

  lemma ReceiveFits(s: State, d: nat, c: nat)
    requires |s.tables| == |s.threads| && Fits(s, c) && Fits(s, d) && Enabled(s, Receive(d))
    ensures var t := Next(s, Receive(d)); |t.tables| == |t.threads| && Fits(t, c)
  {
  }

  lemma SleepFits(s: State, c: nat)
    requires |s.tables| == |s.threads| && Enabled(s, Sleep) && Fits(s, c) && Fits(s, s.phase.c)
    ensures var t := Next(s, Sleep); |t.tables| == |t.threads| && Fits(t, c)
  {
  }

  lemma BackFits(s: State, e: Event, d: nat, c: nat)
    requires |s.tables| == |s.threads| && Enabled(s, e) && Fits(s, c) && Fits(s, d)
    requires (e == Yield && s.phase == Yielding(d)) || (e == Finish && s.phase == Inside(d))
    ensures var t := Next(s, e); |t.tables| == |t.threads| && Fits(t, c)
  {
  }

  lemma StopFits(s: State, c: nat)
    requires |s.tables| == |s.threads| && Enabled(s, Stop) && Fits(s, c)
    ensures var t := Next(s, Stop); |t.tables| == |t.threads| && Fits(t, c)
  {
  }

  lemma Fitting(s: State, c: nat)
    requires Inv(s)
    ensures |s.tables| == |s.threads| && Fits(s, c)
  {
  }

  lemma StepKeepsInv(s: State, e: Event)
    requires Inv(s) && Enabled(s, e)
    ensures Inv(Next(s, e))
  {
    hide Fits, Next;
    forall c: nat
      ensures |Next(s, e).tables| == |Next(s, e).threads| && Fits(Next(s, e), c)
    {
      StepFits(s, e, c);
    }
    StepFits(s, e, 0);
  }

  // ------------------------------------------------------------- all runs

  ghost predicate Run(s: State, es: seq<Event>)
    decreases |es|
  {
    es != [] ==> Enabled(s, es[0]) && Run(Next(s, es[0]), es[1..])
  }

  ghost function After(s: State, es: seq<Event>): State
    requires Run(s, es)
    decreases |es|
  {
    if es == [] then s else After(Next(s, es[0]), es[1..])
  }

  lemma {:induction false} RunKeepsInv(s: State, es: seq<Event>)
    requires Inv(s) && Run(s, es)
    ensures Inv(After(s, es))
    decreases |es|
  {
    hide Inv, Next, Enabled;
    if es != [] {
      StepKeepsInv(s, es[0]);
      RunKeepsInv(Next(s, es[0]), es[1..]);
    }
  }

  lemma NoneRunning(s: State)
    requires Inv(s) && s.phase.Waiting?
    ensures forall c :: 0 <= c < |s.threads| ==> s.threads[c] != Running
  {
    forall c: nat | c < |s.threads|
      ensures s.threads[c] != Running
    {
      assert Fits(s, c);
    }
  }

  /** In every run at most one coroutine runs, and the next one received is
      suspended: neither dead nor still running, however early its timer fired. */
  lemma ReceivedIsSuspended(es: seq<Event>, c: nat)
    requires Run(INITIAL, es) && Enabled(After(INITIAL, es), Receive(c))
    ensures var s := After(INITIAL, es);
      && c < |s.threads| && s.threads[c] == Suspended
      && (forall d :: 0 <= d < |s.threads| ==> s.threads[d] != Running)
      && Next(s, Receive(c)).phase == Inside(c)
  {
    RunKeepsInv(INITIAL, es);
    NoneRunning(After(INITIAL, es));
    assert Fits(After(INITIAL, es), c);
  }

  /** The tables the coroutines were started with, in order of creation. */
  function Births(es: seq<Event>): seq<int> {
    if es == [] then [] else (if es[0].Start? then [es[0].table] else []) + Births(es[1..])
  }

  lemma {:induction false} TablesAreBirths(s: State, es: seq<Event>)
    requires Run(s, es)
    ensures After(s, es).tables == s.tables + Births(es)
    decreases |es|
  {
    hide Received;
    if es != [] {
      TablesAreBirths(Next(s, es[0]), es[1..]);
      ReceivedKeeps(s, es[0]);
    }
  }

  lemma ReceivedKeeps(s: State, e: Event)
    requires Enabled(s, e)
    ensures Next(s, e).tables == s.tables + if e.Start? then [e.table] else []
  {
  }

  /** In every run a coroutine that runs has as `self` the table it was started with. */
  lemma SelfIsOwnTable(es: seq<Event>, c: nat)
    requires Run(INITIAL, es) && Runs(After(INITIAL, es), c)
    ensures c < |Births(es)| && After(INITIAL, es).self == Some(Births(es)[c])
  {
    RunKeepsInv(INITIAL, es);
    TablesAreBirths(INITIAL, es);
    assert Fits(After(INITIAL, es), c);
  }

  // ------------------------------------- what a coroutine is owed and gets

  function Count(es: seq<Event>, e: Event): nat {
    if es == [] then 0 else One(es[0] == e) + Count(es[1..], e)
  }

  /** How often coroutine c asks to sleep. */
  ghost function Sleeps(s: State, es: seq<Event>, c: nat): nat
    requires Run(s, es)
    decreases |es|
  {
    if es == [] then 0
    else One(es[0] == Sleep && s.phase == Inside(c)) + Sleeps(Next(s, es[0]), es[1..], c)
  }

  lemma StepLedger(s: State, e: Event, c: nat)
    requires Inv(s) && Enabled(s, e)
    ensures var t := Next(s, e);
      && t.timers[c] + One(e == Fire(c)) == s.timers[c] + One(e == Sleep && s.phase == Inside(c))
      && t.senders[c] + One(e == Receive(c)) + One(c < |s.threads|)
         == s.senders[c] + One(e == Fire(c)) + One(c < |t.threads|)
  {
    hide Next, Enabled;
    TimerLedger(s, e, c);
    SenderLedger(s, e, c);
  }

  lemma TimerLedger(s: State, e: Event, c: nat)
    requires Inv(s) && Enabled(s, e)
    ensures Next(s, e).timers[c] + One(e == Fire(c)) == s.timers[c] + One(e == Sleep && s.phase == Inside(c))
  {
    hide Inv;
    if e.Sleep? {
      InsideIsCurrent(s);
    }
  }

  lemma SenderLedger(s: State, e: Event, c: nat)
    requires Enabled(s, e)
    ensures var t := Next(s, e);
      t.senders[c] + One(e == Receive(c)) + One(c < |s.threads|) == s.senders[c] + One(e == Fire(c)) + One(c < |t.threads|)
  {
    var t := Next(s, e);
    if e.Start? {
      assert |t.threads| == |s.threads| + 1 && t.senders[c] == s.senders[c] + One(c == |s.threads|);
    } else {
      assert |t.threads| == |s.threads|;
      assert t.senders[c] == s.senders[c] + One(e == Fire(c)) - One(e == Receive(c));
    }
  }

  /** No wake-up is lost or doubled: between two states each sleep sets one timer,
      each timer that fires and each birth gives one receipt, and what has not yet
      happened is still pending. */
  lemma {:induction false} Ledger(s: State, es: seq<Event>, c: nat)
    requires Inv(s) && Run(s, es)
    ensures var t := After(s, es);
      && Count(es, Fire(c)) + t.timers[c] == s.timers[c] + Sleeps(s, es, c)
      && Count(es, Receive(c)) + t.senders[c] + One(c < |s.threads|)
         == s.senders[c] + Count(es, Fire(c)) + One(c < |t.threads|)
    decreases |es|
  {
    hide Inv, Next, Enabled;
    if es != [] {
      StepLedger(s, es[0], c);
      StepKeepsInv(s, es[0]);
      Ledger(Next(s, es[0]), es[1..], c);
    }
  }

  /** A coroutine runs once more than it has slept, at most: never twice for one sleep. */
  lemma OneResumePerSleep(es: seq<Event>, c: nat)
    requires Run(INITIAL, es)
    ensures Count(es, Receive(c)) <= 1 + Sleeps(INITIAL, es, c)
  {
    Ledger(INITIAL, es, c);
  }

  // -------------------------------------------------- nobody is forgotten

  /** What is left before coroutine c runs: the script now inside ends or completes
      its yield, c's timer fires, c is received. */
  function Wake(s: State, c: nat): (es: seq<Event>)
    ensures |es| <= 3
  {
    if s.phase.Inside? then if Enabled(s, Finish) then [Finish] + Tail(Next(s, Finish), c) else []
    else if s.phase.Yielding? then if Enabled(s, Yield) then [Yield] + Tail(Next(s, Yield), c) else []
    else Tail(s, c)
  }

  function Tail(s: State, c: nat): (es: seq<Event>)
    ensures |es| <= 2
  {
    if c in s.timers then [Fire(c), Receive(c)] else [Receive(c)]
  }

  lemma RunCons(s: State, e: Event, es: seq<Event>)
    requires Enabled(s, e) && Run(Next(s, e), es)
    ensures Run(s, [e] + es) && After(s, [e] + es) == After(Next(s, e), es)
  {
    hide Enabled, Next;
    assert ([e] + es)[1..] == es;
  }

  lemma Received1(s: State, c: nat)
    requires Inv(s) && s.phase.Waiting? && c in s.senders
    ensures Run(s, [Receive(c)]) && After(s, [Receive(c)]).phase == Inside(c)
  {
    assert Fits(s, c);
    RunCons(s, Receive(c), []);
    assert [Receive(c)] + [] == [Receive(c)];
  }

  lemma TailWakes(s: State, c: nat)
    requires Inv(s) && s.phase.Waiting? && c < |s.threads| && s.threads[c] != Dead
    ensures Run(s, Tail(s, c)) && After(s, Tail(s, c)).phase == Inside(c)
  {
    hide Run, After;
    assert Fits(s, c);
    if c in s.timers {
      StepKeepsInv(s, Fire(c));
      Received1(Next(s, Fire(c)), c);
      RunCons(s, Fire(c), [Receive(c)]);
      assert Tail(s, c) == [Fire(c)] + [Receive(c)];
    } else {
      Received1(s, c);
    }
  }

  lemma BackToWaiting(s: State, e: Event)
    requires Inv(s) && ((s.phase.Inside? && e == Finish) || (s.phase.Yielding? && e == Yield))
    ensures Enabled(s, e) && Inv(Next(s, e)) && Next(s, e).phase.Waiting?
    ensures |Next(s, e).threads| == |s.threads|
    ensures forall c: nat :: c < |s.threads| && s.threads[c] != Dead && s.phase != Inside(c) ==> Next(s, e).threads[c] != Dead
  {
    assert Fits(s, if s.phase.Inside? then s.phase.c else s.phase.to_resume);
    StepKeepsInv(s, e);
  }

  /** From every reachable state that is not stopped, every live coroutine can
      still be made to run, within three events. */
  lemma LiveCoroutineCanRun(s: State, c: nat)
    requires Inv(s) && !s.phase.Stopped? && c < |s.threads| && s.threads[c] != Dead && s.phase != Inside(c)
    ensures Run(s, Wake(s, c)) && After(s, Wake(s, c)).phase == Inside(c)
  {
    hide Run, After, Inv, Next, Enabled, Tail;
    if s.phase.Waiting? {
      TailWakes(s, c);
    } else {
      var e := if s.phase.Inside? then Finish else Yield;
      BackToWaiting(s, e);
      TailWakes(Next(s, e), c);
      RunCons(s, e, Tail(Next(s, e), c));
    }
  }

  /** A stopped scheduler resumes nothing any more. */
  lemma {:induction false} StoppedForGood(s: State, es: seq<Event>)
    requires s.phase.Stopped? && Run(s, es)
    ensures var t := After(s, es);
      t.phase.Stopped? && s.threads <= t.threads && t.current == s.current
    decreases |es|
  {
    if es != [] {
      StoppedForGood(Next(s, es[0]), es[1..]);
    }
  }

  // -------------------------------------------------------- the scheduler

  lemma {:induction false} RunOneMore(s: State, es: seq<Event>, e: Event)
    requires Run(s, es) && Enabled(After(s, es), e)
    ensures Run(s, es + [e]) && After(s, es + [e]) == Next(After(s, es), e)
    decreases |es|
  {
    hide Enabled, Next;
    if es == [] {
      assert [] + [e] == [e] && [e][1..] == [];
    } else {
      assert (es + [e])[1..] == es[1..] + [e];
      RunOneMore(Next(s, es[0]), es[1..], e);
    }
  }

  ghost predicate Leads(s: State, e: Event, t: State) {
    Enabled(s, e) && Next(s, e) == t
  }

  lemma NoEvents(s: State)
    ensures Run(s, []) && After(s, []) == s
  {
  }

  lemma Grown(s: State, es: seq<Event>, before: State, e: Event, t: State) returns (more: seq<Event>)
    requires Run(s, es) && After(s, es) == before && Leads(before, e, t)
    ensures Run(s, more) && After(s, more) == t
  {
    hide Enabled, Next;
    more := es + [e];
    RunOneMore(s, es, e);
  }

  lemma Unborn(s: State)
    requires Inv(s)
    ensures |s.threads| !in s.senders && |s.threads| !in s.timers
  {
    assert Fits(s, |s.threads|);
  }

  lemma SenderIsSuspended(s: State, c: nat)
    requires Inv(s) && s.phase.Waiting? && c in s.senders
    ensures c < |s.threads| == |s.tables| && s.threads[c] == Suspended
  {
    assert Fits(s, c);
  }

  lemma InsideIsCurrent(s: State)
    requires Inv(s) && s.phase.Inside?
    ensures s.current == Some(s.phase.c) && s.phase.c < |s.threads|
  {
    assert Fits(s, s.phase.c);
  }

  lemma AfterFire(s: State, c: nat)
    requires c in s.timers
    ensures Enabled(s, Fire(c))
    ensures var t := Next(s, Fire(c));
      && t == s.(senders := t.senders, timers := t.timers)
      && forall i :: t.senders[i] == s.senders[i] + One(i == c) && t.timers[i] == s.timers[i] - One(i == c)
  {
  }

  lemma AfterReceive(s: State, c: nat)
    requires Inv(s) && s.phase.Waiting? && c in s.senders
    ensures Enabled(s, Receive(c)) && c < |s.threads| == |s.tables| && s.threads[c] == Suspended
    ensures var t := Next(s, Receive(c));
      && t == State(s.threads[c := Running], s.tables, t.senders, s.timers, Some(c), Some(s.tables[c]), Inside(c))
      && forall i :: t.senders[i] == s.senders[i] - One(i == c)
  {
    SenderIsSuspended(s, c);
  }

  // A thread is started suspended; its status is its own.
  class Coroutine {
    const ThisTable: int
    var status: Status

    // Its place in the order of creation.
    ghost const id: nat

    constructor (table: int, ghost id: nat)
      ensures ThisTable == table && status == Suspended && this.id == id
    {
      ThisTable, status, this.id := table, Suspended, id;
    }
  }

  // What may happen next, as far as it is possible.
  datatype Choice = Create(table: int) | TimerFires | TakeFromQueue | ScriptSleeps | SleepYields | ScriptEnds | StopScheduler

  class Scheduler {
    var senders: multiset<Coroutine>
    var timers: multiset<Coroutine>
    var currentCoroutine: Coroutine?
    var self: Option<int>

    // Every coroutine ever created, and the machine's view of the objects.
    ghost var born: seq<Coroutine>
    ghost var state: State

    /** The objects show the machine's state: statuses, tables, who is being sent, who
        has a timer, who is current. */
    ghost predicate Shows()
      reads this, born
    {
      && |born| == |state.threads| == |state.tables|
      && (forall i :: 0 <= i < |born| ==> Shown(i))
      && (forall c :: c in senders ==> c in born) && (forall c :: c in timers ==> c in born)
      && self == state.self
      && (if currentCoroutine == null then state.current == None
          else currentCoroutine in born && state.current == Some(currentCoroutine.id))
    }

    ghost predicate Shown(i: nat)
      requires i < |born| == |state.threads| == |state.tables|
      reads this, born
    {
      var c := born[i];
      && c.id == i && c.status == state.threads[i] && c.ThisTable == state.tables[i]
      && senders[c] == state.senders[i] && timers[c] == state.timers[i]
    }

    ghost predicate Valid()
      reads this, born
    {
      Shows() && Inv(state)
    }

    lemma Known(c: Coroutine)
      requires Shows() && c in born
      ensures c.id < |born| && born[c.id] == c && Shown(c.id)
    {
      var i :| 0 <= i < |born| && born[i] == c;
      assert Shown(i);
    }

    constructor ()
      ensures Valid() && state == INITIAL
    {
      senders, timers, currentCoroutine, self := multiset{}, multiset{}, null, None;
      born, state := [], INITIAL;
    }

    /** A new thread is started, suspended, and its creator blocks sending it. */
    method StartCoroutine(table: int) returns (c: Coroutine)
      requires Valid()
      modifies this
      ensures Valid() && Leads(old(state), Start(table), state)
      ensures fresh(c) && born == old(born) + [c] && state.phase == old(state.phase)
      ensures c.ThisTable == table && c.status == Suspended && senders == old(senders) + multiset{c} && timers == old(timers)
    {
      hide Inv;
      StepKeepsInv(state, Start(table));
      Unborn(state);
      c := new Coroutine(table, |born|);
      senders := senders + multiset{c};
      born, state := born + [c], Next(state, Start(table));
      forall k | 0 <= k < |born|
        ensures Shown(k)
      {
        assert k < |old(born)| ==> old(Shown(k));
      }
    }

    /** What the scheduler does with a coroutine it received. */
    method RunCoroutine(c: Coroutine)
      requires Valid() && state.phase.Waiting? && c in senders
      modifies this, c
      ensures Valid() && Leads(old(state), Receive(c.id), state) && born == old(born)
      ensures state.phase == Inside(c.id) && c.status == Running && old(c.status) == Suspended
      ensures self == Some(c.ThisTable) && currentCoroutine == c && senders == old(senders) - multiset{c} && timers == old(timers)
    {
      hide Inv, Next, Enabled;
      ghost var i := c.id;
      Known(c);
      AfterReceive(state, i);
      StepKeepsInv(state, Receive(i));
      senders := senders - multiset{c};
      currentCoroutine := c;
      match c.status {
        case Suspended =>
          self := Some(c.ThisTable);
          c.status := Running;
        case Dead =>
        case Running =>
      }
      state := Next(state, Receive(i));
      forall k | 0 <= k < |born|
        ensures Shown(k)
      {
        assert old(Shown(k));
      }
    }

    /** Called by the script inside: a timer is set for the current coroutine, which
        has not yielded yet. */
    method SleepCurrentCoroutine() returns (toResume: Coroutine?)
      requires Valid() && state.phase.Inside?
      modifies this
      ensures Valid() && Leads(old(state), Sleep, state) && born == old(born)
      ensures toResume != null && toResume in born && state.phase == Yielding(toResume.id)
      ensures toResume == old(currentCoroutine) && timers == old(timers) + multiset{toResume} && senders == old(senders)
    {
      hide Inv;
      StepKeepsInv(state, Sleep);
      InsideIsCurrent(state);
      toResume := currentCoroutine;
      if toResume == null {
        return;
      }
      Known(toResume);
      timers := timers + multiset{toResume};
      state := Next(state, Sleep);
      forall k | 0 <= k < |born|
        ensures Shown(k)
      {
        assert old(Shown(k));
      }
    }

    /** The rest of the sleep: the thread is suspended. */
    method FinishSleep(toResume: Coroutine)
      requires Valid() && toResume in born && state.phase == Yielding(toResume.id)
      modifies this, toResume
      ensures Valid() && Leads(old(state), Event.Yield, state) && born == old(born) && state.phase == Waiting
      ensures toResume.status == Suspended && senders == old(senders) && timers == old(timers)
    {
      hide Inv;
      Known(toResume);
      StepKeepsInv(state, Event.Yield);
      toResume.status := Suspended;
      state := Next(state, Event.Yield);
      forall k | 0 <= k < |born|
        ensures Shown(k)
      {
        assert old(Shown(k));
      }
    }

    /** The script inside finishes or fails. */
    method EndScript(c: Coroutine)
      requires Valid() && c in born && state.phase == Inside(c.id)
      modifies this, c
      ensures Valid() && Leads(old(state), Finish, state) && born == old(born) && state.phase == Waiting
      ensures c.status == Dead && senders == old(senders) && timers == old(timers)
    {
      hide Inv;
      Known(c);
      StepKeepsInv(state, Finish);
      c.status := Dead;
      state := Next(state, Finish);
      forall k | 0 <= k < |born|
        ensures Shown(k)
      {
        assert old(Shown(k));
      }
    }

    /** A timer goes off: its goroutine blocks sending the coroutine. */
    method FireTimer(c: Coroutine)
      requires Valid() && c in timers
      modifies this
      ensures Valid() && Leads(old(state), Fire(c.id), state) && born == old(born) && state.phase == old(state.phase)
      ensures timers == old(timers) - multiset{c} && senders == old(senders) + multiset{c}
    {
      hide Inv, Next, Enabled;
      Known(c);
      AfterFire(state, c.id);
      StepKeepsInv(state, Fire(c.id));
      timers, senders := timers - multiset{c}, senders + multiset{c};
      state := Next(state, Fire(c.id));
      forall k | 0 <= k < |born|
        ensures Shown(k)
      {
        assert old(Shown(k));
      }
    }

    method StopRunning()
      requires Valid() && state.phase.Waiting?
      modifies this
      ensures Valid() && Leads(old(state), Stop, state) && born == old(born) && state.phase == Stopped
    {
      hide Inv;
      StepKeepsInv(state, Stop);
      state := Next(state, Stop);
      forall k | 0 <= k < |born|
        ensures Shown(k)
      {
        assert old(Shown(k));
      }
    }

    /** The scheduler's goroutine, the timers, the scripts and the creators, over any
        choices: what happens is always a run of the machine. */
    method Loop(choices: seq<Choice>) returns (ghost es: seq<Event>)
      requires Valid() && state.phase.Waiting?
      modifies this, born
      ensures Valid() && Run(old(state), es) && state == After(old(state), es)
    {
      hide Inv, Run, After, Shown, Next;
      es := [];
      NoEvents(state);
      var inside: Coroutine?, yielding: Coroutine? := null, null;
      var stopped := false;
      for k := 0 to |choices|
        invariant Valid() && Run(old(state), es) && state == After(old(state), es)
        invariant forall c :: c in born ==> c in old(born) || fresh(c)
        invariant inside != null ==> yielding == null
        invariant (inside != null ==> inside in born) && (yielding != null ==> yielding in born)
        invariant state.phase == if stopped then Stopped else if inside != null then Inside(inside.id)
                                 else if yielding != null then Yielding(yielding.id) else Waiting
      {
        ghost var before := state;
        match choices[k]
        case Create(table) =>
          var c := StartCoroutine(table);
          es := Grown(old(state), es, before, Start(table), state);
        case TimerFires =>
          if timers != multiset{} {
            var c :| c in timers;
            FireTimer(c);
            es := Grown(old(state), es, before, Fire(c.id), state);
          }
        case TakeFromQueue =>
          if !stopped && inside == null && yielding == null && senders != multiset{} {
            var c :| c in senders;
            RunCoroutine(c);
            inside := c;
            es := Grown(old(state), es, before, Receive(c.id), state);
          }
        case ScriptSleeps =>
          if !stopped && inside != null {
            yielding := SleepCurrentCoroutine();
            inside := null;
            es := Grown(old(state), es, before, Sleep, state);
          }
        case SleepYields =>
          if !stopped && inside == null && yielding != null {
            FinishSleep(yielding);
            yielding := null;
            es := Grown(old(state), es, before, Event.Yield, state);
          }
        case ScriptEnds =>
          if !stopped && inside != null {
            EndScript(inside);
            inside := null;
            es := Grown(old(state), es, before, Finish, state);
          }
        case StopScheduler =>
          if !stopped && inside == null && yielding == null {
            StopRunning();
            stopped := true;
            es := Grown(old(state), es, before, Stop, state);
          }
      }
    }
  }
}
