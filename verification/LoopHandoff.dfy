/**
 Handing work to an event loop, vserver/net/Eventloop.cc: any thread pushes a
 functor under the lock and then writes to the wakeup descriptor, except in the
 one case where the loop is known to look again by itself. The machine steps at
 the granularity of the locked sections and of the reads and writes of the
 descriptor; every event list is a run.
 */
module LoopHandoff {
  import opened Common

  type Thread = nat
  const LOOP: Thread := 0  // the thread the loop belongs to

  /** A functor, with the thread that posted it. */
  datatype Task = Task(poster: Thread, id: nat)

  datatype Pc =
    | Idle                  // outside loop()
    | Top                   // at the test of m_quit
    | Polling
    | Handling(wake: bool)  // running handlers; wake: the wakeup channel is still among the active ones
    | Draining              // at the test of m_pendingFuncs
    | Calling               // m_callingPendingFuncs is set, not swapped yet
    | Running(inside: bool) // going through the batch; inside: a functor is executing

  datatype State = State(
    pc: Pc, quit: bool, calling: bool,
    pending: seq<Task>, batch: seq<Task>, executed: seq<Task>,
    counter: nat,           // the eventfd
    inFlight: set<Thread>,  // other threads between their push and their write
    posting: bool,          // the loop thread between its push and its test
    pushed: seq<Task>)      // everything ever pushed, in push order

  datatype Event =
    | StartLoop | TestQuit | PollReturns(wake: bool) | ReadWakeup | EndHandling
    | TestPending | SwapBatch | CallNext | CallReturns | EndBatch
    | LoopPush(id: nat) | LoopTest     // queueInLoop from a handler or a functor
    | IdlePush(id: nat)                // queueInLoop from the loop's thread while it is not looping
    | Push(t: Thread, id: nat) | Wake(t: Thread)
    | Quit

  function Init(): State {
    State(Idle, false, false, [], [], [], 0, {}, false, [])
  }

  function Pushed(s: State, task: Task): State {
    s.(pending := s.pending + [task], pushed := s.pushed + [task])
  }

  function Step(s: State, e: Event): Outcome<State> {
    match e
    // any other thread
    case Push(t, id) =>
      if t == LOOP || t in s.inFlight then Disabled
      else Next(Pushed(s, Task(t, id)).(inFlight := s.inFlight + {t}))
    case Wake(t) =>
      if t !in s.inFlight then Disabled else Next(s.(inFlight := s.inFlight - {t}, counter := s.counter + 1))
    case Quit => Next(s.(quit := true))
    // the loop's own thread
    case LoopPush(id) =>
      if (s.pc.Handling? || s.pc == Running(true)) && !s.posting
      then Next(Pushed(s, Task(LOOP, id)).(posting := true)) else Disabled
    case IdlePush(id) =>
      if s.pc == Idle && !s.posting then Next(Pushed(s, Task(LOOP, id)).(posting := true)) else Disabled
    case LoopTest =>
      if !s.posting then Disabled
      else Next(s.(posting := false, counter := if s.calling then s.counter + 1 else s.counter))
    case _ => if s.posting then Disabled else LoopStep(s, e)
  }

  function LoopStep(s: State, e: Event): Outcome<State> {
    match e
    case StartLoop => if s.pc == Idle then Next(s.(pc := Top, quit := false)) else Disabled
    case TestQuit => if s.pc == Top then Next(s.(pc := if s.quit then Idle else Polling)) else Disabled
    case PollReturns(wake) =>
      if s.pc == Polling && (wake ==> s.counter > 0) then Next(s.(pc := Handling(wake))) else Disabled
    case ReadWakeup =>
      if s.pc != Handling(true) then Disabled
      else if s.counter == 0 then Crashed  // the read fails and the loop aborts
      else Next(s.(pc := Handling(false), counter := 0))
    case EndHandling => if s.pc == Handling(false) then Next(s.(pc := Draining)) else Disabled
    case TestPending =>
      if s.pc != Draining then Disabled
      else if s.pending == [] then Next(s.(pc := Top))
      else Next(s.(pc := Calling, calling := true))
    case SwapBatch =>
      if s.pc == Calling then Next(s.(pc := Running(false), batch := s.pending, pending := s.batch)) else Disabled
    case CallNext =>
      if s.pc == Running(false) && s.batch != []
      then Next(s.(pc := Running(true), executed := s.executed + [s.batch[0]], batch := s.batch[1..])) else Disabled
    case CallReturns => if s.pc == Running(true) then Next(s.(pc := Running(false))) else Disabled
    case EndBatch =>
      if s.pc == Running(false) && s.batch == [] then Next(s.(pc := Top, calling := false)) else Disabled
    case _ => Disabled
  }

  function After(s: State, e: Event): Outcome<State> {
    if Step(s, e).Disabled? then Next(s) else Step(s, e)
  }

  function Run(s: State, es: seq<Event>): Outcome<State>
    decreases |es|
  {
    if es == [] then Next(s)
    else match After(s, es[0])
      case Next(s') => Run(s', es[1..])
      case _ => Crashed
  }

  // ---- Exactly once, first in first out ----

  /** Every functor pushed is executed, in the batch, or pending, in push order. */
  ghost predicate Fifo(s: State) {
    && s.executed + s.batch + s.pending == s.pushed
    && (!s.pc.Running? ==> s.batch == [])
  }

  ghost predicate Tidy(s: State) {
    && Fifo(s)
    && (s.calling <==> s.pc.Calling? || s.pc.Running?)
    && (s.posting ==> s.pc == Idle || s.pc.Handling? || s.pc == Running(true))
    && (s.pc == Handling(true) ==> s.counter > 0)
  }

  lemma PushTidy(s: State, task: Task)
    requires Tidy(s)
    ensures Fifo(Pushed(s, task))
  {
    Assoc(s.executed + s.batch, s.pending, [task]);
  }

  lemma CallTidy(s: State)
    requires Tidy(s) && Step(s, CallNext).Next?
    ensures Tidy(Step(s, CallNext).state)
  {
    assert s.batch == [s.batch[0]] + s.batch[1..];
    Assoc(s.executed, [s.batch[0]], s.batch[1..]);
  }

  lemma StepTidy(s: State, e: Event)
    requires Tidy(s)
    ensures After(s, e).Next? && Tidy(After(s, e).state)
  {
    match e
    case Push(t, id) => PushTidy(s, Task(t, id));
    case LoopPush(id) => PushTidy(s, Task(LOOP, id));
    case IdlePush(id) => PushTidy(s, Task(LOOP, id));
    case CallNext => if Step(s, e).Next? { CallTidy(s); }
    case _ =>
  }

  lemma {:induction false} RunTidy(s: State, es: seq<Event>)
    requires Tidy(s)
    ensures Run(s, es).Next? && Tidy(Run(s, es).state)
    decreases |es|
  {
    if es != [] {
      StepTidy(s, es[0]);
      RunTidy(After(s, es[0]).state, es[1..]);
    }
  }

  /** What one thread posted, in order. */
  function By(p: Thread, tasks: seq<Task>): seq<Task> {
    if tasks == [] then []
    else (if tasks[0].poster == p then [tasks[0]] else []) + By(p, tasks[1..])
  }

  lemma {:induction false} ByAppend(p: Thread, a: seq<Task>, b: seq<Task>)
    ensures By(p, a + b) == By(p, a) + By(p, b)
  {
    if a == [] {
      assert a + b == b;
    } else {
      ByAppend(p, a[1..], b);
      var first := if a[0].poster == p then [a[0]] else [];
      assert By(p, a) == first + By(p, a[1..]);
      assert By(p, a + b) == first + (By(p, a[1..]) + By(p, b)) by {
        assert (a + b)[1..] == a[1..] + b && (a + b)[0] == a[0];
      }
      Assoc(first, By(p, a[1..]), By(p, b));
    }
  }

  /**
   Over every run: the loop never aborts; what has been executed, then what is
   left of the batch, then what is pending is exactly what was pushed, in push
   order; so no functor runs twice and each poster's functors run in its order.
   */
  lemma PostedExactlyOnce(es: seq<Event>, p: Thread)
    ensures Run(Init(), es).Next?
    ensures var s := Run(Init(), es).state;
            && s.executed + s.batch + s.pending == s.pushed
            && By(p, s.executed) <= By(p, s.pushed)
            && ((forall i, j :: 0 <= i < j < |s.pushed| ==> s.pushed[i] != s.pushed[j])
                ==> forall i, j :: 0 <= i < j < |s.executed| ==> s.executed[i] != s.executed[j])
  {
    RunTidy(Init(), es);
    var s := Run(Init(), es).state;
    hide Run;
    assert s.pushed == s.executed + (s.batch + s.pending);
    ByAppend(p, s.executed, s.batch + s.pending);
    assert forall i :: 0 <= i < |s.executed| ==> s.executed[i] == s.pushed[i];
  }

  // ---- No lost wakeup ----

  /** The loop would sleep on work it has been given, with nobody about to wake it. */
  ghost predicate Lost(s: State) {
    && s.pc in {Top, Polling}
    && s.pending != [] && s.counter == 0 && s.inFlight == {}
  }

  /** For each pending functor: whether it was posted by the loop's own thread outside the running loop. Told from the events since the last swap. */
  function NextEarly(s: State, e: Event, early: seq<bool>): seq<bool> {
    if !Step(s, e).Next? then early
    else match e
      case Push(_, _) => early + [false]
      case LoopPush(_) => early + [false]
      case IdlePush(_) => early + [true]
      case SwapBatch => []
      case _ => early
  }

  function Early(s: State, es: seq<Event>, early: seq<bool>): seq<bool>
    decreases |es|
  {
    if es == [] then early
    else match After(s, es[0])
      case Next(s') => Early(s', es[1..], NextEarly(s, es[0], early))
      case _ => early
  }

  /** Outside the stretch in which the loop will look at its queue anyway, work posted in any other way comes with a wakeup. */
  ghost predicate Awake(s: State, early: seq<bool>) {
    && Tidy(s)
    && |early| == |s.pending|
    && (s.pc in {Idle, Top, Polling} || s.pc.Running? ==>
          false in early ==> s.counter > 0 || s.inFlight != {} || (s.posting && s.calling))
  }

  lemma StepAwake(s: State, e: Event, early: seq<bool>)
    requires Awake(s, early)
    ensures After(s, e).Next? && Awake(After(s, e).state, NextEarly(s, e, early))
  {
    StepTidy(s, e);
    hide Fifo;
    if e.Wake? && e.t in s.inFlight {
      assert After(s, e).state.counter > 0;
    } else if e.Push? && Step(s, e).Next? {
      assert e.t in Step(s, e).state.inFlight;
    }
  }

  lemma {:induction false} RunAwake(s: State, es: seq<Event>, early: seq<bool>)
    requires Awake(s, early)
    ensures Run(s, es).Next? && Awake(Run(s, es).state, Early(s, es, early))
    decreases |es|
  {
    hide Awake, NextEarly;
    if es != [] {
      StepAwake(s, es[0], early);
      RunAwake(After(s, es[0]).state, es[1..], NextEarly(s, es[0], early));
    }
  }

  /**
   In every run: when the loop is about to sleep over work nobody will tell it of, all of
   that work was posted, since the last swap, by the loop's own thread outside the running
   loop.
   */
  lemma LostOnlyEarly(es: seq<Event>)
    ensures Run(Init(), es).Next?
    ensures var s := Run(Init(), es).state; var early := Early(Init(), es, []);
            |early| == |s.pending| && (Lost(s) ==> true in early && false !in early)
  {
    RunAwake(Init(), es, []);
    hide Run, Early;
    var s, early := Run(Init(), es).state, Early(Init(), es, []);
    if Lost(s) {
      AllTrue(early);
    }
  }

  lemma AllTrue(bs: seq<bool>)
    requires bs != [] && false !in bs
    ensures true in bs
  {
    assert bs[0] in bs;
    assert bs[0] == true;
  }

  /** Told from the events: a wakeup was written since the descriptor was last read. */
  function NextWoken(s: State, e: Event, woken: bool): bool {
    if !Step(s, e).Next? then woken
    else match e
      case Wake(_) => true
      case LoopTest => woken || s.calling
      case ReadWakeup => false
      case _ => woken
  }

  function Woken(s: State, es: seq<Event>, woken: bool): bool
    decreases |es|
  {
    if es == [] then woken
    else match After(s, es[0])
      case Next(s') => Woken(s', es[1..], NextWoken(s, es[0], woken))
      case _ => woken
  }

  lemma StepWoken(s: State, e: Event, woken: bool)
    requires After(s, e).Next? && (s.counter > 0 <==> woken)
    ensures After(s, e).state.counter > 0 <==> NextWoken(s, e, woken)
  {
  }

  lemma {:induction false} RunWoken(s: State, es: seq<Event>, woken: bool)
    requires Run(s, es).Next? && (s.counter > 0 <==> woken)
    ensures Run(s, es).state.counter > 0 <==> Woken(s, es, woken)
    decreases |es|
  {
    hide Step, NextWoken;
    if es != [] {
      StepWoken(s, es[0], woken);
      RunWoken(After(s, es[0]).state, es[1..], NextWoken(s, es[0], woken));
    }
  }

  /**
   Exactly: the loop is about to sleep over work nobody will tell it of when all its work
   came from early posts, no wakeup was written since the last read, and nobody is about
   to write one.
   */
  lemma LostIff(es: seq<Event>)
    ensures Run(Init(), es).Next?
    ensures var s := Run(Init(), es).state; var early := Early(Init(), es, []);
            Lost(s) <==>
              && s.pc in {Top, Polling} && true in early && false !in early
              && !Woken(Init(), es, false) && s.inFlight == {}
  {
    LostOnlyEarly(es);
    RunWoken(Init(), es, false);
    hide Run, Early, Woken;
  }

  lemma {:induction false} NoneEarly(s: State, es: seq<Event>, early: seq<bool>)
    requires (forall e | e in es :: !e.IdlePush?) && true !in early
    ensures true !in Early(s, es, early)
    decreases |es|
  {
    hide Step;
    if es != [] && After(s, es[0]).Next? {
      assert es[0] in es;
      NoneEarly(After(s, es[0]).state, es[1..], NextEarly(s, es[0], early));
    }
  }

  /**
   So as long as that thread posts only from handlers and functors of the running loop,
   the loop never goes to sleep over a queue nobody will tell it of.
   */
  lemma NoLostWakeup(es: seq<Event>)
    requires forall e | e in es :: !e.IdlePush?
    ensures Run(Init(), es).Next? && !Lost(Run(Init(), es).state)
  {
    hide Run, Early;
    LostOnlyEarly(es);
    NoneEarly(Init(), es, []);
  }

  // ---- The one way to lose it ----

  /** The events of one undisturbed call of `queueInLoop` by thread t. */
  function Posting(t: Thread, id: nat): seq<Event> {
    if t == LOOP then [LoopPush(id), LoopTest] else [Push(t, id), Wake(t)]
  }

  /** The same call made before the loop runs. */
  function PostingEarly(t: Thread, id: nat): seq<Event> {
    if t == LOOP then [IdlePush(id), LoopTest] else [Push(t, id), Wake(t)]
  }

  lemma RunOne(s: State, e: Event)
    ensures Run(s, [e]) == After(s, e)
  {
    assert [e][1..] == [];
    assert After(s, e).Next? ==> Run(After(s, e).state, []) == After(s, e);
  }

  lemma RunTwo(s: State, e1: Event, e2: Event)
    requires After(s, e1).Next?
    ensures Run(s, [e1, e2]) == After(After(s, e1).state, e2)
  {
    assert [e1, e2][1..] == [e2];
    var s1 := After(s, e1).state;
    assert Run(s1, [e2]) == if After(s1, e2).Next? then Run(After(s1, e2).state, [e2][1..]) else Crashed;
    assert After(s1, e2).Next? || After(s1, e2).Crashed?;
  }

  lemma {:induction false} RunAppend(s: State, a: seq<Event>, b: seq<Event>)
    requires Run(s, a).Next?
    ensures Run(s, a + b) == Run(Run(s, a).state, b)
    decreases |a|
  {
    if a == [] {
      assert a + b == b;
    } else {
      assert (a + b)[1..] == a[1..] + b;
      RunAppend(After(s, a[0]).state, a[1..], b);
    }
  }

  /**
   A functor posted to a quiet loop before it starts is lost, until something
   else wakes the loop, exactly when the loop's own thread posted it.
   */
  lemma EarlyPostLostIff(s: State, t: Thread, id: nat)
    requires Tidy(s) && s.pc == Idle && !s.posting && s.counter == 0 && s.inFlight == {}
    ensures Run(s, PostingEarly(t, id) + [StartLoop, TestQuit]).Next?
    ensures var s' := Run(s, PostingEarly(t, id) + [StartLoop, TestQuit]).state;
            s'.pc == Polling && (Lost(s') <==> t == LOOP)
  {
    hide Run;
    var first := PostingEarly(t, id);
    RunTwo(s, first[0], first[1]);
    var s1 := Run(s, first).state;
    RunTwo(s1, StartLoop, TestQuit);
    RunAppend(s, first, [StartLoop, TestQuit]);
  }

  // ---- A round of the loop, and its end ----

  /** What the loop's own thread does next when left alone. */
  function LoopEvent(s: State): Event {
    if s.posting then LoopTest
    else match s.pc
      case Idle => StartLoop
      case Top => TestQuit
      case Polling => PollReturns(s.counter > 0)
      case Handling(wake) => if wake then ReadWakeup else EndHandling
      case Draining => TestPending
      case Calling => SwapBatch
      case Running(inside) => if inside then CallReturns else if s.batch == [] then EndBatch else CallNext
  }

  function Phase(pc: Pc): nat {
    match pc
    case Polling => 6
    case Handling(wake) => if wake then 5 else 4
    case Draining => 3
    case Calling => 2
    case Running(_) => 1
    case _ => 0
  }

  function ToGo(s: State): nat {
    (if s.pc == Running(true) then 1 else 0) + (if s.posting then 1 else 0)
  }

  /** The queue is emptied on the way from here to the top of the loop. */
  predicate Empties(s: State) {
    s.pc in {Polling, Draining, Calling} || s.pc.Handling? || (s.pc.Running? && s.pending == [])
  }

  /** So is the wakeup descriptor. */
  predicate Quietens(s: State) {
    !s.posting && (s.pc == Polling || s.pc == Handling(true) || s.counter == 0)
  }

  lemma LoopTurn(s: State)
    requires Tidy(s) && s.pc !in {Idle, Top}
    ensures var r := Step(s, LoopEvent(s));
            && r.Next? && Tidy(r.state) && r.state.pc != Idle && r.state.quit == s.quit && r.state.pushed == s.pushed
            && (Phase(r.state.pc) < Phase(s.pc) || (Phase(r.state.pc) == Phase(s.pc) &&
                 (|r.state.batch| < |s.batch| || (|r.state.batch| == |s.batch| && ToGo(r.state) < ToGo(s)))))
            && (Empties(s) ==> if r.state.pc == Top then r.state.pending == [] else Empties(r.state))
            && (Quietens(s) ==> Quietens(r.state))
  {
    StepTidy(s, LoopEvent(s));
  }

  /** Left alone, the loop comes back to its test of the quit flag. */
  lemma {:induction false} RoundFrom(s: State) returns (es: seq<Event>)
    requires Tidy(s) && s.pc != Idle && (s.pc == Top ==> !s.posting)
    ensures Run(s, es).Next? && (forall e | e in es :: !e.StartLoop?)
    ensures var r := Run(s, es).state;
            && Tidy(r) && r.pc == Top && r.quit == s.quit && r.pushed == s.pushed
            && (Empties(s) ==> r.pending == []) && (Quietens(s) ==> Quietens(r)) && (s.pc == Top ==> r == s)
    decreases Phase(s.pc), |s.batch|, ToGo(s)
  {
    hide Tidy, Empties, Quietens, Step;
    if s.pc == Top {
      es := [];
      TopIsEmpty(s);
    } else {
      LoopTurn(s);
      var e := LoopEvent(s);
      var s1 := Step(s, e).state;
      TopNotPosting(s1);
      var rest := RoundFrom(s1);
      es := [e] + rest;
      assert es[1..] == rest;
    }
  }

  lemma TopIsEmpty(s: State)
    requires s.pc == Top
    ensures !Empties(s)
  {
  }

  lemma TopNotPosting(s: State)
    requires Tidy(s)
    ensures s.pc == Top ==> !s.posting
  {
  }

  /**
   After every run that leaves the loop in its poll, the next round runs everything
   posted so far and leaves the descriptor read empty.
   */
  lemma NextRoundRunsAll(es: seq<Event>) returns (round: seq<Event>)
    requires Run(Init(), es).Next? && Run(Init(), es).state.pc == Polling
    ensures var s := Run(Init(), es).state; var r := Run(s, round);
            && r.Next? && r.state.pc == Top && r.state.pushed == s.pushed
            && r.state.executed == s.pushed && r.state.pending == [] && r.state.counter == 0
  {
    RunTidy(Init(), es);
    hide Run;
    var s := Run(Init(), es).state;
    round := RoundFrom(s);
    var r := Run(s, round).state;
    assert r.executed + [] + [] == r.executed;
  }

  lemma QuitStep(s: State, e: Event)
    requires s.quit && !e.StartLoop? && After(s, e).Next?
    ensures var s' := After(s, e).state;
            && s'.quit && (s'.pc == Polling ==> s.pc == Polling)
            && (s.pc == Top && !s.posting && e == TestQuit ==> s'.pc == Idle)
            && (s.pc == Idle ==> s'.pc == Idle)
  {
  }

  lemma {:induction false} QuitStays(s: State, es: seq<Event>)
    requires s.quit && (forall e | e in es :: !e.StartLoop?) && Run(s, es).Next?
    ensures var r := Run(s, es).state;
            r.quit && (r.pc == Polling ==> s.pc == Polling) && (s.pc == Idle ==> r.pc == Idle)
    decreases |es|
  {
    hide Step;
    if es != [] {
      assert es[0] in es;
      QuitStep(s, es[0]);
      QuitStays(After(s, es[0]).state, es[1..]);
    }
  }

  /**
   From a `quit` on, while `loop` is not entered again: the flag stays up, the next test of
   it leaves the loop, no poll begins and a loop left stays left, whatever other threads and
   callbacks do; and the loop's thread can get out.
   */
  lemma QuitEndsLoop(before: seq<Event>, middle: seq<Event>) returns (after: seq<Event>)
    requires forall e | e in middle :: !e.StartLoop?
    ensures Run(Init(), before + [Quit]).Next? && Run(Init(), before + [Quit] + middle).Next?
    ensures var s := Run(Init(), before + [Quit]).state; var m := Run(Init(), before + [Quit] + middle).state;
            && m.quit && (m.pc == Polling ==> s.pc == Polling) && (s.pc == Idle ==> m.pc == Idle)
            && (m.pc == Top ==> After(m, TestQuit) == Next(m.(pc := Idle)))
            && Run(m, after).Next? && Run(m, after).state.pc == Idle && (forall e | e in after :: !e.StartLoop?)
  {
    RunTidy(Init(), before);
    RunTidy(Init(), before + [Quit]);
    RunTidy(Init(), before + [Quit] + middle);
    RunAppend(Init(), before, [Quit]);
    RunAppend(Init(), before + [Quit], middle);
    var s0 := Run(Init(), before).state;
    QuitSets(s0);
    var s := Run(Init(), before + [Quit]).state;
    QuitStays(s, middle);
    var m := Run(s, middle).state;
    after := WayOut(m);
    TopNotPosting(m);
  }

  lemma QuitSets(s: State)
    ensures Run(s, [Quit]).Next? && Run(s, [Quit]).state.quit
  {
    assert [Quit][1..] == [];
  }

  lemma WayOut(m: State) returns (after: seq<Event>)
    requires Tidy(m) && m.quit
    ensures Run(m, after).Next? && Run(m, after).state.pc == Idle && (forall e | e in after :: !e.StartLoop?)
  {
    after := [];
    if m.pc != Idle {
      TopNotPosting(m);
      var round := RoundFrom(m);
      var r := Run(m, round).state;
      TopNotPosting(r);
      assert After(r, TestQuit) == Next(r.(pc := Idle));
      assert [TestQuit][1..] == [];
      RunAppend(m, round, [TestQuit]);
      after := round + [TestQuit];
    }
  }

  /** A `quit` made before `loop` is lost: entering the loop takes the flag down again. */
  lemma EarlyQuitIsLost(s: State)
    requires Tidy(s) && s.pc == Idle && !s.posting
    ensures Run(s, [Quit] + [StartLoop, TestQuit]).Next?
    ensures var r := Run(s, [Quit] + [StartLoop, TestQuit]).state; r.pc == Polling && !r.quit
  {
    hide Run;
    QuitSets(s);
    var s1 := s.(quit := true);
    assert Run(s, [Quit]) == Next(s1) by { RunOne(s, Quit); }
    RunTwo(s1, StartLoop, TestQuit);
    RunAppend(s, [Quit], [StartLoop, TestQuit]);
  }
}
