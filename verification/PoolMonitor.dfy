/**
 The monitor of vserver/Threadpool.cc: a bounded queue, two condition variables
 with single signals, and a stop by broadcast. Condition variables are
 Mesa-style: a signal moves one waiter, if any, to those that still have to get
 the lock back; waiters can also wake for no reason. Every event list is a run.
 */
module PoolMonitor {
  import opened Common

  type Tid = nat
  type Task = nat

  datatype Worker = Looping | Entering | Waiting | Woken | Busy(task: Task) | Exited
  datatype Producer = Blocked(task: Task) | Roused(task: Task)

  datatype State = State(
    running: bool, bound: nat, tasks: seq<Task>,
    workers: map<Tid, Worker>, producers: map<Tid, Producer>,
    accepted: seq<Task>, taken: seq<Task>)

  datatype Event =
    | Test(w: Tid)                          // while (m_running)
    | Enter(w: Tid, wake: Option<Tid>)      // getTask takes the lock
    | Resume(w: Tid, wake: Option<Tid>)     // a woken worker gets the lock back
    | Finish(w: Tid)                        // the task returns
    | Add(p: Tid, task: Task, wake: Option<Tid>)  // addTask, from any thread, also from the task of a worker
    | Retry(p: Tid, wake: Option<Tid>)      // a woken producer gets the lock back
    | SpuriousWorker(w: Tid) | SpuriousProducer(p: Tid)
    | Stop

  function Init(bound: nat, ids: set<Tid>): State {
    State(true, bound, [], map w | w in ids :: Looping, map[], [], [])
  }

  function Sleeping(ws: map<Tid, Worker>): set<Tid> { set w | w in ws && ws[w] == Waiting }
  function Awoken(ws: map<Tid, Worker>): set<Tid> { set w | w in ws && ws[w] == Woken }
  function Stuck(ps: map<Tid, Producer>): set<Tid> { set p | p in ps && ps[p].Blocked? }
  function Freed(ps: map<Tid, Producer>): set<Tid> { set p | p in ps && ps[p].Roused? }

  predicate IsFull(s: State) {
    s.bound > 0 && |s.tasks| >= s.bound
  }

  /** A signal wakes one of the waiting threads, or nobody when none waits. */
  predicate Wakes(wake: Option<Tid>, waiting: set<Tid>) {
    match wake
    case None => waiting == {}
    case Some(t) => t in waiting
  }

  function SignalWorker(s: State, wake: Option<Tid>): State {
    match wake
    case None => s
    case Some(t) => s.(workers := s.workers[t := Woken])
  }

  function SignalProducer(s: State, wake: Option<Tid>): State
    requires wake.Some? ==> wake.value in s.producers
  {
    match wake
    case None => s
    case Some(t) => s.(producers := s.producers[t := Roused(s.producers[t].task)])
  }

  /** `getTask` from where the lock is held: wait, or leave with the front task, or with none. */
  function Get(s: State, w: Tid, wake: Option<Tid>): Outcome<State>
    requires w in s.workers
  {
    if s.tasks == [] && s.running then
      Next(s.(workers := s.workers[w := Waiting]))
    else if s.tasks == [] then
      Next(s.(workers := s.workers[w := Looping]))
    else
      var s1 := s.(workers := s.workers[w := Busy(s.tasks[0])], tasks := s.tasks[1..], taken := s.taken + [s.tasks[0]]);
      if s.bound == 0 then Next(s1)
      else if Wakes(wake, Stuck(s.producers)) then Next(SignalProducer(s1, wake))
      else Disabled
  }

  /** `addTask` from where the lock is held: wait while full, then push and signal, unless stopped. */
  function Put(s: State, p: Tid, task: Task, wake: Option<Tid>): Outcome<State> {
    if IsFull(s) && s.running then
      Next(s.(producers := s.producers[p := Blocked(task)]))
    else
      var s1 := s.(producers := s.producers - {p});
      if !s.running then Next(s1)
      else if Wakes(wake, Sleeping(s.workers)) then
        Next(SignalWorker(s1.(tasks := s.tasks + [task], accepted := s.accepted + [task]), wake))
      else Disabled
  }

  function WakeAllWorkers(ws: map<Tid, Worker>): map<Tid, Worker> {
    map w | w in ws :: if ws[w] == Waiting then Woken else ws[w]
  }

  function WakeAllProducers(ps: map<Tid, Producer>): map<Tid, Producer> {
    map p | p in ps :: Roused(ps[p].task)
  }

  function Step(s: State, e: Event): Outcome<State> {
    match e
    case Test(w) =>
      if w in s.workers && s.workers[w] == Looping
      then Next(s.(workers := s.workers[w := if s.running then Entering else Exited])) else Disabled
    case Enter(w, wake) =>
      if w in s.workers && s.workers[w] == Entering then Get(s, w, wake) else Disabled
    case Resume(w, wake) =>
      if w in s.workers && s.workers[w] == Woken then Get(s, w, wake) else Disabled
    case Finish(w) =>
      if w in s.workers && s.workers[w].Busy? && w !in s.producers then Next(s.(workers := s.workers[w := Looping])) else Disabled
    case Add(p, task, wake) =>
      if p in s.producers || (p in s.workers && !s.workers[p].Busy?) then Disabled else Put(s, p, task, wake)
    case Retry(p, wake) =>
      if p in s.producers && s.producers[p].Roused? then Put(s, p, s.producers[p].task, wake) else Disabled
    case SpuriousWorker(w) =>
      if w in s.workers && s.workers[w] == Waiting then Next(s.(workers := s.workers[w := Woken])) else Disabled
    case SpuriousProducer(p) =>
      if p in s.producers && s.producers[p].Blocked?
      then Next(s.(producers := s.producers[p := Roused(s.producers[p].task)])) else Disabled
    case Stop =>
      Next(s.(running := false, workers := WakeAllWorkers(s.workers), producers := WakeAllProducers(s.producers)))
  }

  function After(s: State, e: Event): State {
    if Step(s, e).Next? then Step(s, e).state else s
  }

  function Run(s: State, es: seq<Event>): State
    decreases |es|
  {
    if es == [] then s else Run(After(s, es[0]), es[1..])
  }

  // ---- The invariant ----

  /** While a worker sleeps, every queued task is already owed to a worker that was woken for it. */
  ghost predicate WorkersServed(s: State) {
    Sleeping(s.workers) != {} ==> |s.tasks| <= |Awoken(s.workers)|
  }

  /** While a producer sleeps, every free slot is already owed to a producer that was woken for it. */
  ghost predicate ProducersServed(s: State) {
    s.bound > 0 && Stuck(s.producers) != {} ==> s.bound - |s.tasks| <= |Freed(s.producers)|
  }

  ghost predicate Inv(s: State) {
    && WorkersServed(s) && ProducersServed(s)
    && (s.bound > 0 ==> |s.tasks| <= s.bound)
    && (s.bound == 0 ==> Stuck(s.producers) == {})
    && s.taken + s.tasks == s.accepted
    && (!s.running ==> Sleeping(s.workers) == {} && Stuck(s.producers) == {})
    && (s.running ==> forall w | w in s.workers :: s.workers[w] != Exited)
  }

  /** Moving one worker moves it between the sets and nobody else. */
  lemma MoveWorker(ws: map<Tid, Worker>, w: Tid, to: Worker)
    ensures var ws' := ws[w := to];
            && Sleeping(ws') == (if to == Waiting then Sleeping(ws) + {w} else Sleeping(ws) - {w})
            && Awoken(ws') == (if to == Woken then Awoken(ws) + {w} else Awoken(ws) - {w})
  {
  }

  lemma MoveProducer(ps: map<Tid, Producer>, p: Tid, to: Producer)
    ensures var ps' := ps[p := to];
            && Stuck(ps') == (if to.Blocked? then Stuck(ps) + {p} else Stuck(ps) - {p})
            && Freed(ps') == (if to.Roused? then Freed(ps) + {p} else Freed(ps) - {p})
  {
  }

  lemma DropProducer(ps: map<Tid, Producer>, p: Tid)
    ensures Stuck(ps - {p}) == Stuck(ps) - {p} && Freed(ps - {p}) == Freed(ps) - {p}
  {
  }

  /** A worker that has the lock either sleeps over an empty queue or takes one task, and was one of the woken or was not. */
  lemma GetServesWorkers(s: State, w: Tid, wake: Option<Tid>)
    requires Inv(s) && w in s.workers && s.workers[w] in {Entering, Woken}
    requires Get(s, w, wake).Next?
    ensures WorkersServed(Get(s, w, wake).state)
  {
    var s' := Get(s, w, wake).state;
    MoveWorker(s.workers, w, s'.workers[w]);
    hide Sleeping, Awoken, Stuck, Freed;
    assert |Awoken(s'.workers)| >= |Awoken(s.workers)| - 1;
  }

  /** One task fewer is one slot more, and one producer more has been woken for it. */
  lemma GetServesProducers(s: State, w: Tid, wake: Option<Tid>)
    requires Inv(s) && w in s.workers && s.workers[w] in {Entering, Woken}
    requires Get(s, w, wake).Next?
    ensures var s' := Get(s, w, wake).state;
            ProducersServed(s') && (!s.running || s.bound == 0 ==> Stuck(s'.producers) == {})
  {
    if s.tasks != [] && s.bound > 0 && wake.Some? {
      var p := wake.value;
      MoveProducer(s.producers, p, Roused(s.producers[p].task));
      assert p !in Freed(s.producers);
      hide Sleeping, Awoken, Stuck, Freed;
    }
  }

  lemma GetKeeps(s: State, w: Tid, wake: Option<Tid>)
    requires Inv(s) && w in s.workers && s.workers[w] in {Entering, Woken}
    requires Get(s, w, wake).Next?
    ensures Inv(Get(s, w, wake).state)
  {
    hide Sleeping, Awoken, Stuck, Freed, WorkersServed, ProducersServed;
    GetServesWorkers(s, w, wake);
    GetServesProducers(s, w, wake);
    GetSleepers(s, w, wake);
    var s' := Get(s, w, wake).state;
    if s.tasks != [] {
      assert s.tasks == [s.tasks[0]] + s.tasks[1..];
      assert s'.taken + s'.tasks == s.taken + s.tasks;
    }
  }

  /** In a stopped pool nobody goes to sleep. */
  lemma GetSleepers(s: State, w: Tid, wake: Option<Tid>)
    requires w in s.workers && Get(s, w, wake).Next?
    ensures var s' := Get(s, w, wake).state;
            !s.running && Sleeping(s.workers) == {} ==> Sleeping(s'.workers) == {}
    ensures var s' := Get(s, w, wake).state;
            (forall v | v in s.workers :: s.workers[v] != Exited) ==> forall v | v in s'.workers :: s'.workers[v] != Exited
  {
    var s' := Get(s, w, wake).state;
    assert s'.workers == s.workers[w := s'.workers[w]];
    MoveWorker(s.workers, w, s'.workers[w]);
    hide Sleeping, Awoken, Stuck, Freed;
  }

  lemma PutBlocks(s: State, p: Tid, task: Task, wake: Option<Tid>)
    requires Inv(s) && IsFull(s) && s.running
    ensures Put(s, p, task, wake).Next? && Inv(Put(s, p, task, wake).state)
  {
    MoveProducer(s.producers, p, Blocked(task));
    hide Sleeping, Awoken, Stuck, Freed;
  }

  /** One task more is one slot fewer and, if any worker sleeps, one worker more that is awake for it. */
  lemma PutServes(s: State, p: Tid, task: Task, wake: Option<Tid>)
    requires Inv(s) && (p in s.producers ==> s.producers[p].Roused?) && !(IsFull(s) && s.running)
    requires Put(s, p, task, wake).Next?
    ensures
      var s' := Put(s, p, task, wake).state;
      && WorkersServed(s') && ProducersServed(s')
      && (!s.running ==> Sleeping(s'.workers) == {}) && (!s.running || s.bound == 0 ==> Stuck(s'.producers) == {})
  {
    DropProducer(s.producers, p);
    if s.running && wake.Some? {
      MoveWorker(s.workers, wake.value, Woken);
      assert wake.value !in Awoken(s.workers);
    }
    hide Sleeping, Awoken, Stuck, Freed;
  }

  lemma PutKeeps(s: State, p: Tid, task: Task, wake: Option<Tid>)
    requires Inv(s) && (p in s.producers ==> s.producers[p].Roused?)
    requires Put(s, p, task, wake).Next?
    ensures Inv(Put(s, p, task, wake).state)
  {
    hide Sleeping, Awoken, Stuck, Freed, WorkersServed, ProducersServed;
    if IsFull(s) && s.running {
      PutBlocks(s, p, task, wake);
    } else {
      PutServes(s, p, task, wake);
      assert s.taken + (s.tasks + [task]) == s.accepted + [task];
    }
  }

  lemma StepKeeps(s: State, e: Event)
    requires Inv(s)
    ensures Inv(After(s, e))
    ensures !s.running ==> !After(s, e).running
  {
    hide Inv;
    if Step(s, e).Next? {
      match e
      case Enter(w, wake) => GetKeeps(s, w, wake);
      case Resume(w, wake) => GetKeeps(s, w, wake);
      case Add(p, task, wake) => PutKeeps(s, p, task, wake);
      case Retry(p, wake) => PutKeeps(s, p, s.producers[p].task, wake);
      case _ => OtherKeeps(s, e);
    }
  }

  lemma OtherKeeps(s: State, e: Event)
    requires Inv(s) && Step(s, e).Next?
    requires !e.Enter? && !e.Resume? && !e.Add? && !e.Retry?
    ensures Inv(Step(s, e).state)
  {
    var s' := Step(s, e).state;
    match e
    case Test(w) => QuietMove(s, w, s'.workers[w]);
    case Finish(w) => QuietMove(s, w, Looping);
    case SpuriousWorker(w) => QuietMove(s, w, Woken);
    case SpuriousProducer(p) =>
      MoveProducer(s.producers, p, s'.producers[p]);
      assert p !in Freed(s.producers);
      hide Sleeping, Awoken, Stuck, Freed;
    case Stop =>
      assert Sleeping(s'.workers) == {} && Stuck(s'.producers) == {};
      hide Sleeping, Awoken, Stuck, Freed;
  }

  /** A worker moves outside the queue: never to sleep, never out of the woken. */
  lemma QuietMove(s: State, w: Tid, to: Worker)
    requires Inv(s) && w in s.workers && s.workers[w] != Woken && to != Waiting && (to == Exited ==> !s.running)
    ensures Inv(s.(workers := s.workers[w := to]))
  {
    MoveWorker(s.workers, w, to);
    assert w !in Awoken(s.workers);
    hide Sleeping, Awoken, Stuck, Freed;
  }

  lemma InitInv(bound: nat, ids: set<Tid>)
    ensures Inv(Init(bound, ids))
  {
    assert Sleeping(Init(bound, ids).workers) == {};
  }

  lemma {:induction false} RunKeeps(s: State, es: seq<Event>)
    requires Inv(s)
    ensures Inv(Run(s, es)) && Run(s, es).bound == s.bound && Run(s, es).workers.Keys == s.workers.Keys
    decreases |es|
  {
    hide Inv;
    if es != [] {
      StepKeeps(s, es[0]);
      SameThreads(s, es[0]);
      RunKeeps(After(s, es[0]), es[1..]);
    }
  }

  lemma SameThreads(s: State, e: Event)
    requires Inv(s)
    ensures After(s, e).bound == s.bound && After(s, e).workers.Keys == s.workers.Keys
  {
  }

  // ---- Results about every run ----

  /** No run leaves every worker asleep in `getTask`, or gone, over a queue with work in it while the pool runs. */
  lemma NeverAllAsleep(bound: nat, ids: set<Tid>, es: seq<Event>)
    requires ids != {}
    ensures var s := Run(Init(bound, ids), es);
            s.running && s.tasks != [] ==> exists w :: w in s.workers && s.workers[w] !in {Waiting, Exited}
  {
    InitInv(bound, ids);
    RunKeeps(Init(bound, ids), es);
    var s := Run(Init(bound, ids), es);
    assert Init(bound, ids).workers.Keys == ids;
    hide Run;
    if s.running && s.tasks != [] {
      if Sleeping(s.workers) == {} {
        var w :| w in ids;
        assert w in s.workers && w !in Sleeping(s.workers);
      } else {
        assert Awoken(s.workers) != {};
        var w :| w in Awoken(s.workers);
        assert s.workers[w] == Woken;
      }
    }
  }

  /** A worker that needs no other thread to go on: it is on its way, or its task is not stuck in `addTask`. */
  predicate GoesOn(s: State, w: Tid) {
    && w in s.workers && s.workers[w] !in {Waiting, Exited}
    && !(s.workers[w].Busy? && w in s.producers && s.producers[w].Blocked?)
  }

  /**
   With work queued in a running pool, no worker can go on exactly when every one of them
   is in a task that is itself blocked in `addTask` of this pool.
   */
  lemma DeadlockIff(bound: nat, ids: set<Tid>, es: seq<Event>)
    requires ids != {}
    ensures var s := Run(Init(bound, ids), es);
            s.running && s.tasks != [] ==>
              ((forall w | w in s.workers :: !GoesOn(s, w))
               <==> forall w | w in s.workers :: s.workers[w].Busy? && w in s.producers && s.producers[w].Blocked?)
  {
    hide Run;
    InitInv(bound, ids);
    RunKeeps(Init(bound, ids), es);
    var s := Run(Init(bound, ids), es);
    if s.running && s.tasks != [] && forall w | w in s.workers :: !GoesOn(s, w) {
      AwakeGoesOn(s);
      forall w | w in s.workers ensures s.workers[w].Busy? && w in s.producers && s.producers[w].Blocked? {
        assert !GoesOn(s, w);
      }
    }
  }

  /** A sleeping worker over a queue with work in it means that another one was woken. */
  lemma AwakeGoesOn(s: State)
    requires Inv(s) && s.tasks != []
    ensures (forall w | w in s.workers :: !GoesOn(s, w)) ==> forall w | w in s.workers :: s.workers[w] != Waiting
  {
    if w :| w in s.workers && s.workers[w] == Waiting {
      assert w in Sleeping(s.workers);
      assert Awoken(s.workers) != {};
      var v :| v in Awoken(s.workers);
      assert GoesOn(s, v);
    }
  }

  lemma RunNext(s: State, e: Event, rest: seq<Event>)
    ensures Run(s, [e] + rest) == Run(After(s, e), rest) && Run(s, []) == s
  {
    assert ([e] + rest)[1..] == rest;
  }

  /** It happens with one worker and room for one task: the task running adds one to a queue that is full. */
  lemma OwnPoolDeadlocks(a: Task, b: Task, c: Task)
    ensures
      var s := Run(Init(1, {0}), [Add(1, a, None)] + ([Test(0)] + ([Enter(0, None)] + ([Add(1, b, None)] + ([Add(0, c, None)] + [])))));
      s.running && s.tasks == [b] && forall w | w in s.workers :: !GoesOn(s, w)
  {
    hide Run;
    var s0 := Init(1, {0});
    var s1 := s0.(tasks := [a], accepted := [a]);
    var s2 := s1.(workers := map[0 := Entering]);
    var s3 := s2.(workers := map[0 := Busy(a)], tasks := [], taken := [a]);
    var s4 := s3.(tasks := [b], accepted := [a, b]);
    var s5 := s4.(producers := map[0 := Blocked(c)]);
    var w: Tid := 0;
    assert s0.workers == map[w := Looping] && map[w := Looping][w := Entering] == map[w := Entering];
    assert map[w := Entering][w := Busy(a)] == map[w := Busy(a)];
    var none: map<Tid, Producer> := map[];
    assert none - {1} == none && none[w := Blocked(c)] == map[w := Blocked(c)];
    assert [] + [a] == [a] && [a][1..] == [] && [a] + [b] == [a, b] && [] + [b] == [b];
    assert Sleeping(s0.workers) == {} && Sleeping(s3.workers) == {} && Stuck(s2.producers) == {};
    assert After(s0, Add(1, a, None)) == s1;
    assert After(s1, Test(0)) == s2;
    assert After(s2, Enter(0, None)) == s3;
    assert After(s3, Add(1, b, None)) == s4;
    assert After(s4, Add(0, c, None)) == s5;
    RunNext(s0, Add(1, a, None), [Test(0)] + ([Enter(0, None)] + ([Add(1, b, None)] + ([Add(0, c, None)] + []))));
    RunNext(s1, Test(0), [Enter(0, None)] + ([Add(1, b, None)] + ([Add(0, c, None)] + [])));
    RunNext(s2, Enter(0, None), [Add(1, b, None)] + ([Add(0, c, None)] + []));
    RunNext(s3, Add(1, b, None), [Add(0, c, None)] + []);
    RunNext(s4, Add(0, c, None), []);
    RunNext(s5, Stop, []);
  }

  /** Nor every producer asleep while the queue has room. */
  lemma NoProducerForgotten(bound: nat, ids: set<Tid>, es: seq<Event>)
    requires bound > 0
    ensures var s := Run(Init(bound, ids), es);
            s.running && |s.tasks| < bound && Stuck(s.producers) != {} ==> Freed(s.producers) != {}
  {
    InitInv(bound, ids);
    RunKeeps(Init(bound, ids), es);
    hide Run;
  }

  /** First in, first out, nothing lost or invented, and never more than the bound. */
  lemma QueueIsFifo(bound: nat, ids: set<Tid>, es: seq<Event>)
    ensures var s := Run(Init(bound, ids), es);
            s.taken + s.tasks == s.accepted && s.taken <= s.accepted && (bound > 0 ==> |s.tasks| <= bound)
  {
    InitInv(bound, ids);
    RunKeeps(Init(bound, ids), es);
    hide Run;
  }

  lemma {:induction false} StaysStopped(s: State, es: seq<Event>)
    requires Inv(s) && !s.running
    ensures !Run(s, es).running
    decreases |es|
  {
    hide Inv;
    if es != [] {
      StepKeeps(s, es[0]);
      StaysStopped(After(s, es[0]), es[1..]);
    }
  }

  /** From a stop on, nobody is blocked on either condition variable, whatever else happens. */
  lemma NobodyBlockedAfterStop(bound: nat, ids: set<Tid>, before: seq<Event>, after: seq<Event>)
    ensures var s := Run(After(Run(Init(bound, ids), before), Stop), after);
            !s.running && Sleeping(s.workers) == {} && Stuck(s.producers) == {}
  {
    InitInv(bound, ids);
    RunKeeps(Init(bound, ids), before);
    var s1 := Run(Init(bound, ids), before);
    StepKeeps(s1, Stop);
    StaysStopped(After(s1, Stop), after);
    RunKeeps(After(s1, Stop), after);
    hide Run;
  }

  /** In every run: beside a sleeping worker all queued tasks are owed to woken ones, beside a sleeping producer all free slots. */
  lemma OwedToTheWoken(bound: nat, ids: set<Tid>, es: seq<Event>)
    ensures var s := Run(Init(bound, ids), es);
            && (Sleeping(s.workers) != {} ==> |s.tasks| <= |Awoken(s.workers)|)
            && (bound > 0 && Stuck(s.producers) != {} ==> bound - |s.tasks| <= |Freed(s.producers)|)
  {
    InitInv(bound, ids);
    RunKeeps(Init(bound, ids), es);
    hide Run, Sleeping, Awoken, Stuck, Freed;
  }

  // ---- What a stop leaves in the queue ----

  /** The workers that are in `getTask`, or past the test in front of it: each of them still takes one task, if there is one. */
  function Hungry(ws: map<Tid, Worker>): set<Tid> {
    set w | w in ws && ws[w] in {Entering, Waiting, Woken}
  }

  predicate Enough(s: State) {
    |s.tasks| <= |Hungry(s.workers)|
  }

  lemma MoveHungry(ws: map<Tid, Worker>, w: Tid, to: Worker)
    ensures Hungry(ws[w := to]) == if to in {Entering, Waiting, Woken} then Hungry(ws) + {w} else Hungry(ws) - {w}
  {
  }

  /** After a stop a worker that gets the lock takes a task or finds none, and is not hungry any more. */
  lemma GetFeeds(s: State, w: Tid, wake: Option<Tid>)
    requires !s.running && w in s.workers && s.workers[w] in {Entering, Woken} && Get(s, w, wake).Next?
    ensures Enough(Get(s, w, wake).state) <==> Enough(s)
    ensures Get(s, w, wake).state.accepted == s.accepted
  {
    var s' := Get(s, w, wake).state;
    assert s'.workers == s.workers[w := s'.workers[w]];
    MoveHungry(s.workers, w, s'.workers[w]);
    assert w in Hungry(s.workers);
    hide Hungry;
  }

  /** A worker that moves outside the queue, neither into `getTask` nor out of it. */
  lemma QuietFeeds(s: State, w: Tid, to: Worker)
    requires w in s.workers && (s.workers[w] in {Entering, Waiting, Woken} <==> to in {Entering, Waiting, Woken})
    ensures Hungry(s.workers[w := to]) == Hungry(s.workers)
  {
    MoveHungry(s.workers, w, to);
  }

  lemma PutFeeds(s: State, p: Tid, task: Task, wake: Option<Tid>)
    requires !s.running && Put(s, p, task, wake).Next?
    ensures Enough(Put(s, p, task, wake).state) <==> Enough(s)
    ensures Put(s, p, task, wake).state.accepted == s.accepted
  {
    hide Hungry;
  }

  lemma StepFeeds(s: State, e: Event)
    requires Inv(s) && !s.running
    ensures Enough(After(s, e)) <==> Enough(s)
    ensures After(s, e).accepted == s.accepted
  {
    hide Inv, Hungry, Get, Put, Wakes, WakeAllProducers, WakeAllWorkers;
    if Step(s, e).Next? {
      match e
      case Enter(w, wake) => GetFeeds(s, w, wake);
      case Resume(w, wake) => GetFeeds(s, w, wake);
      case Add(p, task, wake) => PutFeeds(s, p, task, wake);
      case Retry(p, wake) => PutFeeds(s, p, s.producers[p].task, wake);
      case Test(w) => QuietFeeds(s, w, Exited);
      case Finish(w) => QuietFeeds(s, w, Looping);
      case SpuriousWorker(w) => QuietFeeds(s, w, Woken);
      case Stop => StopKeepsEnough(s);
      case SpuriousProducer(_) =>
    }
  }

  lemma {:induction false} RunFeeds(s: State, es: seq<Event>)
    requires Inv(s) && !s.running
    ensures Enough(Run(s, es)) <==> Enough(s)
    ensures Run(s, es).accepted == s.accepted
    decreases |es|
  {
    hide Inv, Enough, Step;
    if es != [] {
      StepKeeps(s, es[0]);
      StepFeeds(s, es[0]);
      RunFeeds(After(s, es[0]), es[1..]);
    }
  }

  lemma StopKeepsEnough(s: State)
    ensures Enough(After(s, Stop)) <==> Enough(s)
  {
    assert Hungry(After(s, Stop).workers) == Hungry(s.workers);
  }

  /**
   When all workers have left after a stop, everything accepted has been taken exactly
   when, at the stop, no more tasks were queued than workers were in `getTask` or on
   their way into it.
   */
  lemma StopDrainsIff(bound: nat, ids: set<Tid>, before: seq<Event>, after: seq<Event>)
    requires
      var s := Run(After(Run(Init(bound, ids), before), Stop), after);
      forall w | w in s.workers :: s.workers[w] == Exited
    ensures
      var s0 := Run(Init(bound, ids), before);
      var s := Run(After(s0, Stop), after);
      s.taken == s.accepted <==> |s0.tasks| <= |Hungry(s0.workers)|
  {
    InitInv(bound, ids);
    RunKeeps(Init(bound, ids), before);
    var s0 := Run(Init(bound, ids), before);
    StepKeeps(s0, Stop);
    var s1 := After(s0, Stop);
    RunKeeps(s1, after);
    StopKeepsEnough(s0);
    RunFeeds(s1, after);
    var s := Run(s1, after);
    hide Run;
    assert Hungry(s.workers) == {};
    assert |s.taken| + |s.tasks| == |s.accepted|;
    assert s.tasks == [] ==> s.taken + s.tasks == s.taken;
  }

  // ---- Everybody leaves ----

  lemma {:induction false} RunAppend(s: State, a: seq<Event>, b: seq<Event>)
    ensures Run(s, a + b) == Run(Run(s, a), b)
    decreases |a|
  {
    hide After;
    if a == [] {
      assert a + b == b;
    } else {
      assert (a + b)[1..] == a[1..] + b;
      RunAppend(After(s, a[0]), a[1..], b);
    }
  }

  /** How many turns a worker of a stopped pool is from leaving its loop. */
  function TurnsLeft(s: State, w: Tid): nat
    requires w in s.workers
  {
    match s.workers[w]
    case Exited => 0
    case Looping => 1
    case Busy(_) => if w in s.producers then 3 else 2
    case _ => 4
  }

  /** A stopped pool lets every worker take its next turn, and the turn is its own. */
  lemma NextTurn(s: State, w: Tid) returns (e: Event)
    requires Inv(s) && !s.running && w in s.workers && s.workers[w] != Exited
    ensures Step(s, e).Next? && !After(s, e).running && Inv(After(s, e))
    ensures w in After(s, e).workers && TurnsLeft(After(s, e), w) < TurnsLeft(s, w)
    ensures After(s, e).workers == s.workers[w := After(s, e).workers[w]]
  {
    assert w !in Sleeping(s.workers) && w !in Stuck(s.producers);
    assert Stuck(s.producers) == {};
    e := match s.workers[w]
      case Looping => Test(w)
      case Busy(_) => if w in s.producers then Retry(w, None) else Finish(w)
      case Entering => Enter(w, None)
      case _ => Resume(w, None);
    hide Inv, Sleeping, Stuck;
    StepKeeps(s, e);
  }

  lemma {:induction false} OneLeaves(s: State, w: Tid) returns (es: seq<Event>)
    requires Inv(s) && !s.running && w in s.workers
    ensures var r := Run(s, es); Inv(r) && !r.running && r.workers == s.workers[w := Exited]
    decreases TurnsLeft(s, w)
  {
    hide Inv, After;
    if s.workers[w] == Exited {
      es := [];
      assert s.workers == s.workers[w := Exited];
    } else {
      var e := NextTurn(s, w);
      var rest := OneLeaves(After(s, e), w);
      es := [e] + rest;
      RunNext(s, e, rest);
    }
  }

  lemma {:induction false} AllLeave(s: State, left: set<Tid>) returns (es: seq<Event>)
    requires Inv(s) && !s.running && left <= s.workers.Keys
    requires forall w | w in s.workers && w !in left :: s.workers[w] == Exited
    ensures var r := Run(s, es); r.workers.Keys == s.workers.Keys && forall w | w in r.workers :: r.workers[w] == Exited
    decreases |left|
  {
    hide Inv, After;
    if left == {} {
      es := [];
    } else {
      var w :| w in left;
      var first := OneLeaves(s, w);
      var s1 := Run(s, first);
      assert s1.workers.Keys == s.workers.Keys;
      var rest := AllLeave(s1, left - {w});
      RunAppend(s, first, rest);
      es := first + rest;
    }
  }

  /**
   The join in `stop` can return: after any run, a stop, and anything that may follow,
   there is a way on after which every worker has left its loop; and what is then
   left in the queue stays there exactly when there was too much of it at the stop.
   */
  lemma WorkersLeaveAfterStop(bound: nat, ids: set<Tid>, before: seq<Event>, middle: seq<Event>) returns (after: seq<Event>)
    ensures var s0 := Run(Init(bound, ids), before);
            var s := Run(After(s0, Stop), middle + after);
            && s.workers.Keys == ids && (forall w | w in ids :: s.workers[w] == Exited)
            && (s.taken == s.accepted <==> |s0.tasks| <= |Hungry(s0.workers)|)
  {
    hide Inv, Hungry, Step, Run;
    InitInv(bound, ids);
    RunKeeps(Init(bound, ids), before);
    var s0 := Run(Init(bound, ids), before);
    StepKeeps(s0, Stop);
    SameThreads(s0, Stop);
    StopStops(s0);
    var s1 := After(s0, Stop);
    RunKeeps(s1, middle);
    StaysStopped(s1, middle);
    var s2 := Run(s1, middle);
    after := AllLeave(s2, s2.workers.Keys);
    RunAppend(s1, middle, after);
    assert Init(bound, ids).workers.Keys == ids;
    StopDrainsIff(bound, ids, before, middle + after);
  }

  lemma StopStops(s: State)
    ensures !After(s, Stop).running
  {
  }

  predicate AllGone(s: State) {
    forall w | w in s.workers :: s.workers[w] == Exited
  }

  lemma GoneStep(s: State, e: Event)
    requires !s.running && AllGone(s)
    ensures var s' := After(s, e); !s'.running && s'.workers == s.workers && s'.tasks == s.tasks && s'.taken == s.taken
    ensures e.Test? || e.Enter? || e.Resume? || e.Finish? || e.SpuriousWorker? ==> After(s, e) == s
  {
  }

  /** Once all have left, no worker does anything more, and the queue stays as it is, whatever is still called. */
  lemma {:induction false} NobodyComesBack(s: State, es: seq<Event>)
    requires !s.running && AllGone(s)
    ensures var r := Run(s, es); r.workers == s.workers && r.tasks == s.tasks && r.taken == s.taken
    decreases |es|
  {
    hide Step, After;
    if es != [] {
      GoneStep(s, es[0]);
      NobodyComesBack(After(s, es[0]), es[1..]);
    }
  }

  /** In a running pool a worker between two tasks takes the front of the queue, and one sleeping producer is woken for the slot. */
  lemma NextTaskTaken(bound: nat, ids: set<Tid>, es: seq<Event>, w: Tid, wake: Option<Tid>)
    requires var s := Run(Init(bound, ids), es);
             && s.running && s.tasks != [] && w in s.workers && s.workers[w] == Looping
             && Wakes(wake, Stuck(s.producers))
    ensures var s := Run(Init(bound, ids), es); var r := Run(s, [Test(w)] + ([Enter(w, wake)] + []));
            && r.workers == s.workers[w := Busy(s.tasks[0])] && r.tasks == s.tasks[1..]
            && r.taken == s.taken + [s.tasks[0]] && r.accepted == s.accepted
            && (forall p | p in s.producers :: p in r.producers && r.producers[p] ==
                  if bound > 0 && wake == Some(p) then Roused(s.producers[p].task) else s.producers[p])
  {
    InitInv(bound, ids);
    RunKeeps(Init(bound, ids), es);
    var s := Run(Init(bound, ids), es);
    hide Run, Inv;
    RunNext(s, Test(w), [Enter(w, wake)] + []);
    var s1 := s.(workers := s.workers[w := Entering]);
    assert After(s, Test(w)) == s1;
    RunNext(s1, Enter(w, wake), []);
    var s2 := After(s1, Enter(w, wake));
    RunNext(s2, Stop, []);
    assert s1.workers[w := Busy(s.tasks[0])] == s.workers[w := Busy(s.tasks[0])];
  }
}
