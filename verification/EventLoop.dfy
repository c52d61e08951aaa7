/**
 The event loop object: the queue, the flag and the wakeup descriptor that
 Eventloop.cc updates, each method proved to run the protocol of LoopHandoff.dfy.
 The ghost fields say where in the protocol the threads are.
 */
module EventLoops {
  import opened Common
  import opened LoopHandoff

  class EventLoop {
    var pendingFuncs: seq<Task>
    var callingPendingFuncs: bool
    var quitFlag: bool
    var wakeups: nat
    var log: seq<Task>  // the functors called so far
    ghost var pc: Pc
    ghost var batch: seq<Task>
    ghost var inFlight: set<Thread>
    ghost var posting: bool
    ghost var pushed: seq<Task>

    ghost function View(): State
      reads this
    {
      State(pc, quitFlag, callingPendingFuncs, pendingFuncs, batch, log, wakeups, inFlight, posting, pushed)
    }

    constructor ()
      ensures View() == Init()
    {
      pendingFuncs, callingPendingFuncs, quitFlag, wakeups, log := [], false, false, 0, [];
      pc, batch, inFlight, posting, pushed := Idle, [], {}, false, [];
    }

    /** `quit`, from any thread. */
    method Quit()
      modifies this`quitFlag
      ensures Next(View()) == Step(old(View()), LoopHandoff.Quit) && quitFlag
    {
      quitFlag := true;
    }

    /** The entry of `loop`; its assertion that the loop is not running is the precondition. */
    method EnterLoop()
      requires pc == Idle && !posting
      modifies this`quitFlag, this`pc
      ensures Next(View()) == Step(old(View()), StartLoop) && !quitFlag
    {
      quitFlag := false;
      pc := Top;
    }

    /** The test in front of each round: on to the poll while the flag is down, out of `loop` otherwise. */
    method TestQuitFlag() returns (goesOn: bool)
      requires pc == Top && !posting
      modifies this`pc
      ensures Next(View()) == Step(old(View()), TestQuit)
      ensures goesOn == !quitFlag && pc == if goesOn then Polling else Idle
    {
      goesOn := !quitFlag;
      pc := if goesOn then Polling else Idle;
    }

    method Wakeup()
      modifies this`wakeups
      ensures wakeups == old(wakeups) + 1
    {
      wakeups := wakeups + 1;
    }

    /** `queueInLoop`, undisturbed between the push and the write; by the loop's thread also before or after `loop`. */
    method QueueInLoop(t: Thread, id: nat)
      requires if t == LOOP then (pc == Idle || pc.Handling? || pc == Running(true)) && !posting else t !in inFlight
      modifies this`pendingFuncs, this`wakeups, this`pushed
      ensures Run(old(View()), if pc == Idle then PostingEarly(t, id) else Posting(t, id)) == Next(View())
      ensures pendingFuncs == old(pendingFuncs) + [Task(t, id)]
      ensures wakeups == old(wakeups) + if t != LOOP || callingPendingFuncs then 1 else 0
    {
      hide Run, Step, Posting, PostingEarly;
      OnePost(View(), t, id);
      pendingFuncs := pendingFuncs + [Task(t, id)];
      pushed := pushed + [Task(t, id)];
      if t != LOOP || callingPendingFuncs {
        Wakeup();
      }
    }

    /** `handleRead`: empty the descriptor; an unreadable one aborts. */
    method HandleRead()
      requires Tidy(View()) && pc == Handling(true) && !posting
      modifies this`wakeups, this`pc
      ensures Next(View()) == Step(old(View()), ReadWakeup) && wakeups == 0
    {
      wakeups := 0;
      pc := Handling(false);
    }

    /**
     `doPendingFunctors`, where posts[k] is what is posted to the loop while the k-th
     functor runs: by the functor itself or by other threads, one post after the other.
     The functors pending at the swap are called in order; those posted meanwhile stay
     for the next round, with one wakeup each.
     */
    method DoPendingFunctors(posts: seq<seq<Post>>) returns (ghost trace: seq<Event>)
      requires Tidy(View()) && pc == Draining && !posting && |posts| == |pendingFuncs|
      requires forall ps | ps in posts :: CanPost(ps, inFlight)
      modifies this
      ensures Run(old(View()), trace) == Next(View()) && pc == Top
      ensures forall e | e in trace :: !e.IdlePush?
      ensures log == old(log) + old(pendingFuncs) && pendingFuncs == AllPosts(posts)
      ensures !callingPendingFuncs && wakeups == old(wakeups) + |pendingFuncs|
      ensures inFlight == old(inFlight)
    {
      TestAndSwap(View());
      if pendingFuncs == [] {
        trace := [TestPending];
        pc := Top;
      } else {
        trace := Drain(posts);
      }
    }

    /** The rest of `doPendingFunctors`, once the queue is seen not to be empty. */
    method Drain(posts: seq<seq<Post>>) returns (ghost trace: seq<Event>)
      requires Tidy(View()) && pc == Draining && !posting && |posts| == |pendingFuncs| > 0
      requires forall ps | ps in posts :: CanPost(ps, inFlight)
      modifies this`pc, this`callingPendingFuncs, this`log, this`batch, this`pendingFuncs, this`wakeups, this`pushed
      ensures Run(old(View()), trace) == Next(View()) && pc == Top && !callingPendingFuncs
      ensures forall e | e in trace :: !e.IdlePush?
      ensures log == old(log) + old(pendingFuncs) && pendingFuncs == AllPosts(posts)
      ensures wakeups == old(wakeups) + |pendingFuncs|
    {
      hide Run, Step, Tidy, AllPosts;
      TestAndSwap(View());
      ghost var s0 := View();
      callingPendingFuncs := true;
      var funcs := pendingFuncs;
      pendingFuncs := [];
      batch := funcs;
      pc := Running(false);
      ghost var sub := CallAll(funcs, posts);
      RunAppend(s0, [TestPending, SwapBatch], sub);
      trace := Finish(s0, [TestPending, SwapBatch] + sub, View());
      callingPendingFuncs := false;
      pc := Top;
    }

    /** The loop over the swapped-out batch. */
    method CallAll(funcs: seq<Task>, posts: seq<seq<Post>>) returns (ghost trace: seq<Event>)
      requires pc == Running(false) && !posting && callingPendingFuncs
      requires batch == funcs && pendingFuncs == [] && |posts| == |funcs|
      requires forall ps | ps in posts :: CanPost(ps, inFlight)
      modifies this`pc, this`log, this`batch, this`pendingFuncs, this`wakeups, this`pushed
      ensures Run(old(View()), trace) == Next(View()) && pc == Running(false) && batch == []
      ensures forall e | e in trace :: !e.IdlePush?
      ensures log == old(log) + funcs && pendingFuncs == AllPosts(posts) && wakeups == old(wakeups) + |pendingFuncs|
    {
      hide Step;
      ghost var s0 := View();
      trace := [];
      var k := 0;
      while k < |funcs|
        modifies this`pc, this`log, this`batch, this`pendingFuncs, this`wakeups, this`pushed
        invariant 0 <= k <= |funcs|
        invariant Run(s0, trace) == Next(View()) && pc == Running(false) && batch == funcs[k..]
        invariant forall e | e in trace :: !e.IdlePush?
        invariant log == s0.executed + funcs[..k] && pendingFuncs == AllPosts(posts[..k])
        invariant wakeups == s0.counter + |pendingFuncs|
      {
        hide Run;
        ghost var sub := CallOne(funcs[k], posts[k]);
        RunAppend(s0, trace, sub);
        trace := trace + sub;
        assert posts[..k + 1] == posts[..k] + [posts[k]];
        AllPostsSnoc(posts[..k], posts[k]);
        k := k + 1;
      }
      assert posts[..k] == posts && funcs[..k] == funcs;
    }

    /** One turn of the loop over the batch. */
    method CallOne(f: Task, ps: seq<Post>) returns (ghost trace: seq<Event>)
      requires pc == Running(false) && !posting && callingPendingFuncs && batch != [] && batch[0] == f
      requires CanPost(ps, inFlight)
      modifies this`pc, this`log, this`batch, this`pendingFuncs, this`wakeups, this`pushed
      ensures Run(old(View()), trace) == Next(View()) && pc == Running(false) && batch == old(batch)[1..]
      ensures forall e | e in trace :: !e.IdlePush?
      ensures log == old(log) + [f]
      ensures pendingFuncs == old(pendingFuncs) + Tasks(ps) && wakeups == old(wakeups) + |ps|
    {
      hide Run, Tasks;
      ghost var s0 := View();
      RunOne(s0, CallNext);
      trace := [CallNext];
      log := log + [f];
      batch := batch[1..];
      pc := Running(true);
      ghost var sub := PostAll(ps);
      RunAppend(s0, trace, sub);
      trace := Extend(s0, trace + sub, CallReturns);
      pc := Running(false);
    }

    /** One functor runs, as far as the loop sees it: these posts are made meanwhile. */
    method PostAll(ps: seq<Post>) returns (ghost trace: seq<Event>)
      requires pc == Running(true) && !posting && callingPendingFuncs && CanPost(ps, inFlight)
      modifies this`pendingFuncs, this`wakeups, this`pushed
      ensures Run(old(View()), trace) == Next(View())
      ensures forall e | e in trace :: !e.IdlePush?
      ensures pendingFuncs == old(pendingFuncs) + Tasks(ps) && wakeups == old(wakeups) + |ps|
    {
      ghost var s0 := View();
      trace := [];
      var k := 0;
      while k < |ps|
        modifies this`pendingFuncs, this`wakeups, this`pushed
        invariant 0 <= k <= |ps|
        invariant Run(s0, trace) == Next(View())
        invariant forall e | e in trace :: !e.IdlePush?
        invariant pendingFuncs == s0.pending + Tasks(ps[..k]) && wakeups == s0.counter + k
      {
        var p := ps[k];
        assert p in ps;
        RunAppend(s0, trace, Posting(p.poster, p.id));
        label before:
        QueueInLoop(p.poster, p.id);
        assert Run(old@before(View()), Posting(p.poster, p.id)) == Next(View());
        trace := trace + Posting(p.poster, p.id);
        assert Tasks(ps[..k + 1]) == Tasks(ps[..k]) + [Task(p.poster, p.id)];
        k := k + 1;
      }
      assert ps[..k] == ps;
    }
  }

  /** What one undisturbed post does. */
  lemma OnePost(s: State, t: Thread, id: nat)
    requires if t == LOOP then (s.pc == Idle || s.pc.Handling? || s.pc == Running(true)) && !s.posting else t !in s.inFlight
    ensures Run(s, if s.pc == Idle then PostingEarly(t, id) else Posting(t, id))
         == Next(s.(pending := s.pending + [Task(t, id)], pushed := s.pushed + [Task(t, id)],
                    counter := s.counter + if t != LOOP || s.calling then 1 else 0))
  {
    hide Run;
    var es := if s.pc == Idle then PostingEarly(t, id) else Posting(t, id);
    RunTwo(s, es[0], es[1]);
    assert t != LOOP ==> s.inFlight + {t} - {t} == s.inFlight;
  }

  /** A post to the loop, by its own thread or by another. */
  datatype Post = Post(poster: Thread, id: nat)

  predicate CanPost(ps: seq<Post>, inFlight: set<Thread>) {
    forall p | p in ps :: p.poster == LOOP || p.poster !in inFlight
  }

  function Tasks(ps: seq<Post>): (r: seq<Task>)
    ensures |r| == |ps|
  {
    seq(|ps|, i requires 0 <= i < |ps| => Task(ps[i].poster, ps[i].id))
  }

  function AllPosts(posts: seq<seq<Post>>): seq<Task> {
    if posts == [] then [] else Tasks(posts[0]) + AllPosts(posts[1..])
  }

  lemma {:induction false} AllPostsSnoc(posts: seq<seq<Post>>, ps: seq<Post>)
    ensures AllPosts(posts + [ps]) == AllPosts(posts) + Tasks(ps)
  {
    if posts == [] {
      assert posts + [ps] == [ps];
    } else {
      assert (posts + [ps])[1..] == posts[1..] + [ps];
      AllPostsSnoc(posts[1..], ps);
    }
  }

  /** The test of the queue, and the swap when there is something in it. */
  lemma TestAndSwap(s: State)
    requires Tidy(s) && s.pc == Draining && !s.posting
    ensures !s.calling && s.batch == []
    ensures s.pending == [] ==> Run(s, [TestPending]) == Next(s.(pc := Top))
    ensures s.pending != [] ==>
              Run(s, [TestPending, SwapBatch])
              == Next(s.(pc := Running(false), calling := true, batch := s.pending, pending := []))
  {
    RunOne(s, TestPending);
    if s.pending != [] {
      RunTwo(s, TestPending, SwapBatch);
    }
  }

  /** The batch is through. */
  ghost function Finish(s: State, trace: seq<Event>, s': State): (trace': seq<Event>)
    requires Run(s, trace) == Next(s') && s'.pc == Running(false) && s'.batch == [] && !s'.posting
    ensures trace' == trace + [EndBatch]
    ensures Run(s, trace') == Next(s'.(pc := Top, calling := false))
  {
    Extend(s, trace, EndBatch)
  }

  /** One more event at the end of a run. */
  ghost function Extend(s: State, trace: seq<Event>, e: Event): (trace': seq<Event>)
    requires Run(s, trace).Next?
    ensures trace' == trace + [e]
    ensures Run(s, trace') == After(Run(s, trace).state, e)
  {
    RunAppend(s, trace, [e]);
    RunOne(Run(s, trace).state, e);
    trace + [e]
  }
}
