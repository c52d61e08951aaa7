/**
 Runs of the hand-over that fail, told state by state, on a server whose only loop is b:
 two closes of one connection; a send that runs between close and destruction; and one
 that runs after the destruction.
 */
module HandOverRuns {
  import opened Common
  import opened HandOver

  /** A run told state by state. */
  ghost predicate Story(ss: seq<State>, es: seq<Event>) {
    |ss| == |es| && forall k :: 0 <= k < |es| - 1 ==> Step(ss[k], es[k]) == Next(ss[k + 1])
  }

  lemma {:induction false} StoryCrashes(ss: seq<State>, es: seq<Event>)
    requires es != [] && Story(ss, es) && Step(ss[|es| - 1], es[|es| - 1]).Crashed?
    ensures Run(ss[0], es).Crashed?
    decreases |es|
  {
    hide Step;
    if |es| > 1 {
      assert Step(ss[0], es[0]) == Next(ss[1]);
      assert Story(ss[1..], es[1..]) by {
        forall k | 0 <= k < |es| - 2 ensures Step(ss[1..][k], es[1..][k]) == Next(ss[1..][k + 1]) {
          assert Step(ss[k + 1], es[k + 1]) == Next(ss[k + 2]);
        }
      }
      StoryCrashes(ss[1..], es[1..]);
    }
  }

  lemma {:induction false} StoryEnds(ss: seq<State>, es: seq<Event>)
    requires es != [] && Story(ss, es) && Step(ss[|es| - 1], es[|es| - 1]).Next?
    ensures Run(ss[0], es) == Step(ss[|es| - 1], es[|es| - 1])
    decreases |es|
  {
    hide Step;
    if |es| > 1 {
      assert Step(ss[0], es[0]) == Next(ss[1]);
      assert Story(ss[1..], es[1..]) by {
        forall k | 0 <= k < |es| - 2 ensures Step(ss[1..][k], es[1..][k]) == Next(ss[1..][k + 1]) {
          assert Step(ss[k + 1], es[k + 1]) == Next(ss[k + 2]);
        }
      }
      StoryEnds(ss[1..], es[1..]);
    } else {
      var s' := Step(ss[0], es[0]).state;
      assert es[1..] == [] && Run(s', []) == Next(s');
    }
  }

  // ---- One connection ----

  function Queue(b: Loop, ts: seq<Task>): multiset<(Loop, Task)> {
    if ts == [] then multiset{}
    else if |ts| == 1 then multiset{(b, ts[0])}
    else multiset{(b, ts[0]), (b, ts[1])}
  }

  /** Connection number 0 alone. */
  function Scene(b: Loop, r: Record, queued: seq<Task>, running: Option<Task>): State {
    State(b, 1, map[0 := r], Queue(b, queued), if running.Some? then map[b := running.value] else map[])
  }

  lemma SceneRuns(b: Loop, r: Record, q: seq<Task>, t: Task)
    ensures Idle(Scene(b, r, q, Some(t)), b) == Scene(b, r, q, None)
    ensures Go(Scene(b, r, q, None), b, t) == Scene(b, r, q, Some(t))
    ensures Idle(Scene(b, r, q, None), b) == Scene(b, r, q, None)
  {
    assert map[b := t] - {b} == map[];
  }

  lemma ScenePosts(b: Loop, r: Record, q: seq<Task>, t: Task)
    requires |q| <= 1
    ensures Post(Scene(b, r, q, None), b, t) == Scene(b, r, q + [t], None)
  {
    if q == [] {
      assert q + [t] == [t];
    } else {
      assert q + [t] == [q[0], t];
    }
  }

  lemma SceneSet(b: Loop, r: Record, r': Record, q: seq<Task>, t: Option<Task>)
    ensures Set(Scene(b, r, q, t), 0, r') == Scene(b, r', q, t)
    ensures !Clashes(Scene(b, r, q, t), 0)
  {
    var c: Conn := 0;
    assert map[c := r][c := r'] == map[c := r'];
  }

  /** The loop takes up the first of its functors. */
  lemma SceneBegins(b: Loop, r: Record, t: Task, rest: seq<Task>)
    requires |rest| <= 1
    ensures Step(Scene(b, r, [t] + rest, None), Begin(b, t)) == Next(Scene(b, r, rest, Some(t)))
  {
    SceneRuns(b, r, rest, t);
    if rest == [] {
      assert [t] + rest == [t];
      assert multiset{(b, t)} - multiset{(b, t)} == multiset{};
    } else {
      assert [t] + rest == [t, rest[0]];
      assert multiset{(b, t), (b, rest[0])} - multiset{(b, t)} == multiset{(b, rest[0])};
    }
  }

  // ---- The acts ----

  function Established1(b: Loop, fd: nat): Record {
    Fresh(b, fd).(state := Connected, inPoller := true, reading := true, acts := [Established])
  }

  function Closed1(r: Record): Record {
    r.(reading := false, writing := false, inPoller := true, acts := r.acts + [Closed])
  }

  function Removed1(r: Record): Record {
    r.(inServer := false, acts := r.acts + [Removed])
  }

  /** Accepted and established. */
  lemma Opening(b: Loop, fd: nat)
    ensures Step(Init(b), Accept(b, fd)) == Next(Scene(b, Fresh(b, fd), [], Some(Establish(0))))
    ensures Step(Scene(b, Fresh(b, fd), [], Some(Establish(0))), Work(b)) == Next(Scene(b, Established1(b, fd), [], None))
  {
    SceneRuns(b, Fresh(b, fd), [], Establish(0));
    SceneSet(b, Fresh(b, fd), Established1(b, fd), [], None);
    SceneSet(b, Fresh(b, fd), Established1(b, fd), [], Some(Establish(0)));
    assert [] + [Established] == [Established];
    var c: Conn := 0;
    assert map[][c := Fresh(b, fd)] == map[c := Fresh(b, fd)];
  }

  /** Closed by its handler and removed at once, with q still posted. */
  lemma Closing(b: Loop, r: Record, q: seq<Task>)
    requires r.loop == b && r.alive && Open(r) && r.inServer && r.acts == [Established] && |q| <= 1
    ensures Step(Scene(b, r, q, None), HandleClose(0)) == Next(Scene(b, Closed1(r), q, Some(Remove(0))))
    ensures Step(Scene(b, Closed1(r), q, Some(Remove(0))), Work(b)) == Next(Scene(b, Removed1(Closed1(r)), q, Some(Erased(0))))
    ensures Step(Scene(b, Removed1(Closed1(r)), q, Some(Erased(0))), Work(b)) == Next(Scene(b, Removed1(Closed1(r)), q + [Destroy(0)], None))
  {
    var r3 := Closed1(r);
    var r4 := Removed1(r3);
    SceneRuns(b, r3, q, Remove(0));
    SceneRuns(b, r3, q, Erased(0));
    SceneRuns(b, r4, q, Erased(0));
    ScenePosts(b, r4, q, Destroy(0));
    SceneSet(b, r, r3, q, None);
    SceneSet(b, r3, r4, q, Some(Erased(0)));
    assert r.acts[0] == Established;
  }

  /** Calls from outside: a force-close, a send, a shutdown behind a send, a send behind the destruction. */
  lemma CallsForce(b: Loop, r: Record)
    requires r.loop == b && r.alive && r.state == Connected
    ensures Step(Scene(b, r, [], None), ForceClose(0)) == Next(Scene(b, r.(state := Disconnecting), [ForceCloseIt(0)], None))
  {
    var r2 := r.(state := Disconnecting);
    ScenePosts(b, r2, [], ForceCloseIt(0));
    SceneSet(b, r, r2, [], None);
    assert [] + [ForceCloseIt(0)] == [ForceCloseIt(0)];
  }

  lemma CallsSend(b: Loop, r: Record, q: seq<Task>)
    requires r.loop == b && r.alive && r.state == Connected && |q| <= 1
    ensures Step(Scene(b, r, q, None), Send(0)) == Next(Scene(b, r, q + [SendIt(0)], None))
  {
    ScenePosts(b, r, q, SendIt(0));
  }

  lemma CallsShutdown(b: Loop, r: Record, q: seq<Task>)
    requires r.loop == b && r.alive && r.state == Connected
    ensures Step(Scene(b, r, q, None), Shutdown(0)) == Next(Scene(b, r.(state := Disconnecting), q, None))
  {
    SceneSet(b, r, r.(state := Disconnecting), q, None);
  }

  lemma SendLeaves(b: Loop, r: Record, q: seq<Task>)
    requires r.loop == b
    ensures Step(Scene(b, r, q, Some(SendIt(0))), WorkShort(b)) == Next(Scene(b, LeaveBytes(r), q, None))
  {
    SceneRuns(b, r, q, SendIt(0));
    SceneSet(b, r, LeaveBytes(r), q, None);
    SceneSet(b, r, LeaveBytes(r), q, Some(SendIt(0)));
  }

  // ---- Two closes ----

  /** The peer closes while a force-close is still posted: the second removal fails. */
  lemma TwoClosesCrash(b: Loop, fd: nat)
    ensures
      Run(Init(b), [Accept(b, fd), Work(b), ForceClose(0), HandleClose(0), Work(b), Work(b),
                    Begin(b, ForceCloseIt(0)), Work(b), Work(b)]).Crashed?
  {
    hide Step, Run, Scene;
    var f, d := ForceCloseIt(0), Destroy(0);
    var r0, r1 := Fresh(b, fd), Established1(b, fd);
    var r2 := r1.(state := Disconnecting);
    var r3 := Closed1(r2);
    var r4 := Removed1(r3);
    var r5 := Closed1(r4);
    Opening(b, fd);
    CallsForce(b, r1);
    Closing(b, r2, [f]);
    SceneBegins(b, r4, f, [d]);
    ForcedAgain(b, r4, r5);
    assert [f] + [d] == [f, d];
    var ss := [Init(b), Scene(b, r0, [], Some(Establish(0))), Scene(b, r1, [], None), Scene(b, r2, [f], None),
               Scene(b, r3, [f], Some(Remove(0))), Scene(b, r4, [f], Some(Erased(0))), Scene(b, r4, [f, d], None),
               Scene(b, r4, [d], Some(f)), Scene(b, r5, [d], Some(Remove(0)))];
    var es := [Accept(b, fd), Work(b), ForceClose(0), HandleClose(0), Work(b), Work(b), Begin(b, f), Work(b), Work(b)];
    assert Story(ss, es) by {
      forall k | 0 <= k < 8 ensures Step(ss[k], es[k]) == Next(ss[k + 1]) {
        if k < 4 {
          assert k == 0 || k == 1 || k == 2 || k == 3;
        } else {
          assert k == 4 || k == 5 || k == 6 || k == 7;
        }
      }
    }
    StoryCrashes(ss, es);
  }

  lemma ForcedAgain(b: Loop, r4: Record, r5: Record)
    requires r4.loop == b && r4.alive && Open(r4) && !r4.inServer && r4.inPoller && r5 == Closed1(r4)
    ensures Step(Scene(b, r4, [Destroy(0)], Some(ForceCloseIt(0))), Work(b)) == Next(Scene(b, r5, [Destroy(0)], Some(Remove(0))))
    ensures Step(Scene(b, r5, [Destroy(0)], Some(Remove(0))), Work(b)).Crashed?
  {
    SceneRuns(b, r5, [Destroy(0)], ForceCloseIt(0));
    SceneRuns(b, r5, [Destroy(0)], Remove(0));
    SceneSet(b, r4, r5, [Destroy(0)], Some(ForceCloseIt(0)));
  }

  // ---- A send between close and destruction ----

  /** Posted before `shutdown`, it runs after the one close and leaves bytes behind: the destruction fails. */
  lemma LateSendCrashes(b: Loop, fd: nat)
    ensures
      Run(Init(b), [Accept(b, fd), Work(b), Send(0), Shutdown(0), HandleClose(0), Work(b), Work(b),
                    Begin(b, SendIt(0)), WorkShort(b), Begin(b, Destroy(0)), Work(b)]).Crashed?
  {
    hide Step, Run, Scene;
    var x, d := SendIt(0), Destroy(0);
    var r0, r1 := Fresh(b, fd), Established1(b, fd);
    var r2 := r1.(state := Disconnecting);
    var r3 := Closed1(r2);
    var r4 := Removed1(r3);
    var r5 := LeaveBytes(r4);
    Opening(b, fd);
    CallsSend(b, r1, []);
    CallsShutdown(b, r1, [x]);
    assert [] + [x] == [x];
    Closing(b, r2, [x]);
    SceneBegins(b, r4, x, [d]);
    SendLeaves(b, r4, [d]);
    SceneBegins(b, r5, d, []);
    DestroyFails(b, r5);
    assert [x] + [d] == [x, d] && [d] + [] == [d];
    var ss := [Init(b), Scene(b, r0, [], Some(Establish(0))), Scene(b, r1, [], None), Scene(b, r1, [x], None), Scene(b, r2, [x], None),
               Scene(b, r3, [x], Some(Remove(0))), Scene(b, r4, [x], Some(Erased(0))), Scene(b, r4, [x, d], None),
               Scene(b, r4, [d], Some(x)), Scene(b, r5, [d], None), Scene(b, r5, [], Some(d))];
    var es := [Accept(b, fd), Work(b), Send(0), Shutdown(0), HandleClose(0), Work(b), Work(b),
               Begin(b, x), WorkShort(b), Begin(b, d), Work(b)];
    assert Story(ss, es) by {
      forall k | 0 <= k < 10 ensures Step(ss[k], es[k]) == Next(ss[k + 1]) {
        if k < 5 {
          assert k == 0 || k == 1 || k == 2 || k == 3 || k == 4;
        } else {
          assert k == 5 || k == 6 || k == 7 || k == 8 || k == 9;
        }
      }
    }
    StoryCrashes(ss, es);
  }

  lemma DestroyFails(b: Loop, r: Record)
    requires r.writing && r.state == Disconnecting
    ensures Step(Scene(b, r, [], Some(Destroy(0))), Work(b)).Crashed?
  {
  }

  /** The same run with the bytes written before the destruction comes up: it succeeds, and the connection's life is complete. */
  lemma DrainedSendIsDestroyed(b: Loop, fd: nat)
    ensures
      var r := Run(Init(b), [Accept(b, fd), Work(b), Send(0), Shutdown(0), HandleClose(0), Work(b), Work(b),
                             Begin(b, SendIt(0)), WorkShort(b), Drain(0), Begin(b, Destroy(0)), Work(b)]);
      r.Next? && 0 in r.state.conns && r.state.conns[0].acts == [Established, Closed, Removed, Destroyed]
      && !r.state.conns[0].inPoller && !r.state.conns[0].inServer
  {
    hide Step, Run, Scene, Closed1, Removed1, LeaveBytes;
    var x, d := SendIt(0), Destroy(0);
    var r0, r1 := Fresh(b, fd), Established1(b, fd);
    var r2 := r1.(state := Disconnecting);
    var r3 := Closed1(r2);
    var r4 := Removed1(r3);
    var r5 := LeaveBytes(r4);
    var r6 := r5.(writing := false);
    Opening(b, fd);
    CallsSend(b, r1, []);
    CallsShutdown(b, r1, [x]);
    assert [] + [x] == [x];
    Closing(b, r2, [x]);
    LateStages(b, r2);
    SceneBegins(b, r4, x, [d]);
    SendLeaves(b, r4, [d]);
    Drains(b, r5, [d]);
    SceneBegins(b, r6, d, []);
    DestroyWorks(b, r6);
    assert [x] + [d] == [x, d] && [d] + [] == [d];
    var ss := [Init(b), Scene(b, r0, [], Some(Establish(0))), Scene(b, r1, [], None), Scene(b, r1, [x], None), Scene(b, r2, [x], None),
               Scene(b, r3, [x], Some(Remove(0))), Scene(b, r4, [x], Some(Erased(0))), Scene(b, r4, [x, d], None),
               Scene(b, r4, [d], Some(x)), Scene(b, r5, [d], None), Scene(b, r6, [d], None), Scene(b, r6, [], Some(d))];
    var es := [Accept(b, fd), Work(b), Send(0), Shutdown(0), HandleClose(0), Work(b), Work(b),
               Begin(b, x), WorkShort(b), Drain(0), Begin(b, d), Work(b)];
    assert Story(ss, es) by {
      forall k | 0 <= k < 11 ensures Step(ss[k], es[k]) == Next(ss[k + 1]) {
        if k < 6 {
          assert k == 0 || k == 1 || k == 2 || k == 3 || k == 4 || k == 5;
        } else {
          assert k == 6 || k == 7 || k == 8 || k == 9 || k == 10;
        }
      }
    }
    StoryEnds(ss, es);
  }

  /**
   A close leaves the state kConnected, so a send made in the loop's own thread behind it still
   writes; with bytes left over and a `shutdown` behind that, the destruction fails too.
   */
  lemma LateDirectSendCrashes(b: Loop, fd: nat)
    ensures
      Run(Init(b), [Accept(b, fd), Work(b), HandleClose(0), Work(b), Work(b),
                    SendShort(0), Shutdown(0), Begin(b, Destroy(0)), Work(b)]).Crashed?
  {
    hide Step, Run, Scene, Closed1, Removed1, LeaveBytes;
    var d := Destroy(0);
    var r0, r1 := Fresh(b, fd), Established1(b, fd);
    var r3 := Closed1(r1);
    var r4 := Removed1(r3);
    var r5 := LeaveBytes(r4);
    var r6 := r5.(state := Disconnecting);
    Opening(b, fd);
    Closing(b, r1, []);
    DirectStages(b, r1);
    SendsShort(b, r4, [d]);
    CallsShutdown(b, r5, [d]);
    SceneBegins(b, r6, d, []);
    DestroyFails(b, r6);
    assert [] + [d] == [d] && [d] + [] == [d];
    var ss := [Init(b), Scene(b, r0, [], Some(Establish(0))), Scene(b, r1, [], None), Scene(b, r3, [], Some(Remove(0))),
               Scene(b, r4, [], Some(Erased(0))), Scene(b, r4, [d], None), Scene(b, r5, [d], None), Scene(b, r6, [d], None),
               Scene(b, r6, [], Some(d))];
    var es := [Accept(b, fd), Work(b), HandleClose(0), Work(b), Work(b), SendShort(0), Shutdown(0), Begin(b, d), Work(b)];
    assert Story(ss, es) by {
      forall k | 0 <= k < 8 ensures Step(ss[k], es[k]) == Next(ss[k + 1]) {
        if k < 4 {
          assert k == 0 || k == 1 || k == 2 || k == 3;
        } else {
          assert k == 4 || k == 5 || k == 6 || k == 7;
        }
      }
    }
    StoryCrashes(ss, es);
  }

  lemma DirectStages(b: Loop, r: Record)
    requires r.loop == b && r.alive && r.state == Connected
    ensures var r4 := Removed1(Closed1(r)); var r5 := LeaveBytes(r4);
            r4.loop == b && r4.alive && r4.state == Connected && r5.loop == b && r5.alive && r5.state == Connected && r5.writing
  {
  }

  lemma SendsShort(b: Loop, r: Record, q: seq<Task>)
    requires r.loop == b && r.alive && r.state == Connected
    ensures Step(Scene(b, r, q, None), SendShort(0)) == Next(Scene(b, LeaveBytes(r), q, None))
  {
    SceneSet(b, r, LeaveBytes(r), q, None);
  }

  lemma LateStages(b: Loop, r: Record)
    requires r.loop == b && r.alive && r.state == Disconnecting && r.acts == [Established]
    ensures var r4 := Removed1(Closed1(r)); var r5 := LeaveBytes(r4);
            && r4.loop == b && r5.loop == b && r5.alive && r5.writing && !r5.reading && r5.inPoller && !r5.inServer
            && r5.state == Disconnecting && r5.acts == [Established, Closed, Removed]
  {
  }

  lemma Drains(b: Loop, r: Record, q: seq<Task>)
    requires r.loop == b && r.alive && r.writing
    ensures Step(Scene(b, r, q, None), Drain(0)) == Next(Scene(b, r.(writing := false), q, None))
  {
    SceneSet(b, r, r.(writing := false), q, None);
  }

  lemma DestroyWorks(b: Loop, r: Record)
    requires r.loop == b && !r.writing && !r.reading && r.inPoller && r.state == Disconnecting
    requires r.acts == [Established, Closed, Removed]
    ensures Step(Scene(b, r, [], Some(Destroy(0))), Work(b))
         == Next(Scene(b, r.(inPoller := false, acts := [Established, Closed, Removed, Destroyed]), [], None))
    ensures forall r':: 0 in Scene(b, r', [], None).conns && Scene(b, r', [], None).conns[0] == r'
  {
    var r' := r.(inPoller := false, acts := [Established, Closed, Removed, Destroyed]);
    SceneRuns(b, r, [], Destroy(0));
    SceneSet(b, r, r', [], None);
    assert [Established, Closed, Removed] + [Destroyed] == [Established, Closed, Removed, Destroyed];
  }

  // ---- A send after the destruction ----

  /** Connection 0 is gone but stands in the poller; number 1 was accepted on the same descriptor. */
  function TwoScene(b: Loop, r: Record, fd: nat): State {
    State(b, 2, map[0 := r, 1 := Fresh(b, fd)], multiset{}, map[b := Establish(1)])
  }

  /**
   After a close that leaves the state kConnected a send still passes its test. Run behind
   connectDestroyed it leaves bytes and puts the channel back into the poller; the
   connection goes, and the next one on that descriptor cannot be established.
   */
  lemma RevivedChannelCrashes(b: Loop, fd: nat)
    ensures
      Run(Init(b), [Accept(b, fd), Work(b), HandleClose(0), Work(b), Work(b), Send(0), Begin(b, Destroy(0)), Work(b),
                    Begin(b, SendIt(0)), WorkShort(b), Release(0), Accept(b, fd), Work(b)]).Crashed?
  {
    hide Step, Run, Scene, TwoScene, Fresh, Established1, Closed1, Removed1, Destroyed1, LeaveBytes;
    var x, d := SendIt(0), Destroy(0);
    var r0, r1 := Fresh(b, fd), Established1(b, fd);
    var r3 := Closed1(r1);
    var r4 := Removed1(r3);
    var r5 := Destroyed1(r4);
    var r6 := LeaveBytes(r5);
    var r7 := r6.(alive := false);
    Stages(b, fd);
    Opening(b, fd);
    Closing(b, r1, []);
    CallsSend(b, r4, [d]);
    SceneBegins(b, r4, d, [x]);
    Destroying(b, r4, [x]);
    SceneBegins(b, r5, x, []);
    SendLeaves(b, r5, []);
    Reusing(b, r6, r7, fd);
    assert [] + [d] == [d] && [d] + [x] == [d, x] && [x] + [] == [x];
    var ss := [Init(b), Scene(b, r0, [], Some(Establish(0))), Scene(b, r1, [], None), Scene(b, r3, [], Some(Remove(0))),
               Scene(b, r4, [], Some(Erased(0))), Scene(b, r4, [d], None), Scene(b, r4, [d, x], None), Scene(b, r4, [x], Some(d)),
               Scene(b, r5, [x], None), Scene(b, r5, [], Some(x)), Scene(b, r6, [], None), Scene(b, r7, [], None),
               TwoScene(b, r7, fd)];
    var es := [Accept(b, fd), Work(b), HandleClose(0), Work(b), Work(b), Send(0), Begin(b, d), Work(b),
               Begin(b, x), WorkShort(b), Release(0), Accept(b, fd), Work(b)];
    assert Story(ss, es) by {
      forall k | 0 <= k < 12 ensures Step(ss[k], es[k]) == Next(ss[k + 1]) {
        if k < 4 {
          assert k == 0 || k == 1 || k == 2 || k == 3;
        } else if k < 8 {
          assert k == 4 || k == 5 || k == 6 || k == 7;
        } else {
          assert k == 8 || k == 9 || k == 10 || k == 11;
        }
      }
    }
    StoryCrashes(ss, es);
  }

  function Destroyed1(r: Record): Record {
    r.(state := Disconnected, inPoller := false, reading := false, writing := false, acts := r.acts + [Destroyed])
  }

  lemma Destroying(b: Loop, r: Record, q: seq<Task>)
    requires r.loop == b && r.state == Connected && r.inPoller
    ensures Step(Scene(b, r, q, Some(Destroy(0))), Work(b)) == Next(Scene(b, Destroyed1(r), q, None))
  {
    SceneRuns(b, r, q, Destroy(0));
    SceneSet(b, r, Destroyed1(r), q, None);
  }

  /** What the records of this run are like, as far as its steps ask. */
  lemma Stages(b: Loop, fd: nat)
    ensures var r := Established1(b, fd); r.loop == b && r.alive && Open(r) && r.inServer && r.acts == [Established]
    ensures var r := Removed1(Closed1(Established1(b, fd))); r.loop == b && r.alive && r.state == Connected && r.inPoller
    ensures var r := Destroyed1(Removed1(Closed1(Established1(b, fd)))); r.loop == b
    ensures var r := LeaveBytes(Destroyed1(Removed1(Closed1(Established1(b, fd)))));
            r.loop == b && r.fd == fd && r.alive && !r.inServer && r.inPoller
  {
  }

  lemma Reusing(b: Loop, r6: Record, r7: Record, fd: nat)
    requires r6.loop == b && r6.fd == fd && r6.alive && !r6.inServer && r6.inPoller && r7 == r6.(alive := false)
    ensures Step(Scene(b, r6, [], None), Release(0)) == Next(Scene(b, r7, [], None))
    ensures Step(Scene(b, r7, [], None), Accept(b, fd)) == Next(TwoScene(b, r7, fd))
    ensures Step(TwoScene(b, r7, fd), Work(b)).Crashed?
  {
    SceneSet(b, r6, r7, [], None);
    var c: Conn := 0;
    var n: Conn := 1;
    assert map[c := r7][n := Fresh(b, fd)] == map[c := r7, n := Fresh(b, fd)];
    var s := TwoScene(b, r7, fd);
    assert c in s.conns && s.conns[c].inPoller && s.conns[c].fd == s.conns[n].fd;
    assert Clashes(s, n);
  }
}
