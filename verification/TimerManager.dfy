/**
 The timer manager of vserver/net/Timer.cc: the ordered set, the index and the kernel
 timer it updates in place. Every method is proved to make the corresponding
 steps of TimerModel.dfy; readings of the clock are parameters.
 */
module TimerManagers {
  import opened Common
  import opened TimerModel

  /** What the kernel timer was last given. */
  ghost predicate SpecAgrees(clock: Clock, spec: Spec) {
    match clock
    case Off => spec == Spec(0, 0)
    case Armed(target, since) => spec == SpecFor(target, since)
    case Expired(_) => true
  }

  /** What happens to the manager while a callback runs: its own two calls, and timers that other threads create meanwhile. */
  datatype Action = Add(expire: Time, now: Time) | Drop(id: nat, now: Time) | Other(expire: Time)

  function OtherIn(a: Action): seq<Time> {
    if a.Other? then [a.expire] else []
  }

  /** The timers of other threads among them. */
  function Others(acts: seq<Action>): seq<Time> {
    if acts == [] then [] else OtherIn(acts[0]) + Others(acts[1..])
  }

  lemma {:induction false} OthersSnoc(acts: seq<Action>, a: Action)
    ensures Others(acts + [a]) == Others(acts) + OtherIn(a)
  {
    hide OtherIn;
    if acts == [] {
      assert acts + [a] == [a];
      assert Others([a]) == OtherIn(a) + Others([]);
    } else {
      assert (acts + [a])[1..] == acts[1..] + [a];
      OthersSnoc(acts[1..], a);
      Assoc(OtherIn(acts[0]), Others(acts[1..]), OtherIn(a));
    }
  }

  function Expiries(ts: seq<Timer>): (r: seq<Time>)
    ensures |r| == |ts|
  {
    seq(|ts|, i requires 0 <= i < |ts| => ts[i].expire)
  }

  class TimerManager {
    var timers: seq<Timer>
    var table: map<nat, Timer>
    var expired: seq<Timer>
    var spec: Spec         // what the kernel timer was last given; zero when disarmed
    var count: nat         // Timer::count, shared by all managers
    ghost var clock: Clock
    ghost var toAdd: seq<Timer>
    ghost var batch: seq<Timer>
    ghost var fired: seq<nat>
    ghost var cancelled: seq<nat>
    ghost var others: seq<nat>

    ghost function View(): State
      reads this
    {
      State(timers, table, clock, count, toAdd, batch, fired, cancelled, others)
    }

    /** The protocol's invariant, and the kernel was given what the clock says. */
    ghost predicate Valid()
      reads this
    {
      Inv(View()) && SpecAgrees(clock, spec)
    }

    /** The counter goes on from where the other managers have brought it. */
    constructor (count: nat)
      ensures Valid() && View() == StartAt(count)
    {
      timers, table, expired, spec, this.count := [], map[], [], Spec(0, 0), count;
      clock, toAdd, batch, fired, cancelled, others := Off, [], [], [], [], StartAt(count).others;
      new;
      StartInv(count);
    }

    /** Another manager makes a timer and takes an id from the shared counter. */
    method CountElsewhere()
      requires Valid()
      modifies this`count, this`others
      ensures Valid() && Next(View()) == Step(old(View()), Elsewhere)
    {
      hide Inv, SpecAgrees;
      ElsewhereKeeps(View());
      ghost var next := Step(View(), Elsewhere).state;
      count := count + 1;
      others := others + [count];
      assert count == next.count && others == next.others;
      assert View() == next;
    }

    /** `resetTimerfd`. */
    method ResetTimerfd(expire: Time, now: Time)
      modifies this`spec, this`clock
      ensures spec == SpecFor(expire, now) && clock == Arm(expire, now)
    {
      var interval := TimeSub(expire, now);
      if interval < 100 {
        interval := 100;
      }
      spec := Spec(interval / 1000, (interval % 1000) * 1000);
      clock := Arm(expire, now);
    }

    method CloseClock()
      modifies this`spec, this`clock
      ensures spec == Spec(0, 0) && clock == Off
    {
      spec := Spec(0, 0);
      clock := Off;
    }

    /** Re-arm for the head, or switch off. */
    method Rearm(now: Time)
      modifies this`spec, this`clock
      ensures clock == if timers == [] then Off else Armed(timers[0].expire, now)
      ensures spec == if timers == [] then Spec(0, 0) else SpecFor(timers[0].expire, now)
    {
      if timers == [] {
        CloseClock();
      } else {
        ResetTimerfd(timers[0].expire, now);
      }
    }

    /** `addTimer`: make the timer, in whichever thread. */
    method CreateTimer(expire: Time) returns (t: Timer)
      requires Valid()
      modifies this`count, this`toAdd
      ensures Valid() && Next(View()) == Step(old(View()), Create(expire))
      ensures toAdd == old(toAdd) + [t] && t == Timer(count, expire)
    {
      hide Inv, SpecAgrees;
      CreateKeeps(View(), expire);
      ghost var next := Step(View(), Create(expire)).state;
      count := count + 1;
      t := Timer(count, expire);
      toAdd := toAdd + [t];
      assert count == next.count && toAdd == next.toAdd;
      assert View() == next;
    }

    /** `addTimerInloop`: into set and index; the kernel timer is set again only for a strictly earlier expiry than the head's. */
    method AddTimerInLoop(t: Timer, ghost k: nat, now: Time)
      requires Valid() && k < |toAdd| && toAdd[k] == t
      modifies this`timers, this`table, this`spec, this`clock, this`toAdd
      ensures Valid() && Next(View()) == Step(old(View()), AddInLoop(k, now))
      ensures forall x :: x in timers <==> x in old(timers) || x == t
      ensures toAdd == old(toAdd[..k] + toAdd[k + 1..]) && table == old(table)[t.id := t]
      ensures if old(timers) == [] || t.expire < old(timers)[0].expire
              then spec == SpecFor(t.expire, now) && clock == Armed(t.expire, now)
              else spec == old(spec) && clock == old(clock)
    {
      hide Inv, Insert, Less, Step;
      ghost var next := Added(View(), k, now);
      var isAddHead := false;
      if timers == [] || t.expire < timers[0].expire {
        isAddHead := true;
      }
      if isAddHead {
        ResetTimerfd(t.expire, now);
      }
      timers := Insert(timers, t);
      table := table[t.id := t];
      toAdd := toAdd[..k] + toAdd[k + 1..];
      assert timers == next.timers && table == next.table && clock == next.clock && toAdd == next.toAdd;
      assert View() == next;
    }

    /** `cancelInloop`: out of set and index; the kernel timer is touched only when the head goes. */
    method CancelInLoop(id: nat, now: Time)
      requires Valid()
      modifies this`timers, this`table, this`spec, this`clock, this`cancelled
      ensures Valid() && Next(View()) == Step(old(View()), Cancel(id, now))
      ensures table == old(table) - {id} && forall x :: x in timers <==> x in old(timers) && x.id != id
      ensures if old(timers) == [] || old(timers)[0].id != id then spec == old(spec) && clock == old(clock)
              else if timers == [] then spec == Spec(0, 0) && clock == Off
              else spec == SpecFor(timers[0].expire, now) && clock == Armed(timers[0].expire, now)
    {
      hide Inv, StepCancel, Without, Step;
      ghost var next := Cancelled(View(), id, now);
      if id !in table {
        return;
      }
      var target := table[id];
      assert target in timers;
      var isHead := timers[0] == target;
      timers := Without(timers, target);
      table := table - {id};
      assert |timers| == |table|;
      if isHead {
        Rearm(now);
      }
      cancelled := cancelled + [id];
      assert timers == next.timers && table == next.table && clock == next.clock && cancelled == next.cancelled;
      assert View() == next;
    }

    /** `fillExpired`. On an empty set the source dereferences the end, which fails. */
    method FillExpired(now: Time, later: Time) returns (ok: bool)
      requires Valid() && batch == []
      modifies this
      ensures ok <==> old(timers) != []
      ensures !ok ==> StepFill(old(View()), now, later).Crashed? && View() == old(View())
      ensures ok ==> Valid() && Next(View()) == StepFill(old(View()), now, later)
      ensures ok ==> expired == batch && toAdd == old(toAdd) && fired == old(fired)
      ensures ok ==> spec == if timers == [] then Spec(0, 0) else SpecFor(timers[0].expire, later)
    {
      ok := timers != [];
      if ok {
        FillSome(now, later);
      }
    }

    method FillSome(now: Time, later: Time)
      requires Valid() && batch == [] && timers != []
      modifies this
      ensures Valid() && Next(View()) == StepFill(old(View()), now, later)
      ensures expired == batch && toAdd == old(toAdd) && fired == old(fired)
      ensures spec == if timers == [] then Spec(0, 0) else SpecFor(timers[0].expire, later)
    {
      hide Inv, StepFill, Cut, SpecAgrees, IdSet, TimerModel.Rearm;
      FillSafe(View(), now, later);
      ghost var next := StepFill(View(), now, later).state;
      TakeExpired(now, later);
      assert timers == next.timers && table == next.table && clock == next.clock && count == next.count;
      assert batch == next.batch && others == next.others;
      assert View() == next;
    }

    /** The work of `fillExpired`: cut the set, clean the index, re-arm for the rest. */
    method TakeExpired(now: Time, later: Time)
      requires timers != []
      modifies this`timers, this`table, this`expired, this`batch, this`spec, this`clock, this`count, this`others
      ensures count == old(count) + 1 && others == old(others) + [count]
      ensures var it := Cut(old(timers), Timer(count, now));
              && expired == batch == old(timers)[..it] && timers == old(timers)[it..]
              && table == old(table) - IdSet(old(timers)[..it])
      ensures clock == TimerModel.Rearm(timers, later) && SpecAgrees(clock, spec)
      ensures spec == if timers == [] then Spec(0, 0) else SpecFor(timers[0].expire, later)
    {
      count := count + 1;
      others := others + [count];
      var it := CutOf(timers, Timer(count, now));
      expired := timers[..it];
      EraseIds(it);
      timers := timers[it..];
      batch := expired;
      Rearm(later);
    }

    /** Erase the first timers from the index, one by one. */
    method EraseIds(it: nat)
      requires it <= |timers|
      modifies this`table
      ensures table == old(table) - IdSet(timers[..it])
    {
      var i := 0;
      while i < it
        invariant 0 <= i <= it
        invariant table == old(table) - IdSet(timers[..i])
      {
        table := table - {timers[i].id};
        assert timers[..i + 1] == timers[..i] + [timers[i]];
        assert IdSet(timers[..i + 1]) == IdSet(timers[..i]) + {timers[i].id};
        i := i + 1;
      }
    }

    /**
     `handleRead`: take what has expired and run it, callback by callback. The k-th
     callback makes the calls in acts[k], so it can add and cancel timers; those that other
     threads create, before or meanwhile, are still to be added afterwards.
     */
    method HandleRead(now: Time, later: Time, acts: seq<seq<Action>>) returns (ok: bool, ghost trace: seq<Event>)
      requires Valid() && batch == []
      modifies this
      ensures ok <==> old(timers) != []
      ensures !ok ==> Run(old(View()), trace).Crashed?
      ensures ok ==> Valid() && Run(old(View()), trace) == Next(View())
      ensures ok ==> batch == [] && old(toAdd) <= toAdd
      ensures ok ==> fired == old(fired) + FiredIds(expired)
    {
      hide Inv, Step;
      ghost var s0 := View();
      trace := [TimerModel.HandleRead(now, later)];
      StepFillIs(s0, now, later);
      ok := FillExpired(now, later);
      if !ok {
        return;
      }
      var k := 0;
      while k < |expired|
        modifies this`timers, this`table, this`spec, this`clock, this`toAdd, this`count, this`cancelled, this`fired, this`batch
        invariant 0 <= k <= |expired|
        invariant Valid() && s0.toAdd <= toAdd && batch == expired[k..]
        invariant fired == s0.fired + FiredIds(expired[..k])
        invariant Run(s0, trace) == Next(View())
      {
        hide Run;
        assert expired[..k + 1] == expired[..k] + [expired[k]];
        ghost var sub := RunOne(expired[k], if k < |acts| then acts[k] else []);
        RunAppend(s0, trace, sub);
        trace := trace + sub;
        k := k + 1;
      }
      assert expired[..k] == expired;
    }

    /** Run the next expired timer. */
    method RunOne(t: Timer, acts: seq<Action>) returns (ghost trace: seq<Event>)
      requires Valid() && batch != [] && batch[0] == t
      modifies this`timers, this`table, this`spec, this`clock, this`toAdd, this`count, this`cancelled, this`fired, this`batch
      ensures Valid() && Run(old(View()), trace) == Next(View()) && old(toAdd) <= toAdd
      ensures Expiries(toAdd) == Expiries(old(toAdd)) + Others(acts)
      ensures fired == old(fired) + [t.id] && batch == old(batch)[1..]
    {
      hide Inv, Run, Step;
      ghost var s0 := View();
      FireIs(s0);
      trace := [Fire];
      fired := fired + [t.id];
      batch := batch[1..];
      ghost var sub := RunCallback(acts);
      RunAppend(s0, trace, sub);
      trace := trace + sub;
    }

    /** One callback, as far as the manager sees it. */
    method RunCallback(acts: seq<Action>) returns (ghost trace: seq<Event>)
      requires Valid()
      modifies this`timers, this`table, this`spec, this`clock, this`toAdd, this`count, this`cancelled
      ensures Valid() && Run(old(View()), trace) == Next(View()) && old(toAdd) <= toAdd
      ensures Expiries(toAdd) == Expiries(old(toAdd)) + Others(acts)
    {
      hide Inv, Step, Run, OtherIn;
      ghost var s0 := View();
      trace := [];
      NoEvents(s0);
      var j := 0;
      while j < |acts|
        modifies this`timers, this`table, this`spec, this`clock, this`toAdd, this`count, this`cancelled
        invariant 0 <= j <= |acts|
        invariant Valid() && s0.toAdd <= toAdd && Run(s0, trace) == Next(View())
        invariant Expiries(toAdd) == Expiries(s0.toAdd) + Others(acts[..j])
      {
        assert acts[..j + 1] == acts[..j] + [acts[j]];
        OthersSnoc(acts[..j], acts[j]);
        Assoc(Expiries(s0.toAdd), Others(acts[..j]), OtherIn(acts[j]));
        ghost var sub := RunAction(acts[j]);
        RunAppend(s0, trace, sub);
        trace := trace + sub;
        j := j + 1;
      }
      assert acts[..j] == acts;
    }

    /** One of the things a callback does, or another thread meanwhile. */
    method RunAction(a: Action) returns (ghost trace: seq<Event>)
      requires Valid()
      modifies this`timers, this`table, this`spec, this`clock, this`toAdd, this`count, this`cancelled
      ensures Valid() && Run(old(View()), trace) == Next(View()) && old(toAdd) <= toAdd
      ensures Expiries(toAdd) == Expiries(old(toAdd)) + OtherIn(a)
    {
      hide Inv, Step, Run;
      ghost var s0 := View();
      NoEvents(s0);
      match a {
        case Add(expire, now) =>
          trace := Extend(s0, [], Create(expire));
          var t := CreateTimer(expire);
          ghost var last := |toAdd| - 1;
          trace := Extend(s0, trace, AddInLoop(last, now));
          AddTimerInLoop(t, last, now);
          assert toAdd == s0.toAdd;
        case Drop(id, now) =>
          trace := Extend(s0, [], Cancel(id, now));
          CancelInLoop(id, now);
        case Other(expire) =>
          trace := Extend(s0, [], Create(expire));
          var t := CreateTimer(expire);
      }
    }
  }

  /** Where `fillExpired` cuts the set: after what is due, or after the head. */
  function Cut(ts: seq<Timer>, probe: Timer): (n: nat)
    requires ts != []
    ensures 0 < n <= |ts|
  {
    if UpperBound(ts, probe) == 0 then 1 else UpperBound(ts, probe)
  }

  method CutOf(ts: seq<Timer>, probe: Timer) returns (it: nat)
    requires ts != []
    ensures it == Cut(ts, probe)
  {
    it := UpperBoundOf(ts, probe);
    if it == 0 {
      it := 1;
    }
  }

  /** The scan behind `upper_bound`. */
  method UpperBoundOf(ts: seq<Timer>, probe: Timer) returns (k: nat)
    ensures k == UpperBound(ts, probe)
  {
    k := 0;
    while k < |ts| && !Less(probe, ts[k])
      invariant 0 <= k <= |ts|
      invariant UpperBound(ts, probe) == k + UpperBound(ts[k..], probe)
    {
      assert ts[k..][1..] == ts[k + 1..];
      k := k + 1;
    }
  }

  function FiredIds(ts: seq<Timer>): (r: seq<nat>)
    ensures |r| == |ts|
  {
    seq(|ts|, i requires 0 <= i < |ts| => ts[i].id)
  }

  /** The state `fillExpired` leaves, and that it keeps the invariant. */
  lemma FillSafe(s: State, now: Time, later: Time)
    requires Inv(s) && s.batch == [] && s.timers != []
    ensures StepFill(s, now, later).Next? && Inv(StepFill(s, now, later).state)
    ensures var n := Cut(s.timers, Timer(s.count + 1, now));
            StepFill(s, now, later).state
            == State(s.timers[n..], s.table - IdSet(s.timers[..n]), TimerModel.Rearm(s.timers[n..], later),
                     s.count + 1, s.toAdd, s.timers[..n], s.fired, s.cancelled, s.others + [s.count + 1])
  {
    hide Inv, IdSet, TimerModel.Rearm, UpperBound;
    FillKeeps(s, now, later);
  }

  lemma StepFillIs(s: State, now: Time, later: Time)
    requires s.batch == []
    ensures Run(s, [TimerModel.HandleRead(now, later)]) == StepFill(s, now, later)
  {
    NoEvents(s);
    var r := StepFill(s, now, later);
    assert After(s, TimerModel.HandleRead(now, later)) == r;
    assert [TimerModel.HandleRead(now, later)][1..] == [];
    if r.Next? {
      NoEvents(r.state);
    }
  }

  lemma NoEvents(s: State)
    ensures Run(s, []) == Next(s)
  {
  }

  lemma FireIs(s: State)
    requires Inv(s) && s.batch != []
    ensures Run(s, [Fire]) == Next(s.(batch := s.batch[1..], fired := s.fired + [s.batch[0].id]))
    ensures Inv(s.(batch := s.batch[1..], fired := s.fired + [s.batch[0].id]))
  {
    hide Inv;
    FirePlaces(s);
    NoEvents(Step(s, Fire).state);
    assert [Fire][1..] == [];
  }

  /** The state an insertion leaves. */
  ghost function Added(s: State, k: nat, now: Time): (s': State)
    requires Inv(s) && k < |s.toAdd|
    ensures Next(s') == Step(s, AddInLoop(k, now)) && Inv(s')
    ensures forall x :: x in s'.timers <==> x in s.timers || x == s.toAdd[k]
    ensures var t := s.toAdd[k];
            s' == State(Insert(s.timers, t), s.table[t.id := t],
                        if s.timers == [] || t.expire < s.timers[0].expire then Arm(t.expire, now) else s.clock,
                        s.count, s.toAdd[..k] + s.toAdd[k + 1..], s.batch, s.fired, s.cancelled, s.others)
  {
    AddKeeps(s, k, now);
    InsertSorted(s.timers, s.toAdd[k]);
    Step(s, AddInLoop(k, now)).state
  }

  /** The state a cancel leaves, known id or not; the assertions in it hold. */
  ghost function Cancelled(s: State, id: nat, now: Time): (s': State)
    requires Inv(s)
    ensures Next(s') == Step(s, Cancel(id, now)) && Inv(s')
    ensures id !in s.table ==> s' == s && forall x | x in s.timers :: x.id != id
    ensures s.timers != [] && s.timers[0].id == id <==> id in s.table && s.timers != [] && s.timers[0] == s.table[id]
    ensures id in s.table ==>
              var target := s.table[id]; var rest := Without(s.timers, target); var table := s.table - {id};
              && target in s.timers && |rest| == |table|
              && (forall x :: x in rest <==> x in s.timers && x.id != id)
              && s' == State(rest, table, if s.timers[0] == target then TimerModel.Rearm(rest, now) else s.clock,
                             s.count, s.toAdd, s.batch, s.fired, s.cancelled + [id], s.others)
  {
    CancelKeeps(s, id, now);
    CancelRemoves(s, id, now);
    StepCancel(s, id, now).state
  }

  lemma CancelRemoves(s: State, id: nat, now: Time)
    requires Inv(s)
    ensures id !in s.table ==> forall x | x in s.timers :: x.id != id
    ensures s.timers != [] && s.timers[0].id == id <==> id in s.table && s.timers != [] && s.timers[0] == s.table[id]
    ensures id in s.table ==>
              var target := s.table[id];
              target in s.timers && target.id == id && forall x :: x in Without(s.timers, target) <==> x in s.timers && x.id != id
  {
    assert s.timers != [] ==> s.timers[0] in s.timers;
    if id in s.table {
      var target := s.table[id];
      assert target in s.timers;
      WithoutSorted(s.timers, target);
      hide Without, OnePlace;
      forall x
        ensures x in Without(s.timers, target) <==> x in s.timers && x.id != id
      {
        assert x in s.timers && x.id == id ==> s.table[id] == x;
      }
    }
  }

  lemma {:induction false} RunAppend(s: State, a: seq<Event>, b: seq<Event>)
    requires Run(s, a).Next?
    ensures Run(s, a + b) == Run(Run(s, a).state, b)
    decreases |a|
  {
    hide Step;
    if a == [] {
      assert a + b == b;
    } else {
      assert (a + b)[1..] == a[1..] + b;
      RunAppend(After(s, a[0]).state, a[1..], b);
    }
  }

  /** One more event at the end of a run. */
  ghost function Extend(s: State, trace: seq<Event>, e: Event): (trace': seq<Event>)
    requires Run(s, trace).Next?
    ensures trace' == trace + [e]
    ensures Run(s, trace') == After(Run(s, trace).state, e)
  {
    RunAppend(s, trace, [e]);
    assert [e][1..] == [];
    var s1 := After(Run(s, trace).state, e);
    assert s1.Next? ==> Run(s1.state, []) == s1;
    trace + [e]
  }
}
