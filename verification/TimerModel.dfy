/**
 Timers, vserver/net/Timer.{h,cc}: a set ordered by (expire, id), an index by id and
 one kernel timer for the head. The machine's steps are the calls made in the
 loop's thread, the creations made in any thread, and the callbacks one by one,
 so that callbacks may add and cancel in between. Every event list is a run.
 */
module TimerModel {
  import opened Common

  const TWO64: int := 0x1_0000_0000_0000_0000
  type Time = t: int | 0 <= t < TWO64

  datatype Timer = Timer(id: nat, expire: Time)

  /** `Timer::Comparator`. */
  predicate Less(a: Timer, b: Timer) {
    if a.expire < b.expire then true
    else if a.expire == b.expire then a.id < b.id
    else false
  }

  /** The elements of a `std::set`, first to last. */
  predicate Sorted(ts: seq<Timer>) {
    forall i, j :: 0 <= i < j < |ts| ==> Less(ts[i], ts[j])
  }

  function Insert(ts: seq<Timer>, t: Timer): seq<Timer> {
    if ts == [] then [t]
    else if Less(t, ts[0]) then [t] + ts
    else if Less(ts[0], t) then [ts[0]] + Insert(ts[1..], t)
    else ts
  }

  /** `upper_bound`: the first position whose timer is past the probe. */
  function UpperBound(ts: seq<Timer>, probe: Timer): (k: nat)
    ensures k <= |ts|
  {
    if ts == [] || Less(probe, ts[0]) then 0 else 1 + UpperBound(ts[1..], probe)
  }

  function Without(ts: seq<Timer>, t: Timer): seq<Timer> {
    if ts == [] then [] else if ts[0] == t then ts[1..] else [ts[0]] + Without(ts[1..], t)
  }

  // ---- The kernel timer ----

  datatype Spec = Spec(sec: int, nsec: int)

  /** `TimeSub`: the 64-bit difference, read as signed. */
  function TimeSub(a: Time, b: Time): int {
    var d := (a - b) % TWO64;
    if d < TWO64 / 2 then d else d - TWO64
  }

  /** What `resetTimerfd` programs: the millisecond remainder is scaled by 1000. */
  function SpecFor(expire: Time, now: Time): Spec {
    var remaining := TimeSub(expire, now);
    var interval := if remaining < 100 then 100 else remaining;
    Spec(interval / 1000, (interval % 1000) * 1000)
  }

  function Nanoseconds(s: Spec): int { s.sec * 1_000_000_000 + s.nsec }

  /** Off, running since some time for an expiry, or run out and waiting to be read. */
  datatype Clock = Off | Armed(target: Time, since: Time) | Expired(target: Time)

  function Arm(expire: Time, now: Time): Clock { Armed(expire, now) }

  // ---- The machine ----

  datatype State = State(
    timers: seq<Timer>, table: map<nat, Timer>, clock: Clock,
    count: nat,              // Timer::count, one counter for all managers
    toAdd: seq<Timer>,       // created, not yet inserted
    batch: seq<Timer>,       // expired, not yet run
    fired: seq<nat>, cancelled: seq<nat>,
    others: seq<nat>)        // ids given to the probes of this manager, or to timers of others

  datatype Event =
    | Create(expire: Time)
    | AddInLoop(k: nat, now: Time)   // the k-th timer still to be added
    | Cancel(id: nat, now: Time)
    | KernelExpires
    | HandleRead(now: Time, later: Time)
    | Fire
    | Elsewhere                      // another manager makes a timer

  function Init(): State {
    State([], map[], Off, 0, [], [], [], [], [])
  }

  function Rearm(ts: seq<Timer>, now: Time): Clock {
    if ts == [] then Off else Arm(ts[0].expire, now)
  }

  function StepAdd(s: State, t: Timer, now: Time): State {
    var isHead := s.timers == [] || t.expire < s.timers[0].expire;
    s.(timers := Insert(s.timers, t), table := s.table[t.id := t],
       clock := if isHead then Arm(t.expire, now) else s.clock)
  }

  function StepCancel(s: State, id: nat, now: Time): Outcome<State> {
    if id !in s.table then Next(s)
    else
      var target := s.table[id];
      if target !in s.timers then Crashed  // the assertion after find
      else
        var isHead := s.timers[0] == target;
        var rest := Without(s.timers, target);
        var table := s.table - {id};
        if |rest| != |table| then Crashed
        else Next(s.(timers := rest, table := table, cancelled := s.cancelled + [id],
                     clock := if isHead then Rearm(rest, now) else s.clock))
  }

  function IdSet(ts: seq<Timer>): set<nat> { set t | t in ts :: t.id }

  /** `fillExpired`, with the probe timer it creates; on an empty set it dereferences the end. */
  function StepFill(s: State, now: Time, later: Time): Outcome<State> {
    if s.timers == [] then Crashed
    else
      var probe := Timer(s.count + 1, now);
      var k := UpperBound(s.timers, probe);
      var n := if k == 0 then 1 else k;
      var rest := s.timers[n..];
      Next(s.(batch := s.timers[..n], timers := rest, table := s.table - IdSet(s.timers[..n]),
              count := s.count + 1, others := s.others + [s.count + 1], clock := Rearm(rest, later)))
  }

  function Step(s: State, e: Event): Outcome<State> {
    match e
    case Create(expire) =>
      Next(s.(count := s.count + 1, toAdd := s.toAdd + [Timer(s.count + 1, expire)]))
    case AddInLoop(k, now) =>
      if k < |s.toAdd| then Next(StepAdd(s.(toAdd := s.toAdd[..k] + s.toAdd[k + 1..]), s.toAdd[k], now)) else Disabled
    case Cancel(id, now) => StepCancel(s, id, now)
    case KernelExpires => if s.clock.Armed? then Next(s.(clock := Expired(s.clock.target))) else Disabled
    case HandleRead(now, later) => if s.batch == [] then StepFill(s, now, later) else Disabled
    case Fire =>
      if s.batch == [] then Disabled else Next(s.(batch := s.batch[1..], fired := s.fired + [s.batch[0].id]))
    case Elsewhere => Next(s.(count := s.count + 1, others := s.others + [s.count + 1]))
  }

  function After(s: State, e: Event): Outcome<State> {
    if Step(s, e).Disabled? then Next(s) else Step(s, e)
  }

  function Run(s: State, es: seq<Event>): Outcome<State>
    decreases |es|
  {
    if es == [] then Next(s)
    else match After(s, es[0])
      case Next(s') => Run(s', es[1..])
      case _ => Crashed
  }

  // ---- What is kept ----

  function Ids(ts: seq<Timer>): multiset<nat> {
    if ts == [] then multiset{} else multiset{ts[0].id} + Ids(ts[1..])
  }

  /** Where every id given out is, with how often. */
  function Places(s: State): multiset<nat> {
    Ids(s.toAdd) + Ids(s.timers) + Ids(s.batch) + multiset(s.fired) + multiset(s.cancelled) + multiset(s.others)
  }

  /** Every id given out so far is in exactly one place. */
  ghost predicate OnePlace(s: State) {
    forall id: nat :: Places(s)[id] == if 1 <= id <= s.count then 1 else 0
  }

  /** The ordered set and the index hold the same timers. */
  ghost predicate Mirror(ts: seq<Timer>, table: map<nat, Timer>) {
    && (forall t | t in ts :: t.id in table && table[t.id] == t)
    && (forall id | id in table :: table[id].id == id && table[id] in ts)
  }

  /** The kernel timer is set exactly while there are timers, and for the head. */
  ghost predicate ClockAgrees(s: State) {
    if s.timers == [] then s.clock == Off else s.clock != Off && s.clock.target == s.timers[0].expire
  }

  ghost predicate Inv(s: State) {
    Sorted(s.timers) && Mirror(s.timers, s.table) && ClockAgrees(s) && OnePlace(s)
  }

  // ---- The ordered set ----

  lemma SortedTail(ts: seq<Timer>)
    requires Sorted(ts) && ts != []
    ensures Sorted(ts[1..]) && forall x | x in ts[1..] :: Less(ts[0], x)
    ensures forall x :: x in ts <==> x == ts[0] || x in ts[1..]
  {
    hide Less;
  }

  lemma SortedCons(t: Timer, ts: seq<Timer>)
    requires Sorted(ts) && forall x | x in ts :: Less(t, x)
    ensures Sorted([t] + ts) && forall x :: x in [t] + ts <==> x == t || x in ts
  {
    hide Less;
    forall i, j | 0 <= i < j < |[t] + ts| ensures Less(([t] + ts)[i], ([t] + ts)[j]) {
      assert ([t] + ts)[j] == ts[j - 1] && ts[j - 1] in ts;
    }
  }

  lemma BeforeHead(t: Timer, ts: seq<Timer>)
    requires Sorted(ts) && ts != [] && Less(t, ts[0])
    ensures forall x | x in ts :: Less(t, x)
  {
    SortedTail(ts);
  }

  lemma {:induction false} InsertSorted(ts: seq<Timer>, t: Timer)
    requires Sorted(ts)
    ensures Sorted(Insert(ts, t))
    ensures forall x :: x in Insert(ts, t) <==> x in ts || x == t
    ensures Insert(ts, t)[0] == if ts == [] || Less(t, ts[0]) then t else ts[0]
  {
    hide Sorted, Less;
    if ts == [] {
      SortedNone();
      SortedCons(t, []);
      assert [t] + [] == [t];
    } else if Less(t, ts[0]) {
      BeforeHead(t, ts);
      SortedCons(t, ts);
    } else {
      SortedTail(ts);
      if Less(ts[0], t) {
        InsertSorted(ts[1..], t);
        SortedCons(ts[0], Insert(ts[1..], t));
      } else {
        SameTimer(ts[0], t);
      }
    }
  }

  lemma SortedNone()
    ensures Sorted([])
  {
  }

  lemma SameTimer(a: Timer, b: Timer)
    requires !Less(a, b) && !Less(b, a)
    ensures a == b
  {
  }

  lemma {:induction false} InsertIds(ts: seq<Timer>, t: Timer)
    requires t !in ts
    ensures Ids(Insert(ts, t)) == Ids(ts) + multiset{t.id}
  {
    if ts == [] {
      assert Ids([t]) == multiset{t.id} + Ids([]);
    } else if Less(t, ts[0]) {
      assert ([t] + ts)[1..] == ts;
    } else {
      assert Less(ts[0], t) by {
        assert ts[0] in ts;
      }
      InsertIds(ts[1..], t);
      assert ([ts[0]] + Insert(ts[1..], t))[1..] == Insert(ts[1..], t);
    }
  }

  lemma {:induction false} WithoutSorted(ts: seq<Timer>, t: Timer)
    requires Sorted(ts) && t in ts
    ensures Sorted(Without(ts, t)) && |Without(ts, t)| == |ts| - 1
    ensures forall x :: x in Without(ts, t) <==> x in ts && x != t
    ensures t != ts[0] ==> Without(ts, t) != [] && Without(ts, t)[0] == ts[0]
  {
    hide Sorted, Less;
    SortedTail(ts);
    if ts[0] == t {
      NotBelowItself(t);
    } else {
      WithoutSorted(ts[1..], t);
      SortedCons(ts[0], Without(ts[1..], t));
      NotBelowItself(ts[0]);
    }
  }

  lemma NotBelowItself(t: Timer)
    ensures !Less(t, t)
  {
  }

  lemma {:induction false} WithoutIds(ts: seq<Timer>, t: Timer)
    requires t in ts
    ensures Ids(Without(ts, t)) + multiset{t.id} == Ids(ts)
  {
    if ts[0] != t {
      assert t in ts[1..];
      WithoutIds(ts[1..], t);
      assert ([ts[0]] + Without(ts[1..], t))[1..] == Without(ts[1..], t);
    }
  }

  /** The bound splits the set: everything before it is not past the probe, everything from it on is. */
  lemma {:induction false} UpperBoundSplits(ts: seq<Timer>, probe: Timer)
    requires Sorted(ts)
    ensures var k := UpperBound(ts, probe);
            && (forall i :: 0 <= i < k ==> !Less(probe, ts[i]))
            && (forall i :: k <= i < |ts| ==> Less(probe, ts[i]))
  {
    if ts != [] && !Less(probe, ts[0]) {
      UpperBoundSplits(ts[1..], probe);
      var k := UpperBound(ts, probe);
      forall i | 0 <= i < |ts|
        ensures if i < k then !Less(probe, ts[i]) else Less(probe, ts[i])
      {
        assert i > 0 ==> ts[i] == ts[1..][i - 1];
      }
    }
  }

  lemma {:induction false} IdsAppend(a: seq<Timer>, b: seq<Timer>)
    ensures Ids(a + b) == Ids(a) + Ids(b)
  {
    if a == [] {
      assert a + b == b;
    } else {
      assert (a + b)[1..] == a[1..] + b;
      IdsAppend(a[1..], b);
    }
  }

  lemma {:induction false} IdsMember(ts: seq<Timer>, t: Timer)
    requires t in ts
    ensures Ids(ts)[t.id] > 0
  {
    if ts[0] != t {
      IdsMember(ts[1..], t);
    }
  }

  lemma {:induction false} IdsSource(ts: seq<Timer>, id: nat)
    requires Ids(ts)[id] > 0
    ensures exists t :: t in ts && t.id == id
  {
    if ts[0].id != id {
      IdsSource(ts[1..], id);
    } else {
      assert ts[0] in ts;
    }
  }

  lemma MirrorTail(ts: seq<Timer>, table: map<nat, Timer>)
    requires ts != [] && Mirror(ts, table) && Sorted(ts)
    ensures Mirror(ts[1..], table - {ts[0].id})
  {
    var t := ts[0];
    forall x | x in ts[1..]
      ensures x.id in table && x.id != t.id && table[x.id] == x
    {
      assert x in ts && Less(t, x);
    }
    forall id | id in table && id != t.id
      ensures table[id] in ts[1..]
    {
      assert table[id] in ts && table[id] != t;
    }
  }

  /** The mirrored index is as large as the set. */
  lemma {:induction false} MirrorSize(ts: seq<Timer>, table: map<nat, Timer>)
    requires Mirror(ts, table) && Sorted(ts)
    ensures |table| == |ts|
  {
    if ts == [] {
      assert table.Keys == {};
    } else {
      MirrorTail(ts, table);
      assert ts[0] in ts;
      hide Mirror;
      var rest := table - {ts[0].id};
      MirrorSize(ts[1..], rest);
      assert table.Keys == rest.Keys + {ts[0].id};
      assert |table.Keys| == |rest.Keys| + 1;
    }
  }

  // ---- Every step keeps it ----

  lemma NewIdKeepsOnePlace(s: State, s': State)
    requires OnePlace(s) && s'.count == s.count + 1 && Places(s') == Places(s) + multiset{s.count + 1}
    ensures OnePlace(s')
  {
    hide Places;
    forall id: nat
      ensures Places(s')[id] == if 1 <= id <= s'.count then 1 else 0
    {
      assert multiset{s.count + 1}[id] == if id == s.count + 1 then 1 else 0;
      assert Places(s)[id] == if 1 <= id <= s.count then 1 else 0;
    }
  }

  lemma SamePlacesKeepOnePlace(s: State, s': State)
    requires OnePlace(s) && s'.count == s.count && Places(s') == Places(s)
    ensures OnePlace(s')
  {
    hide Places;
    forall id: nat
      ensures Places(s')[id] == if 1 <= id <= s'.count then 1 else 0
    {
      assert Places(s)[id] == if 1 <= id <= s.count then 1 else 0;
    }
  }

  /** Sums of places do not depend on the order, nor on which place holds x. */
  lemma Regroup(a: multiset<nat>, b: multiset<nat>, c: multiset<nat>, d: multiset<nat>, e: multiset<nat>, f: multiset<nat>,
                x: multiset<nat>)
    ensures (a + x) + b + c + d + e + f == a + b + c + d + e + f + x
    ensures a + (b + x) + c + d + e + f == a + b + c + d + e + f + x
    ensures a + b + (c + x) + d + e + f == a + b + c + d + e + f + x
    ensures a + b + (x + c) + d + e + f == a + b + c + d + e + f + x
    ensures a + b + c + (d + x) + e + f == a + b + c + d + e + f + x
    ensures a + b + c + d + (e + x) + f == a + b + c + d + e + f + x
    ensures a + b + c + d + e + (f + x) == a + b + c + d + e + f + x
  {
  }

  lemma TakeOut(ts: seq<Timer>, k: nat)
    requires k < |ts|
    ensures Ids(ts) == Ids(ts[..k] + ts[k + 1..]) + multiset{ts[k].id}
  {
    hide Ids;
    var front, back := ts[..k], ts[k + 1..];
    assert ts == front + ([ts[k]] + back);
    IdsAppend(front, [ts[k]] + back);
    IdsAppend(front, back);
    IdsCons(ts[k], back);
    Swing(Ids(front), multiset{ts[k].id}, Ids(back));
  }

  lemma IdsCons(t: Timer, ts: seq<Timer>)
    ensures Ids([t] + ts) == multiset{t.id} + Ids(ts)
  {
    assert ([t] + ts)[1..] == ts;
  }

  lemma Swing(a: multiset<nat>, x: multiset<nat>, b: multiset<nat>)
    ensures a + (x + b) == a + b + x
  {
  }

  lemma CreatePlaces(s: State, expire: Time)
    ensures Places(Step(s, Create(expire)).state) == Places(s) + multiset{s.count + 1}
  {
    hide Ids;
    var t := Timer(s.count + 1, expire);
    IdsAppend(s.toAdd, [t]);
    IdsCons(t, []);
    IdsNone();
    assert [t] + [] == [t];
    Regroup(Ids(s.toAdd), Ids(s.timers), Ids(s.batch), multiset(s.fired), multiset(s.cancelled), multiset(s.others),
            multiset{t.id});
  }

  lemma IdsNone()
    ensures Ids([]) == multiset{}
  {
  }

  lemma ElsewherePlaces(s: State)
    ensures Places(Step(s, Elsewhere).state) == Places(s) + multiset{s.count + 1}
  {
    hide Ids;
    var id := s.count + 1;
    assert multiset(s.others + [id]) == multiset(s.others) + multiset{id};
    Regroup(Ids(s.toAdd), Ids(s.timers), Ids(s.batch), multiset(s.fired), multiset(s.cancelled), multiset(s.others), multiset{id});
  }

  lemma ElsewhereKeeps(s: State)
    requires Inv(s)
    ensures Inv(Step(s, Elsewhere).state)
  {
    hide Places, OnePlace, Mirror, Sorted;
    ElsewherePlaces(s);
    NewIdKeepsOnePlace(s, Step(s, Elsewhere).state);
  }

  /** A manager made when n timers have already been made by others. */
  function StartAt(n: nat): State {
    if n == 0 then Init() else Step(StartAt(n - 1), Elsewhere).state
  }

  lemma {:induction false} StartInv(n: nat)
    ensures Inv(StartAt(n)) && StartAt(n).count == n
    ensures StartAt(n) == Init().(count := n, others := StartAt(n).others)
    ensures Run(Init(), seq(n, _ => Elsewhere)) == Next(StartAt(n))
  {
    hide Inv;
    if n == 0 {
      InitInv();
    } else {
      StartInv(n - 1);
      ElsewhereKeeps(StartAt(n - 1));
      RunElsewhere(Init(), n - 1);
    }
  }

  /** One more of them at the end. */
  lemma {:induction false} RunElsewhere(s: State, n: nat)
    ensures Run(s, seq(n, _ => Elsewhere)).Next?
    ensures Run(s, seq(n + 1, _ => Elsewhere)) == Step(Run(s, seq(n, _ => Elsewhere)).state, Elsewhere)
    decreases n
  {
    var es := seq(n + 1, _ => Elsewhere);
    var s' := After(s, Elsewhere).state;
    assert es[1..] == seq(n, _ => Elsewhere);
    if n > 0 {
      assert seq(n, _ => Elsewhere)[1..] == seq(n - 1, _ => Elsewhere);
      RunElsewhere(s', n - 1);
    } else {
      assert Run(s', es[1..]) == Next(s');
    }
  }

  lemma CreateKeeps(s: State, expire: Time)
    requires Inv(s)
    ensures Inv(Step(s, Create(expire)).state)
  {
    hide Places, OnePlace, Mirror, Sorted;
    CreatePlaces(s, expire);
    NewIdKeepsOnePlace(s, Step(s, Create(expire)).state);
  }

  /** A timer still to be added is neither in the set nor in the index. */
  lemma ToAddIsNew(s: State, k: nat)
    requires Inv(s) && k < |s.toAdd|
    ensures s.toAdd[k] !in s.timers && s.toAdd[k].id !in s.table
  {
    var t := s.toAdd[k];
    IdsMember(s.toAdd, t);
    assert Places(s)[t.id] <= 1;
    if t.id in s.table {
      assert s.table[t.id] in s.timers;
      IdsMember(s.timers, s.table[t.id]);
      assert false;
    }
  }

  lemma AddPlaces(s: State, k: nat, now: Time)
    requires Inv(s) && k < |s.toAdd|
    ensures OnePlace(Step(s, AddInLoop(k, now)).state)
  {
    var t := s.toAdd[k];
    var s' := Step(s, AddInLoop(k, now)).state;
    ToAddIsNew(s, k);
    InsertIds(s.timers, t);
    TakeOut(s.toAdd, k);
    hide Inv, Insert, Ids, Arm;
    Regroup(Ids(s'.toAdd), Ids(s.timers), Ids(s.batch), multiset(s.fired), multiset(s.cancelled), multiset(s.others),
            multiset{t.id});
    assert Places(s') == Places(s);
    SamePlacesKeepOnePlace(s, s');
  }

  lemma AddKeeps(s: State, k: nat, now: Time)
    requires Inv(s) && k < |s.toAdd|
    ensures Inv(Step(s, AddInLoop(k, now)).state)
  {
    var t := s.toAdd[k];
    var s' := Step(s, AddInLoop(k, now)).state;
    ToAddIsNew(s, k);
    InsertSorted(s.timers, t);
    AddPlaces(s, k, now);
    hide OnePlace, Insert;
    assert s'.timers != [];
    assert Mirror(s'.timers, s'.table) by {
      forall x | x in s'.timers
        ensures x.id in s'.table && s'.table[x.id] == x
      {
        assert x in s.timers || x == t;
      }
      forall id | id in s'.table
        ensures s'.table[id].id == id && s'.table[id] in s'.timers
      {
        assert id == t.id || id in s.table;
      }
    }
    assert ClockAgrees(s');
  }

  lemma CancelKeeps(s: State, id: nat, now: Time)
    requires Inv(s)
    ensures StepCancel(s, id, now).Next? && Inv(StepCancel(s, id, now).state)
  {
    if id in s.table {
      var t := s.table[id];
      var rest := Without(s.timers, t);
      var table := s.table - {id};
      WithoutSorted(s.timers, t);
      assert Mirror(rest, table) by {
        forall x | x in rest
          ensures x.id in table && table[x.id] == x
        {
          assert x in s.timers && x != t;
        }
      }
      MirrorSize(rest, table);
      CancelPlaces(s, id, now);
      hide OnePlace, Without;
      assert StepCancel(s, id, now).Next?;
    }
  }

  lemma CancelPlaces(s: State, id: nat, now: Time)
    requires Inv(s) && id in s.table && StepCancel(s, id, now).Next?
    ensures OnePlace(StepCancel(s, id, now).state)
  {
    var t := s.table[id];
    var s' := StepCancel(s, id, now).state;
    WithoutIds(s.timers, t);
    assert t.id == id;
    hide Inv, Without, Ids, Rearm, Sorted;
    assert multiset(s.cancelled + [id]) == multiset(s.cancelled) + multiset{id};
    Regroup(Ids(s.toAdd), Ids(s'.timers), Ids(s.batch), multiset(s.fired), multiset(s.cancelled), multiset(s.others),
            multiset{id});
    assert Places(s') == Places(s);
    SamePlacesKeepOnePlace(s, s');
  }

  lemma FirePlaces(s: State)
    requires Inv(s) && s.batch != []
    ensures Inv(Step(s, Fire).state)
  {
    var s' := Step(s, Fire).state;
    var id := s.batch[0].id;
    assert Ids(s.batch) == multiset{id} + Ids(s'.batch);
    assert multiset(s.fired + [id]) == multiset(s.fired) + multiset{id};
    hide Ids;
    Regroup(Ids(s.toAdd), Ids(s.timers), Ids(s'.batch), multiset(s.fired), multiset(s.cancelled), multiset(s.others),
            multiset{id});
    assert Places(s') == Places(s);
    SamePlacesKeepOnePlace(s, s');
  }

  /** What is cut off in front has other ids than the rest. */
  lemma SplitIds(ts: seq<Timer>, table: map<nat, Timer>, n: nat)
    requires Mirror(ts, table) && Sorted(ts) && n <= |ts|
    ensures forall x, y | x in ts[n..] && y in ts[..n] :: x.id != y.id
  {
    forall x, y | x in ts[n..] && y in ts[..n]
      ensures x.id != y.id
    {
      var j :| n <= j < |ts| && ts[j] == x;
      var i :| 0 <= i < n && ts[i] == y;
      assert x in ts && y in ts && Less(y, x);
    }
  }

  lemma MirrorSplit(ts: seq<Timer>, table: map<nat, Timer>, n: nat)
    requires Mirror(ts, table) && Sorted(ts) && n <= |ts|
    ensures Mirror(ts[n..], table - IdSet(ts[..n]))
  {
    hide Sorted;
    var front, rest := ts[..n], ts[n..];
    assert ts == front + rest;
    SplitIds(ts, table, n);
    forall x | x in rest
      ensures x.id in table && x.id !in IdSet(front) && table[x.id] == x
    {
      assert x in ts;
    }
    forall id | id in table && id !in IdSet(front)
      ensures table[id] in rest
    {
      assert table[id] in ts && table[id] !in front;
    }
  }

  /** `fillExpired` cuts the set in two after its due part, or after its head. */
  lemma FillCuts(s: State, now: Time, later: Time)
    requires s.timers != []
    ensures StepFill(s, now, later).Next?
    ensures var s' := StepFill(s, now, later).state; var n := |s'.batch|;
            && 0 < n <= |s.timers| && s'.batch == s.timers[..n] && s'.timers == s.timers[n..]
            && s' == s.(batch := s'.batch, timers := s'.timers, table := s.table - IdSet(s'.batch), count := s.count + 1,
                        others := s.others + [s.count + 1], clock := Rearm(s'.timers, later))
  {
  }

  lemma FillKeeps(s: State, now: Time, later: Time)
    requires Inv(s) && s.timers != [] && s.batch == []
    ensures StepFill(s, now, later).Next? && Inv(StepFill(s, now, later).state)
  {
    hide OnePlace, StepFill, Mirror, Less;
    FillCuts(s, now, later);
    FillPlaces(s, now, later);
    var s' := StepFill(s, now, later).state;
    MirrorSplit(s.timers, s.table, |s'.batch|);
  }

  lemma FillPlaces(s: State, now: Time, later: Time)
    requires Inv(s) && s.timers != [] && s.batch == []
    ensures OnePlace(StepFill(s, now, later).state)
  {
    FillCuts(s, now, later);
    assert Ids(s.batch) == multiset{} && OnePlace(s);
    hide Inv, Ids, StepFill, OnePlace, Places, Rearm;
    var s' := StepFill(s, now, later).state;
    assert s.timers == s'.batch + s'.timers;
    IdsAppend(s'.batch, s'.timers);
    var id := s.count + 1;
    assert multiset(s.others + [id]) == multiset(s.others) + multiset{id};
    MovedAndNew(s, s', id);
    NewIdKeepsOnePlace(s, s');
  }

  lemma MovedAndNew(s: State, s': State, id: nat)
    requires Ids(s.timers) == Ids(s'.batch) + Ids(s'.timers) && Ids(s.batch) == multiset{}
    requires s'.toAdd == s.toAdd && s'.fired == s.fired && s'.cancelled == s.cancelled
    requires multiset(s'.others) == multiset(s.others) + multiset{id}
    ensures Places(s') == Places(s) + multiset{id}
  {
    hide Ids;
    var a, d, e, f := Ids(s.toAdd), multiset(s.fired), multiset(s.cancelled), multiset(s.others);
    Regroup(a, Ids(s'.timers), Ids(s'.batch), d, e, f, multiset{id});
    assert Ids(s'.batch) + Ids(s'.timers) + multiset{} == Ids(s'.timers) + Ids(s'.batch);
    assert a + Ids(s.timers) + Ids(s.batch) == a + Ids(s'.timers) + Ids(s'.batch);
  }

  // ---- Results about every run ----

  lemma StepKeeps(s: State, e: Event)
    requires Inv(s) && !After(s, e).Crashed?
    ensures Inv(After(s, e).state)
    ensures multiset(s.cancelled) <= multiset(After(s, e).state.cancelled)
  {
    hide Inv;
    match e
    case Create(expire) => CreateKeeps(s, expire);
    case AddInLoop(k, now) => if k < |s.toAdd| { AddKeeps(s, k, now); }
    case Cancel(id, now) => CancelKeeps(s, id, now); assert multiset(s.cancelled) <= multiset(s.cancelled + [id]);
    case KernelExpires => ExpireKeeps(s);
    case HandleRead(now, later) => if s.batch == [] { FillKeeps(s, now, later); }
    case Fire => if s.batch != [] { FirePlaces(s); }
    case Elsewhere => ElsewhereKeeps(s);
  }

  lemma ExpireKeeps(s: State)
    requires Inv(s)
    ensures Inv(After(s, KernelExpires).state)
  {
    if s.clock.Armed? {
      SamePlacesKeepOnePlace(s, After(s, KernelExpires).state);
    }
  }

  /** The only step that can fail is reading an expiry with no timer left. */
  lemma CrashIff(s: State, e: Event)
    requires Inv(s)
    ensures After(s, e).Crashed? <==> e.HandleRead? && s.batch == [] && s.timers == []
  {
    hide Inv;
    match e
    case Cancel(id, now) => CancelKeeps(s, id, now);
    case _ =>
  }

  lemma InitInv()
    ensures Inv(Init())
  {
    assert Places(Init()) == multiset{};
  }

  lemma {:induction false} RunKeeps(s: State, es: seq<Event>)
    requires Inv(s) && Run(s, es).Next?
    ensures Inv(Run(s, es).state)
    ensures multiset(s.cancelled) <= multiset(Run(s, es).state.cancelled)
    decreases |es|
  {
    hide Inv, Step;
    if es != [] {
      StepKeeps(s, es[0]);
      RunKeeps(After(s, es[0]).state, es[1..]);
    }
  }

  /** After every run: set, index and kernel timer agree, and each id is in exactly one place. */
  lemma IndexAndClockAgree(es: seq<Event>)
    requires Run(Init(), es).Next?
    ensures var s := Run(Init(), es).state;
            && Mirror(s.timers, s.table) && |s.table| == |s.timers| && Sorted(s.timers)
            && (s.timers == [] <==> s.clock == Off)
            && (s.timers != [] ==> s.clock.target == s.timers[0].expire)
  {
    InitInv();
    RunKeeps(Init(), es);
    var s := Run(Init(), es).state;
    hide Run;
    MirrorSize(s.timers, s.table);
  }

  /** A timer fires at most once, and once it has fired it is nowhere else. */
  lemma FiresAtMostOnce(es: seq<Event>, id: nat)
    requires Run(Init(), es).Next?
    ensures var s := Run(Init(), es).state;
            && multiset(s.fired)[id] <= 1
            && (id in s.fired ==> id !in s.cancelled && forall t | t in s.toAdd + s.timers + s.batch :: t.id != id)
            && (1 <= id <= s.count ==> Places(s)[id] == 1)
  {
    InitInv();
    RunKeeps(Init(), es);
    var s := Run(Init(), es).state;
    hide Run;
    assert Places(s)[id] <= 1;
    if id in s.fired {
      forall t | t in s.toAdd + s.timers + s.batch
        ensures t.id != id
      {
        if t.id == id {
          if t in s.toAdd { IdsMember(s.toAdd, t); }
          if t in s.timers { IdsMember(s.timers, t); }
          if t in s.batch { IdsMember(s.batch, t); }
          assert false;
        }
      }
    }
  }

  /** A cancel that finds its timer is final: whatever happens next, that timer does not fire. */
  lemma CancelIsFinal(before: seq<Event>, id: nat, now: Time, after: seq<Event>)
    requires Run(Init(), before).Next? && id in Run(Init(), before).state.table
    requires After(Run(Init(), before).state, Cancel(id, now)).Next?
    requires Run(After(Run(Init(), before).state, Cancel(id, now)).state, after).Next?
    ensures var s := Run(After(Run(Init(), before).state, Cancel(id, now)).state, after).state;
            id !in s.fired && id in s.cancelled
  {
    hide Run, Inv, Step;
    InitInv();
    RunKeeps(Init(), before);
    var s0 := Run(Init(), before).state;
    StepKeeps(s0, Cancel(id, now));
    var s1 := After(s0, Cancel(id, now)).state;
    RunKeeps(s1, after);
    CancelRecorded(s0, id, now);
    CancelledNeverFires(Run(s1, after).state, s1, id);
  }

  lemma CancelRecorded(s: State, id: nat, now: Time)
    requires id in s.table && After(s, Cancel(id, now)).Next?
    ensures id in After(s, Cancel(id, now)).state.cancelled
  {
  }

  lemma CancelledNeverFires(s: State, s1: State, id: nat)
    requires Inv(s) && id in s1.cancelled && multiset(s1.cancelled) <= multiset(s.cancelled)
    ensures id !in s.fired && id in s.cancelled
  {
    assert multiset(s1.cancelled)[id] >= 1 && multiset(s.cancelled)[id] >= 1;
    assert Places(s)[id] <= 1;
    hide Ids;
  }

  // ---- Expiry ----

  /**
   From a non-empty set, reading an expiry takes exactly the timers that are due, in
   order, or, when none is due yet, the least one alone.
   */
  lemma ExpiryIsExact(es: seq<Event>, now: Time, later: Time)
    requires Run(Init(), es).Next?
    requires var s := Run(Init(), es).state; s.batch == [] && s.timers != []
    ensures var s := Run(Init(), es).state; var r := StepFill(s, now, later);
            && r.Next? && Sorted(r.state.batch) && r.state.batch + r.state.timers == s.timers
            && (if exists t :: t in s.timers && t.expire <= now
                then forall t | t in s.timers :: t in r.state.batch <==> t.expire <= now
                else r.state.batch == [s.timers[0]])
            && r.state.table.Keys == s.table.Keys - IdSet(r.state.batch)
  {
    InitInv();
    RunKeeps(Init(), es);
    var s := Run(Init(), es).state;
    hide Run;
    FillTakesDue(s, now, later);
  }

  /** The probe's fresh id is above all others, so it comes right after the last timer due at its time. */
  lemma FillTakesDue(s: State, now: Time, later: Time)
    requires Inv(s) && s.batch == [] && s.timers != []
    ensures var r := StepFill(s, now, later);
            && r.Next? && Sorted(r.state.batch) && r.state.batch + r.state.timers == s.timers
            && (if exists t :: t in s.timers && t.expire <= now
                then forall t | t in s.timers :: t in r.state.batch <==> t.expire <= now
                else r.state.batch == [s.timers[0]])
            && r.state.table.Keys == s.table.Keys - IdSet(r.state.batch)
  {
    hide Inv, UpperBound, StepFill, Less, IdSet, Sorted;
    FillCuts(s, now, later);
    ProbeIsLast(s, now);
    var probe := Timer(s.count + 1, now);
    var k := UpperBound(s.timers, probe);
    UpperBoundSplits(s.timers, probe);
    var r := StepFill(s, now, later).state;
    FillSize(s, now, later);
    assert s.table.Keys - IdSet(r.batch) == r.table.Keys;
    forall i | 0 <= i < |s.timers|
      ensures i < k <==> s.timers[i].expire <= now
    {
      assert s.timers[i] in s.timers;
    }
    DuePrefix(s.timers, k, now);
    assert s.timers == r.batch + r.timers;
    SortedPrefix(s.timers, |r.batch|);
    if k == 0 {
      assert r.batch == [s.timers[0]];
    }
  }

  lemma FillSize(s: State, now: Time, later: Time)
    requires s.timers != []
    ensures var k := UpperBound(s.timers, Timer(s.count + 1, now));
            |StepFill(s, now, later).state.batch| == if k == 0 then 1 else k
  {
  }

  lemma SortedPrefix(ts: seq<Timer>, n: nat)
    requires Sorted(ts) && n <= |ts|
    ensures Sorted(ts[..n])
  {
  }

  lemma DuePrefix(ts: seq<Timer>, k: nat, now: Time)
    requires k <= |ts| && forall i :: 0 <= i < |ts| ==> (i < k <==> ts[i].expire <= now)
    ensures forall t | t in ts :: t in ts[..k] <==> t.expire <= now
    ensures k > 0 <==> exists t :: t in ts && t.expire <= now
  {
    forall t | t in ts
      ensures t in ts[..k] <==> t.expire <= now
    {
      var i :| 0 <= i < |ts| && ts[i] == t;
      if i < k {
        assert ts[..k][i] == t;
      }
    }
    if k > 0 {
      assert ts[0] in ts && ts[0].expire <= now;
    }
  }

  lemma ProbeIsLast(s: State, now: Time)
    requires Inv(s)
    ensures forall t | t in s.timers :: Less(Timer(s.count + 1, now), t) <==> t.expire > now
    ensures Sorted(s.timers)
  {
    forall t | t in s.timers
      ensures t.id <= s.count
    {
      IdsMember(s.timers, t);
      assert Places(s)[t.id] >= 1;
    }
  }

  // ---- How long the kernel timer is set for ----

  lemma TimeSubExact(a: Time, b: Time)
    requires -(TWO64 / 2) <= a - b < TWO64 / 2
    ensures TimeSub(a, b) == a - b
  {
    if a >= b {
      assert (a - b) % TWO64 == a - b;
    } else {
      assert (a - b) % TWO64 == a - b + TWO64;
    }
  }

  /**
   Every programmed delay is positive and well-formed, never longer than wanted,
   and short of it by 999 microseconds for each millisecond past the last whole
   second: by less than a second, and exact exactly on whole seconds.
   */
  lemma DelayBounds(expire: Time, now: Time)
    ensures var spec := SpecFor(expire, now);
            var remaining := TimeSub(expire, now);
            var wanted := 1_000_000 * if remaining < 100 then 100 else remaining;
            && 0 < Nanoseconds(spec) && 0 <= spec.sec && 0 <= spec.nsec < 1_000_000_000
            && wanted - 1_000_000_000 < Nanoseconds(spec) <= wanted
            && wanted - Nanoseconds(spec) == 999_000 * ((if remaining < 100 then 100 else remaining) % 1000)
            && (Nanoseconds(spec) == wanted <==> wanted % 1_000_000_000 == 0)
  {
    var remaining := TimeSub(expire, now);
    var interval := if remaining < 100 then 100 else remaining;
    var sec, ms := interval / 1000, interval % 1000;
    assert interval == 1000 * sec + ms;
    assert 1_000_000 * interval == 1_000_000_000 * sec + 1_000_000 * ms;
    assert (1_000_000 * interval) % 1_000_000_000 == 1_000_000 * ms by {
      assert 0 <= 1_000_000 * ms < 1_000_000_000;
    }
  }

  // ---- The expiry nobody is left for ----

  lemma RunNext(s: State, e: Event, s': State, rest: seq<Event>)
    requires Step(s, e) == Next(s')
    ensures Run(s, [e] + rest) == Run(s', rest)
  {
    assert ([e] + rest)[1..] == rest;
  }

  /** A timer expires, and before the loop reads that, a handler of the same round cancels it: the read then fails. */
  lemma CancelBeforeReadCrashes(expire: Time, t0: Time, t1: Time, t2: Time)
    ensures Run(Init(), [Create(expire)] + ([AddInLoop(0, t0)] + ([KernelExpires]
                        + ([Cancel(1, t1)] + ([HandleRead(t2, t2)] + []))))).Crashed?
  {
    var t := Timer(1, expire);
    var s1 := Init().(count := 1, toAdd := [t]);
    var s2 := Init().(count := 1, timers := [t], table := map[1 := t], clock := Arm(expire, t0));
    var s3 := s2.(clock := Expired(expire));
    var s4 := Init().(count := 1, cancelled := [1]);
    var e4 := [HandleRead(t2, t2)] + [];
    assert Step(Init(), Create(expire)) == Next(s1) by { assert [] + [t] == [t]; }
    assert Step(s1, AddInLoop(0, t0)) == Next(s2) by {
      assert [t][..0] + [t][1..] == [];
    }
    assert Step(s3, Cancel(1, t1)) == Next(s4) by {
      assert Without([t], t) == [] && map[1 := t] - {1} == map[] && [] + [1] == [1];
    }
    RunNext(Init(), Create(expire), s1, [AddInLoop(0, t0)] + ([KernelExpires] + ([Cancel(1, t1)] + e4)));
    RunNext(s1, AddInLoop(0, t0), s2, [KernelExpires] + ([Cancel(1, t1)] + e4));
    RunNext(s2, KernelExpires, s3, [Cancel(1, t1)] + e4);
    RunNext(s3, Cancel(1, t1), s4, e4);
    assert StepFill(s4, t2, t2).Crashed?;
    assert Run(s4, e4).Crashed?;
  }
}
