/**
 Which IO loop gets a connection: the ordered set and the table of
 vserver/net/EventLoopThreadPool.cc beside the connection map of
 vserver/net/TcpServer.cc, as a machine over accepts and removals.
 */
module LoadBalance {
  import opened Common

  type Loop = nat
  type Conn = nat // connections are named by the counter m_connId

  /** `m_connectionCount` is order, kept sorted by (count, idx); `m_loopInfo` is table. */
  datatype Pool = Pool(base: Loop, loops: seq<Loop>, order: set<(int, int)>, table: map<Loop, (int, int)>)

  predicate Leq(a: (int, int), b: (int, int)) {
    a.0 < b.0 || (a.0 == b.0 && a.1 <= b.1)
  }

  predicate IsLeast(p: (int, int), s: set<(int, int)>) {
    p in s && forall q | q in s :: Leq(p, q)
  }

  lemma {:induction false} LeastExists(s: set<(int, int)>)
    requires s != {}
    ensures exists p :: IsLeast(p, s)
    decreases |s|
  {
    var x :| x in s;
    var rest := s - {x};
    if rest == {} {
      assert s == {x};
      assert IsLeast(x, s);
    } else {
      LeastExists(rest);
      var p :| IsLeast(p, rest);
      assert s == rest + {x};
      assert IsLeast(if Leq(p, x) then p else x, s);
    }
  }

  ghost function Least(s: set<(int, int)>): (p: (int, int))
    requires s != {}
    ensures IsLeast(p, s)
  {
    LeastExists(s);
    var p :| IsLeast(p, s);
    p
  }

  /** `update`: both of its lookups are asserted to succeed. */
  function Update(m: Pool, loop: Loop, cnt: int): Outcome<Pool> {
    if loop !in m.table || m.table[loop] !in m.order then Crashed
    else
      var idx := m.table[loop].1;
      Next(m.(order := m.order - {m.table[loop]} + {(cnt, idx)}, table := m.table[loop := (cnt, idx)]))
  }

  /** `getNextLoopMinConnection`. */
  ghost function Acquire(m: Pool): Outcome<(Pool, Loop)> {
    if m.order == {} then Next((m, m.base))
    else
      var p := Least(m.order);
      if !(0 <= p.1 < |m.loops|) then Crashed
      else match Update(m, m.loops[p.1], p.0 + 1)
        case Next(m') => Next((m', m.loops[p.1]))
        case _ => Crashed
  }

  /** `removeLoopConnection`: looking up an unknown loop in the table inserts (0, 0). */
  function Release(m: Pool, loop: Loop): Outcome<Pool> {
    if m.order == {} then Next(m)
    else
      var m1 := if loop in m.table then m else m.(table := m.table[loop := (0, 0)]);
      Update(m1, loop, m1.table[loop].0 - 1)
  }

  /** The pool `start` builds: every loop with no connection. */
  function Fresh(base: Loop, loops: seq<Loop>): Pool {
    if loops == [] then Pool(base, [], {}, map[])
    else
      var n := |loops| - 1;
      var m := Fresh(base, loops[..n]);
      Pool(base, loops, m.order + {(0, n)}, m.table[loops[n] := (0, n)])
  }

  /** The server's side: m_connections, and every connection object ever made with its loop. */
  datatype Server = Server(pool: Pool, conns: map<Conn, Loop>, made: map<Conn, Loop>, nextId: nat)

  datatype Event = Accept | Remove(c: Conn)

  ghost function Step(s: Server, e: Event): Outcome<Server> {
    match e
    case Accept => (
      match Acquire(s.pool)
      case Next((m, loop)) =>
        Next(Server(m, s.conns[s.nextId := loop], s.made[s.nextId := loop], s.nextId + 1))
      case _ => Crashed)
    case Remove(c) =>
      if c !in s.made then Disabled
      else if c !in s.conns then Crashed // assert(n == 1)
      else match Release(s.pool, s.made[c])
        case Next(m) => Next(s.(pool := m, conns := s.conns - {c}))
        case _ => Crashed
  }

  ghost function Run(s: Server, es: seq<Event>): Outcome<Server>
    decreases |es|
  {
    if es == [] then Next(s)
    else match Step(s, es[0])
      case Next(s') => Run(s', es[1..])
      case Disabled => Run(s, es[1..])
      case Crashed => Crashed
  }

  function Start(base: Loop, loops: seq<Loop>): Server {
    Server(Fresh(base, loops), map[], map[], 0)
  }

  // ---- Set and table mirror one list of counts ----

  predicate Distinct(base: Loop, loops: seq<Loop>) {
    base !in loops && forall j, k :: 0 <= j < k < |loops| ==> loops[j] != loops[k]
  }

  predicate InOrder(order: set<(int, int)>, counts: seq<int>) {
    && (forall k :: 0 <= k < |counts| ==> (counts[k], k) in order)
    && (forall p | p in order :: 0 <= p.1 < |counts| && p.0 == counts[p.1])
  }

  predicate InTable(table: map<Loop, (int, int)>, loops: seq<Loop>, counts: seq<int>)
    requires |counts| == |loops|
  {
    && (forall k :: 0 <= k < |loops| ==> loops[k] in table && table[loops[k]] == (counts[k], k))
    && (forall l | l in table :: l in loops)
  }

  predicate Mirror(m: Pool, counts: seq<int>) {
    |counts| == |m.loops| && Distinct(m.base, m.loops) && InOrder(m.order, counts) && InTable(m.table, m.loops, counts)
  }

  function Zeros(n: nat): seq<int> { seq(n, _ => 0) }

  lemma {:induction false} FreshMirrors(base: Loop, loops: seq<Loop>)
    requires Distinct(base, loops)
    ensures Mirror(Fresh(base, loops), Zeros(|loops|)) && Fresh(base, loops).loops == loops && Fresh(base, loops).base == base
    decreases |loops|
  {
    if loops != [] {
      var n := |loops| - 1;
      FreshMirrors(base, loops[..n]);
      OneMoreLoop(base, loops, Fresh(base, loops[..n]));
    }
  }

  lemma OneMoreLoop(base: Loop, loops: seq<Loop>, m: Pool)
    requires loops != [] && Distinct(base, loops)
    requires var n := |loops| - 1; m.loops == loops[..n] && m.base == base && Mirror(m, Zeros(n))
    ensures var n := |loops| - 1;
            Mirror(Pool(base, loops, m.order + {(0, n)}, m.table[loops[n] := (0, n)]), Zeros(|loops|))
  {
    var n := |loops| - 1;
    var m' := Pool(base, loops, m.order + {(0, n)}, m.table[loops[n] := (0, n)]);
    assert InOrder(m'.order, Zeros(|loops|)) by {
      forall k | 0 <= k < |loops| ensures (0, k) in m'.order {
        if k < n {
          assert (Zeros(n)[k], k) in m.order;
        }
      }
    }
    assert InTable(m'.table, loops, Zeros(|loops|)) by {
      assert forall k :: 0 <= k < n ==> loops[k] == m.loops[k];
    }
  }

  /** The lookups of `update` succeed, and set and table still agree afterwards. */
  lemma UpdateMirrors(m: Pool, counts: seq<int>, k: nat, cnt: int)
    requires Mirror(m, counts) && k < |counts|
    ensures var r := Update(m, m.loops[k], cnt); r.Next? && Mirror(r.state, counts[k := cnt])
    ensures var m' := Update(m, m.loops[k], cnt).state; m'.loops == m.loops && m'.base == m.base
  {
    var m' := Update(m, m.loops[k], cnt).state;
    var counts' := counts[k := cnt];
    assert m.table[m.loops[k]] == (counts[k], k);
    assert InOrder(m'.order, counts') by {
      forall j | 0 <= j < |counts'| ensures (counts'[j], j) in m'.order {
        assert (counts[j], j) in m.order;
      }
    }
  }

  predicate IsArgMin(counts: seq<int>, k: nat) {
    k < |counts| && forall j :: 0 <= j < |counts| ==> counts[k] < counts[j] || (counts[k] == counts[j] && k <= j)
  }

  /** The loop chosen has the least count, the first such one, and its count goes up by one. */
  lemma AcquireTakesMin(m: Pool, counts: seq<int>) returns (k: nat)
    requires Mirror(m, counts) && counts != []
    ensures IsArgMin(counts, k)
    ensures Acquire(m).Next? && Acquire(m).state.1 == m.loops[k] && Mirror(Acquire(m).state.0, counts[k := counts[k] + 1])
    ensures Acquire(m).state.0.loops == m.loops && Acquire(m).state.0.base == m.base
  {
    assert (counts[0], 0) in m.order;
    var p := Least(m.order);
    k := p.1;
    forall j | 0 <= j < |counts| ensures counts[k] < counts[j] || (counts[k] == counts[j] && k <= j) {
      assert (counts[j], j) in m.order;
    }
    UpdateMirrors(m, counts, k, counts[k] + 1);
  }

  lemma ReleaseMirrors(m: Pool, counts: seq<int>, k: nat)
    requires Mirror(m, counts) && k < |counts|
    ensures Release(m, m.loops[k]).Next? && Mirror(Release(m, m.loops[k]).state, counts[k := counts[k] - 1])
    ensures Release(m, m.loops[k]).state.loops == m.loops && Release(m, m.loops[k]).state.base == m.base
  {
    assert (counts[k], k) in m.order;
    UpdateMirrors(m, counts, k, counts[k] - 1);
  }

  // ---- The counts are the live connections ----

  function On(conns: map<Conn, Loop>, loop: Loop): set<Conn> {
    set c | c in conns && conns[c] == loop
  }

  function Load(conns: map<Conn, Loop>, loop: Loop): nat {
    |On(conns, loop)|
  }

  function Loads(conns: map<Conn, Loop>, loops: seq<Loop>): (r: seq<int>)
    ensures |r| == |loops| && forall k :: 0 <= k < |loops| ==> r[k] == Load(conns, loops[k])
  {
    seq(|loops|, k requires 0 <= k < |loops| => Load(conns, loops[k]))
  }

  lemma LoadAdded(conns: map<Conn, Loop>, c: Conn, loop: Loop, x: Loop)
    requires c !in conns
    ensures Load(conns[c := loop], x) == Load(conns, x) + if x == loop then 1 else 0
  {
    assert On(conns[c := loop], x) == if x == loop then On(conns, x) + {c} else On(conns, x);
  }

  lemma LoadDropped(conns: map<Conn, Loop>, c: Conn, x: Loop)
    requires c in conns
    ensures Load(conns - {c}, x) == Load(conns, x) - if x == conns[c] then 1 else 0
  {
    assert On(conns - {c}, x) == if x == conns[c] then On(conns, x) - {c} else On(conns, x);
  }

  /** Each loop's count is the number of live connections on it; set and table hold exactly those counts. */
  ghost predicate Counted(s: Server) {
    Mirror(s.pool, Loads(s.conns, s.pool.loops))
  }

  ghost predicate Inv(s: Server) {
    && Counted(s)
    && (forall c: Conn :: c in s.made <==> c < s.nextId)
    && (forall c | c in s.conns :: c in s.made && s.conns[c] == s.made[c])
    && (forall c | c in s.made :: if s.pool.loops == [] then s.made[c] == s.pool.base else s.made[c] in s.pool.loops)
  }

  lemma LoadsAdded(conns: map<Conn, Loop>, c: Conn, loops: seq<Loop>, k: nat, base: Loop)
    requires c !in conns && Distinct(base, loops) && k < |loops|
    ensures Loads(conns[c := loops[k]], loops) == Loads(conns, loops)[k := Load(conns, loops[k]) + 1]
  {
    forall j | 0 <= j < |loops| ensures Load(conns[c := loops[k]], loops[j]) == Load(conns, loops[j]) + if j == k then 1 else 0 {
      LoadAdded(conns, c, loops[k], loops[j]);
    }
  }

  lemma LoadsDropped(conns: map<Conn, Loop>, c: Conn, loops: seq<Loop>, k: nat, base: Loop)
    requires c in conns && Distinct(base, loops) && k < |loops| && conns[c] == loops[k]
    ensures Loads(conns - {c}, loops) == Loads(conns, loops)[k := Load(conns, loops[k]) - 1]
  {
    forall j | 0 <= j < |loops| ensures Load(conns - {c}, loops[j]) == Load(conns, loops[j]) - if j == k then 1 else 0 {
      LoadDropped(conns, c, loops[j]);
    }
  }

  lemma NoLoops(m: Pool)
    requires Mirror(m, []) && m.loops == []
    ensures m.order == {} && Acquire(m) == Next((m, m.base)) && forall l :: Release(m, l) == Next(m)
  {
    assert forall p :: p !in m.order;
  }

  lemma AcceptOnBase(s: Server)
    requires Inv(s) && s.pool.loops == []
    ensures Step(s, Accept) == Next(Server(s.pool, s.conns[s.nextId := s.pool.base], s.made[s.nextId := s.pool.base], s.nextId + 1))
    ensures Inv(Step(s, Accept).state)
  {
    assert Loads(s.conns, []) == Loads(s.conns[s.nextId := s.pool.base], []) == [];
    NoLoops(s.pool);
  }

  lemma AcceptOnLoop(s: Server) returns (k: nat)
    requires Inv(s) && s.pool.loops != []
    ensures IsArgMin(Loads(s.conns, s.pool.loops), k) && k < |s.pool.loops|
    ensures
      var r := Step(s, Accept);
      && r.Next? && r.state.pool.loops == s.pool.loops && r.state.pool.base == s.pool.base && r.state.nextId == s.nextId + 1
      && r.state.conns == s.conns[s.nextId := s.pool.loops[k]] && r.state.made == s.made[s.nextId := s.pool.loops[k]]
    ensures Inv(Step(s, Accept).state)
  {
    var loops := s.pool.loops;
    k := AcquireTakesMin(s.pool, Loads(s.conns, loops));
    assert s.nextId !in s.conns && Distinct(s.pool.base, loops);
    hide Load, Loads, IsArgMin, Acquire, InOrder, InTable, Distinct, Mirror;
    LoadsAdded(s.conns, s.nextId, loops, k, s.pool.base);
    var s' := Step(s, Accept).state;
    assert s'.conns == s.conns[s.nextId := loops[k]];
    assert Counted(s') by { assert Loads(s.conns, loops)[k] == Load(s.conns, loops[k]); }
    MadeOneMore(s, s', loops[k]);
  }

  lemma MadeOneMore(s: Server, s': Server, loop: Loop)
    requires Inv(s) && loop in s.pool.loops && Counted(s')
    requires s'.pool.loops == s.pool.loops && s'.pool.base == s.pool.base && s'.nextId == s.nextId + 1
    requires s'.conns == s.conns[s.nextId := loop] && s'.made == s.made[s.nextId := loop]
    ensures Inv(s')
  {
    hide Counted;
  }

  /** An accept never fails; with IO loops it goes to the first least loaded one, with none to the base loop. */
  lemma AcceptKeeps(s: Server)
    requires Inv(s)
    ensures Step(s, Accept).Next? && Inv(Step(s, Accept).state)
    ensures
      var s' := Step(s, Accept).state;
      && s'.pool.loops == s.pool.loops && s'.pool.base == s.pool.base && s'.nextId == s.nextId + 1
      && (s.pool.loops == [] ==> s'.conns == s.conns[s.nextId := s.pool.base] && s'.pool == s.pool)
      && (s.pool.loops != [] ==> exists k: nat ::
            IsArgMin(Loads(s.conns, s.pool.loops), k) && s'.conns == s.conns[s.nextId := s.pool.loops[k]])
    ensures forall c :: c in s.made ==> c in Step(s, Accept).state.made
    ensures forall c :: c in Step(s, Accept).state.made && c !in Step(s, Accept).state.conns <==> c in s.made && c !in s.conns
  {
    if s.pool.loops == [] {
      AcceptOnBase(s);
    } else {
      var k := AcceptOnLoop(s);
    }
  }

  /** A removal fails exactly when the connection was removed before. */
  lemma RemoveKeeps(s: Server, c: Conn)
    requires Inv(s) && c in s.made
    ensures Step(s, Remove(c)).Crashed? <==> c !in s.conns
    ensures c in s.conns ==> Step(s, Remove(c)).Next? && Inv(Step(s, Remove(c)).state)
    ensures c in s.conns ==> var s' := Step(s, Remove(c)).state;
      && s'.pool.loops == s.pool.loops && s'.pool.base == s.pool.base && s'.nextId == s.nextId
      && s'.made == s.made && s'.conns == s.conns - {c}
  {
    if c in s.conns {
      if s.pool.loops == [] {
        RemoveOnBase(s, c);
      } else {
        RemoveOnLoop(s, c);
      }
    }
  }

  lemma RemoveOnBase(s: Server, c: Conn)
    requires Inv(s) && c in s.conns && s.pool.loops == []
    ensures Step(s, Remove(c)) == Next(s.(conns := s.conns - {c})) && Inv(Step(s, Remove(c)).state)
  {
    NoLoops(s.pool) by { assert Loads(s.conns, []) == []; }
    hide Release, Mirror, Load;
    assert Loads(s.conns - {c}, []) == Loads(s.conns, []) == [];
  }

  lemma RemoveOnLoop(s: Server, c: Conn)
    requires Inv(s) && c in s.conns && s.pool.loops != []
    ensures
      var r := Step(s, Remove(c));
      && r.Next? && Inv(r.state) && r.state == s.(pool := r.state.pool, conns := s.conns - {c})
      && r.state.pool.loops == s.pool.loops && r.state.pool.base == s.pool.base
  {
    hide Mirror, Load, Release, Loads, Distinct;
    var loops := s.pool.loops;
    assert s.conns[c] in loops;
    var k: nat :| k < |loops| && loops[k] == s.conns[c];
    CountedFacts(s);
    ReleaseMirrors(s.pool, Loads(s.conns, loops), k);
    LoadsDropped(s.conns, c, loops, k, s.pool.base);
    LoadAt(s.conns, loops, k);
    var s' := Step(s, Remove(c)).state;
    assert Counted(s');
    OneFewer(s, s', c);
  }

  lemma OneFewer(s: Server, s': Server, c: Conn)
    requires Inv(s) && Counted(s') && s' == s.(pool := s'.pool, conns := s.conns - {c})
    requires s'.pool.loops == s.pool.loops && s'.pool.base == s.pool.base
    ensures Inv(s')
  {
    hide Counted;
  }

  lemma CountedFacts(s: Server)
    requires Counted(s)
    ensures Distinct(s.pool.base, s.pool.loops) && Mirror(s.pool, Loads(s.conns, s.pool.loops))
    ensures |Loads(s.conns, s.pool.loops)| == |s.pool.loops|
  {
  }

  lemma LoadAt(conns: map<Conn, Loop>, loops: seq<Loop>, k: nat)
    requires k < |loops|
    ensures Loads(conns, loops)[k] == Load(conns, loops[k])
  {
  }

  lemma StartInv(base: Loop, loops: seq<Loop>)
    requires Distinct(base, loops)
    ensures Inv(Start(base, loops)) && Start(base, loops).pool.loops == loops && Start(base, loops).pool.base == base
  {
    FreshMirrors(base, loops);
    var none: map<Conn, Loop> := map[];
    assert Loads(none, loops) == Zeros(|loops|) by {
      forall k | 0 <= k < |loops| ensures Load(none, loops[k]) == 0 {
        assert On(none, loops[k]) == {};
      }
    }
  }

  // ---- Results about every run ----

  /** A connection that exists is asked to be removed once more: read off the events alone. */
  predicate RemovedTwice(next: nat, gone: set<Conn>, es: seq<Event>)
    decreases |es|
  {
    if es == [] then false
    else match es[0]
      case Accept => RemovedTwice(next + 1, gone, es[1..])
      case Remove(c) =>
        if c >= next then RemovedTwice(next, gone, es[1..])
        else c in gone || RemovedTwice(next, gone + {c}, es[1..])
  }

  ghost predicate GoneIs(s: Server, gone: set<Conn>) {
    forall c :: c in gone <==> c in s.made && c !in s.conns
  }

  lemma StepGone(s: Server, gone: set<Conn>, e: Event)
    requires Inv(s) && GoneIs(s, gone) && Step(s, e).Next?
    ensures GoneIs(Step(s, e).state, if e.Remove? then gone + {e.c} else gone)
  {
    hide Acquire, Release, Counted;
    match e
    case Accept => AcceptKeeps(s);
    case Remove(c) => RemoveKeeps(s, c);
  }

  lemma {:induction false} RunKeeps(s: Server, gone: set<Conn>, es: seq<Event>)
    requires Inv(s) && GoneIs(s, gone)
    ensures Run(s, es).Crashed? <==> RemovedTwice(s.nextId, gone, es)
    ensures !Run(s, es).Crashed? ==> Run(s, es).Next? && Inv(Run(s, es).state)
    ensures !Run(s, es).Crashed? ==> Run(s, es).state.pool.loops == s.pool.loops && Run(s, es).state.pool.base == s.pool.base
    decreases |es|
  {
    if es != [] {
      hide Inv, Step, GoneIs, IsArgMin, Loads;
      NextIsNew(s);
      if es[0].Accept? {
        AcceptKeeps(s);
        StepGone(s, gone, Accept);
        RunKeeps(Step(s, Accept).state, gone, es[1..]);
      } else {
        var c := es[0].c;
        UnmadeIsSkipped(s, c);
        WasGone(s, gone, c);
        if c !in s.made {
          RunKeeps(s, gone, es[1..]);
        } else {
          RemoveKeeps(s, c);
          if c in s.conns {
            StepGone(s, gone, es[0]);
            RunKeeps(Step(s, es[0]).state, gone + {c}, es[1..]);
          }
        }
      }
    }
  }

  lemma WasGone(s: Server, gone: set<Conn>, c: Conn)
    requires GoneIs(s, gone)
    ensures c in gone <==> c in s.made && c !in s.conns
  {
  }

  lemma UnmadeIsSkipped(s: Server, c: Conn)
    ensures Step(s, Remove(c)).Disabled? <==> c !in s.made
  {
  }

  lemma NextIsNew(s: Server)
    requires Inv(s)
    ensures forall c: Conn :: c in s.made <==> c < s.nextId
  {
  }

  /** Over every run: the pool mirrors the server's live connections, and only a second removal trips an assertion. */
  lemma LoadsMirrorConnections(base: Loop, loops: seq<Loop>, es: seq<Event>)
    requires Distinct(base, loops)
    ensures Run(Start(base, loops), es).Crashed? <==> RemovedTwice(0, {}, es)
    ensures !RemovedTwice(0, {}, es) ==>
      var r := Run(Start(base, loops), es);
      r.Next? && r.state.pool.loops == loops && Mirror(r.state.pool, Loads(r.state.conns, loops))
  {
    StartInv(base, loops);
    RunKeeps(Start(base, loops), {}, es);
  }

  // ---- Accepts alone: the least loaded loop is the next in turn ----

  function Accepts(n: nat): seq<Event> { seq(n, _ => Accept) }

  /** `m_next` of `getNextLoop` after n calls, and how often it went round. */
  function Turn(n: nat, width: nat): (r: nat)
    requires width > 0
    ensures r < width
  {
    if n == 0 then 0 else NextTurn(Turn(n - 1, width), width)
  }

  function NextTurn(turn: nat, width: nat): nat {
    if turn + 1 >= width then 0 else turn + 1
  }

  function Rounds(n: nat, width: nat): nat
    requires width > 0
  {
    if n == 0 then 0 else Rounds(n - 1, width) + if Turn(n, width) == 0 then 1 else 0
  }

  /** The connections of a server that deals them out in turn. */
  function InTurn(loops: seq<Loop>, n: nat): map<Conn, Loop>
    requires loops != []
  {
    if n == 0 then map[] else InTurn(loops, n - 1)[n - 1 := loops[Turn(n - 1, |loops|)]]
  }

  function Share(n: nat, k: nat, width: nat): int
    requires k < width
  {
    Rounds(n, width) + if k < Turn(n, width) then 1 else 0
  }

  lemma {:induction false} SharesFromTurn(loops: seq<Loop>, base: Loop, n: nat, k: nat)
    requires k < |loops| && Distinct(base, loops)
    ensures Load(InTurn(loops, n), loops[k]) == Share(n, k, |loops|)
    ensures forall c: nat :: c in InTurn(loops, n) <==> c < n
    decreases n
  {
    if n == 0 {
      assert On(InTurn(loops, 0), loops[k]) == {};
    } else {
      SharesFromTurn(loops, base, n - 1, k);
      LoadAdded(InTurn(loops, n - 1), n - 1, loops[Turn(n - 1, |loops|)], loops[k]);
    }
  }

  lemma FirstLeastShare(counts: seq<int>, n: nat, k: nat)
    requires counts != [] && (forall j :: 0 <= j < |counts| ==> counts[j] == Share(n, j, |counts|)) && IsArgMin(counts, k)
    ensures k == Turn(n, |counts|)
  {
    assert counts[Turn(n, |counts|)] == Rounds(n, |counts|);
  }

  /** While nobody leaves, choosing the least loaded loop deals exactly as `getNextLoop` does, one loop after the other. */
  lemma {:induction false} MinConnectionIsRoundRobin(base: Loop, loops: seq<Loop>, n: nat)
    requires loops != [] && Distinct(base, loops)
    ensures
      var r := Run(Start(base, loops), Accepts(n));
      r.Next? && Inv(r.state) && r.state.pool.loops == loops && r.state.nextId == n && r.state.conns == InTurn(loops, n)
    decreases n
  {
    hide Step, Inv, Load, Share;
    StartInv(base, loops);
    if n > 0 {
      MinConnectionIsRoundRobin(base, loops, n - 1);
      var s := Run(Start(base, loops), Accepts(n - 1)).state;
      AcceptKeeps(s);
      var k: nat :| IsArgMin(Loads(s.conns, loops), k) && Step(s, Accept).state.conns == s.conns[s.nextId := loops[k]];
      RunSnoc(Start(base, loops), Accepts(n - 1), Accept);
      assert Accepts(n - 1) + [Accept] == Accepts(n);
      forall j | 0 <= j < |loops| ensures Loads(s.conns, loops)[j] == Share(n - 1, j, |loops|) {
        SharesFromTurn(loops, base, n - 1, j);
      }
      FirstLeastShare(Loads(s.conns, loops), n - 1, k);
    }
  }

  lemma {:induction false} RunSnoc(s: Server, es: seq<Event>, e: Event)
    requires Run(s, es).Next? && Step(Run(s, es).state, e).Next?
    ensures Run(s, es + [e]) == Step(Run(s, es).state, e)
    decreases |es|
  {
    hide Step;
    if es == [] {
      var s' := Step(s, e).state;
      assert ([] + [e])[0] == e && ([] + [e])[1..] == [];
      assert Run(s', []) == Next(s');
    } else {
      assert (es + [e])[1..] == es[1..] + [e];
      match Step(s, es[0])
      case Next(s') => RunSnoc(s', es[1..], e);
      case Disabled => RunSnoc(s, es[1..], e);
      case Crashed =>
    }
  }
}
