/**
 The life of connections between the server's loop and their IO loops:
 vserver/net/TcpServer.cc with the ends of vserver/net/Connection.cc, as a machine.
 Posted functors run in any order, which includes every order a loop can give
 them; what a functor does is cut where another thread can come in between. A
 functor run at once because it is posted from its own loop is running there. Sends
 come from any thread, also after the close; the oracle of a `write` is whether it
 leaves bytes behind.
 */
module HandOver {
  import opened Common

  type Loop = nat
  type Conn = nat

  datatype ConnState = Connecting | Connected | Disconnecting | Disconnected

  datatype Act = Established | Closed | Removed | Destroyed

  const LIFE := [Established, Closed, Removed, Destroyed]

  /** A connection object: its loop and descriptor, m_state, and what it has been through. */
  datatype Record = Record(
    loop: Loop, fd: nat, state: ConnState,
    alive: bool,      // somebody still points to it; when nobody does the descriptor is closed
    inServer: bool,   // in m_connections
    inPoller: bool,   // the poller's map has it under its descriptor
    reading: bool, writing: bool,  // the events its channel wants
    acts: seq<Act>,
    late: bool,       // a send left bytes behind after a close
    revived: bool)    // a send left bytes behind after the destruction

  function Fresh(loop: Loop, fd: nat): Record {
    Record(loop, fd, Connecting, true, true, false, false, false, [], false, false)
  }

  /** Functors, each holding the connection. Erased is removeConnectionInLoop past its erase. */
  datatype Task =
    | Establish(c: Conn) | SendIt(c: Conn) | ForceCloseIt(c: Conn)
    | Remove(c: Conn) | Erased(c: Conn) | Destroy(c: Conn)

  datatype State = State(
    base: Loop, next: Conn, conns: map<Conn, Record>,
    queued: multiset<(Loop, Task)>, running: map<Loop, Task>)

  datatype Event =
    | Accept(io: Loop, fd: nat) // on a descriptor the kernel has free
    | Begin(l: Loop, t: Task)   // a loop takes up a posted functor
    | Work(l: Loop)             // the functor on a loop goes on; a send gets rid of all its bytes
    | WorkShort(l: Loop)        // the send running on a loop leaves bytes behind
    | HandleClose(c: Conn)      // the peer closed: the handler of an established connection
    | ForceClose(c: Conn)       // from any thread
    | Shutdown(c: Conn)
    | Send(c: Conn)             // from another thread
    | SendShort(c: Conn)        // in the loop's own thread, leaving bytes; without them it changes nothing here
    | Drain(c: Conn)            // the last buffered byte is written
    | Release(c: Conn)          // the last pointer to the connection goes

  function Init(base: Loop): State {
    State(base, 0, map[], multiset{}, map[])
  }

  function Set(s: State, c: Conn, r: Record): State {
    s.(conns := s.conns[c := r])
  }

  function Post(s: State, l: Loop, t: Task): State {
    s.(queued := s.queued + multiset{(l, t)})
  }

  function Idle(s: State, l: Loop): State {
    s.(running := s.running - {l})
  }

  function Go(s: State, l: Loop, t: Task): State {
    s.(running := s.running[l := t])
  }

  /** The poller of c's loop has another connection under c's descriptor. */
  predicate Occupied(s: State, c: Conn)
    requires c in s.conns
  {
    exists d | d in s.conns ::
      d != c && s.conns[d].inPoller && s.conns[d].loop == s.conns[c].loop && s.conns[d].fd == s.conns[c].fd
  }

  /** `updateChannel` asserts that a channel it does not know yet finds its place in the map free. */
  predicate Clashes(s: State, c: Conn)
    requires c in s.conns
  {
    !s.conns[c].inPoller && Occupied(s, c)
  }

  /** The server's map or a functor, posted or running, points to the connection. */
  predicate Held(s: State, c: Conn) {
    && c in s.conns
    && (s.conns[c].inServer || (exists x | x in s.queued :: x.1.c == c) || (exists l | l in s.running :: s.running[l].c == c))
  }

  predicate Open(r: Record) {
    r.state in {Connected, Disconnecting}
  }

  /** `sendInLoop` when the socket does not take everything: the rest is buffered and writing enabled. */
  function LeaveBytes(r: Record): Record {
    r.(writing := true, inPoller := true, late := r.late || Closed in r.acts, revived := r.revived || Destroyed in r.acts)
  }

  /** `handleClose` on loop l, and the server's close callback. */
  function Close(s: State, l: Loop, c: Conn): Outcome<State>
    requires c in s.conns
  {
    var r := s.conns[c];
    if !Open(r) || Clashes(s, c) then Crashed
    else
      var s1 := Set(s, c, r.(reading := false, writing := false, inPoller := true, acts := r.acts + [Closed]));
      Next(if l == s.base then Go(Idle(s1, l), l, Remove(c)) else Post(Idle(s1, l), s.base, Remove(c)))
  }

  function DoEstablish(s: State, l: Loop, c: Conn): Outcome<State>
    requires c in s.conns
  {
    var r := s.conns[c];
    if r.state != Connecting || Clashes(s, c) then Crashed
    else Next(Set(Idle(s, l), c, r.(state := Connected, reading := true, inPoller := true, acts := r.acts + [Established])))
  }

  function DoRemove(s: State, l: Loop, c: Conn): Outcome<State>
    requires c in s.conns
  {
    var r := s.conns[c];
    if !r.inServer then Crashed // assert(n == 1)
    else Next(Set(Go(Idle(s, l), l, Erased(c)), c, r.(inServer := false, acts := r.acts + [Removed])))
  }

  function DoDestroy(s: State, l: Loop, c: Conn): Outcome<State>
    requires c in s.conns
  {
    var r := s.conns[c];
    var r1 := if r.state == Connected then r.(state := Disconnected, reading := false, writing := false) else r;
    if r1.reading || r1.writing || !r1.inPoller then Crashed // the assertions of Channel::remove and Poller::removeChannel
    else Next(Set(Idle(s, l), c, r1.(inPoller := false, acts := r1.acts + [Destroyed])))
  }

  function WorkOn(s: State, l: Loop, t: Task): Outcome<State>
    requires t.c in s.conns
  {
    match t
    case Establish(c) => DoEstablish(s, l, c)
    case SendIt(c) => Next(Idle(s, l))
    case ForceCloseIt(c) => if Open(s.conns[c]) then Close(s, l, c) else Next(Idle(s, l))
    case Remove(c) => DoRemove(s, l, c)
    case Erased(c) => Next(Post(Idle(s, l), s.conns[c].loop, Destroy(c)))
    case Destroy(c) => DoDestroy(s, l, c)
  }

  function Step(s: State, e: Event): Outcome<State> {
    match e
    case Accept(io, fd) =>
      if s.base in s.running || (exists d | d in s.conns :: s.conns[d].alive && s.conns[d].fd == fd) then Disabled
      else
        var s1 := Set(s, s.next, Fresh(io, fd)).(next := s.next + 1);
        Next(if io == s.base then Go(s1, io, Establish(s.next)) else Post(s1, io, Establish(s.next)))
    case Begin(l, t) =>
      if l in s.running || (l, t) !in s.queued then Disabled
      else Next(Go(s.(queued := s.queued - multiset{(l, t)}), l, t))
    case Work(l) =>
      if l !in s.running || s.running[l].c !in s.conns then Disabled else WorkOn(s, l, s.running[l])
    case WorkShort(l) =>
      if l !in s.running || !s.running[l].SendIt? || s.running[l].c !in s.conns then Disabled
      else if Clashes(s, s.running[l].c) then Crashed
      else Next(Set(Idle(s, l), s.running[l].c, LeaveBytes(s.conns[s.running[l].c])))
    case _ =>
      if e.c !in s.conns || !s.conns[e.c].alive then Disabled else CallOn(s, e, e.c)
  }

  /** What is done to a connection from a handler on its loop, or from outside. */
  function CallOn(s: State, e: Event, c: Conn): Outcome<State>
    requires c in s.conns
  {
    var r := s.conns[c];
    match e
    case HandleClose(_) =>
      if r.loop in s.running || Established !in r.acts then Disabled else Close(s, r.loop, c)
    case ForceClose(_) =>
      if !Open(r) then Disabled else Next(Post(Set(s, c, r.(state := Disconnecting)), r.loop, ForceCloseIt(c)))
    case Shutdown(_) => if r.state != Connected then Disabled else Next(Set(s, c, r.(state := Disconnecting)))
    case Send(_) => if r.state != Connected then Disabled else Next(Post(s, r.loop, SendIt(c)))
    case SendShort(_) =>
      if r.state != Connected then Disabled
      else if Clashes(s, c) then Crashed
      else Next(Set(s, c, LeaveBytes(r)))
    case Drain(_) => if r.loop in s.running || !r.writing then Disabled else Next(Set(s, c, r.(writing := false)))
    case Release(_) => if Held(s, c) then Disabled else Next(Set(s, c, r.(alive := false)))
    case _ => Disabled
  }

  function Run(s: State, es: seq<Event>): Outcome<State>
    decreases |es|
  {
    if es == [] then Next(s)
    else match Step(s, es[0])
      case Next(s') => Run(s', es[1..])
      case Disabled => Run(s, es[1..])
      case Crashed => Crashed
  }

  // ---- The invariant, one connection at a time ----

  function Times(acts: seq<Act>, a: Act): nat { multiset(acts)[a] }

  /** How many of this functor are posted to or running on the loop. */
  function Due(s: State, l: Loop, t: Task): nat {
    s.queued[(l, t)] + if l in s.running && s.running[l] == t then 1 else 0
  }

  datatype Dues = Dues(establish: nat, remove: nat, erased: nat, destroy: nat, force: nat, send: nat)

  function DuesOf(s: State, c: Conn): Dues
    requires c in s.conns
  {
    var l := s.conns[c].loop;
    Dues(Due(s, l, Establish(c)), Due(s, s.base, Remove(c)), Due(s, s.base, Erased(c)),
         Due(s, l, Destroy(c)), Due(s, l, ForceCloseIt(c)), Due(s, l, SendIt(c)))
  }

  predicate Good(r: Record, d: Dues) {
    var est, clo, rem, des := Times(r.acts, Established), Times(r.acts, Closed), Times(r.acts, Removed), Times(r.acts, Destroyed);
    && d.establish + est == 1
    && d.remove + rem == clo
    && rem + (if r.inServer then 1 else 0) == 1
    && d.erased + d.destroy + des == rem
    && (clo > 0 ==> est == 1)
    && (r.state == Connecting <==> est == 0)
    && (r.state == Disconnected ==> des == 1)
    && (d.send > 0 || r.writing || r.inPoller ==> est == 1)
    && (r.reading ==> est == 1 && clo == 0)
    && (r.writing && clo > 0 ==> r.late) && (r.late ==> clo > 0)
    && (est == 1 && des == 0 ==> r.inPoller) && (des == 1 && clo <= 1 ==> (r.inPoller <==> r.revived))
    && (r.revived ==> des == 1 && r.inPoller && r.late)
    && (!r.alive ==> !r.inServer && d == Dues(0, 0, 0, 0, 0, 0))
    && (clo <= 1 ==> r.acts <= LIFE)
  }

  /** Where a functor is sent. */
  function Home(s: State, t: Task): Loop
    requires t.c in s.conns
  {
    if t.Remove? || t.Erased? then s.base else s.conns[t.c].loop
  }

  ghost predicate Placed(s: State) {
    && (forall l, t | Due(s, l, t) > 0 :: t.c in s.conns && l == Home(s, t))
    && (forall c | c in s.conns :: c < s.next)
  }

  ghost predicate Inv(s: State) {
    Placed(s) && forall c | c in s.conns :: Good(s.conns[c], DuesOf(s, c))
  }

  // ---- A step touches one connection, and at most one functor goes and one comes ----

  type Place = Option<(Loop, Task)>

  function At(p: Place, l: Loop, t: Task): nat {
    if p == Some((l, t)) then 1 else 0
  }

  ghost predicate Moved(s: State, s': State, gone: Place, come: Place) {
    forall l, t :: Due(s', l, t) == Due(s, l, t) - At(gone, l, t) + At(come, l, t)
  }

  predicate About(p: Place, c: Conn) {
    p.None? || p.value.1.c == c
  }

  lemma DuesElsewhere(s: State, s': State, c: Conn, gone: Place, come: Place, d: Conn)
    requires Moved(s, s', gone, come) && About(gone, c) && About(come, c)
    requires s'.base == s.base && d != c && d in s.conns && d in s'.conns && s'.conns[d].loop == s.conns[d].loop
    ensures DuesOf(s', d) == DuesOf(s, d)
  {
    var l := s.conns[d].loop;
    assert DueSame(s, s', l, Establish(d)) && DueSame(s, s', s.base, Remove(d)) && DueSame(s, s', s.base, Erased(d));
    assert DueSame(s, s', l, Destroy(d)) && DueSame(s, s', l, ForceCloseIt(d)) && DueSame(s, s', l, SendIt(d));
  }

  lemma DuesAfter(s: State, s': State, gone: Place, come: Place, c: Conn)
    requires Moved(s, s', gone, come) && s'.base == s.base
    requires c in s.conns && c in s'.conns && s'.conns[c].loop == s.conns[c].loop
    ensures
      var l := s.conns[c].loop;
      var d, d' := DuesOf(s, c), DuesOf(s', c);
      && d'.establish == d.establish - At(gone, l, Establish(c)) + At(come, l, Establish(c))
      && d'.remove == d.remove - At(gone, s.base, Remove(c)) + At(come, s.base, Remove(c))
      && d'.erased == d.erased - At(gone, s.base, Erased(c)) + At(come, s.base, Erased(c))
      && d'.destroy == d.destroy - At(gone, l, Destroy(c)) + At(come, l, Destroy(c))
      && d'.force == d.force - At(gone, l, ForceCloseIt(c)) + At(come, l, ForceCloseIt(c))
      && d'.send == d.send - At(gone, l, SendIt(c)) + At(come, l, SendIt(c))
  {
    hide Due;
  }

  predicate DueSame(s: State, s': State, l: Loop, t: Task) {
    Due(s', l, t) == Due(s, l, t)
  }

  lemma StillPlaced(s: State, s': State, c: Conn, gone: Place, come: Place)
    requires Placed(s) && Moved(s, s', gone, come) && About(come, c)
    requires s'.base == s.base && c in s'.conns && c < s'.next && s.next <= s'.next && s'.conns == s.conns[c := s'.conns[c]]
    requires c in s.conns ==> s'.conns[c].loop == s.conns[c].loop
    requires come.Some? ==> come.value.0 == Home(s', come.value.1)
    ensures Placed(s')
  {
    forall l, t | Due(s', l, t) > 0 ensures t.c in s'.conns && l == Home(s', t) {
      assert come == Some((l, t)) || Due(s, l, t) > 0;
    }
  }

  /** Closes of c done, and force-closes of it on their way. */
  function Asked(s: State, c: Conn): nat
    requires c in s.conns
  {
    Times(s.conns[c].acts, Closed) + DuesOf(s, c).force
  }

  /** Only c may have been asked to close, and at most n times. */
  ghost predicate Calm(s: State, s': State, c: Conn, n: nat) {
    forall d | d in s.conns :: d in s'.conns && Asked(s', d) <= Asked(s, d) + if d == c then n else 0
  }

  lemma OneChanged(s: State, s': State, c: Conn, gone: Place, come: Place, n: nat)
    requires Inv(s) && Moved(s, s', gone, come) && About(gone, c) && About(come, c)
    requires s'.base == s.base && c in s'.conns && c < s'.next && s.next <= s'.next && s'.conns == s.conns[c := s'.conns[c]]
    requires c in s.conns ==> s'.conns[c].loop == s.conns[c].loop
    requires come.Some? ==> come.value.0 == Home(s', come.value.1)
    requires Good(s'.conns[c], DuesOf(s', c))
    requires c in s.conns ==> Asked(s', c) <= Asked(s, c) + n
    ensures Inv(s') && Calm(s, s', c, n)
  {
    hide Good, Placed, Moved, DuesOf, Times;
    StillPlaced(s, s', c, gone, come);
    forall d | d in s.conns && d != c ensures DuesOf(s', d) == DuesOf(s, d) && Asked(s', d) == Asked(s, d) {
      DuesElsewhere(s, s', c, gone, come, d);
    }
  }

  lemma Finished(s: State, l: Loop)
    requires l in s.running
    ensures Moved(s, Idle(s, l), Some((l, s.running[l])), None)
  {
  }

  lemma Posted(s: State, l: Loop, t: Task)
    ensures Moved(s, Post(s, l, t), None, Some((l, t)))
  {
  }

  lemma Started(s: State, l: Loop, t: Task)
    requires l !in s.running
    ensures Moved(s, Go(s, l, t), None, Some((l, t)))
  {
  }

  lemma Taken(s: State, l: Loop, t: Task)
    requires l !in s.running && (l, t) in s.queued
    ensures Moved(s, Go(s.(queued := s.queued - multiset{(l, t)}), l, t), None, None)
  {
  }

  /** A loop gives up what it runs, if anything, and c's functor t comes up at loop k. */
  lemma Passed(s: State, l: Loop, k: Loop, t: Task)
    ensures
      var gone := if l in s.running then Some((l, s.running[l])) else None;
      Moved(s, Post(Idle(s, l), k, t), gone, Some((k, t))) && Moved(s, Go(Idle(s, l), l, t), gone, Some((l, t)))
  {
    var s1 := Idle(s, l);
    if l in s.running {
      Finished(s, l);
    } else {
      assert s1 == s;
    }
    Posted(s1, k, t);
    Started(s1, l, t);
    hide Due;
  }

  /** Records do not count. */
  lemma Recorded(s: State, s1: State, s': State, gone: Place, come: Place)
    requires Moved(s, s1, gone, come) && s'.queued == s1.queued && s'.running == s1.running
    ensures Moved(s, s', gone, come)
  {
    forall l, t ensures Due(s', l, t) == Due(s, l, t) - At(gone, l, t) + At(come, l, t) {
      assert Due(s', l, t) == Due(s1, l, t);
    }
  }

  lemma Counts(acts: seq<Act>, a: Act)
    ensures forall b :: Times(acts + [a], b) == Times(acts, b) + if a == b then 1 else 0
  {
  }

  /** In a prefix of a life the counts tell the place. */
  lemma LifeSoFar(acts: seq<Act>)
    requires acts <= LIFE
    ensures |acts| == Times(acts, Established) + Times(acts, Closed) + Times(acts, Removed) + Times(acts, Destroyed)
    ensures acts == LIFE[..|acts|]
  {
    if |acts| == 0 {
      assert acts == [];
    } else if |acts| == 1 {
      assert acts == [Established];
    } else if |acts| == 2 {
      assert acts == [Established, Closed];
    } else if |acts| == 3 {
      assert acts == [Established, Closed, Removed];
    } else {
      assert acts == LIFE;
    }
  }

  // ---- What each act does to the connection's own account ----

  lemma GoodEstablish(r: Record, d: Dues)
    requires Good(r, d) && d.establish > 0
    ensures r.state == Connecting
    ensures Good(r.(state := Connected, reading := true, inPoller := true, acts := r.acts + [Established]),
                 d.(establish := d.establish - 1))
  {
    Counts(r.acts, Established);
    LifeSoFar(r.acts);
    assert r.acts == [];
  }

  lemma GoodClose(r: Record, d: Dues)
    requires Good(r, d) && Open(r) && r.alive
    ensures Good(r.(reading := false, writing := false, inPoller := true, acts := r.acts + [Closed]), d.(remove := d.remove + 1))
  {
    Counts(r.acts, Closed);
    if Times(r.acts, Closed) == 0 {
      LifeSoFar(r.acts);
      assert r.acts + [Closed] == [Established, Closed];
    }
  }

  lemma GoodRemove(r: Record, d: Dues)
    requires Good(r, d) && d.remove > 0 && r.inServer
    ensures Good(r.(inServer := false, acts := r.acts + [Removed]), d.(remove := d.remove - 1, erased := d.erased + 1))
  {
    Counts(r.acts, Removed);
    if Times(r.acts, Closed) <= 1 {
      LifeSoFar(r.acts);
      assert r.acts + [Removed] == [Established, Closed, Removed];
    }
  }

  lemma GoodErased(r: Record, d: Dues)
    requires Good(r, d) && d.erased > 0
    ensures Good(r, d.(erased := d.erased - 1, destroy := d.destroy + 1))
  {
  }

  /** With bytes left behind and a state other than kConnected writing is still on, and the assertion fails. */
  lemma GoodDestroy(r: Record, d: Dues)
    requires Good(r, d) && d.destroy > 0 && (r.writing ==> r.state == Connected)
    ensures var r1 := if r.state == Connected then r.(state := Disconnected, reading := false, writing := false) else r;
            !r1.reading && !r1.writing && r1.inPoller &&
            Good(r1.(inPoller := false, acts := r1.acts + [Destroyed]), d.(destroy := d.destroy - 1))
  {
    Counts(r.acts, Destroyed);
    if Times(r.acts, Closed) <= 1 {
      LifeSoFar(r.acts);
      assert r.acts + [Destroyed] == LIFE;
    }
  }

  lemma GoodShort(r: Record, d: Dues)
    requires Good(r, d) && Times(r.acts, Established) == 1
    ensures Good(LeaveBytes(r), d)
  {
    assert Closed in r.acts <==> Times(r.acts, Closed) > 0;
    assert Destroyed in r.acts <==> Times(r.acts, Destroyed) > 0;
  }

  lemma GoodDrained(r: Record, d: Dues)
    requires Good(r, d)
    ensures Good(r.(writing := false), d)
  {
  }

  // ---- Each step ----

  lemma NoneDue(s: State, c: Conn)
    requires Placed(s) && c !in s.conns
    ensures forall l: Loop, t: Task | t.c == c :: Due(s, l, t) == 0
  {
  }

  lemma FirstGood(io: Loop, fd: nat)
    ensures Good(Fresh(io, fd), Dues(1, 0, 0, 0, 0, 0))
  {
  }

  lemma AcceptMoves(s: State, io: Loop, fd: nat)
    requires Inv(s) && Step(s, Accept(io, fd)).Next?
    ensures
      var s' := Step(s, Accept(io, fd)).state;
      Moved(s, s', None, Some((io, Establish(s.next)))) && DuesOf(s', s.next) == Dues(1, 0, 0, 0, 0, 0)
  {
    hide Due, Inv, Placed, Held, Occupied;
    var s' := Step(s, Accept(io, fd)).state;
    var c := s.next;
    var come := Some((io, Establish(c)));
    NextIsNew(s);
    if io == s.base {
      Started(s, io, Establish(c));
      Recorded(s, Go(s, io, Establish(c)), s', None, come);
    } else {
      Posted(s, io, Establish(c));
      Recorded(s, Post(s, io, Establish(c)), s', None, come);
    }
    NoneDue(s, c) by { PlacedIf(s); }
    assert Due(s', io, Establish(c)) == 1 && Due(s', s.base, Remove(c)) == 0 && Due(s', s.base, Erased(c)) == 0;
    assert Due(s', io, Destroy(c)) == 0 && Due(s', io, ForceCloseIt(c)) == 0 && Due(s', io, SendIt(c)) == 0;
  }

  lemma PlacedIf(s: State)
    requires Inv(s)
    ensures Placed(s)
  {
  }

  lemma NextIsNew(s: State)
    requires Inv(s)
    ensures s.next !in s.conns
  {
  }

  lemma AcceptKeeps(s: State, io: Loop, fd: nat)
    requires Inv(s) && Step(s, Accept(io, fd)).Next?
    ensures Inv(Step(s, Accept(io, fd)).state) && Calm(s, Step(s, Accept(io, fd)).state, s.next, 0)
  {
    hide Due, Inv, Placed, Moved, DuesOf, Good, Asked;
    AcceptMoves(s, io, fd);
    FirstGood(io, fd);
    NextIsNew(s);
    OneChanged(s, Step(s, Accept(io, fd)).state, s.next, None, Some((io, Establish(s.next))), 0);
  }

  lemma QueuedDue(s: State, l: Loop, t: Task)
    requires (l, t) in s.queued
    ensures Due(s, l, t) > 0
  {
  }

  lemma BeginKeeps(s: State, l: Loop, t: Task)
    requires Inv(s) && Step(s, Begin(l, t)).Next?
    ensures Inv(Step(s, Begin(l, t)).state) && Calm(s, Step(s, Begin(l, t)).state, t.c, 0)
  {
    hide Due, Good, Times;
    var s' := Step(s, Begin(l, t)).state;
    Taken(s, l, t);
    QueuedDue(s, l, t);
    DuesAfter(s, s', None, None, t.c);
    assert DuesOf(s', t.c) == DuesOf(s, t.c);
    assert s'.conns == s.conns[t.c := s.conns[t.c]];
    OneChanged(s, s', t.c, None, None, 0);
  }

  function Running(s: State, l: Loop): Place {
    if l in s.running then Some((l, s.running[l])) else None
  }

  lemma CloseMoves(s: State, l: Loop, c: Conn)
    requires c in s.conns && Close(s, l, c).Next?
    ensures Moved(s, Close(s, l, c).state, Running(s, l), Some((s.base, Remove(c))))
  {
    var come := Some((s.base, Remove(c)));
    Passed(s, l, s.base, Remove(c));
    hide Moved;
    if l == s.base {
      Recorded(s, Go(Idle(s, l), l, Remove(c)), Close(s, l, c).state, Running(s, l), come);
    } else {
      Recorded(s, Post(Idle(s, l), s.base, Remove(c)), Close(s, l, c).state, Running(s, l), come);
    }
  }

  lemma CloseRecords(s: State, l: Loop, c: Conn)
    requires c in s.conns && Close(s, l, c).Next?
    ensures
      var s', r := Close(s, l, c).state, s.conns[c];
      && Open(r) && s'.base == s.base && s'.next == s.next
      && s'.conns == s.conns[c := r.(reading := false, writing := false, inPoller := true, acts := r.acts + [Closed])]
  {
  }

  lemma Known(s: State, c: Conn)
    requires Inv(s) && c in s.conns
    ensures c < s.next && Good(s.conns[c], DuesOf(s, c)) && Placed(s)
  {
  }

  /** A close, from a functor of the connection on its loop or from a handler there. */
  lemma CloseKeeps(s: State, l: Loop, c: Conn)
    requires Inv(s) && c in s.conns && s.conns[c].alive && l == s.conns[c].loop
    requires (l in s.running ==> s.running[l] == ForceCloseIt(c)) && Close(s, l, c).Next?
    ensures Inv(Close(s, l, c).state) && Calm(s, Close(s, l, c).state, c, if l in s.running then 0 else 1)
  {
    hide Due, Good, DuesOf, Moved, Inv, Close, Times, Placed;
    Known(s, c);
    var s' := Close(s, l, c).state;
    var come := Some((s.base, Remove(c)));
    var n := if l in s.running then 0 else 1;
    CloseMoves(s, l, c);
    CloseRecords(s, l, c);
    DuesAfter(s, s', Running(s, l), come, c);
    Counts(s.conns[c].acts, Closed);
    var d, d' := DuesOf(s, c), DuesOf(s', c);
    GoodClose(s.conns[c], d);
    assert Asked(s', c) <= Asked(s, c) + n;
    assert d' == d.(remove := d.remove + 1, force := d'.force);
    ForceIsFree(s'.conns[c], d.(remove := d.remove + 1), d'.force);
    OneChanged(s, s', c, Running(s, l), come, n);
  }

  lemma ForceIsFree(r: Record, d: Dues, n: nat)
    requires Good(r, d) && r.alive
    ensures Good(r, d.(force := n))
  {
  }

  /** The functor that ends on loop l, with what it leaves behind. */
  lemma WorkMoves(s: State, l: Loop, c: Conn, s1: State, s': State, come: Place)
    requires Inv(s) && l in s.running && s.running[l].c == c && c in s.conns
    requires s1 == (if come.None? then Idle(s, l)
                    else if come.value.0 == l && come.value.1.Erased? then Go(Idle(s, l), l, come.value.1)
                    else Post(Idle(s, l), come.value.0, come.value.1))
    requires s'.queued == s1.queued && s'.running == s1.running
    ensures Moved(s, s', Some((l, s.running[l])), come) && Due(s, l, s.running[l]) > 0 && l == Home(s, s.running[l])
  {
    if come.None? {
      Finished(s, l);
    } else {
      Passed(s, l, come.value.0, come.value.1);
    }
    Recorded(s, s1, s', Some((l, s.running[l])), come);
    assert Due(s, l, s.running[l]) > 0;
  }

  /** What runs is due, and runs at home. */
  lemma DueAtHome(s: State, l: Loop, c: Conn)
    requires Inv(s) && l in s.running && s.running[l].c == c && c in s.conns
    ensures l == Home(s, s.running[l]) && s.conns[c].alive
    ensures
      var d := DuesOf(s, c);
      match s.running[l]
      case Establish(_) => d.establish > 0
      case SendIt(_) => d.send > 0
      case ForceCloseIt(_) => d.force > 0
      case Remove(_) => d.remove > 0
      case Erased(_) => d.erased > 0
      case Destroy(_) => d.destroy > 0
  {
    assert Due(s, l, s.running[l]) > 0;
  }

  lemma EstablishKeeps(s: State, l: Loop, c: Conn)
    requires Inv(s) && l in s.running && s.running[l] == Establish(c) && c in s.conns && !Clashes(s, c)
    ensures DoEstablish(s, l, c).Next? && Inv(DoEstablish(s, l, c).state) && Calm(s, DoEstablish(s, l, c).state, c, 0)
  {
    hide Due, DuesOf, Moved, Good, Inv, Times, Placed;
    Known(s, c);
    DueAtHome(s, l, c);
    var s1 := Idle(s, l);
    var r := s.conns[c];
    var s' := Set(s1, c, r.(state := Connected, reading := true, inPoller := true, acts := r.acts + [Established]));
    WorkMoves(s, l, c, s1, s', None);
    DuesAfter(s, s', Some((l, Establish(c))), None, c);
    var d := DuesOf(s, c);
    Counts(r.acts, Established);
    GoodEstablish(r, d);
    assert DuesOf(s', c) == d.(establish := d.establish - 1);
    OneChanged(s, s', c, Some((l, Establish(c))), None, 0);
  }

  lemma ForceEndsKeeps(s: State, l: Loop, c: Conn)
    requires Inv(s) && l in s.running && s.running[l] == ForceCloseIt(c) && c in s.conns
    ensures Inv(Idle(s, l)) && Calm(s, Idle(s, l), c, 0)
  {
    hide Due, DuesOf, Moved, Good, Inv, Times, Placed;
    Known(s, c);
    DueAtHome(s, l, c);
    var s' := Idle(s, l);
    WorkMoves(s, l, c, s', s', None);
    DuesAfter(s, s', Some((l, ForceCloseIt(c))), None, c);
    var d := DuesOf(s, c);
    assert DuesOf(s', c) == d.(force := d.force - 1);
    ForceIsFree(s.conns[c], d, d.force - 1);
    assert s'.conns == s.conns[c := s.conns[c]];
    OneChanged(s, s', c, Some((l, ForceCloseIt(c))), None, 0);
  }

  /** A send ends, whatever it leaves in the record. */
  lemma SendEndsKeeps(s: State, s': State, l: Loop, c: Conn, r': Record)
    requires Inv(s) && l in s.running && s.running[l] == SendIt(c) && c in s.conns
    requires s'.base == s.base && s'.next == s.next && s'.conns == s.conns[c := r'] && r'.loop == s.conns[c].loop && r'.acts == s.conns[c].acts
    requires s'.queued == s.queued && s'.running == s.running - {l}
    requires Good(r', DuesOf(s, c)) && r'.alive
    ensures Inv(s') && Calm(s, s', c, 0)
  {
    hide Due, DuesOf, Moved, Good, Inv, Times, Placed;
    Known(s, c);
    DueAtHome(s, l, c);
    WorkMoves(s, l, c, Idle(s, l), s', None);
    DuesAfter(s, s', Some((l, SendIt(c))), None, c);
    var d := DuesOf(s, c);
    assert DuesOf(s', c) == d.(send := d.send - 1);
    SendIsFree(r', d, d.send - 1);
    OneChanged(s, s', c, Some((l, SendIt(c))), None, 0);
  }

  lemma SendIsFree(r: Record, d: Dues, n: nat)
    requires Good(r, d) && r.alive && (n > 0 ==> Times(r.acts, Established) == 1)
    ensures Good(r, d.(send := n))
  {
  }

  lemma SendMeansEstablished(s: State, l: Loop, c: Conn)
    requires Inv(s) && c in s.conns && (s.conns[c].state == Connected || (l in s.running && s.running[l] == SendIt(c)))
    ensures Times(s.conns[c].acts, Established) == 1
  {
    hide Due, DuesOf, Moved, Inv, Times, Placed;
    Known(s, c);
    if l in s.running && s.running[l] == SendIt(c) {
      DueAtHome(s, l, c);
    }
  }

  lemma SendKeeps(s: State, l: Loop, c: Conn)
    requires Inv(s) && l in s.running && s.running[l] == SendIt(c) && c in s.conns
    ensures Inv(Idle(s, l)) && Calm(s, Idle(s, l), c, 0)
  {
    hide Inv, Due, DuesOf, Good, Calm;
    Known(s, c);
    DueAtHome(s, l, c);
    assert s.conns == s.conns[c := s.conns[c]];
    SendEndsKeeps(s, Idle(s, l), l, c, s.conns[c]);
  }

  lemma WorkShortKeeps(s: State, l: Loop)
    requires Inv(s) && Step(s, WorkShort(l)).Next?
    ensures Inv(Step(s, WorkShort(l)).state) && Calm(s, Step(s, WorkShort(l)).state, s.running[l].c, 0)
  {
    hide Inv, Due, DuesOf, Good, Calm, Times;
    var c := s.running[l].c;
    Known(s, c);
    DueAtHome(s, l, c);
    SendMeansEstablished(s, l, c);
    GoodShort(s.conns[c], DuesOf(s, c));
    SendEndsKeeps(s, Step(s, WorkShort(l)).state, l, c, LeaveBytes(s.conns[c]));
  }

  lemma RemoveKeeps(s: State, l: Loop, c: Conn)
    requires Inv(s) && l in s.running && s.running[l] == Remove(c) && c in s.conns && s.conns[c].inServer
    ensures DoRemove(s, l, c).Next? && Inv(DoRemove(s, l, c).state) && Calm(s, DoRemove(s, l, c).state, c, 0)
  {
    hide Due, DuesOf, Moved, Good, Inv, Times, Placed;
    Known(s, c);
    DueAtHome(s, l, c);
    var s1 := Go(Idle(s, l), l, Erased(c));
    var s' := DoRemove(s, l, c).state;
    var r := s.conns[c];
    var come := Some((l, Erased(c)));
    WorkMoves(s, l, c, s1, s', come);
    assert s'.conns == s.conns[c := r.(inServer := false, acts := r.acts + [Removed])] && s'.next == s.next;
    DuesAfter(s, s', Some((l, Remove(c))), come, c);
    Counts(r.acts, Removed);
    var d := DuesOf(s, c);
    GoodRemove(r, d);
    assert DuesOf(s', c) == d.(remove := d.remove - 1, erased := d.erased + 1);
    OneChanged(s, s', c, Some((l, Remove(c))), come, 0);
  }

  lemma ErasedKeeps(s: State, l: Loop, c: Conn)
    requires Inv(s) && l in s.running && s.running[l] == Erased(c) && c in s.conns
    ensures Inv(Post(Idle(s, l), s.conns[c].loop, Destroy(c))) && Calm(s, Post(Idle(s, l), s.conns[c].loop, Destroy(c)), c, 0)
  {
    hide Due, DuesOf, Moved, Good, Inv, Times, Placed;
    Known(s, c);
    DueAtHome(s, l, c);
    var io := s.conns[c].loop;
    var s' := Post(Idle(s, l), io, Destroy(c));
    var come := Some((io, Destroy(c)));
    WorkMoves(s, l, c, s', s', come);
    DuesAfter(s, s', Some((l, Erased(c))), come, c);
    var d := DuesOf(s, c);
    GoodErased(s.conns[c], d);
    assert DuesOf(s', c) == d.(erased := d.erased - 1, destroy := d.destroy + 1);
    assert s'.conns == s.conns[c := s.conns[c]];
    OneChanged(s, s', c, Some((l, Erased(c))), come, 0);
  }

  lemma DestroyKeeps(s: State, l: Loop, c: Conn)
    requires Inv(s) && l in s.running && s.running[l] == Destroy(c) && c in s.conns
    requires s.conns[c].writing ==> s.conns[c].state == Connected
    ensures DoDestroy(s, l, c).Next? && Inv(DoDestroy(s, l, c).state) && Calm(s, DoDestroy(s, l, c).state, c, 0)
  {
    hide Due, DuesOf, Moved, Good, Inv, Times, Placed;
    Known(s, c);
    DueAtHome(s, l, c);
    var s1 := Idle(s, l);
    var r := s.conns[c];
    var r1 := if r.state == Connected then r.(state := Disconnected, reading := false, writing := false) else r;
    var s' := Set(s1, c, r1.(inPoller := false, acts := r1.acts + [Destroyed]));
    WorkMoves(s, l, c, s1, s', None);
    DuesAfter(s, s', Some((l, Destroy(c))), None, c);
    var d := DuesOf(s, c);
    Counts(r1.acts, Destroyed);
    GoodDestroy(r, d);
    assert DuesOf(s', c) == d.(destroy := d.destroy - 1);
    OneChanged(s, s', c, Some((l, Destroy(c))), None, 0);
  }

  lemma WorkKeeps(s: State, l: Loop)
    requires Inv(s) && Step(s, Work(l)).Next?
    ensures Inv(Step(s, Work(l)).state) && Calm(s, Step(s, Work(l)).state, s.running[l].c, 0)
  {
    var t := s.running[l];
    var c := t.c;
    assert Due(s, l, t) > 0 && l == Home(s, t);
    hide Inv, Due, DoEstablish, DoRemove, DoDestroy, Close;
    match t {
      case Establish(_) =>
        EstablishNeedsRoom(s, l, c);
        EstablishKeeps(s, l, c);
      case SendIt(_) => SendKeeps(s, l, c);
      case ForceCloseIt(_) => if Open(s.conns[c]) { CloseKeeps(s, l, c); } else { ForceEndsKeeps(s, l, c); }
      case Remove(_) =>
        assert s.conns[c].inServer by { RemoveNeedsServer(s, l, c); }
        RemoveKeeps(s, l, c);
      case Erased(_) => ErasedKeeps(s, l, c);
      case Destroy(_) =>
        DestroyNeedsSilence(s, l, c);
        DestroyKeeps(s, l, c);
    }
  }

  lemma EstablishNeedsRoom(s: State, l: Loop, c: Conn)
    requires c in s.conns
    ensures Clashes(s, c) ==> DoEstablish(s, l, c).Crashed?
  {
  }

  lemma DestroyNeedsSilence(s: State, l: Loop, c: Conn)
    requires c in s.conns
    ensures DoDestroy(s, l, c).Next? ==> (s.conns[c].writing ==> s.conns[c].state == Connected)
    ensures s.conns[c].writing && s.conns[c].state != Connected ==> DoDestroy(s, l, c).Crashed?
  {
  }

  lemma RemoveNeedsServer(s: State, l: Loop, c: Conn)
    requires c in s.conns
    ensures DoRemove(s, l, c).Next? <==> s.conns[c].inServer
  {
  }

  lemma GoodDisconnecting(r: Record, d: Dues)
    requires Good(r, d) && Open(r)
    ensures Good(r.(state := Disconnecting), d)
  {
  }

  /** A call from outside changes the record and may post a functor: a force-close, or a send once established. */
  lemma OutsideKeeps(s: State, s': State, c: Conn, r': Record, come: Place, n: nat)
    requires Inv(s) && c in s.conns
    requires s'.base == s.base && s'.next == s.next && s'.conns == s.conns[c := r'] && r'.loop == s.conns[c].loop && r'.acts == s.conns[c].acts
    requires Good(r', DuesOf(s, c)) && Moved(s, s', None, come) && (come.Some? ==> r'.alive)
    requires
      || come.None?
      || (come == Some((r'.loop, ForceCloseIt(c))) && n == 1)
      || (come == Some((r'.loop, SendIt(c))) && Times(r'.acts, Established) == 1)
    ensures Inv(s') && Calm(s, s', c, n)
  {
    hide Due, Good, DuesOf, Moved, Inv, Times, Placed;
    Known(s, c);
    DuesAfter(s, s', None, come, c);
    var d, d' := DuesOf(s, c), DuesOf(s', c);
    assert d'.establish == d.establish && d'.remove == d.remove && d'.erased == d.erased && d'.destroy == d.destroy;
    assert d' == d.(force := d'.force).(send := d'.send);
    if come.Some? {
      ForceIsFree(r', d, d'.force);
      SendDues(r', d);
      SendIsFree(r', d.(force := d'.force), d'.send);
    }
    assert About(come, c) && (come.Some? ==> come.value.0 == Home(s', come.value.1));
    OneChanged(s, s', c, None, come, n);
  }

  lemma SendDues(r: Record, d: Dues)
    requires Good(r, d)
    ensures d.send > 0 ==> Times(r.acts, Established) == 1
  {
  }

  lemma ForceCloseMoves(s: State, c: Conn)
    requires Step(s, ForceClose(c)).Next?
    ensures Moved(s, Step(s, ForceClose(c)).state, None, Some((s.conns[c].loop, ForceCloseIt(c))))
  {
    hide Moved;
    var l := s.conns[c].loop;
    Posted(s, l, ForceCloseIt(c));
    Recorded(s, Post(s, l, ForceCloseIt(c)), Step(s, ForceClose(c)).state, None, Some((l, ForceCloseIt(c))));
  }

  lemma ForceCloseKeeps(s: State, c: Conn)
    requires Inv(s) && Step(s, ForceClose(c)).Next?
    ensures Inv(Step(s, ForceClose(c)).state) && Calm(s, Step(s, ForceClose(c)).state, c, 1)
  {
    hide Moved, Inv, Asked, Due, DuesOf, Good;
    Known(s, c);
    GoodDisconnecting(s.conns[c], DuesOf(s, c));
    ForceCloseMoves(s, c);
    OutsideKeeps(s, Step(s, ForceClose(c)).state, c, s.conns[c].(state := Disconnecting), Some((s.conns[c].loop, ForceCloseIt(c))), 1);
  }

  lemma NothingMoves(s: State, s': State)
    requires s'.queued == s.queued && s'.running == s.running
    ensures Moved(s, s', None, None)
  {
  }

  /** A call that posts nothing. */
  lemma RecordKeeps(s: State, s': State, c: Conn, r': Record)
    requires Inv(s) && c in s.conns && s' == Set(s, c, r') && r'.loop == s.conns[c].loop && r'.acts == s.conns[c].acts
    requires Good(r', DuesOf(s, c))
    ensures Inv(s') && Calm(s, s', c, 0)
  {
    hide Moved, Inv, Asked, Due, DuesOf, Good;
    NothingMoves(s, s');
    OutsideKeeps(s, s', c, r', None, 0);
  }

  lemma ShutdownKeeps(s: State, c: Conn)
    requires Inv(s) && Step(s, Shutdown(c)).Next?
    ensures Inv(Step(s, Shutdown(c)).state) && Calm(s, Step(s, Shutdown(c)).state, c, 0)
  {
    hide Moved, Inv, Asked, Due, DuesOf, Good;
    Known(s, c);
    GoodDisconnecting(s.conns[c], DuesOf(s, c));
    RecordKeeps(s, Step(s, Shutdown(c)).state, c, s.conns[c].(state := Disconnecting));
  }

  lemma SendShortKeeps(s: State, c: Conn)
    requires Inv(s) && Step(s, SendShort(c)).Next?
    ensures Inv(Step(s, SendShort(c)).state) && Calm(s, Step(s, SendShort(c)).state, c, 0)
  {
    hide Moved, Inv, Asked, Due, DuesOf, Good, Times;
    Known(s, c);
    SendMeansEstablished(s, s.conns[c].loop, c);
    GoodShort(s.conns[c], DuesOf(s, c));
    RecordKeeps(s, Step(s, SendShort(c)).state, c, LeaveBytes(s.conns[c]));
  }

  lemma DrainKeeps(s: State, c: Conn)
    requires Inv(s) && Step(s, Drain(c)).Next?
    ensures Inv(Step(s, Drain(c)).state) && Calm(s, Step(s, Drain(c)).state, c, 0)
  {
    hide Moved, Inv, Asked, Due, DuesOf, Good;
    Known(s, c);
    GoodDrained(s.conns[c], DuesOf(s, c));
    RecordKeeps(s, Step(s, Drain(c)).state, c, s.conns[c].(writing := false));
  }

  lemma ReleaseKeeps(s: State, c: Conn)
    requires Inv(s) && Step(s, Release(c)).Next?
    ensures Inv(Step(s, Release(c)).state) && Calm(s, Step(s, Release(c)).state, c, 0)
  {
    hide Moved, Inv, Asked, DuesOf, Good, Due;
    Known(s, c);
    UnheldGood(s, c);
    RecordKeeps(s, Step(s, Release(c)).state, c, s.conns[c].(alive := false));
  }

  lemma UnheldGood(s: State, c: Conn)
    requires c in s.conns && !Held(s, c) && Good(s.conns[c], DuesOf(s, c))
    ensures Good(s.conns[c].(alive := false), DuesOf(s, c))
  {
    NotDue(s, c);
    hide Due, Held;
  }

  lemma NotDue(s: State, c: Conn)
    requires c in s.conns && !Held(s, c)
    ensures forall l: Loop, t: Task | t.c == c :: Due(s, l, t) == 0
  {
    forall l: Loop, t: Task | t.c == c ensures Due(s, l, t) == 0 {
      assert (l, t).1.c == c;
    }
  }

  lemma SendPostKeeps(s: State, c: Conn)
    requires Inv(s) && Step(s, Send(c)).Next?
    ensures Inv(Step(s, Send(c)).state) && Calm(s, Step(s, Send(c)).state, c, 0)
  {
    hide Moved, Inv, Asked, Due, DuesOf, Good, Times;
    Known(s, c);
    SendMeansEstablished(s, s.conns[c].loop, c);
    Posted(s, s.conns[c].loop, SendIt(c));
    assert s.conns == s.conns[c := s.conns[c]];
    OutsideKeeps(s, Step(s, Send(c)).state, c, s.conns[c], Some((s.conns[c].loop, SendIt(c))), 0);
  }

  predicate Asks(e: Event, c: Conn) {
    (e.HandleClose? || e.ForceClose?) && e.c == c
  }

  lemma StepKeeps(s: State, e: Event)
    requires Inv(s) && Step(s, e).Next?
    ensures Inv(Step(s, e).state)
    ensures forall c | c in s.conns ::
              c in Step(s, e).state.conns && Asked(Step(s, e).state, c) <= Asked(s, c) + if Asks(e, c) then 1 else 0
  {
    hide Inv, Asked;
    match e
    case Accept(io, fd) => AcceptKeeps(s, io, fd);
    case Begin(l, t) => BeginKeeps(s, l, t);
    case Work(l) => WorkKeeps(s, l);
    case HandleClose(c) => CloseKeeps(s, s.conns[c].loop, c);
    case ForceClose(c) => ForceCloseKeeps(s, c);
    case Shutdown(c) => ShutdownKeeps(s, c);
    case WorkShort(l) => WorkShortKeeps(s, l);
    case Send(c) => SendPostKeeps(s, c);
    case SendShort(c) => SendShortKeeps(s, c);
    case Drain(c) => DrainKeeps(s, c);
    case Release(c) => ReleaseKeeps(s, c);
  }

  // ---- Descriptors ----

  /**
   Living connections have descriptors of their own, nobody else stands in the poller
   under the descriptor of a living established one, and no two stand in one place.
   */
  ghost predicate Ports(s: State) {
    && (forall c, d | c in s.conns && d in s.conns && c != d && s.conns[c].alive && s.conns[d].alive :: s.conns[c].fd != s.conns[d].fd)
    && (forall c | c in s.conns && s.conns[c].alive && Established in s.conns[c].acts :: !Occupied(s, c))
    && (forall c | c in s.conns && s.conns[c].inPoller :: !Occupied(s, c))
    && (forall c | c in s.conns :: c < s.next)
  }

  /** What a step may do to a record as far as descriptors go. */
  predicate Fits(s: State, c: Conn, r': Record)
    requires c in s.conns
  {
    var r := s.conns[c];
    && r'.loop == r.loop && r'.fd == r.fd && (r'.alive ==> r.alive)
    && (r'.inPoller && !r.inPoller ==> r.alive && !Occupied(s, c))
    && (Established in r'.acts && Established !in r.acts ==> !Occupied(s, c))
  }

  lemma FitsKeepsPorts(s: State, s': State, c: Conn, r': Record)
    requires Ports(s) && c in s.conns && Fits(s, c, r') && s'.conns == s.conns[c := r'] && s.next <= s'.next
    ensures Ports(s')
  {
    forall d | d in s.conns && d != c ensures Occupied(s', d) ==> Occupied(s, d) || (s'.conns[c].inPoller && !s.conns[c].inPoller) {
      Newcomer(s, s', c, r', d);
    }
    assert Occupied(s', c) ==> Occupied(s, c) by {
      if Occupied(s', c) {
        var d :| d in s'.conns && d != c && s'.conns[d].inPoller && s'.conns[d].loop == s'.conns[c].loop && s'.conns[d].fd == s'.conns[c].fd;
        assert s.conns[d] == s'.conns[d];
      }
    }
    forall d | d in s'.conns && d != c && s'.conns[d].alive && Established in s'.conns[d].acts ensures !Occupied(s', d) {
      Newcomer(s, s', c, r', d);
    }
    forall d | d in s'.conns && d != c && s'.conns[d].inPoller ensures !Occupied(s', d) {
      Newcomer(s, s', c, r', d);
      if r'.inPoller && !s.conns[c].inPoller {
        StandsAlready(s, c, d);
      }
    }
    hide Occupied;
  }

  lemma AcceptPorts(s: State, io: Loop, fd: nat)
    requires Ports(s) && Step(s, Accept(io, fd)).Next?
    ensures Ports(Step(s, Accept(io, fd)).state)
  {
    var s' := Step(s, Accept(io, fd)).state;
    var c := s.next;
    assert c !in s.conns && s'.conns == s.conns[c := Fresh(io, fd)];
    forall d | d in s.conns ensures Occupied(s', d) ==> Occupied(s, d) {
      if Occupied(s', d) {
        var x :| x in s'.conns && x != d && s'.conns[x].inPoller && s'.conns[x].loop == s'.conns[d].loop && s'.conns[x].fd == s'.conns[d].fd;
        assert x != c && s.conns[x] == s'.conns[x];
      }
    }
    hide Occupied;
  }

  lemma EstablishedHasRoom(s: State, c: Conn)
    requires Ports(s) && c in s.conns && s.conns[c].alive && Established in s.conns[c].acts
    ensures !Occupied(s, c) && !Clashes(s, c)
  {
    hide Occupied;
  }

  lemma InActs(acts: seq<Act>)
    ensures forall a :: a in acts <==> Times(acts, a) > 0
  {
  }

  /** The functors that touch a record: all of them fit. */
  lemma WorkFits(s: State, l: Loop)
    requires Inv(s) && Ports(s) && Step(s, Work(l)).Next?
    ensures
      var c := s.running[l].c; var s' := Step(s, Work(l)).state;
      c in s.conns && c in s'.conns && s'.conns == s.conns[c := s'.conns[c]] && Fits(s, c, s'.conns[c]) && s'.next == s.next
  {
    hide Inv, Due, DuesOf, Times, Occupied, Ports;
    var t := s.running[l];
    var c := t.c;
    Known(s, c);
    DueAtHome(s, l, c);
    InActs(s.conns[c].acts);
    var s' := WorkOn(s, l, t).state;
    match t
    case Establish(_) =>
    case ForceCloseIt(_) =>
    case Remove(_) => assert s.conns[c].acts + [Removed] == s'.conns[c].acts;
    case Destroy(_) =>
    case _ => assert s.conns == s.conns[c := s.conns[c]];
  }

  /** So do the calls. */
  lemma CallFits(s: State, e: Event)
    requires Inv(s) && Ports(s) && Step(s, e).Next? && !e.Accept? && !e.Begin? && !e.Work? && !e.WorkShort?
    ensures
      var s' := Step(s, e).state;
      e.c in s.conns && e.c in s'.conns && s'.conns == s.conns[e.c := s'.conns[e.c]] && Fits(s, e.c, s'.conns[e.c]) && s'.next == s.next
  {
    hide Inv, Due, DuesOf, Times, Occupied, Ports, Held;
    var c := e.c;
    var s' := CallOn(s, e, c).state;
    match e
    case HandleClose(_) =>
    case SendShort(_) =>
    case Send(_) => assert s.conns == s.conns[c := s.conns[c]];
    case _ =>
  }

  lemma WorkShortFits(s: State, l: Loop)
    requires Inv(s) && Step(s, WorkShort(l)).Next?
    ensures
      var c := s.running[l].c; var s' := Step(s, WorkShort(l)).state;
      c in s.conns && c in s'.conns && s'.conns == s.conns[c := s'.conns[c]] && Fits(s, c, s'.conns[c]) && s'.next == s.next
  {
    hide Inv, Due, DuesOf, Times, Occupied, Good;
    DueAtHome(s, l, s.running[l].c);
  }

  lemma StepPorts(s: State, e: Event)
    requires Inv(s) && Ports(s) && Step(s, e).Next?
    ensures Ports(Step(s, e).state)
  {
    hide Inv, Ports, Fits;
    var s' := Step(s, e).state;
    match e
    case Accept(io, fd) => AcceptPorts(s, io, fd);
    case Begin(l, t) => SamePorts(s, s');
    case Work(l) =>
      WorkFits(s, l);
      FitsKeepsPorts(s, s', s.running[l].c, s'.conns[s.running[l].c]);
    case WorkShort(l) =>
      WorkShortFits(s, l);
      FitsKeepsPorts(s, s', s.running[l].c, s'.conns[s.running[l].c]);
    case _ =>
      CallFits(s, e);
      FitsKeepsPorts(s, s', e.c, s'.conns[e.c]);
  }

  lemma SamePorts(s: State, s': State)
    requires Ports(s) && s'.conns == s.conns && s'.next == s.next
    ensures Ports(s')
  {
    forall c | c in s.conns ensures Occupied(s', c) == Occupied(s, c) {
    }
    hide Occupied;
  }

  /** A place is newly occupied only by c coming into the poller, under a descriptor no living connection shares. */
  lemma Newcomer(s: State, s': State, c: Conn, r': Record, d: Conn)
    requires Ports(s) && c in s.conns && Fits(s, c, r') && s'.conns == s.conns[c := r'] && d in s.conns && d != c
    ensures Occupied(s', d) ==>
              || Occupied(s, d)
              || (r'.inPoller && !s.conns[c].inPoller && s.conns[c].loop == s.conns[d].loop && s.conns[c].fd == s.conns[d].fd && !s.conns[d].alive)
  {
    if Occupied(s', d) {
      var x :| x in s'.conns && x != d && s'.conns[x].inPoller && s'.conns[x].loop == s'.conns[d].loop && s'.conns[x].fd == s'.conns[d].fd;
      if x != c || s.conns[c].inPoller {
        assert s.conns[x].inPoller && s.conns[x].loop == s.conns[d].loop && s.conns[x].fd == s.conns[d].fd;
      }
    }
  }

  lemma StandsAlready(s: State, c: Conn, d: Conn)
    requires c in s.conns && d in s.conns && c != d && s.conns[d].inPoller && !Occupied(s, c)
    ensures s.conns[c].loop != s.conns[d].loop || s.conns[c].fd != s.conns[d].fd
  {
  }

  lemma {:induction false} RunKeeps(s: State, es: seq<Event>)
    requires Inv(s) && Ports(s) && Run(s, es).Next?
    ensures Inv(Run(s, es).state) && Ports(Run(s, es).state)
    decreases |es|
  {
    hide Inv, Step, Ports;
    if es != [] {
      match Step(s, es[0])
      case Next(s') =>
        StepKeeps(s, es[0]);
        StepPorts(s, es[0]);
        RunKeeps(s', es[1..]);
      case Disabled => RunKeeps(s, es[1..]);
      case Crashed =>
    }
  }

  // ---- Results about every run ----

  lemma InitInv(base: Loop)
    ensures Inv(Init(base)) && Ports(Init(base))
  {
  }

  lemma HeldIfDue(s: State, c: Conn, l: Loop, t: Task)
    requires c in s.conns && t.c == c && Due(s, l, t) > 0
    ensures Held(s, c)
  {
    if (l, t) in s.queued {
      assert (l, t).1.c == c;
    }
  }

  /** Until it is destroyed the map holds a connection, or its removal or destruction on its way. */
  lemma HeldIfGood(s: State, c: Conn)
    requires Inv(s) && c in s.conns && Times(s.conns[c].acts, Destroyed) == 0
    ensures Held(s, c)
  {
    hide Due, Times;
    var r, d := s.conns[c], DuesOf(s, c);
    Known(s, c);
    if !r.inServer {
      assert d.erased + d.destroy == 1;
      if d.erased > 0 {
        HeldIfDue(s, c, s.base, Erased(c));
      } else {
        HeldIfDue(s, c, r.loop, Destroy(c));
      }
    }
  }

  /** In every run, however often anything closes and whatever is sent: a connection is held until it is destroyed. */
  lemma HeldUntilDestroyed(base: Loop, es: seq<Event>, c: Conn)
    requires Run(Init(base), es).Next? && c in Run(Init(base), es).state.conns
    requires Destroyed !in Run(Init(base), es).state.conns[c].acts
    ensures Held(Run(Init(base), es).state, c)
  {
    hide Inv, Run, Held;
    InitInv(base);
    RunKeeps(Init(base), es);
    HeldIfGood(Run(Init(base), es).state, c);
  }

  /**
   In every run, for every connection that was closed at most once: it is established,
   closed, removed and destroyed at most once each and in that order; and while it is in
   the poller somebody holds it, until it is destroyed; after that it is in the poller
   exactly when a send left bytes behind after the destruction.
   */
  lemma HandOverInOrder(base: Loop, es: seq<Event>, c: Conn)
    requires Run(Init(base), es).Next?
    requires var s := Run(Init(base), es).state; c in s.conns && Times(s.conns[c].acts, Closed) <= 1
    ensures var s := Run(Init(base), es).state;
            && s.conns[c].acts <= LIFE
            && (s.conns[c].inPoller && !s.conns[c].revived ==> Held(s, c))
            && (!Held(s, c) ==> (s.conns[c].inPoller <==> s.conns[c].revived))
  {
    hide Inv, Run, Held, DuesOf;
    InitInv(base);
    RunKeeps(Init(base), es);
    var s := Run(Init(base), es).state;
    Known(s, c);
    if Times(s.conns[c].acts, Destroyed) == 0 {
      HeldIfGood(s, c);
    }
  }

  /**
   However often it closes, a connection is established, removed and destroyed at most
   once, and every close has its removal, done or due.
   */
  lemma EachCloseIsRemoved(base: Loop, es: seq<Event>, c: Conn)
    requires Run(Init(base), es).Next? && c in Run(Init(base), es).state.conns
    ensures
      var s := Run(Init(base), es).state;
      var acts := s.conns[c].acts;
      && Times(acts, Established) <= 1 && Times(acts, Destroyed) <= Times(acts, Removed) <= 1
      && Times(acts, Removed) + Due(s, base, Remove(c)) == Times(acts, Closed)
      && (Times(acts, Removed) == 0 <==> s.conns[c].inServer)
  {
    InitInv(base);
    RunKeeps(Init(base), es);
    SameBase(Init(base), es);
    var s := Run(Init(base), es).state;
    hide Run;
    assert Good(s.conns[c], DuesOf(s, c));
  }

  lemma {:induction false} SameBase(s: State, es: seq<Event>)
    requires Run(s, es).Next?
    ensures Run(s, es).state.base == s.base
    decreases |es|
  {
    if es != [] {
      match Step(s, es[0])
      case Next(s') =>
        assert s'.base == s.base;
        hide Step;
        SameBase(s', es[1..]);
      case Disabled =>
        hide Step;
        SameBase(s, es[1..]);
      case Crashed =>
    }
  }

  /** The destruction is about to find writing on, which a send turned on after the close. */
  predicate DestroysWriting(s: State, e: Event) {
    && e.Work? && e.l in s.running && s.running[e.l].Destroy? && s.running[e.l].c in s.conns
    && s.conns[s.running[e.l].c].writing && s.conns[s.running[e.l].c].state != Connected
  }

  /** A removal is about to miss its connection. */
  predicate RemovesAgain(s: State, e: Event) {
    && e == Work(s.base) && s.base in s.running && s.running[s.base].Remove? && s.running[s.base].c in s.conns
    && !s.conns[s.running[s.base].c].inServer
  }

  /** A connection is about to be established under a descriptor that still stands in the poller for a released one. */
  predicate EstablishesOver(s: State, e: Event) {
    && e.Work? && e.l in s.running && s.running[e.l].Establish? && s.running[e.l].c in s.conns
    && Clashes(s, s.running[e.l].c)
  }

  /** What stands in its place: a connection destroyed and released, and put back by a send unless it closed twice. */
  predicate IsStale(s: State, d: Conn, c: Conn) {
    && d in s.conns && c in s.conns && d != c && s.conns[d].loop == s.conns[c].loop && s.conns[d].fd == s.conns[c].fd
    && !s.conns[d].alive && s.conns[d].inPoller && Times(s.conns[d].acts, Destroyed) == 1
    && (Times(s.conns[d].acts, Closed) <= 1 ==> s.conns[d].revived)
  }

  /**
   A step fails exactly at a second removal, at a close after the destruction, where a late
   send left writing on for the destruction, or where a released connection still stands in
   the poller under the descriptor of a new one.
   */
  lemma CrashIff(s: State, e: Event)
    requires Inv(s) && Ports(s)
    ensures Step(s, e).Crashed? <==>
      || RemovesAgain(s, e) || DestroysWriting(s, e) || EstablishesOver(s, e)
      || (e.HandleClose? && !Step(s, e).Disabled? && s.conns[e.c].state == Disconnected)
    ensures DestroysWriting(s, e) ==> s.conns[s.running[e.l].c].late
    ensures EstablishesOver(s, e) ==> exists d :: IsStale(s, d, s.running[e.l].c)
  {
    hide Inv, Ports, WorkOn, CallOn, IsStale, Clashes;
    match e {
      case Work(l) =>
        if l in s.running && s.running[l].c in s.conns {
          WorkFails(s, l);
        }
      case WorkShort(l) =>
        if l in s.running && s.running[l].SendIt? && s.running[l].c in s.conns {
          SendFits(s, l, s.running[l].c);
        }
      case Accept(_, _) =>
      case Begin(_, _) =>
      case _ =>
        if e.c in s.conns && s.conns[e.c].alive {
          CallFails(s, e);
        }
    }
  }

  lemma SendFits(s: State, l: Loop, c: Conn)
    requires Inv(s) && Ports(s) && l in s.running && s.running[l] == SendIt(c) && c in s.conns
    ensures !Clashes(s, c)
  {
    hide Inv, Ports, Times, Occupied;
    DueAtHome(s, l, c);
    SendMeansEstablished(s, l, c);
    InActs(s.conns[c].acts);
    EstablishedHasRoom(s, c);
  }

  lemma CallFails(s: State, e: Event)
    requires Inv(s) && Ports(s) && !e.Accept? && !e.Begin? && !e.Work? && !e.WorkShort? && e.c in s.conns && s.conns[e.c].alive
    ensures CallOn(s, e, e.c).Crashed? <==>
              e.HandleClose? && !CallOn(s, e, e.c).Disabled? && s.conns[e.c].state == Disconnected
  {
    hide Inv, Ports, Times, Occupied, Held, Due, DuesOf;
    var c := e.c;
    Known(s, c);
    InActs(s.conns[c].acts);
    if s.conns[c].state == Connected || Established in s.conns[c].acts {
      if s.conns[c].state == Connected {
        SendMeansEstablished(s, s.conns[c].loop, c);
      }
      EstablishedHasRoom(s, c);
    }
    hide Clashes;
  }

  lemma WorkFails(s: State, l: Loop)
    requires Inv(s) && Ports(s) && l in s.running && s.running[l].c in s.conns
    ensures WorkOn(s, l, s.running[l]).Crashed? <==>
              RemovesAgain(s, Work(l)) || DestroysWriting(s, Work(l)) || EstablishesOver(s, Work(l))
    ensures DestroysWriting(s, Work(l)) ==> s.conns[s.running[l].c].late
    ensures EstablishesOver(s, Work(l)) ==> exists d :: IsStale(s, d, s.running[l].c)
  {
    hide Inv, Ports, Due, DuesOf, DoEstablish, DoDestroy, Close, IsStale, Clashes;
    var c := s.running[l].c;
    DueAtHome(s, l, c);
    match s.running[l] {
      case Establish(_) =>
        EstablishNeedsRoom(s, l, c);
        if Clashes(s, c) {
          ClashIsStale(s, c);
        } else {
          EstablishKeeps(s, l, c);
        }
      case ForceCloseIt(_) =>
        if Open(s.conns[c]) {
          ForcedCloseFits(s, l, c);
        }
      case Destroy(_) =>
        DestroyNeedsSilence(s, l, c);
        WritingIsLate(s, l, c);
        if s.conns[c].writing ==> s.conns[c].state == Connected {
          DestroyKeeps(s, l, c);
        }
      case _ =>
    }
  }

  lemma ForcedCloseFits(s: State, l: Loop, c: Conn)
    requires Inv(s) && Ports(s) && c in s.conns && s.conns[c].alive && Open(s.conns[c])
    ensures Close(s, l, c).Next?
  {
    hide Inv, Ports, Times, Occupied, Due, DuesOf;
    Known(s, c);
    InActs(s.conns[c].acts);
    EstablishedHasRoom(s, c);
    hide Clashes;
  }

  lemma ClashIsStale(s: State, c: Conn)
    requires Inv(s) && Ports(s) && c in s.conns && s.conns[c].alive && Clashes(s, c)
    ensures exists d :: IsStale(s, d, c)
  {
    var d :| d in s.conns && d != c && s.conns[d].inPoller && s.conns[d].loop == s.conns[c].loop && s.conns[d].fd == s.conns[c].fd;
    assert !s.conns[d].alive;
    hide Due, Times, Inv, Ports, Occupied;
    Known(s, d);
    StaleRecord(s.conns[d], DuesOf(s, d));
    assert IsStale(s, d, c);
  }

  lemma StaleRecord(r: Record, d: Dues)
    requires Good(r, d) && !r.alive && r.inPoller
    ensures Times(r.acts, Destroyed) == 1 && (Times(r.acts, Closed) <= 1 ==> r.revived)
  {
    hide Times;
  }

  lemma WritingIsLate(s: State, l: Loop, c: Conn)
    requires Inv(s) && l in s.running && s.running[l] == Destroy(c) && c in s.conns
    ensures s.conns[c].writing ==> s.conns[c].late
  {
    hide Inv, Due, DuesOf, Times;
    Known(s, c);
    DueAtHome(s, l, c);
  }

  // ---- One close per connection keeps a run safe ----

  /** Every connection is asked to close at most once, by its peer or by forceClose: read off the events alone. */
  predicate OneClose(es: seq<Event>, asked: set<Conn>)
    decreases |es|
  {
    if es == [] then true
    else match es[0]
      case HandleClose(c) => c !in asked && OneClose(es[1..], asked + {c})
      case ForceClose(c) => c !in asked && OneClose(es[1..], asked + {c})
      case _ => OneClose(es[1..], asked)
  }

  ghost predicate AskedOnce(s: State, asked: set<Conn>) {
    forall c | c in s.conns ::
      Asked(s, c) <= if c in asked then 1 else 0
  }

  lemma AskedKeeps(s: State, e: Event, asked: set<Conn>)
    requires Inv(s) && AskedOnce(s, asked) && Step(s, e).Next?
    requires (e.HandleClose? || e.ForceClose?) ==> e.c !in asked
    ensures AskedOnce(Step(s, e).state, if e.HandleClose? || e.ForceClose? then asked + {e.c} else asked)
  {
    hide Step, Inv, Asked;
    var s' := Step(s, e).state;
    StepKeeps(s, e);
    forall c | c in s'.conns && c !in s.conns ensures Asked(s', c) == 0 {
      NewIsUnasked(s, e, c);
    }
  }

  lemma NewIsUnasked(s: State, e: Event, c: Conn)
    requires Inv(s) && Step(s, e).Next? && c in Step(s, e).state.conns && c !in s.conns
    ensures Asked(Step(s, e).state, c) == 0
  {
    hide Inv, Due, Times, DuesOf;
    OnlyAcceptAdds(s, e, c);
    AcceptMoves(s, e.io, e.fd);
    NoTimes();
  }

  lemma NoTimes()
    ensures forall a :: Times([], a) == 0
  {
  }

  lemma OnlyAcceptAdds(s: State, e: Event, c: Conn)
    requires Step(s, e).Next? && c in Step(s, e).state.conns && c !in s.conns
    ensures e.Accept? && c == s.next && Step(s, e).state.conns[c].acts == []
  {
  }

  lemma OnceRemovable(r: Record, d: Dues)
    requires Good(r, d) && Times(r.acts, Closed) <= 1
    ensures d.remove > 0 ==> r.inServer
    ensures Times(r.acts, Closed) == 0 ==> r.state != Disconnected
  {
  }

  lemma RemovesOnce(s: State, asked: set<Conn>)
    requires Inv(s) && AskedOnce(s, asked)
    ensures !RemovesAgain(s, Work(s.base))
  {
    hide Inv, Due, DuesOf, Good, Times;
    if s.base in s.running && s.running[s.base].Remove? && s.running[s.base].c in s.conns {
      var c := s.running[s.base].c;
      Known(s, c);
      DueAtHome(s, s.base, c);
      assert Asked(s, c) <= 1;
      OnceRemovable(s.conns[c], DuesOf(s, c));
    }
  }

  lemma FirstCloseFinds(s: State, c: Conn, asked: set<Conn>)
    requires Inv(s) && AskedOnce(s, asked) && c in s.conns && c !in asked
    ensures s.conns[c].state != Disconnected
  {
    hide Inv, Due, DuesOf, Good, Times;
    Known(s, c);
    assert Asked(s, c) == 0;
    OnceRemovable(s.conns[c], DuesOf(s, c));
  }

  /** With one close asked for, only what late sends do can still fail. */
  lemma AskedOnceCrashIff(s: State, e: Event, asked: set<Conn>)
    requires Inv(s) && Ports(s) && AskedOnce(s, asked) && (e.HandleClose? ==> e.c !in asked)
    ensures Step(s, e).Crashed? <==> DestroysWriting(s, e) || EstablishesOver(s, e)
    ensures NoneLate(s) ==> !DestroysWriting(s, e) && !EstablishesOver(s, e)
  {
    hide Inv, Ports, AskedOnce, WorkOn, CallOn, IsStale, Clashes;
    CrashIff(s, e);
    RemovesOnce(s, asked);
    if e.HandleClose? && !Step(s, e).Disabled? {
      FirstCloseFinds(s, e.c, asked);
    }
    if EstablishesOver(s, e) {
      var c := s.running[e.l].c;
      var d :| IsStale(s, d, c);
      StaleIsLate(s, d, c, asked);
    }
  }

  lemma StaleIsLate(s: State, d: Conn, c: Conn, asked: set<Conn>)
    requires Inv(s) && AskedOnce(s, asked) && IsStale(s, d, c)
    ensures d in s.conns && s.conns[d].late && s.conns[d].revived
  {
    hide Inv, Due, DuesOf, Times;
    Known(s, d);
    assert Asked(s, d) <= 1;
  }

  /** The run reaches a destruction that finds writing on, or an establishment that finds its place in the poller taken. */
  predicate FailsLate(s: State, es: seq<Event>)
    decreases |es|
  {
    if es == [] then false
    else DestroysWriting(s, es[0]) || EstablishesOver(s, es[0]) || match Step(s, es[0])
      case Next(s') => FailsLate(s', es[1..])
      case Disabled => FailsLate(s, es[1..])
      case Crashed => false
  }

  /** The event is not a send that leaves bytes behind on a closed connection. */
  predicate Quiet(s: State, e: Event) {
    match e
    case WorkShort(l) => l in s.running && s.running[l].c in s.conns ==> Closed !in s.conns[s.running[l].c].acts
    case SendShort(c) => c in s.conns ==> Closed !in s.conns[c].acts
    case _ => true
  }

  /** No send leaves bytes behind after the close of its connection. */
  predicate NoLateBytes(s: State, es: seq<Event>)
    decreases |es|
  {
    if es == [] then true
    else Quiet(s, es[0]) && match Step(s, es[0])
      case Next(s') => NoLateBytes(s', es[1..])
      case Disabled => NoLateBytes(s, es[1..])
      case Crashed => true
  }

  predicate NoneLate(s: State) {
    forall c | c in s.conns :: !s.conns[c].late
  }

  /** The functors of a loop mark nothing late; only a send that leaves bytes does. */
  lemma WorkMarksNothing(s: State, l: Loop)
    requires NoneLate(s) && Step(s, Work(l)).Next?
    ensures NoneLate(Step(s, Work(l)).state)
  {
    hide Clashes, Occupied;
    var t := s.running[l];
    assert Step(s, Work(l)) == WorkOn(s, l, t);
    match t
    case Establish(_) =>
    case ForceCloseIt(_) =>
    case Destroy(_) =>
    case _ =>
  }

  lemma CallMarksNothing(s: State, e: Event)
    requires !e.Accept? && !e.Begin? && !e.Work? && !e.WorkShort?
    requires NoneLate(s) && Quiet(s, e) && e.c in s.conns && CallOn(s, e, e.c).Next?
    ensures NoneLate(CallOn(s, e, e.c).state)
  {
    hide Clashes, Occupied, Held;
    match e
    case HandleClose(_) =>
    case SendShort(_) =>
    case _ =>
  }

  lemma QuietKeeps(s: State, e: Event)
    requires NoneLate(s) && Quiet(s, e) && Step(s, e).Next?
    ensures NoneLate(Step(s, e).state)
  {
    hide WorkOn, CallOn, Clashes, Occupied;
    match e
    case Work(l) => WorkMarksNothing(s, l);
    case WorkShort(_) =>
    case Accept(_, _) =>
    case Begin(_, _) =>
    case _ => CallMarksNothing(s, e);
  }

  lemma {:induction false} OneCloseKeeps(s: State, es: seq<Event>, asked: set<Conn>) returns (asked': set<Conn>)
    requires Inv(s) && Ports(s) && AskedOnce(s, asked) && OneClose(es, asked)
    ensures Run(s, es).Crashed? <==> FailsLate(s, es)
    ensures !Run(s, es).Crashed? ==> Run(s, es).Next? && Inv(Run(s, es).state) && AskedOnce(Run(s, es).state, asked')
    ensures NoneLate(s) && NoLateBytes(s, es) ==> !FailsLate(s, es) && NoneLate(Run(s, es).state)
    decreases |es|
  {
    hide Inv, Ports, AskedOnce, Step, DestroysWriting, EstablishesOver, Quiet, NoneLate;
    asked' := asked;
    if es != [] {
      var e := es[0];
      AskedOnceCrashIff(s, e, asked);
      var now := if e.HandleClose? || e.ForceClose? then asked + {e.c} else asked;
      match Step(s, e)
      case Next(s') =>
        StepKeeps(s, e);
        StepPorts(s, e);
        AskedKeeps(s, e, asked);
        if NoneLate(s) && Quiet(s, e) {
          QuietKeeps(s, e);
        }
        asked' := OneCloseKeeps(s', es[1..], now);
      case Disabled =>
        AskedMore(s, asked, now);
        asked' := OneCloseKeeps(s, es[1..], now);
      case Crashed =>
    }
  }

  lemma AskedMore(s: State, asked: set<Conn>, more: set<Conn>)
    requires AskedOnce(s, asked) && asked <= more
    ensures AskedOnce(s, more)
  {
    hide Asked;
  }

  lemma NobodyYet(base: Loop)
    ensures Inv(Init(base)) && Ports(Init(base)) && AskedOnce(Init(base), {}) && NoneLate(Init(base))
  {
    InitInv(base);
  }

  /**
   Whatever the interleaving of the loops, as long as each connection is asked to close
   once, by its handler or by forceClose: a run fails exactly where connectDestroyed finds
   writing on in a state other than kConnected, or where connectEstablished finds a
   released connection in the poller under its descriptor.
   */
  lemma OneCloseFailsIff(base: Loop, es: seq<Event>)
    requires OneClose(es, {})
    ensures Run(Init(base), es).Crashed? <==> FailsLate(Init(base), es)
  {
    hide Inv, Ports, Run, Step, AskedOnce, FailsLate;
    NobodyYet(base);
    var asked := OneCloseKeeps(Init(base), es, {});
  }

  /**
   If moreover no send leaves bytes behind after its connection's close: no assertion
   fails, every connection goes through its life in order, and none is let go while its
   channel is in the poller.
   */
  lemma OneCloseIsSafe(base: Loop, es: seq<Event>)
    requires OneClose(es, {}) && NoLateBytes(Init(base), es)
    ensures Run(Init(base), es).Next?
    ensures
      var s := Run(Init(base), es).state;
      forall c | c in s.conns :: s.conns[c].acts <= LIFE && (s.conns[c].inPoller ==> Held(s, c))
  {
    hide Inv, Ports, Run, Step, FailsLate, NoLateBytes, Held;
    NobodyYet(base);
    var asked := OneCloseKeeps(Init(base), es, {});
    var s := Run(Init(base), es).state;
    forall c | c in s.conns ensures s.conns[c].acts <= LIFE && (s.conns[c].inPoller ==> Held(s, c)) {
      ClosedOnce(s, c, asked);
      HandOverInOrder(base, es, c);
    }
  }

  lemma ClosedOnce(s: State, c: Conn, asked: set<Conn>)
    requires Inv(s) && AskedOnce(s, asked) && NoneLate(s) && c in s.conns
    ensures Times(s.conns[c].acts, Closed) <= 1 && !s.conns[c].revived
  {
    hide Inv, Due, DuesOf, Times;
    Known(s, c);
    assert Asked(s, c) <= 1;
  }
}
