/**
 The protocol of the asynchronous logger, vserver/Asynclogging.{h,cc}: any number
 of threads append under the lock while one writer thread swaps, formats,
 recycles and writes. The state is at line granularity; AsyncLogging.dfy holds
 the bytes. Every event list is a run: an event that is not enabled does nothing.
 */
module AsyncLog {
  import opened Common

  const LARGE_BUFFER: nat := 4000 * 1000

  /** A `unique_ptr` to a buffer: moved-from, or owning the buffer id, which holds whole lines. */
  datatype Slot = Null | Held(id: nat, lines: seq<string>)

  /** Where the writer thread is. */
  datatype Pc = Top | Entered | Swapped | Formatted | Recycled | Done

  datatype State = State(
    running: bool, pc: Pc,
    cur: Slot, next: Slot, buffers: seq<Slot>,
    newBuffer1: Slot, newBuffer2: Slot, toWrite: seq<Slot>,
    output: seq<string>, os: seq<string>, created: nat)

  datatype Event =
    | Append(line: string)
    | Stop
    | Check    // the loop test and the three assertions below it
    | Swap     // the locked section, once any wait in it is over
    | Format
    | Recycle
    | Write

  /** `new Buffer`, the n-th one. */
  function Blank(n: nat): Slot { Held(n, []) }

  predicate IsBlank(b: Slot) { b.Held? && b.lines == [] }

  function Init(): State {
    State(true, Top, Blank(0), Blank(1), [], Blank(2), Blank(3), [], [], [], 4)
  }

  // ---- Steps ----

  /** `FixedBuffer::append`: copies only when strictly more room is left than needed. */
  function Put(lines: seq<string>, line: string): seq<string> {
    if LARGE_BUFFER - |Flat(lines)| > |line| then lines + [line] else lines
  }

  function StepAppend(s: State, line: string): Outcome<State> {
    if s.cur.Null? then Crashed
    else if LARGE_BUFFER - |Flat(s.cur.lines)| > |line| then
      Next(s.(cur := s.cur.(lines := Put(s.cur.lines, line))))
    else
      var cur := if s.next.Held? then s.next else Blank(s.created);
      Next(s.(buffers := s.buffers + [s.cur], cur := cur.(lines := Put(cur.lines, line)), next := Null,
              created := if s.next.Held? then s.created else s.created + 1))
  }

  function StepCheck(s: State): Outcome<State> {
    if s.pc != Top then Disabled
    else if !s.running then Next(s.(pc := Done))
    else if IsBlank(s.newBuffer1) && IsBlank(s.newBuffer2) && s.toWrite == [] then Next(s.(pc := Entered))
    else Crashed
  }

  function StepSwap(s: State): Outcome<State> {
    if s.pc != Entered then Disabled
    else
      var fill := s.next.Null?;
      Next(s.(pc := Swapped, toWrite := s.buffers + [s.cur], buffers := s.toWrite,
              cur := s.newBuffer1, newBuffer1 := Null,
              next := if fill then s.newBuffer2 else s.next,
              newBuffer2 := if fill then Null else s.newBuffer2))
  }

  /** The lines of a list of buffers, in order. */
  function Lines(bs: seq<Slot>): seq<string>
    requires forall b | b in bs :: b.Held?
  {
    if bs == [] then [] else bs[0].lines + Lines(bs[1..])
  }

  function StepFormat(s: State): Outcome<State> {
    if s.pc != Swapped then Disabled
    else if s.toWrite == [] || Null in s.toWrite then Crashed
    else Next(s.(pc := Formatted, output := Lines(s.toWrite)))
  }

  /** Take the last buffer back, emptied, when the slot was given away. */
  function Refill(slot: Slot, spare: seq<Slot>): Option<(Slot, seq<Slot>)> {
    if slot.Held? then Some((slot, spare))
    else if spare == [] || spare[|spare| - 1].Null? then None
    else Some((Blank(spare[|spare| - 1].id), spare[..|spare| - 1]))
  }

  function StepRecycle(s: State): Outcome<State> {
    if s.pc != Formatted then Disabled
    else
      var spare := if |s.toWrite| > 2 then s.toWrite[..2] else s.toWrite;
      match Refill(s.newBuffer1, spare)
      case None => Crashed
      case Some(r1) =>
        match Refill(s.newBuffer2, r1.1)
        case None => Crashed
        case Some(r2) => Next(s.(pc := Recycled, newBuffer1 := r1.0, newBuffer2 := r2.0, toWrite := []))
  }

  function StepWrite(s: State): Outcome<State> {
    if s.pc != Recycled then Disabled
    else Next(s.(pc := Top, os := s.os + s.output, output := []))
  }

  function Step(s: State, e: Event): Outcome<State> {
    match e
    case Append(line) => StepAppend(s, line)
    case Stop => Next(s.(running := false))
    case Check => StepCheck(s)
    case Swap => StepSwap(s)
    case Format => StepFormat(s)
    case Recycle => StepRecycle(s)
    case Write => StepWrite(s)
  }

  function Run(s: State, es: seq<Event>): Outcome<State>
    decreases |es|
  {
    if es == [] then Next(s)
    else match Step(s, es[0])
      case Next(s') => Run(s', es[1..])
      case Disabled => Run(s, es[1..])
      case Crashed => Crashed
  }

  // ---- Ownership: why no assertion fails ----

  ghost predicate Fits(b: Slot) {
    b.Held? && |Flat(b.lines)| < LARGE_BUFFER
  }

  /**
   What holds at every lock release and between any two writer steps. The
   current buffer is there; the spare one is missing only while full buffers
   wait; so whichever slots the writer gave away it can take back.
   */
  ghost predicate Inv(s: State) {
    && Fits(s.cur) && (forall b | b in s.buffers :: b.Held?)
    && (s.next.Held? ==> IsBlank(s.next)) && (s.next.Null? ==> s.buffers != [])
    && (forall b | b in s.toWrite :: b.Held?)
    && (s.pc in {Swapped, Formatted} ==>
          && s.newBuffer1.Null? && s.toWrite != []
          && (s.newBuffer2.Held? ==> IsBlank(s.newBuffer2)) && (s.newBuffer2.Null? ==> |s.toWrite| >= 2))
    && (s.pc !in {Swapped, Formatted} ==> IsBlank(s.newBuffer1) && IsBlank(s.newBuffer2) && s.toWrite == [])
    && (s.pc == Formatted ==> s.output == Lines(s.toWrite))
    && (s.pc !in {Formatted, Recycled} ==> s.output == [])
  }

  /** Lines swapped out but not yet written. */
  ghost function InFlight(s: State): seq<string>
    requires Inv(s)
  {
    if s.pc == Swapped then Lines(s.toWrite) else s.output
  }

  /** Lines appended since the last swap. */
  ghost function Pending(s: State): seq<string>
    requires Inv(s)
  {
    Lines(s.buffers) + s.cur.lines
  }

  /** All the lines inside the logger or behind it, oldest first. */
  ghost function Stream(s: State): seq<string>
    requires Inv(s)
  {
    s.os + InFlight(s) + Pending(s)
  }

  lemma {:induction false} LinesSnoc(bs: seq<Slot>, b: Slot)
    requires b.Held? && forall x | x in bs :: x.Held?
    ensures Lines(bs + [b]) == Lines(bs) + b.lines
  {
    if bs == [] {
      assert bs + [b] == [b];
    } else {
      assert (bs + [b])[1..] == bs[1..] + [b];
      LinesSnoc(bs[1..], b);
    }
  }

  /** What one event adds to the stream: a line that fits a buffer, or nothing. */
  function Accepted(e: Event): seq<string> {
    if e.Append? && |e.line| < LARGE_BUFFER then [e.line] else []
  }

  /** What `FixedBuffer::append` does to a buffer with room, and to an empty one. */
  lemma PutFits(lines: seq<string>, line: string)
    requires |Flat(lines)| < LARGE_BUFFER
    ensures |Flat(Put(lines, line))| < LARGE_BUFFER
    ensures Put([], line) == Accepted(Append(line))
    ensures LARGE_BUFFER - |Flat(lines)| > |line| ==> Put(lines, line) == lines + Accepted(Append(line))
  {
    FlatSnoc(lines, line);
    assert Flat([]) == "" && [] + [line] == [line];
  }

  lemma AppendSafe(s: State, line: string)
    requires Inv(s)
    ensures StepAppend(s, line).Next? && Inv(StepAppend(s, line).state)
    ensures StepAppend(s, line).state.cur.lines ==
            (if StepAppend(s, line).state.buffers == s.buffers then s.cur.lines else []) + Accepted(Append(line))
  {
    hide Flat, Put, Lines;
    assert |Flat([])| == 0 by { NoBytes(); }
    PutFits(s.cur.lines, line);
    PutFits([], line);
    assert [] + Accepted(Append(line)) == Accepted(Append(line));
  }

  lemma NoBytes()
    ensures Flat([]) == ""
  {
  }

  lemma AppendKeeps(s: State, line: string)
    requires Inv(s)
    ensures StepAppend(s, line).Next? && Inv(StepAppend(s, line).state)
    ensures Stream(StepAppend(s, line).state) == Stream(s) + Accepted(Append(line))
  {
    hide Inv, InFlight, Pending, StepAppend;
    AppendSafe(s, line);
    AppendPends(s, line);
    AppendOutside(s, line);
    Assoc(s.os + InFlight(s), Pending(s), Accepted(Append(line)));
  }

  lemma AppendPends(s: State, line: string)
    requires Inv(s)
    ensures StepAppend(s, line).Next? && Inv(StepAppend(s, line).state)
    ensures Pending(StepAppend(s, line).state) == Pending(s) + Accepted(Append(line))
  {
    hide Flat, Put;
    AppendSafe(s, line);
    var s' := StepAppend(s, line).state;
    if s'.buffers != s.buffers {
      LinesSnoc(s.buffers, s.cur);
    } else {
      Assoc(Lines(s.buffers), s.cur.lines, Accepted(Append(line)));
    }
  }

  lemma AppendOutside(s: State, line: string)
    requires Inv(s) && StepAppend(s, line).Next? && Inv(StepAppend(s, line).state)
    ensures StepAppend(s, line).state.os == s.os && InFlight(StepAppend(s, line).state) == InFlight(s)
  {
    hide Inv, Flat, Put, Lines;
  }

  lemma SwapKeeps(s: State)
    requires Inv(s) && s.pc == Entered
    ensures var s' := StepSwap(s).state; Inv(s') && Stream(s') == Stream(s)
  {
    hide Flat, Lines;
    LinesSnoc(s.buffers, s.cur);
    var s' := StepSwap(s).state;
    NoBytes();
    NoLines();
    assert Pending(s') == [] && InFlight(s') == Pending(s) && InFlight(s) == [];
    assert Stream(s') == Stream(s);
  }

  lemma NoLines()
    ensures Lines([]) == []
  {
  }

  lemma WriterKeeps(s: State, e: Event)
    requires Inv(s) && !e.Append?
    ensures !Step(s, e).Crashed?
    ensures Step(s, e).Next? ==> Inv(Step(s, e).state) && Stream(Step(s, e).state) == Stream(s)
  {
    hide Flat, Lines;
    match e
    case Swap => if s.pc == Entered { SwapKeeps(s); }
    case Write =>
      if s.pc == Recycled {
        assert s.os + s.output + [] == s.os + s.output;
      }
    case _ =>
  }

  /** Line by line, everything a run appends. */
  function AllAccepted(es: seq<Event>): seq<string> {
    if es == [] then [] else Accepted(es[0]) + AllAccepted(es[1..])
  }

  lemma {:induction false} RunKeeps(s: State, es: seq<Event>)
    requires Inv(s)
    ensures Run(s, es).Next? && Inv(Run(s, es).state)
    ensures Stream(Run(s, es).state) == Stream(s) + AllAccepted(es)
    ensures OneOwner(s) ==> OneOwner(Run(s, es).state)
    decreases |es|
  {
    hide OneOwner, Inv, Stream, StepAppend, StepRecycle, StepFormat, StepSwap, StepWrite, StepCheck;
    if es != [] {
      var e := es[0];
      StepKeeps(s, e);
      if OneOwner(s) {
        StepOwners(s, e);
      }
      var s' := if Step(s, e).Next? then Step(s, e).state else s;
      RunKeeps(s', es[1..]);
      Assoc(Stream(s), Accepted(e), AllAccepted(es[1..]));
    } else {
      assert Stream(s) + [] == Stream(s);
    }
  }

  /** One event keeps the invariant, crashes nothing, and adds to the stream what it appends. */
  lemma StepKeeps(s: State, e: Event)
    requires Inv(s)
    ensures !Step(s, e).Crashed?
    ensures var s' := if Step(s, e).Next? then Step(s, e).state else s;
            Inv(s') && Stream(s') == Stream(s) + Accepted(e)
  {
    hide Inv, Stream, StepAppend, StepRecycle, StepFormat, StepSwap, StepWrite, StepCheck;
    if e.Append? {
      AppendKeeps(s, e.line);
    } else {
      WriterKeeps(s, e);
      assert Stream(s) + [] == Stream(s);
    }
  }

  // ---- Ownership: no buffer has two holders ----

  ghost function Id(b: Slot): multiset<nat> {
    if b.Null? then multiset{} else multiset{b.id}
  }

  ghost function Ids(bs: seq<Slot>): multiset<nat> {
    if bs == [] then multiset{} else Id(bs[0]) + Ids(bs[1..])
  }

  /** Every buffer some pointer owns, with its number of owners. */
  ghost function Owned(s: State): multiset<nat> {
    Id(s.cur) + Id(s.next) + Ids(s.buffers) + Id(s.newBuffer1) + Id(s.newBuffer2) + Ids(s.toWrite)
  }

  ghost predicate OneOwner(s: State) {
    forall i | i in Owned(s) :: Owned(s)[i] == 1 && i < s.created
  }

  lemma {:induction false} IdsAppend(a: seq<Slot>, b: seq<Slot>)
    ensures Ids(a + b) == Ids(a) + Ids(b)
  {
    if a == [] {
      assert a + b == b;
    } else {
      assert (a + b)[1..] == a[1..] + b;
      IdsAppend(a[1..], b);
    }
  }

  lemma IdsSnoc(a: seq<Slot>, b: Slot)
    ensures Ids(a + [b]) == Ids(a) + Id(b)
  {
    IdsAppend(a, [b]);
    assert Ids([b]) == Id(b) + Ids([]);
  }

  lemma Fewer(s: State, s': State)
    requires OneOwner(s) && Owned(s') <= Owned(s) && s.created <= s'.created
    ensures OneOwner(s')
  {
    forall i | i in Owned(s')
      ensures Owned(s')[i] == 1 && i < s'.created
    {
      assert 1 <= Owned(s')[i] <= Owned(s)[i];
    }
  }

  /** Counting does not depend on who holds what. */
  lemma Shuffle(a: multiset<nat>, b: multiset<nat>, c: multiset<nat>, d: multiset<nat>, e: multiset<nat>, f: multiset<nat>)
    ensures a + b + c + d + e + f == b + multiset{} + (c + a) + d + e + f
    ensures a + b + c + d + e + f == d + b + f + multiset{} + e + (c + a)
    ensures a + b + c + d + e + f == d + e + f + multiset{} + b + (c + a)
  {
  }

  lemma OneMore(s: State, s': State)
    requires OneOwner(s) && Owned(s') == Owned(s) + multiset{s.created} && s'.created == s.created + 1
    ensures OneOwner(s')
  {
    assert s.created !in Owned(s);
    forall i | i in Owned(s')
      ensures Owned(s')[i] == 1 && i < s'.created
    {
      assert Owned(s')[i] == Owned(s)[i] + multiset{s.created}[i];
    }
  }

  lemma AppendOwners(s: State, line: string)
    requires Inv(s) && OneOwner(s)
    ensures StepAppend(s, line).Next? && OneOwner(StepAppend(s, line).state)
  {
    hide Inv, Flat, Put, OneOwner, Ids;
    AppendSafe(s, line);
    var s' := StepAppend(s, line).state;
    if s'.buffers == s.buffers {
      Fewer(s, s');
    } else {
      FlipOwners(s, s');
    }
  }

  lemma FlipOwners(s: State, s': State)
    requires OneOwner(s) && s.cur.Held?
    requires s' == s.(buffers := s.buffers + [s.cur], cur := s'.cur, next := Null, created := s'.created)
    requires s.next.Held? ==> Id(s'.cur) == Id(s.next) && s'.created == s.created
    requires s.next.Null? ==> Id(s'.cur) == multiset{s.created} && s'.created == s.created + 1
    ensures OneOwner(s')
  {
    hide OneOwner, Ids;
    IdsSnoc(s.buffers, s.cur);
    Shuffle(Id(s.cur), Id(s'.cur), Ids(s.buffers), Id(s.newBuffer1), Id(s.newBuffer2), Ids(s.toWrite));
    if s.next.Held? {
      assert Owned(s') == Owned(s);
      Fewer(s, s');
    } else {
      assert Owned(s') == Owned(s) + multiset{s.created};
      OneMore(s, s');
    }
  }

  lemma SwapOwners(s: State)
    requires Inv(s) && OneOwner(s) && s.pc == Entered
    ensures OneOwner(StepSwap(s).state)
  {
    hide Inv, OneOwner, Ids;
    var s' := StepSwap(s).state;
    IdsSnoc(s.buffers, s.cur);
    Shuffle(Id(s.cur), Id(s.next), Ids(s.buffers), Id(s.newBuffer1), Id(s.newBuffer2), Ids(s.toWrite));
    assert Owned(s') == Owned(s);
    Fewer(s, s');
  }

  lemma RefillOwners(slot: Slot, spare: seq<Slot>)
    requires Refill(slot, spare).Some?
    ensures var r := Refill(slot, spare).value; Id(r.0) + Ids(r.1) == Id(slot) + Ids(spare)
  {
    if slot.Null? {
      var k := |spare| - 1;
      assert spare == spare[..k] + [spare[k]];
      IdsSnoc(spare[..k], spare[k]);
    }
  }

  lemma NoIds()
    ensures Ids([]) == multiset{}
  {
  }

  lemma LessHeld(a: multiset<nat>, b: multiset<nat>, rest: multiset<nat>, x: multiset<nat>, y: multiset<nat>,
                 mid: multiset<nat>, spare: multiset<nat>, all: multiset<nat>, others: multiset<nat>)
    requires a + mid == x + spare && b + rest == y + mid && spare <= all
    ensures others + a + b + multiset{} <= others + x + y + all
  {
    forall i
      ensures (others + a + b + multiset{})[i] <= (others + x + y + all)[i]
    {
      assert (a + mid)[i] == (x + spare)[i] && (b + rest)[i] == (y + mid)[i] && spare[i] <= all[i];
    }
  }

  lemma RecycleOwners(s: State)
    requires Inv(s) && OneOwner(s) && s.pc == Formatted && StepRecycle(s).Next?
    ensures OneOwner(StepRecycle(s).state)
  {
    hide Inv, OneOwner, Ids, Refill;
    var s' := StepRecycle(s).state;
    var spare := if |s.toWrite| > 2 then s.toWrite[..2] else s.toWrite;
    if |s.toWrite| > 2 {
      assert s.toWrite == spare + s.toWrite[2..];
      IdsAppend(spare, s.toWrite[2..]);
    }
    var r1 := Refill(s.newBuffer1, spare).value;
    var r2 := Refill(s.newBuffer2, r1.1).value;
    RefillOwners(s.newBuffer1, spare);
    RefillOwners(s.newBuffer2, r1.1);
    LessHeld(Id(r1.0), Id(r2.0), Ids(r2.1), Id(s.newBuffer1), Id(s.newBuffer2), Ids(r1.1), Ids(spare), Ids(s.toWrite),
             Id(s.cur) + Id(s.next) + Ids(s.buffers));
    NoIds();
    Fewer(s, s');
  }

  lemma SameOwners(s: State, s': State)
    requires OneOwner(s) && s'.cur == s.cur && s'.next == s.next && s'.buffers == s.buffers
    requires s'.newBuffer1 == s.newBuffer1 && s'.newBuffer2 == s.newBuffer2 && s'.toWrite == s.toWrite
    requires s'.created == s.created
    ensures OneOwner(s')
  {
    assert Owned(s') == Owned(s);
  }

  lemma QuietOwners(s: State, e: Event)
    requires OneOwner(s) && (e.Stop? || e.Check? || e.Format? || e.Write?)
    ensures Step(s, e).Next? ==> OneOwner(Step(s, e).state)
  {
    hide OneOwner, Owned, Lines;
    if Step(s, e).Next? {
      SameOwners(s, Step(s, e).state);
    }
  }

  lemma StepOwners(s: State, e: Event)
    requires Inv(s) && OneOwner(s)
    ensures Step(s, e).Next? ==> OneOwner(Step(s, e).state)
  {
    hide Inv, OneOwner, Ids, Flat, Put, Refill, Lines;
    match e
    case Append(line) => AppendOwners(s, line);
    case Swap => if s.pc == Entered { SwapOwners(s); }
    case Recycle => if s.pc == Formatted && StepRecycle(s).Next? { RecycleOwners(s); }
    case _ => QuietOwners(s, e);
  }

  // ---- Results about every run ----

  /**
   No interleaving trips an assertion, dereferences a moved-from buffer or pops
   an empty vector, and no two pointers ever own the same buffer.
   */
  lemma NeverCrashes(es: seq<Event>)
    ensures Run(Init(), es).Next?
    ensures var s := Run(Init(), es).state; s.cur.Held? && (s.next.Null? ==> s.buffers != []) && OneOwner(s)
  {
    InitOwners();
    RunKeeps(Init(), es);
    hide Run, OneOwner;
  }

  lemma InitOwners()
    ensures Inv(Init()) && OneOwner(Init())
  {
    assert Owned(Init()) == multiset{0, 1, 2, 3};
  }

  /** Conservation: written, in flight and pending lines are the accepted ones, whole, once each, in lock order. */
  lemma StreamConserved(es: seq<Event>)
    ensures Run(Init(), es).Next? && Inv(Run(Init(), es).state)
    ensures var s := Run(Init(), es).state; s.os + InFlight(s) + Pending(s) == AllAccepted(es)
  {
    RunKeeps(Init(), es);
    assert Stream(Init()) == [];
  }

  /** So the stream is always a prefix, ending at a line end, of what was accepted. */
  lemma WrittenIsPrefix(es: seq<Event>)
    ensures Run(Init(), es).Next?
    ensures var os := Run(Init(), es).state.os;
            os <= AllAccepted(es) && Flat(os) <= Flat(AllAccepted(es))
  {
    StreamConserved(es);
    var os := Run(Init(), es).state.os;
    assert AllAccepted(es)[..|os|] == os;
    FlatPrefix(AllAccepted(es), |os|);
  }

  /** What was accepted since the writer's last swap, starting from earlier: told from the events and the writer's turns. */
  function Late(s: State, es: seq<Event>, earlier: seq<string>): seq<string>
    decreases |es|
  {
    if es == [] then earlier
    else
      match Step(s, es[0])
      case Next(s') => Late(s', es[1..], if es[0] == Swap then [] else earlier + Accepted(es[0]))
      case _ => Late(s, es[1..], earlier)
  }

  lemma StepPending(s: State, e: Event)
    requires Inv(s) && Step(s, e).Next? && Inv(Step(s, e).state)
    ensures Pending(Step(s, e).state) == if e == Swap then [] else Pending(s) + Accepted(e)
  {
    hide Flat, Put;
    match e
    case Append(line) => AppendPends(s, line);
    case Swap => NoLines(); SwapPends(s);
    case _ => assert Pending(s) + [] == Pending(s); hide Lines;
  }

  lemma SwapPends(s: State)
    requires Inv(s) && s.pc == Entered && Inv(StepSwap(s).state)
    ensures Pending(StepSwap(s).state) == []
  {
    NoLines();
    hide Flat, Lines;
  }

  lemma {:induction false} PendingIsLate(s: State, es: seq<Event>)
    requires Inv(s)
    ensures Run(s, es).Next? && Inv(Run(s, es).state)
    ensures Pending(Run(s, es).state) == Late(s, es, Pending(s))
    decreases |es|
  {
    hide Inv, Pending, Step, Stream;
    if es != [] {
      StepKeeps(s, es[0]);
      match Step(s, es[0])
      case Next(s') =>
        StepPending(s, es[0]);
        PendingIsLate(s', es[1..]);
      case Disabled => PendingIsLate(s, es[1..]);
      case Crashed =>
    }
  }

  /** The writer stops with everything written exactly when nothing was accepted after its last swap. */
  lemma StoppedDrainedIff(es: seq<Event>)
    requires Run(Init(), es).Next? && Run(Init(), es).state.pc == Done
    ensures Run(Init(), es).state.os == AllAccepted(es) <==> Late(Init(), es, []) == []
  {
    StreamConserved(es);
    PendingIsLate(Init(), es);
    assert Pending(Init()) == [];
    var s := Run(Init(), es).state;
    assert s.os + [] + Pending(s) == s.os + Pending(s) == AllAccepted(es);
    assert |s.os + Pending(s)| == |s.os| + |Pending(s)|;
    assert s.os + [] == s.os;
  }

  /** And it need not: a line appended during the last write stays behind for good. */
  lemma StopCanLoseALine(line: string)
    requires |line| < LARGE_BUFFER
    ensures var es := [Check, Swap, Format, Recycle, Append(line), Stop, Write, Check];
            && Run(Init(), es).Next? && Run(Init(), es).state.pc == Done
            && Run(Init(), es).state.os == [] && AllAccepted(es) == [line]
  {
    hide Run, AllAccepted, StepRecycle, StepFormat;
    var e0 := [];
    var e1 := [Check] + e0;
    var e2 := [Write] + e1;
    var e3 := [Stop] + e2;
    var e4 := [Append(line)] + e3;
    var e5 := [Recycle] + e4;
    var e6 := [Format] + e5;
    var e7 := [Swap] + e6;
    var s0 := Init();
    var s1 := s0.(pc := Entered);
    var s2 := s1.(pc := Swapped, toWrite := [Blank(0)], cur := Blank(2), newBuffer1 := Null);
    var s3 := s2.(pc := Formatted);
    var s4 := s3.(pc := Recycled, toWrite := [], newBuffer1 := Blank(0));
    var s5 := s4.(cur := Held(2, [line]));
    var s6 := s5.(running := false);
    var s7 := s6.(pc := Top);
    FirstRound();
    FlatSnoc([], line);
    assert StepSwap(s1) == Next(s2) by { assert [] + [Blank(0)] == [Blank(0)]; }
    assert StepAppend(s4, line) == Next(s5) by { assert [] + [line] == [line]; }
    assert s6.os + s6.output == [];
    assert StepWrite(s6) == Next(s7);
    RunNext(s0, Check, s1, e7);
    RunNext(s1, Swap, s2, e6);
    RunNext(s2, Format, s3, e5);
    RunNext(s3, Recycle, s4, e4);
    RunNext(s4, Append(line), s5, e3);
    RunNext(s5, Stop, s6, e2);
    RunNext(s6, Write, s7, e1);
    RunNext(s7, Check, s7.(pc := Done), e0);
    assert [Check] + e7 == [Check, Swap, Format, Recycle, Append(line), Stop, Write, Check];
  }

  lemma FirstRound()
    ensures var s := Init().(pc := Swapped, toWrite := [Blank(0)], cur := Blank(2), newBuffer1 := Null);
            && StepFormat(s) == Next(s.(pc := Formatted))
            && StepRecycle(s.(pc := Formatted)) == Next(s.(pc := Recycled, toWrite := [], newBuffer1 := Blank(0)))
  {
    assert Lines([Blank(0)]) == [] + Lines([]) == [];
    assert [Blank(0)][..0] == [];
  }

  lemma RunNext(s: State, e: Event, s': State, rest: seq<Event>)
    requires Step(s, e) == Next(s')
    ensures Run(s, [e] + rest) == Run(s', rest)
    ensures AllAccepted([e] + rest) == Accepted(e) + AllAccepted(rest)
    ensures Run(s', []) == Next(s') && AllAccepted([]) == []
  {
    assert ([e] + rest)[1..] == rest;
  }

  // ---- What the writer gets done ----

  /** The writer's five turns from the top of its loop, undisturbed. */
  lemma RoundFrom(s: State)
    requires Inv(s) && s.pc == Top && s.running
    ensures var r := Run(s, [Check] + ([Swap] + ([Format] + ([Recycle] + ([Write] + [])))));
            && r.Next? && Inv(r.state) && r.state.pc == Top && r.state.running
            && r.state.buffers == [] && r.state.cur.lines == [] && r.state.output == [] && r.state.created == s.created
            && r.state.next.Held?
  {
    hide Inv, Run, Lines, Refill, StepAppend;
    var s1 := Turn(s, Check);
    var s2 := Turn(s1, Swap);
    SwapFills(s1);
    var s3 := Turn(s2, Format);
    var s4 := Turn(s3, Recycle);
    var s5 := Turn(s4, Write);
    RunNext(s, Check, s1, [Swap] + ([Format] + ([Recycle] + ([Write] + []))));
    RunNext(s1, Swap, s2, [Format] + ([Recycle] + ([Write] + [])));
    RunNext(s2, Format, s3, [Recycle] + ([Write] + []));
    RunNext(s3, Recycle, s4, [Write] + []);
    RunNext(s4, Write, s5, []);
  }

  lemma Turn(s: State, e: Event) returns (s': State)
    requires Inv(s) && !Step(s, e).Disabled?
    ensures Step(s, e) == Next(s') && Inv(s')
  {
    hide Inv;
    StepKeeps(s, e);
    s' := Step(s, e).state;
  }

  lemma SwapFills(s: State)
    requires Inv(s) && s.pc == Entered
    ensures var s' := StepSwap(s).state; s'.buffers == [] && s'.cur.lines == [] && s'.next.Held?
  {
    hide Lines, Flat;
  }

  lemma {:induction false} RunAppend(s: State, a: seq<Event>, b: seq<Event>)
    requires Run(s, a).Next?
    ensures Run(s, a + b) == Run(Run(s, a).state, b)
    ensures AllAccepted(a + b) == AllAccepted(a) + AllAccepted(b)
    decreases |a|
  {
    hide Step;
    if a == [] {
      assert a + b == b;
    } else {
      assert (a + b)[1..] == a[1..] + b;
      RunAppend(if Step(s, a[0]).Next? then Step(s, a[0]).state else s, a[1..], b);
      Assoc(Accepted(a[0]), AllAccepted(a[1..]), AllAccepted(b));
    }
  }

  /**
   After every run that leaves the writer at the top of its loop, the logger running, one
   undisturbed round writes everything accepted so far, makes no new buffer and leaves a
   spare one; and with the flag down the writer leaves instead.
   */
  lemma RoundWritesAll(es: seq<Event>)
    requires Run(Init(), es).Next? && Run(Init(), es).state.pc == Top
    ensures var s := Run(Init(), es).state;
            if s.running then
              var r := Run(Init(), es + [Check, Swap, Format, Recycle, Write]);
              && r.Next? && r.state.os == AllAccepted(es) && r.state.created == s.created && r.state.next.Held?
            else Run(Init(), es + [Check]) == Next(s.(pc := Done))
  {
    StreamConserved(es);
    var s := Run(Init(), es).state;
    if s.running {
      var round := [Check] + ([Swap] + ([Format] + ([Recycle] + ([Write] + []))));
      assert round == [Check, Swap, Format, Recycle, Write];
      RoundFrom(s);
      RunAppend(Init(), es, round);
      StreamConserved(es + round);
      NothingAccepted();
      NothingBehind(Run(Init(), es + round).state);
      assert AllAccepted(es) + [] == AllAccepted(es);
    } else {
      RunAppend(Init(), es, [Check] + []);
      RunNext(s, Check, s.(pc := Done), []);
      assert [Check] + [] == [Check];
    }
  }

  lemma NothingAccepted()
    ensures AllAccepted([Check] + ([Swap] + ([Format] + ([Recycle] + ([Write] + []))))) == []
  {
    hide AllAccepted;
    AcceptsNothing([Check, Swap, Format, Recycle, Write]);
    assert [Check] + ([Swap] + ([Format] + ([Recycle] + ([Write] + [])))) == [Check, Swap, Format, Recycle, Write];
  }

  lemma {:induction false} AcceptsNothing(es: seq<Event>)
    requires forall e | e in es :: !e.Append?
    ensures AllAccepted(es) == []
  {
    if es != [] {
      assert es[0] in es;
      AcceptsNothing(es[1..]);
    }
  }

  lemma NothingBehind(s: State)
    requires Inv(s) && s.pc == Top && s.buffers == [] && s.cur.lines == []
    ensures s.os + InFlight(s) + Pending(s) == s.os
  {
  }
}
