/**
 The logger's objects. `FixedBuffer` holds the bytes in its array. `AsyncLogging`
 passes buffers around by moving unique pointers, which own what they point to, so
 a pointer is modelled as the `Slot` it owns. Each method is one atomic section
 of the source and refines one step of AsyncLog.dfy; the source's own
 assertions stand in the bodies.
 */
module AsyncLogging {
  import opened Common
  import opened AsyncLog

  class FixedBuffer {
    const data: array<char>
    var cur: nat
    ghost var lines: seq<string>

    /** The bytes in use are the lines appended since the last reset. */
    ghost predicate Valid()
      reads this, data
    {
      cur <= data.Length && data[..cur] == Flat(lines)
    }

    constructor (size: nat)
      ensures Valid() && fresh(data) && data.Length == size && lines == []
    {
      data := new char[size](_ => '\0');
      cur := 0;
      lines := [];
    }

    function Avail(): int
      reads this
    {
      data.Length - cur
    }

    function Bytes(): string
      requires Valid()
      reads this, data
    {
      data[..cur]
    }

    method Reset()
      modifies this
      ensures Valid() && lines == []
    {
      cur := 0;
      lines := [];
    }

    /** In a buffer of the logger's size this is what the protocol's `Put` does. */
    method Append(buf: string)
      requires Valid()
      modifies this, data
      ensures Valid()
      ensures lines == if old(Avail()) > |buf| then old(lines) + [buf] else old(lines)
      ensures data.Length == LARGE_BUFFER ==> lines == Put(old(lines), buf)
      ensures Bytes() == if old(Avail()) > |buf| then old(Bytes()) + buf else old(Bytes())
    {
      if Avail() > |buf| {
        forall i | 0 <= i < |buf| {
          data[cur + i] := buf[i];
        }
        assert data[..cur] == old(data[..cur]);
        assert data[cur..cur + |buf|] == buf;
        assert data[..cur + |buf|] == data[..cur] + data[cur..cur + |buf|];
        FlatSnoc(lines, buf);
        cur := cur + |buf|;
        lines := lines + [buf];
      }
    }
  }

  class AsyncLogging {
    var running: bool
    var curBuffer: Slot
    var nextBuffer: Slot
    var buffers: seq<Slot>
    var os: string
    // the locals of threadFunc
    var pc: Pc
    var newBuffer1: Slot
    var newBuffer2: Slot
    var buffersToWrite: seq<Slot>
    var output: string
    ghost var outputLines: seq<string>
    ghost var osLines: seq<string>
    var created: nat  // the buffers allocated so far: the next new one gets this number

    ghost function View(): State
      reads this
    {
      State(running, pc, curBuffer, nextBuffer, buffers, newBuffer1, newBuffer2, buffersToWrite,
            outputLines, osLines, created)
    }

    /** At every lock release, and between any two steps of the writer. */
    ghost predicate Valid()
      reads this
    {
      Inv(View()) && OneOwner(View()) && output == Flat(outputLines) && os == Flat(osLines)
    }

    constructor ()
      ensures Valid() && View() == Init() && os == ""
    {
      running, pc := true, Top;
      curBuffer, nextBuffer, newBuffer1, newBuffer2 := Blank(0), Blank(1), Blank(2), Blank(3);
      buffers, buffersToWrite := [], [];
      output, os, outputLines, osLines := "", "", [], [];
      created := 4;
      new;
      InitOwners();
    }

    /**
     `append`: into the current buffer while strictly more room is left than needed; else the
     current one is full, the spare one takes its place, and a new one is made only without a spare.
     */
    method Append(logline: string)
      requires Valid()
      modifies this`curBuffer, this`nextBuffer, this`buffers, this`created
      ensures Valid() && Next(View()) == StepAppend(old(View()), logline)
      ensures var was := old(curBuffer); var spare := old(nextBuffer);
              if 4_000_000 - |Flat(was.lines)| > |logline| then
                && curBuffer == Held(was.id, was.lines + [logline])
                && nextBuffer == spare && buffers == old(buffers) && created == old(created)
              else
                && buffers == old(buffers) + [was] && nextBuffer == Null
                && curBuffer == Held(if spare.Held? then spare.id else old(created), if |logline| < 4_000_000 then [logline] else [])
                && created == old(created) + if spare.Held? then 0 else 1
    {
      hide Inv, OneOwner, Stream, Flat, Put;
      AppendKeeps(View(), logline);
      AppendOwners(View(), logline);
      AppendFacts(View(), logline);
      ghost var next := StepAppend(View(), logline).state;
      if LARGE_BUFFER - |Flat(curBuffer.lines)| > |logline| {
        curBuffer := curBuffer.(lines := Put(curBuffer.lines, logline));
      } else {
        buffers := buffers + [curBuffer];
        curBuffer := Null;
        if nextBuffer.Held? {
          curBuffer, nextBuffer := nextBuffer, Null;
        } else {
          curBuffer := Held(created, []); // rarely happens
          created := created + 1;
        }
        curBuffer := curBuffer.(lines := Put(curBuffer.lines, logline));
      }
      assert curBuffer == next.cur && nextBuffer == next.next && buffers == next.buffers && created == next.created;
      assert View() == next;
    }

    /** `stop` up to the join. */
    method Stop()
      requires Valid()
      modifies this`running
      ensures Valid() && Next(View()) == Step(old(View()), AsyncLog.Stop) && !running
    {
      ghost var next := Sequel(View(), AsyncLog.Stop);
      hide Inv, OneOwner, Stream;
      running := false;
    }

    /** The loop test, and the assertions at the top of the loop. */
    method Check()
      requires Valid() && pc == Top
      modifies this`pc
      ensures Valid() && Next(View()) == StepCheck(old(View()))
      ensures pc == if running then Entered else Done
    {
      ghost var next := Sequel(View(), AsyncLog.Check);
      hide OneOwner, Stream;
      if running {
        assert newBuffer1.Held? && newBuffer1.lines == [];
        assert newBuffer2.Held? && newBuffer2.lines == [];
        assert buffersToWrite == [];
        pc := Entered;
      } else {
        pc := Done;
      }
    }

    /** The writer's locked section, after any wait in it. */
    method Swap()
      requires Valid() && pc == Entered
      modifies this`pc, this`curBuffer, this`nextBuffer, this`buffers, this`newBuffer1, this`newBuffer2, this`buffersToWrite
      ensures Valid() && Next(View()) == StepSwap(old(View()))
      ensures buffersToWrite == old(buffers) + [old(curBuffer)] && buffers == []
      ensures curBuffer == old(newBuffer1) && newBuffer1 == Null
      ensures if old(nextBuffer).Null? then nextBuffer == old(newBuffer2) && newBuffer2 == Null
              else nextBuffer == old(nextBuffer) && newBuffer2 == old(newBuffer2)
    {
      hide Inv, OneOwner, Stream;
      NothingKept(View());
      ghost var next := Sequel(View(), AsyncLog.Swap);
      buffers := buffers + [curBuffer];
      curBuffer, newBuffer1 := newBuffer1, Null;
      buffers, buffersToWrite := buffersToWrite, buffers;
      if nextBuffer.Null? {
        nextBuffer, newBuffer2 := newBuffer2, Null;
      }
      pc := Swapped;
      assert buffers == next.buffers && buffersToWrite == next.toWrite && curBuffer == next.cur && nextBuffer == next.next;
    }

    /** Lay the bytes of the swapped-out buffers end to end. */
    method Format()
      requires Valid() && pc == Swapped
      modifies this`pc, this`output, this`outputLines
      ensures Valid() && Next(View()) == StepFormat(old(View()))
      ensures (forall b | b in buffersToWrite :: b.Held?) && output == Flat(Lines(buffersToWrite))
    {
      ghost var next := Sequel(View(), AsyncLog.Format);
      assert buffersToWrite != [] && forall b | b in buffersToWrite :: b.Held?;
      hide Inv, OneOwner, Stream;
      output := AllBytes(buffersToWrite);
      outputLines := Lines(buffersToWrite);
      pc := Formatted;
    }

    /** Keep at most two of the written buffers and take back, emptied, those that were given away. */
    method Recycle()
      requires Valid() && pc == Formatted
      modifies this`pc, this`newBuffer1, this`newBuffer2, this`buffersToWrite
      ensures Valid() && Next(View()) == StepRecycle(old(View()))
      ensures buffersToWrite == []
      ensures var was := old(buffersToWrite);
              && was != [] && (forall b | b in was :: b.Held?)
              && newBuffer1 == Held(was[if |was| >= 2 then 1 else 0].id, [])
              && newBuffer2 == if old(newBuffer2).Held? then old(newBuffer2) else Held(was[0].id, [])
    {
      hide Inv, OneOwner, Stream, Refill, Step, StepRecycle;
      RecycleSafe(View());
      TakenBack(View());
      ghost var next := StepRecycle(View()).state;
      if |buffersToWrite| > 2 {
        buffersToWrite := buffersToWrite[..2];
      }
      newBuffer1, buffersToWrite := TakeBack(newBuffer1, buffersToWrite);
      newBuffer2, buffersToWrite := TakeBack(newBuffer2, buffersToWrite);
      buffersToWrite := [];
      pc := Recycled;
      assert newBuffer1 == next.newBuffer1 && newBuffer2 == next.newBuffer2;
      assert View() == next;
    }

    method Write()
      requires Valid() && pc == Recycled
      modifies this`pc, this`output, this`os, this`outputLines, this`osLines
      ensures Valid() && Next(View()) == StepWrite(old(View()))
      ensures os == old(os + output)
    {
      ghost var next := Sequel(View(), AsyncLog.Write);
      hide Inv, OneOwner, Stream;
      FlatAppend(osLines, outputLines);
      os := os + output;
      output := "";
      osLines := osLines + outputLines;
      outputLines := [];
      pc := Top;
    }
  }

  /** The state after a writer's step, with what the step is known to keep. */
  ghost function Sequel(s: State, e: Event): (s': State)
    requires Inv(s) && OneOwner(s) && Step(s, e).Next?
    ensures Next(s') == Step(s, e) && Inv(s') && OneOwner(s')
  {
    StepKeeps(s, e);
    StepOwners(s, e);
    Step(s, e).state
  }

  lemma AppendFacts(s: State, line: string)
    requires Inv(s)
    ensures s.cur.Held? && (s.next.Held? ==> s.next.lines == [])
    ensures Put([], line) == if |line| < LARGE_BUFFER then [line] else []
    ensures LARGE_BUFFER - |Flat(s.cur.lines)| > |line| ==> Put(s.cur.lines, line) == s.cur.lines + [line]
  {
    NoBytes();
  }

  lemma NothingKept(s: State)
    requires Inv(s) && s.pc == Entered
    ensures s.toWrite == []
  {
  }

  /** The writer's first buffer is given away at every swap, the second only when it was needed. */
  lemma TakenBack(s: State)
    requires Inv(s) && s.pc == Formatted
    ensures s.newBuffer1.Null? && s.toWrite != [] && forall b | b in s.toWrite :: b.Held?
    ensures var spare := if |s.toWrite| > 2 then s.toWrite[..2] else s.toWrite;
            var k := |spare| - 1;
            && Refill(s.newBuffer1, spare) == Some((Held(s.toWrite[if |s.toWrite| >= 2 then 1 else 0].id, []), spare[..k]))
            && (s.newBuffer2.Held? ==> Refill(s.newBuffer2, spare[..k]) == Some((s.newBuffer2, spare[..k])))
            && (s.newBuffer2.Null? ==> Refill(s.newBuffer2, spare[..k]) == Some((Held(s.toWrite[0].id, []), [])))
  {
    var spare := if |s.toWrite| > 2 then s.toWrite[..2] else s.toWrite;
    assert spare[|spare| - 1] in s.toWrite && s.toWrite[0] in s.toWrite;
    if s.newBuffer2.Null? {
      assert |spare| == 2 && spare[..1] == [s.toWrite[0]];
      assert spare[..1][..0] == [];
    }
  }

  /** Recycling: both pops find a buffer. */
  lemma RecycleSafe(s: State)
    requires Inv(s) && OneOwner(s) && s.pc == Formatted
    ensures
      var r1 := Refill(s.newBuffer1, if |s.toWrite| > 2 then s.toWrite[..2] else s.toWrite);
      && r1.Some? && Refill(s.newBuffer2, r1.value.1).Some?
      && StepRecycle(s) == Next(State(s.running, Recycled, s.cur, s.next, s.buffers, r1.value.0,
                                      Refill(s.newBuffer2, r1.value.1).value.0, [], s.output, s.os, s.created))
      && Inv(StepRecycle(s).state) && OneOwner(StepRecycle(s).state)
  {
    hide Inv, OneOwner, Stream, Refill;
    StepKeeps(s, AsyncLog.Recycle);
    StepOwners(s, AsyncLog.Recycle);
  }

  method AllBytes(bs: seq<Slot>) returns (output: string)
    requires forall b | b in bs :: b.Held?
    ensures output == Flat(Lines(bs))
  {
    output := "";
    var k := 0;
    while k < |bs|
      invariant 0 <= k <= |bs|
      invariant output == Flat(Lines(bs[..k]))
    {
      output := output + Flat(bs[k].lines);
      assert bs[..k + 1] == bs[..k] + [bs[k]];
      LinesSnoc(bs[..k], bs[k]);
      FlatAppend(Lines(bs[..k]), bs[k].lines);
      k := k + 1;
    }
    assert bs[..k] == bs;
  }

  /** One recycling pop; the precondition is the source's assertion that there is something to pop. */
  method TakeBack(slot: Slot, spare: seq<Slot>) returns (slot': Slot, spare': seq<Slot>)
    requires Refill(slot, spare).Some?
    ensures Refill(slot, spare) == Some((slot', spare'))
  {
    slot', spare' := slot, spare;
    if slot.Null? {
      assert spare != [];
      slot' := spare[|spare| - 1];
      spare' := spare[..|spare| - 1];
      slot' := slot'.(lines := []);
    }
  }
}
