/**
 The connection object of vserver/net/Connection.cc over its two buffers. Every
 method is proved to make the step of ConnOutput.dfy on the abstract state, so the
 results there hold through all growth and compaction of the output buffer.
 */
module Connections {
  import opened Common
  import opened Buffers
  import opened ConnOutput

  class TcpConnection {
    var state: ConnState
    var reading: bool  // the channel's interest
    var writing: bool
    const inputBuffer: Buffer
    const outputBuffer: Buffer
    var closeCallbacks: nat
    ghost var wire: string
    ghost var passed: string
    ghost var fins: seq<Fin>
    ghost var disabled: bool

    ghost predicate Valid()
      reads this, inputBuffer, outputBuffer
    {
      && inputBuffer.Valid() && outputBuffer.Valid()
      && inputBuffer != outputBuffer && inputBuffer.store != outputBuffer.store
    }

    ghost function View(): State
      requires Valid()
      reads this, inputBuffer, outputBuffer, outputBuffer.store
    {
      State(state, reading, writing, outputBuffer.Readable(), wire, passed, fins, closeCallbacks, disabled)
    }

    constructor ()
      ensures Valid() && fresh(inputBuffer) && fresh(outputBuffer) && fresh(inputBuffer.store) && fresh(outputBuffer.store)
      ensures View() == Init() && inputBuffer.Readable() == ""
    {
      state, reading, writing, closeCallbacks := Connecting, false, false, 0;
      inputBuffer := new Buffer(INITIAL_SIZE);
      outputBuffer := new Buffer(INITIAL_SIZE);
      wire, passed, fins, disabled := "", "", [], false;
    }

    /** `connectEstablished`; the assertion on the state is its precondition. */
    method ConnectEstablished()
      requires Valid() && state == Connecting
      modifies this`state, this`reading
      ensures Valid() && Next(View()) == Step(old(View()), Establish)
      ensures state == Connected && reading
    {
      state := Connected;
      reading := true;
    }

    /** `sendInLoop`: write at once when nothing is waiting, buffer what was not taken, ask to be told when to go on. */
    method SendInLoop(message: string, wrote: int)
      requires Valid() && wrote <= |message|
      modifies this`writing, this`wire, this`passed, outputBuffer, outputBuffer.store
      ensures Valid() && (outputBuffer.store == old(outputBuffer.store) || fresh(outputBuffer.store))
      ensures View() == StepSend(old(View()), message, wrote)
      ensures var n := if !old(writing) && old(outputBuffer.Readable()) == "" && wrote >= 0 then wrote else 0;
              && wire == old(wire) + message[..n]
              && outputBuffer.Readable() == old(outputBuffer.Readable()) + message[n..]
              && (writing <==> old(writing) || n < |message|)
              && passed == old(passed) + message
    {
      var nwrote := 0;
      if !writing && outputBuffer.ReadableBytes() == 0 {
        nwrote := if wrote >= 0 then wrote else 0;
        wire := wire + message[..nwrote];
      }
      passed := passed + message;
      if nwrote < |message| {
        outputBuffer.Append(message[nwrote..]);
        if !writing {
          writing := true;
        }
      }
      assert old(wire) + message[..0] == old(wire);
    }

    /** `send`: dropped unless connected; done at once in the loop's thread, queued as a `sendInLoop` otherwise. */
    method Send(message: string, inLoop: bool, wrote: int) returns (toLoop: bool)
      requires Valid() && wrote <= |message|
      modifies this`writing, this`wire, this`passed, outputBuffer, outputBuffer.store
      ensures Valid() && (outputBuffer.store == old(outputBuffer.store) || fresh(outputBuffer.store))
      ensures toLoop == (state == Connected && !inLoop)
      ensures View() == if state == Connected && inLoop then StepSend(old(View()), message, wrote) else old(View())
    {
      toLoop := state == Connected && !inLoop;
      if state == Connected && inLoop {
        SendInLoop(message, wrote);
      }
    }

    /** `shutdown`: in the loop thread the second half follows at once; from another thread it is queued. */
    method Shutdown() returns (toLoop: bool)
      requires Valid()
      modifies this`state
      ensures Valid() && Next(View()) == Step(old(View()), ConnOutput.Shutdown)
      ensures toLoop == (old(state) == Connected)
      ensures state == if old(state) == Connected then Disconnecting else old(state)
    {
      toLoop := state == Connected;
      if toLoop {
        state := Disconnecting;
      }
    }

    method ShutdownInLoop()
      requires Valid()
      modifies this`fins
      ensures Valid() && View() == StepShutdownInLoop(old(View()))
      ensures fins == old(fins) + if writing then [] else [Fin(wire, passed)]
    {
      if !writing {
        fins := fins + [Fin(wire, passed)];
      }
    }

    /** `handleWrite`: what the socket took leaves the buffer; the last byte switches writing off and, in kDisconnecting, shuts the write side. */
    method HandleWrite(wrote: int)
      requires Valid() && wrote <= |outputBuffer.Readable()|
      modifies this`writing, this`wire, this`fins, outputBuffer`readIndex, outputBuffer`writeIndex
      ensures Valid() && View() == StepWrite(old(View()), wrote)
      ensures var was := old(outputBuffer.Readable()); var n := if old(writing) && wrote > 0 then wrote else 0;
              && wire == old(wire) + was[..n] && outputBuffer.Readable() == was[n..]
              && (writing <==> old(writing) && (n == 0 || n < |was|))
              && fins == old(fins) + if n > 0 && n == |was| && state == Disconnecting then [Fin(wire, passed)] else []
    {
      if writing {
        if wrote > 0 {
          wire := wire + outputBuffer.Readable()[..wrote];
          outputBuffer.Retrieve(wrote);
          if outputBuffer.ReadableBytes() == 0 {
            writing := false;
          }
          if state == Disconnecting {
            ShutdownInLoop();
          }
        }
      }
    }

    /** `Channel::disableAll` on the connection's channel. */
    method DisableAll()
      modifies this`reading, this`writing, this`disabled
      ensures !reading && !writing && disabled
    {
      reading, writing, disabled := false, false, true;
    }

    method HandleClose()
      requires Valid() && state in {Connected, Disconnecting}
      modifies this`reading, this`writing, this`closeCallbacks, this`disabled
      ensures Valid() && Next(View()) == StepClose(old(View()))
      ensures !reading && !writing && closeCallbacks == old(closeCallbacks) + 1
    {
      DisableAll();
      closeCallbacks := closeCallbacks + 1;
    }

    method ForceClose() returns (toLoop: bool)
      requires Valid()
      modifies this`state
      ensures Valid() && Next(View()) == Step(old(View()), ConnOutput.ForceClose)
      ensures toLoop == (old(state) in {Connected, Disconnecting})
      ensures state == if old(state) in {Connected, Disconnecting} then Disconnecting else old(state)
    {
      toLoop := state == Connected || state == Disconnecting;
      if toLoop {
        state := Disconnecting;
      }
    }

    method ForceCloseInLoop()
      requires Valid()
      modifies this`reading, this`writing, this`closeCallbacks, this`disabled
      ensures Valid() && Next(View()) == Step(old(View()), ConnOutput.ForceCloseInLoop)
      ensures if state in {Connected, Disconnecting}
              then !reading && !writing && closeCallbacks == old(closeCallbacks) + 1
              else reading == old(reading) && writing == old(writing) && closeCallbacks == old(closeCallbacks)
    {
      if state == Connected || state == Disconnecting {
        HandleClose();
      }
    }

    /** `connectDestroyed`; the last precondition is the assertion in `Channel::remove`. */
    method ConnectDestroyed()
      requires Valid() && (state != Connected ==> !reading && !writing)
      modifies this`state, this`reading, this`writing, this`disabled
      ensures Valid() && Next(View()) == StepDestroyed(old(View()))
      ensures !reading && !writing && state == if old(state) == Connected then Disconnected else old(state)
    {
      if state == Connected {
        state := Disconnected;
        DisableAll();
      }
      assert !reading && !writing;
    }

    /**
     `handleRead`: bytes go to the message callback through the input buffer,
     end of file closes. A failed `readv` throws out of it.
     */
    method HandleRead(io: Readv) returns (message: bool)
      requires Valid() && (io == Filled("") ==> state in {Connected, Disconnecting})
      requires io.Filled? ==> |io.data| <= inputBuffer.ReadCapacity()
      modifies this`reading, this`writing, this`closeCallbacks, this`disabled, inputBuffer, inputBuffer.store
      ensures Valid() && (inputBuffer.store == old(inputBuffer.store) || fresh(inputBuffer.store))
      ensures inputBuffer.Readable() == old(inputBuffer.Readable()) + if io.Filled? then io.data else ""
      ensures message <==> io.Filled? && io.data != ""
      ensures if io == Filled("") then Next(View()) == StepClose(old(View())) else View() == old(View())
      ensures io == Filled("") ==> !reading && !writing && closeCallbacks == old(closeCallbacks) + 1
    {
      var n := inputBuffer.ReadOnce(io);
      message := false;
      if n.Some? {
        if n.value > 0 {
          message := true;
        } else {
          HandleClose();
        }
      }
    }

    /** What the message callback may do with the connection, in the loop's thread. */
    method CallBack(uses: seq<Use>) returns (ghost trace: seq<Call>)
      requires Valid()
      modifies this`state, this`writing, this`wire, this`passed, this`fins, outputBuffer, outputBuffer.store
      ensures Valid() && (outputBuffer.store == old(outputBuffer.store) || fresh(outputBuffer.store))
      ensures trace == CallsOf(old(state), uses) && Run(old(View()), trace) == Next(View())
    {
      ghost var s0 := View();
      trace := [];
      hide Step, Run, CallsOf;
      NoCalls(s0);
      var k := 0;
      while k < |uses|
        modifies this`state, this`writing, this`wire, this`passed, this`fins, outputBuffer, outputBuffer.store
        invariant 0 <= k <= |uses|
        invariant Valid() && (outputBuffer.store == old(outputBuffer.store) || fresh(outputBuffer.store))
        invariant CallsOf(old(state), uses) == trace + CallsOf(state, uses[k..])
        invariant Run(s0, trace) == Next(View())
      {
        FirstUse(state, uses[k..], trace);
        assert uses[k..][1..] == uses[k + 1..];
        ghost var sub := UseOnce(uses[k]);
        RunAppend(s0, trace, sub);
        trace := trace + sub;
        k := k + 1;
      }
      NoUses(state, uses[k..]);
      assert trace + [] == trace;
    }

    method UseOnce(use: Use) returns (ghost trace: seq<Call>)
      requires Valid()
      modifies this`state, this`writing, this`wire, this`passed, this`fins, outputBuffer, outputBuffer.store
      ensures Valid() && (outputBuffer.store == old(outputBuffer.store) || fresh(outputBuffer.store))
      ensures trace == CallsFor(old(state), use) && state == StateAfter(old(state), use)
      ensures use.Finish? && old(state) == Connected ==> trace == [ConnOutput.Shutdown, ConnOutput.ShutdownInLoop]
      ensures Run(old(View()), trace) == Next(View())
    {
      ghost var s0 := View();
      NoCalls(s0);
      match use {
        case Reply(message, wrote) =>
          var n := if wrote <= |message| then wrote else |message|;
          trace := if state == Connected then [ConnOutput.SendInLoop(message, n)] else [];
          OneCall(s0, ConnOutput.SendInLoop(message, n));
          var _ := Send(message, true, n);
        case Finish =>
          trace := [ConnOutput.Shutdown];
          OneCall(s0, ConnOutput.Shutdown);
          var toLoop := Shutdown();
          if toLoop {
            ghost var s1 := View();
            OneCall(s1, ConnOutput.ShutdownInLoop);
            RunAppend(s0, trace, [ConnOutput.ShutdownInLoop]);
            trace := trace + [ConnOutput.ShutdownInLoop];
            ShutdownInLoop();
          }
        case Kill =>
          trace := [ConnOutput.ForceClose];
          OneCall(s0, ConnOutput.ForceClose);
          var _ := ForceClose();
      }
    }

    predicate IsOpen()
      reads this
    {
      state == Connected || state == Disconnecting
    }

    /**
     `Channel::handleEvent` on the connection's channel, in any state of the connection:
     hang-up, then reading, then writing, which goes by the interest and not by the event.
     `before` is what was called ahead of the writing. A close fails its assertion unless
     the connection is open, and a failed `readv` throws out of the loop. Otherwise one
     event closes twice exactly when a hang-up without EPOLLIN comes with another reading
     event whose read finds the end of the stream.
     */
    method HandleEvent(r: Revents, io: Readv, uses: seq<Use>, wrote: int)
      returns (ending: Ending, ghost before: seq<Call>, ghost trace: seq<Call>)
      requires Valid()
      requires io.Filled? ==> |io.data| <= inputBuffer.ReadCapacity()
      modifies this, inputBuffer, inputBuffer.store, outputBuffer, outputBuffer.store
      ensures ending.Aborted? <==>
                old(state) !in {Connected, Disconnecting}
                && ((r.hup && !r.readable) || ((r.readable || r.pri || r.rdhup) && io == Filled("")))
      ensures ending.Threw? <==> !ending.Aborted? && (r.readable || r.pri || r.rdhup) && io.Failed?
      ensures ending.Aborted? ==> Run(old(View()), trace).Crashed?
      ensures !ending.Aborted? ==> Valid() && Run(old(View()), trace) == Next(View())
      ensures !ending.Aborted? ==>
                before == (if r.hup && !r.readable then [ConnOutput.HandleClose] else [])
                          + ReadCalls(old(state), r.readable || r.pri || r.rdhup, io, uses)
      ensures ending.Threw? ==> trace == before
      ensures ending.Returned? ==>
                (&& Run(old(View()), before).Next?
                 && var s := Run(old(View()), before).state;
                    trace == before + if s.writing then [ConnOutput.HandleWrite(if wrote <= |s.out| then wrote else |s.out|)] else [])
      ensures !ending.Aborted? ==>
                inputBuffer.Readable() == old(inputBuffer.Readable()) + if Reads(r) && io.Filled? then io.data else ""
      ensures !ending.Aborted? ==>
                closeCallbacks == old(closeCallbacks) + (if HangsUp(r) then 1 else 0) + (if Reads(r) && io == Filled("") then 1 else 0)
      ensures !ending.Aborted? ==>
                (closeCallbacks == old(closeCallbacks) + 2 <==> r.hup && !r.readable && (r.pri || r.rdhup) && io == Filled(""))
    {
      ghost var s0 := View();
      hide Step, Run, CallsOf;
      before, trace := [], [];
      NoCalls(s0);
      if HangsUp(r) {
        CloseCall(s0);
        trace := [ConnOutput.HandleClose];
        if !IsOpen() {
          return Aborted, before, trace;
        }
        HandleClose();
      }
      if Reads(r) {
        if io == Filled("") && !IsOpen() {
          CloseCall(View());
          trace := [ConnOutput.HandleClose];
          return Aborted, before, trace;
        }
        ghost var sub := ReadEvent(io, uses);
        RunAppend(s0, trace, sub);
        trace := trace + sub;
        if io.Failed? {
          before := trace;
          return Threw, before, trace;
        }
      }
      before := trace;
      ending := Returned;
      ghost var last := WriteEvent(wrote);
      RunAppend(s0, before, last);
      trace := before + last;
    }

    /** The reading part of an event: the read, and the message callback if it brought bytes. */
    method ReadEvent(io: Readv, uses: seq<Use>) returns (ghost trace: seq<Call>)
      requires Valid() && (io == Filled("") ==> IsOpen())
      requires io.Filled? ==> |io.data| <= inputBuffer.ReadCapacity()
      modifies this, inputBuffer, inputBuffer.store, outputBuffer, outputBuffer.store
      ensures Valid() && Run(old(View()), trace) == Next(View())
      ensures trace == ReadCalls(old(state), true, io, uses)
      ensures inputBuffer.Readable() == old(inputBuffer.Readable()) + if io.Filled? then io.data else ""
      ensures closeCallbacks == old(closeCallbacks) + if io == Filled("") then 1 else 0
    {
      ghost var s0 := View();
      hide Step, Run, CallsOf;
      NoCalls(s0);
      CloseCall(s0);
      var message := HandleRead(io);
      if io == Filled("") {
        trace := [ConnOutput.HandleClose];
      } else {
        trace := [];
      }
      if message {
        trace := CallBack(uses);
      }
    }

    /** The writing part. */
    method WriteEvent(wrote: int) returns (ghost trace: seq<Call>)
      requires Valid()
      modifies this`writing, this`wire, this`fins, outputBuffer
      ensures Valid() && Run(old(View()), trace) == Next(View())
      ensures trace == if old(writing)
                       then [ConnOutput.HandleWrite(if wrote <= |old(View()).out| then wrote else |old(View()).out|)]
                       else []
    {
      ghost var s0 := View();
      hide Step, Run;
      NoCalls(s0);
      trace := [];
      if writing {
        var n := if wrote <= outputBuffer.ReadableBytes() then wrote else outputBuffer.ReadableBytes();
        OneCall(s0, ConnOutput.HandleWrite(n));
        HandleWrite(n);
        trace := [ConnOutput.HandleWrite(n)];
      }
    }
  }

  /** How the handling of an event ends. */
  datatype Ending = Returned | Threw | Aborted

  /** The event bits the kernel reported; readable is EPOLLIN. The error callback only logs. */
  datatype Revents = Revents(hup: bool, readable: bool, pri: bool, rdhup: bool)

  predicate HangsUp(r: Revents) {
    r.hup && !r.readable
  }

  predicate Reads(r: Revents) {
    r.readable || r.pri || r.rdhup
  }

  datatype Use = Reply(message: string, wrote: int) | Finish | Kill

  /** The calls one use makes, by the state it finds: `shutdown` on an open connection runs its second half at once. */
  function CallsFor(st: ConnState, use: Use): seq<Call> {
    match use
    case Reply(message, wrote) =>
      if st == Connected then [ConnOutput.SendInLoop(message, if wrote <= |message| then wrote else |message|)] else []
    case Finish => if st == Connected then [ConnOutput.Shutdown, ConnOutput.ShutdownInLoop] else [ConnOutput.Shutdown]
    case Kill => [ConnOutput.ForceClose]
  }

  function StateAfter(st: ConnState, use: Use): ConnState {
    if (use.Finish? && st == Connected) || (use.Kill? && st in {Connected, Disconnecting}) then Disconnecting else st
  }

  function CallsOf(st: ConnState, uses: seq<Use>): seq<Call>
    decreases |uses|
  {
    if uses == [] then [] else CallsFor(st, uses[0]) + CallsOf(StateAfter(st, uses[0]), uses[1..])
  }

  /** The calls the reading part of an event makes: the close at the end of the stream, the callback's on a message. */
  function ReadCalls(st: ConnState, reading: bool, io: Readv, uses: seq<Use>): seq<Call> {
    if !reading || io.Failed? then [] else if io.data == "" then [ConnOutput.HandleClose] else CallsOf(st, uses)
  }

  lemma FirstUse(st: ConnState, uses: seq<Use>, trace: seq<Call>)
    requires uses != []
    ensures trace + CallsOf(st, uses) == trace + CallsFor(st, uses[0]) + CallsOf(StateAfter(st, uses[0]), uses[1..])
  {
    hide CallsFor, StateAfter;
    var a, b := CallsFor(st, uses[0]), CallsOf(StateAfter(st, uses[0]), uses[1..]);
    assert trace + (a + b) == trace + a + b;
  }

  lemma NoUses(st: ConnState, uses: seq<Use>)
    requires uses == []
    ensures CallsOf(st, uses) == []
  {
  }

  lemma NoCalls(s: State)
    ensures Run(s, []) == Next(s)
  {
  }

  lemma OneCall(s: State, c: Call)
    ensures Step(s, c).Next? ==> Run(s, [c]) == Step(s, c)
    ensures c.SendInLoop? ==> Step(s, c) == Next(StepSend(s, c.msg, c.wrote))
    ensures c.HandleWrite? ==> Step(s, c) == Next(StepWrite(s, c.wrote))
    ensures c.ShutdownInLoop? ==> Step(s, c) == Next(StepShutdownInLoop(s))
    ensures c.HandleClose? ==> Step(s, c) == StepClose(s)
  {
    hide StepSend, StepWrite, StepClose, StepShutdownInLoop, StepDestroyed;
    assert [c][1..] == [];
  }

  lemma CloseCall(s: State)
    ensures Run(s, [ConnOutput.HandleClose]) == StepClose(s)
    ensures Run(s, [ConnOutput.HandleClose]).Crashed? <==> s.state !in {Connected, Disconnecting}
  {
    OneCall(s, ConnOutput.HandleClose);
    assert Step(s, ConnOutput.HandleClose) == StepClose(s);
  }

  lemma {:induction false} RunAppend(s: State, a: seq<Call>, b: seq<Call>)
    requires Run(s, a).Next?
    ensures Run(s, a + b) == Run(Run(s, a).state, b)
    decreases |a|
  {
    hide Step;
    if a == [] {
      assert a + b == b;
    } else {
      assert (a + b)[1..] == a[1..] + b;
      RunAppend(Step(s, a[0]).state, a[1..], b);
    }
  }
}
