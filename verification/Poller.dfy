/**
 Channels and the poller, vserver/net/{Channel.h,Channel.cc,Poller.cc}. The kernel's
 interest set is modelled beside the poller's own map, and every epoll_ctl call
 must be one the kernel accepts. The two event bits a channel uses are two booleans.
 */
module Pollers {
  datatype Interest = Interest(read: bool, write: bool)
  const NONE := Interest(false, false)

  /** kNew, kAdded, kDeleted. */
  datatype Index = New | Added | Deleted

  datatype CtlOp = CtlAdd | CtlMod | CtlDel

  class Channel {
    const fd: int
    var events: Interest
    var index: Index

    constructor (fd: int)
      ensures this.fd == fd && events == NONE && index == New
    {
      this.fd := fd;
      events, index := NONE, New;
    }
  }

  // ---- One channel's life ----

  datatype Op = EnableReading | DisableReading | EnableWriting | DisableWriting | DisableAll | Remove

  datatype Registration = Registration(events: Interest, index: Index)

  function Changed(e: Interest, op: Op): Interest {
    match op
    case EnableReading => e.(read := true)
    case DisableReading => e.(read := false)
    case EnableWriting => e.(write := true)
    case DisableWriting => e.(write := false)
    case DisableAll => NONE
    case Remove => e
  }

  /** `Channel::remove` asserts that no event is enabled, `removeChannel` that the channel is mapped. */
  predicate Allowed(r: Registration, op: Op) {
    op.Remove? ==> r.events == NONE && r.index != New
  }

  function Apply(r: Registration, op: Op): Registration {
    var e := Changed(r.events, op);
    if op.Remove? then Registration(e, New)
    else Registration(e, if r.index == Added && e == NONE then Deleted else Added)
  }

  // ---- The poller ----

  class Poller {
    var channels: map<int, Channel>
    var kernel: map<int, Interest>  // the epoll interest set
    ghost var all: set<Channel>     // the live channels of this loop

    function RegistrationOf(c: Channel): Registration
      reads c
    {
      Registration(c.events, c.index)
    }

    /** One channel against map and kernel, as it should be between calls. */
    ghost predicate Mirrors(c: Channel)
      reads this, c
    {
      && (c.fd in channels ==> channels[c.fd] == c)
      && (c.index == New <==> c.fd !in channels)
      && (c.index == Added <==> c.fd in kernel)
      && c.events == if c.fd in kernel then kernel[c.fd] else NONE
    }

    ghost predicate Owned()
      reads this
    {
      && (forall c, d | c in all && d in all && c != d :: c.fd != d.fd)
      && (forall fd | fd in channels :: channels[fd] in all && channels[fd].fd == fd)
      && (forall fd | fd in kernel :: fd in channels)
    }

    /** The map, every channel's index and mask, and the kernel's set all agree. */
    ghost predicate Valid()
      reads this, all
    {
      Owned() && forall c | c in all :: Mirrors(c)
    }

    constructor ()
      ensures Valid() && all == {}
    {
      channels, kernel, all := map[], map[], {};
    }

    /** A channel on a descriptor no live channel has. */
    method Adopt(c: Channel)
      requires Valid() && c.events == NONE && c.index == New && forall d | d in all :: d.fd != c.fd
      modifies this`all
      ensures Valid() && all == old(all) + {c}
    {
      all := all + {c};
    }

    /** `epoll_ctl`, as the kernel accepts it: add only what is absent, change or delete only what is there. */
    method EpollCtl(op: CtlOp, fd: int, mask: Interest)
      requires op.CtlAdd? <==> fd !in kernel
      modifies this`kernel
      ensures kernel == if op.CtlDel? then old(kernel) - {fd} else old(kernel)[fd := mask]
    {
      kernel := if op.CtlDel? then kernel - {fd} else kernel[fd := mask];
    }

    /** A channel whose mask was just changed: the kernel has not heard of it yet. */
    ghost predicate Stale(c: Channel)
      reads this, c
    {
      && (c.fd in channels ==> channels[c.fd] == c)
      && (c.index == New <==> c.fd !in channels)
      && (c.index == Added <==> c.fd in kernel)
    }

    method UpdateChannel(c: Channel)
      requires c in all && Owned() && Stale(c) && forall d | d in all && d != c :: Mirrors(d)
      modifies this`channels, this`kernel, c`index
      ensures Valid() && all == old(all)
      ensures c.index == if old(c.index) == Added && c.events == NONE then Deleted else Added
      ensures channels == old(channels)[c.fd := c]
      ensures kernel == if c.index == Added then old(kernel)[c.fd := c.events] else old(kernel) - {c.fd}
    {
      if c.index == New || c.index == Deleted {
        if c.index == New {
          assert c.fd !in channels;
          channels := channels[c.fd := c];
        } else {
          assert c.fd in channels && channels[c.fd] == c;
        }
        c.index := Added;
        EpollCtl(CtlAdd, c.fd, c.events);
      } else {
        assert c.fd in channels && channels[c.fd] == c && c.index == Added;
        if c.events == NONE {
          EpollCtl(CtlDel, c.fd, c.events);
          c.index := Deleted;
        } else {
          EpollCtl(CtlMod, c.fd, c.events);
        }
      }
      assert Mirrors(c);
      forall d | d in all && d != c
        ensures Mirrors(d)
      {
        assert d.fd != c.fd;
      }
    }

    method RemoveChannel(c: Channel)
      requires Valid() && c in all && c.events == NONE && c.index != New
      modifies this`channels, this`kernel, c`index
      ensures Valid() && all == old(all) && c.index == New
      ensures channels == old(channels) - {c.fd} && kernel == old(kernel) - {c.fd}
    {
      assert c.fd in channels && (c.index == Added || c.index == Deleted);
      channels := channels - {c.fd};
      if c.index == Added {
        EpollCtl(CtlDel, c.fd, c.events);
      }
      c.index := New;
    }

    /**
     Any of the channel's own calls, `enableReading` to `remove`: which of the two
     bits it sets or clears, that the other bit stays, and that the kernel then
     watches the descriptor for exactly the bits that are on.
     */
    method Do(c: Channel, op: Op)
      requires Valid() && c in all && Allowed(RegistrationOf(c), op)
      modifies this`channels, this`kernel, c
      ensures Valid() && all == old(all)
      ensures RegistrationOf(c) == Apply(old(RegistrationOf(c)), op)
      ensures c.events.read <==> op == EnableReading || (old(c.events.read) && op != DisableReading && op != DisableAll)
      ensures c.events.write <==> op == EnableWriting || (old(c.events.write) && op != DisableWriting && op != DisableAll)
      ensures op == Remove <==> c.fd !in channels
      ensures c.events.read || c.events.write ==> c.fd in kernel && kernel[c.fd] == c.events
      ensures channels - {c.fd} == old(channels) - {c.fd} && kernel - {c.fd} == old(kernel) - {c.fd}
    {
      hide Owned, Mirrors, Stale;
      if op == Remove {
        RemoveChannel(c);
      } else {
        SetMask(c, op);
        UpdateChannel(c);
        assert c.events.read || c.events.write ==> c.index == Added;
      }
    }

    /** The first half of the calls that change the mask: the member `m_events` alone. */
    method SetMask(c: Channel, op: Op)
      requires Valid() && c in all && op != Remove
      modifies c`events
      ensures Owned() && Stale(c) && forall d | d in all && d != c :: Mirrors(d)
      ensures c.events == Changed(old(c.events), op)
    {
      match op {
        case EnableReading => c.events := c.events.(read := true);
        case DisableReading => c.events := c.events.(read := false);
        case EnableWriting => c.events := c.events.(write := true);
        case DisableWriting => c.events := c.events.(write := false);
        case DisableAll => c.events := NONE;
        case Remove =>
      }
    }

    /**
     Any sequence of calls on any channels keeps poller and kernel in step, and
     brings each channel where its own calls take it: each bit is as the last of
     them that spoke of it left it.
     */
    method Replay(calls: seq<(Channel, Op)>)
      requires Valid() && (forall k | k in calls :: k.0 in all)
      requires forall c | c in all :: AllAllowed(RegistrationOf(c), OpsOn(c, calls))
      modifies this`channels, this`kernel, all
      ensures Valid() && all == old(all)
      ensures forall c | c in all :: RegistrationOf(c) == ApplyAll(old(RegistrationOf(c)), OpsOn(c, calls))
      ensures forall c | c in all ::
                && (c.events.read <==> ReadingAfter(old(c.events.read), OpsOn(c, calls)))
                && (c.events.write <==> WritingAfter(old(c.events.write), OpsOn(c, calls)))
                && (c.index == New <==> UnmappedAfter(old(c.index) == New, OpsOn(c, calls)))
    {
      hide Apply, Allowed, AllAllowed, ApplyAll, OpsOn, Mirrors, Owned, ReadingAfter, WritingAfter, UnmappedAfter;
      forall c | c in all {
        LastCallDecides(RegistrationOf(c), OpsOn(c, calls));
      }
      var i := 0;
      while i < |calls|
        invariant 0 <= i <= |calls| && Valid() && all == old(all)
        invariant forall c | c in all :: AllAllowed(RegistrationOf(c), OpsOn(c, calls[i..]))
        invariant forall c | c in all ::
                    ApplyAll(old(RegistrationOf(c)), OpsOn(c, calls))
                    == ApplyAll(RegistrationOf(c), OpsOn(c, calls[i..]))
      {
        var (c, op) := calls[i];
        assert calls[i] in calls;
        forall d | d in all
          ensures OpsOn(d, calls[i..]) == if d == c then [op] + OpsOn(d, calls[i + 1..]) else OpsOn(d, calls[i + 1..])
        {
          NextCall(d, calls, i);
        }
        FirstOp(RegistrationOf(c), op, OpsOn(c, calls[i + 1..]));
        Do(c, op);
        i := i + 1;
      }
      NoMoreCalls(calls);
    }
  }

  // ---- Sequences of calls ----

  function OpsOn(c: Channel, calls: seq<(Channel, Op)>): seq<Op> {
    if calls == [] then []
    else if calls[0].0 == c then [calls[0].1] + OpsOn(c, calls[1..])
    else OpsOn(c, calls[1..])
  }

  predicate AllAllowed(r: Registration, ops: seq<Op>)
    decreases |ops|
  {
    ops == [] || (Allowed(r, ops[0]) && AllAllowed(Apply(r, ops[0]), ops[1..]))
  }

  function ApplyAll(r: Registration, ops: seq<Op>): Registration
    decreases |ops|
  {
    if ops == [] then r else ApplyAll(Apply(r, ops[0]), ops[1..])
  }

  lemma NextCall(c: Channel, calls: seq<(Channel, Op)>, i: nat)
    requires i < |calls|
    ensures OpsOn(c, calls[i..]) == if c == calls[i].0 then [calls[i].1] + OpsOn(c, calls[i + 1..]) else OpsOn(c, calls[i + 1..])
  {
    assert calls[i..][0] == calls[i] && calls[i..][1..] == calls[i + 1..];
  }

  lemma NoMoreCalls(calls: seq<(Channel, Op)>)
    ensures forall c: Channel, r :: ApplyAll(r, OpsOn(c, calls[|calls|..])) == r
  {
    assert calls[|calls|..] == [];
  }

  lemma FirstOp(r: Registration, op: Op, rest: seq<Op>)
    ensures AllAllowed(r, [op] + rest) <==> Allowed(r, op) && AllAllowed(Apply(r, op), rest)
    ensures ApplyAll(r, [op] + rest) == ApplyAll(Apply(r, op), rest)
  {
    assert ([op] + rest)[1..] == rest;
  }

  // ---- The same without the steps: the last call that speaks of a bit decides it ----

  predicate LastReadingOn(ops: seq<Op>, i: nat)
    requires i < |ops|
  {
    ops[i] == EnableReading && forall j :: i < j < |ops| ==> ops[j] != DisableReading && ops[j] != DisableAll
  }

  predicate LastWritingOn(ops: seq<Op>, i: nat)
    requires i < |ops|
  {
    ops[i] == EnableWriting && forall j :: i < j < |ops| ==> ops[j] != DisableWriting && ops[j] != DisableAll
  }

  ghost predicate ReadingAfter(on: bool, ops: seq<Op>) {
    || (exists i :: 0 <= i < |ops| && LastReadingOn(ops, i))
    || (on && forall j :: 0 <= j < |ops| ==> ops[j] != DisableReading && ops[j] != DisableAll)
  }

  ghost predicate WritingAfter(on: bool, ops: seq<Op>) {
    || (exists i :: 0 <= i < |ops| && LastWritingOn(ops, i))
    || (on && forall j :: 0 <= j < |ops| ==> ops[j] != DisableWriting && ops[j] != DisableAll)
  }

  predicate UnmappedAfter(unmapped: bool, ops: seq<Op>) {
    if ops == [] then unmapped else ops[|ops| - 1] == Remove
  }

  lemma {:induction false} LastCallDecides(r: Registration, ops: seq<Op>)
    requires AllAllowed(r, ops)
    ensures var r' := ApplyAll(r, ops);
            && (r'.events.read <==> ReadingAfter(r.events.read, ops))
            && (r'.events.write <==> WritingAfter(r.events.write, ops))
            && (r'.index == New <==> UnmappedAfter(r.index == New, ops))
    decreases |ops|
  {
    if ops != [] {
      var r1 := Apply(r, ops[0]);
      LastCallDecides(r1, ops[1..]);
      ReadingGoesOn(r, ops);
      WritingGoesOn(r, ops);
    }
  }

  lemma ReadingGoesOn(r: Registration, ops: seq<Op>)
    requires ops != [] && Allowed(r, ops[0])
    ensures ReadingAfter(Apply(r, ops[0]).events.read, ops[1..]) <==> ReadingAfter(r.events.read, ops)
  {
    var rest := ops[1..];
    assert forall j :: 0 < j < |ops| ==> ops[j] == rest[j - 1];
    assert forall j :: 0 <= j < |rest| ==> rest[j] == ops[j + 1];
    assert forall i :: 0 < i < |ops| ==> (LastReadingOn(ops, i) <==> LastReadingOn(rest, i - 1));
    if i :| 0 <= i < |rest| && LastReadingOn(rest, i) {
      assert LastReadingOn(ops, i + 1);
    } else if ops[0] == EnableReading && forall j :: 0 <= j < |rest| ==> rest[j] != DisableReading && rest[j] != DisableAll {
      assert LastReadingOn(ops, 0);
    }
  }

  lemma WritingGoesOn(r: Registration, ops: seq<Op>)
    requires ops != [] && Allowed(r, ops[0])
    ensures WritingAfter(Apply(r, ops[0]).events.write, ops[1..]) <==> WritingAfter(r.events.write, ops)
  {
    var rest := ops[1..];
    assert forall j :: 0 < j < |ops| ==> ops[j] == rest[j - 1];
    assert forall j :: 0 <= j < |rest| ==> rest[j] == ops[j + 1];
    assert forall i :: 0 < i < |ops| ==> (LastWritingOn(ops, i) <==> LastWritingOn(rest, i - 1));
    if i :| 0 <= i < |rest| && LastWritingOn(rest, i) {
      assert LastWritingOn(ops, i + 1);
    } else if ops[0] == EnableWriting && forall j :: 0 <= j < |rest| ==> rest[j] != DisableWriting && rest[j] != DisableAll {
      assert LastWritingOn(ops, 0);
    }
  }

  /** A new channel watches for reading exactly when the last call to speak of reading is `enableReading`; so for writing. */
  lemma NewChannelWatches(ops: seq<Op>)
    requires AllAllowed(Registration(NONE, New), ops)
    ensures var r := ApplyAll(Registration(NONE, New), ops);
            && (r.events.read <==> exists i :: 0 <= i < |ops| && LastReadingOn(ops, i))
            && (r.events.write <==> exists i :: 0 <= i < |ops| && LastWritingOn(ops, i))
            && (r.index == New <==> ops == [] || ops[|ops| - 1] == Remove)
  {
    hide ApplyAll;
    LastCallDecides(Registration(NONE, New), ops);
  }

  /** A mask is on exactly while registered, along every sequence: unregistered channels have nothing enabled. */
  lemma {:induction false} UnregisteredIsSilent(ops: seq<Op>)
    requires AllAllowed(Registration(NONE, New), ops)
    ensures var r := ApplyAll(Registration(NONE, New), ops); r.index != Added ==> r.events == NONE
  {
    SilentFrom(Registration(NONE, New), ops);
  }

  lemma {:induction false} SilentFrom(r: Registration, ops: seq<Op>)
    requires AllAllowed(r, ops) && (r.index != Added ==> r.events == NONE)
    ensures var r' := ApplyAll(r, ops); r'.index != Added ==> r'.events == NONE
    decreases |ops|
  {
    if ops != [] {
      SilentFrom(Apply(r, ops[0]), ops[1..]);
    }
  }

  /**
   A repeated `disableAll` is not a no-op: it registers the channel again, with an
   empty mask. So a close followed by `connectDestroyed` in state kConnected leaves
   the descriptor in the kernel's set until `remove` takes it out.
   */
  lemma DisableAllTwice(r: Registration)
    requires r.index == Added
    ensures ApplyAll(r, [DisableAll]) == Registration(NONE, Deleted)
    ensures ApplyAll(r, [DisableAll, DisableAll]) == Registration(NONE, Added)
    ensures ApplyAll(r, [DisableAll, DisableAll, Remove]) == Registration(NONE, New)
  {
    assert [DisableAll, DisableAll, Remove][1..] == [DisableAll, Remove];
    assert [DisableAll, Remove][1..] == [Remove] && [DisableAll, DisableAll][1..] == [DisableAll];
  }
}
