/**
 The output side of one connection, vserver/net/Connection.cc, as a machine over
 the calls its loop thread makes. Results of `write` are oracles: any short,
 failed or empty write. Every list of calls is a run.
 */
module ConnOutput {
  import opened Common

  datatype ConnState = Disconnected | Connecting | Connected | Disconnecting

  /** At a `shutdownWrite`: what the socket had taken, of what had been passed down. */
  datatype Fin = Fin(sent: string, accepted: string)

  datatype State = State(
    state: ConnState, reading: bool, writing: bool,
    out: string,      // the readable bytes of m_outputBuffer
    wire: string,     // what the socket accepted
    passed: string,   // every message given to sendInLoop, in order
    fins: seq<Fin>, closes: nat,
    disabled: bool)   // disableAll has run: a close or the destruction has begun

  datatype Call =
    | Establish
    | SendInLoop(msg: string, wrote: int)
    | HandleWrite(wrote: int)
    | Shutdown | ShutdownInLoop
    | ForceClose | ForceCloseInLoop
    | HandleClose
    | Destroyed

  function Init(): State {
    State(Connecting, false, false, "", "", "", [], 0, false)
  }

  /** `write` either fails or takes some prefix of what it was offered. */
  function Taken(wrote: int, offered: string): (n: nat)
    ensures n <= |offered|
  {
    if wrote < 0 then 0 else if wrote <= |offered| then wrote else |offered|
  }

  function StepSend(s: State, msg: string, wrote: int): State {
    var n := if !s.writing && s.out == "" then Taken(wrote, msg) else 0;
    var s1 := s.(wire := s.wire + msg[..n], passed := s.passed + msg);
    if n < |msg| then s1.(out := s.out + msg[n..], writing := true) else s1
  }

  function StepShutdownInLoop(s: State): State {
    if s.writing then s else s.(fins := s.fins + [Fin(s.wire, s.passed)])
  }

  function StepWrite(s: State, wrote: int): State {
    var n := Taken(wrote, s.out);
    if !s.writing || n == 0 then s
    else
      var s1 := s.(wire := s.wire + s.out[..n], out := s.out[n..], writing := n < |s.out|);
      if s.state == Disconnecting then StepShutdownInLoop(s1) else s1
  }

  function StepClose(s: State): Outcome<State> {
    if s.state in {Connected, Disconnecting}
    then Next(s.(reading := false, writing := false, disabled := true, closes := s.closes + 1))
    else Crashed
  }

  /** `connectDestroyed`, up to the assertion in `Channel::remove` that no event is enabled. */
  function StepDestroyed(s: State): Outcome<State> {
    var s1 := if s.state == Connected then s.(state := Disconnected, reading := false, writing := false, disabled := true) else s;
    if s1.reading || s1.writing then Crashed else Next(s1)
  }

  function Step(s: State, c: Call): Outcome<State> {
    match c
    case Establish =>
      if s.state == Connecting then Next(s.(state := Connected, reading := true)) else Crashed
    case SendInLoop(msg, wrote) => Next(StepSend(s, msg, wrote))
    case HandleWrite(wrote) => Next(StepWrite(s, wrote))
    case Shutdown => Next(if s.state == Connected then s.(state := Disconnecting) else s)
    case ShutdownInLoop => Next(StepShutdownInLoop(s))
    case ForceClose => Next(if s.state in {Connected, Disconnecting} then s.(state := Disconnecting) else s)
    case ForceCloseInLoop => if s.state in {Connected, Disconnecting} then StepClose(s) else Next(s)
    case HandleClose => StepClose(s)
    case Destroyed => StepDestroyed(s)
  }

  function Run(s: State, cs: seq<Call>): Outcome<State>
    decreases |cs|
  {
    if cs == [] then Next(s)
    else match Step(s, cs[0])
      case Next(s') => Run(s', cs[1..])
      case _ => Crashed
  }

  function Messages(cs: seq<Call>): string {
    if cs == [] then "" else (if cs[0].SendInLoop? then cs[0].msg else "") + Messages(cs[1..])
  }

  // ---- Invariants ----

  ghost predicate Inv(s: State) {
    && s.wire + s.out == s.passed
    && (!s.disabled ==> (s.writing <==> s.out != ""))
    && (!s.disabled ==> forall f | f in s.fins :: f.sent == f.accepted)
    && (s.writing ==> s.out != "")
    && (s.disabled ==> !s.reading && s.state != Connecting)
    && (s.closes > 0 ==> s.disabled)
  }

  lemma SendKeeps(s: State, msg: string, wrote: int)
    requires Inv(s)
    ensures Inv(StepSend(s, msg, wrote))
  {
    var n := if !s.writing && s.out == "" then Taken(wrote, msg) else 0;
    assert msg == msg[..n] + msg[n..];
    assert s.passed + msg == (s.wire + s.out) + (msg[..n] + msg[n..]);
    assert n > 0 ==> (s.wire + s.out) + (msg[..n] + msg[n..]) == (s.wire + msg[..n]) + msg[n..];
    assert n == 0 ==> msg[..n] == "" && msg[n..] == msg;
    assert (s.wire + s.out) + msg == s.wire + (s.out + msg);
  }

  lemma WriteKeeps(s: State, wrote: int)
    requires Inv(s)
    ensures Inv(StepWrite(s, wrote))
  {
    var n := Taken(wrote, s.out);
    assert s.wire + s.out == (s.wire + s.out[..n]) + s.out[n..];
    assert n == |s.out| ==> s.out[n..] == "";
    assert s.wire + s.out[..n] + "" == s.wire + s.out[..n];
  }

  lemma StepKeeps(s: State, c: Call)
    requires Inv(s) && Step(s, c).Next?
    ensures Inv(Step(s, c).state)
    ensures Step(s, c).state.passed == s.passed + if c.SendInLoop? then c.msg else ""
  {
    assert s.passed + "" == s.passed;
    match c
    case SendInLoop(msg, wrote) => SendKeeps(s, msg, wrote);
    case HandleWrite(wrote) => WriteKeeps(s, wrote);
    case ShutdownInLoop => assert s.wire + "" == s.wire;
    case _ =>
  }

  lemma {:induction false} RunKeeps(s: State, cs: seq<Call>)
    requires Inv(s) && Run(s, cs).Next?
    ensures Inv(Run(s, cs).state)
    ensures Run(s, cs).state.passed == s.passed + Messages(cs)
    decreases |cs|
  {
    hide Inv, StepSend, StepWrite, StepClose, StepDestroyed;
    if cs == [] {
      assert s.passed + "" == s.passed;
    } else {
      StepKeeps(s, cs[0]);
      RunKeeps(Step(s, cs[0]).state, cs[1..]);
      var first := if cs[0].SendInLoop? then cs[0].msg else "";
      assert s.passed + first + Messages(cs[1..]) == s.passed + (first + Messages(cs[1..]));
    }
  }

  predicate NoClose(cs: seq<Call>) {
    forall c | c in cs :: !c.HandleClose? && !c.ForceCloseInLoop? && !c.Destroyed?
  }

  lemma {:induction false} NoCloseNotDisabled(s: State, cs: seq<Call>)
    requires NoClose(cs) && Run(s, cs).Next?
    ensures Run(s, cs).state.disabled == s.disabled
    decreases |cs|
  {
    if cs != [] {
      assert cs[0] in cs;
      NoCloseNotDisabled(Step(s, cs[0]).state, cs[1..]);
    }
  }

  // ---- Results about every run ----

  /** Byte-stream fidelity: what the socket took, then what is buffered, is every message, in order, nothing twice. */
  lemma OutputFaithful(cs: seq<Call>)
    requires Run(Init(), cs).Next?
    ensures var s := Run(Init(), cs).state; s.wire + s.out == Messages(cs) && s.wire <= Messages(cs)
  {
    RunKeeps(Init(), cs);
    assert "" + Messages(cs) == Messages(cs);
  }

  /** Told from the calls: kConnected was left for kDisconnecting, and no `shutdownInLoop` has run since. */
  function Owed(s: State, cs: seq<Call>, before: bool): bool
    decreases |cs|
  {
    if cs == [] then before
    else
      var c := cs[0];
      var left := (c.Shutdown? || c.ForceClose?) && s.state == Connected;
      match Step(s, c)
      case Next(s') => Owed(s', cs[1..], left || (before && !c.ShutdownInLoop?))
      case _ => before
  }

  /** In kDisconnecting a FIN is out, or something is left that will send it. */
  predicate FinComes(s: State, owed: bool) {
    s.state == Disconnecting ==> owed || s.writing || s.fins != []
  }

  lemma StepFinComes(s: State, c: Call, owed: bool)
    requires FinComes(s, owed) && Step(s, c).Next? && Inv(s)
    requires !c.HandleClose? && !c.ForceCloseInLoop? && !c.Destroyed?
    ensures FinComes(Step(s, c).state, ((c.Shutdown? || c.ForceClose?) && s.state == Connected) || (owed && !c.ShutdownInLoop?))
  {
    match c
    case HandleWrite(wrote) => assert Step(s, c).state == StepWrite(s, wrote);
    case SendInLoop(msg, wrote) => assert Step(s, c).state == StepSend(s, msg, wrote);
    case _ =>
  }

  lemma {:induction false} RunFinComes(s: State, cs: seq<Call>, owed: bool)
    requires FinComes(s, owed) && NoClose(cs) && Run(s, cs).Next? && Inv(s)
    ensures FinComes(Run(s, cs).state, Owed(s, cs, owed))
    decreases |cs|
  {
    hide FinComes, Step, Inv;
    if cs != [] {
      var c := cs[0];
      assert c in cs;
      StepKeeps(s, c);
      StepFinComes(s, c, owed);
      RunFinComes(Step(s, c).state, cs[1..],
                  ((c.Shutdown? || c.ForceClose?) && s.state == Connected) || (owed && !c.ShutdownInLoop?));
    }
  }

  /**
   Flush before FIN, and FIN after the flush: until the first close, writing
   interest is on exactly while output is buffered; the write side is shut down
   only when all that was passed down so far has reached the socket; and in
   kDisconnecting, once `shutdownInLoop` has run and nothing is buffered, it has
   been shut down.
   */
  lemma FlushBeforeFin(cs: seq<Call>)
    requires NoClose(cs) && Run(Init(), cs).Next?
    ensures var s := Run(Init(), cs).state;
            && (s.writing <==> s.out != "")
            && (forall f | f in s.fins :: f.sent == f.accepted)
            && (s.state == Disconnecting && s.out == "" && !Owed(Init(), cs, false) ==> s.fins != [])
  {
    RunKeeps(Init(), cs);
    NoCloseNotDisabled(Init(), cs);
    RunFinComes(Init(), cs, false);
  }

  // ---- Progress of the buffered output ----

  function Sum(ns: seq<nat>): nat {
    if ns == [] then 0 else ns[0] + Sum(ns[1..])
  }

  function Writes(ns: seq<nat>): seq<Call> {
    if ns == [] then [] else [HandleWrite(ns[0])] + Writes(ns[1..])
  }

  /** With writing on, a write of n bytes moves exactly the first n buffered bytes to the socket. */
  lemma WriteMoves(s: State, n: nat)
    requires s.writing && 0 < n <= |s.out|
    ensures var s' := StepWrite(s, n);
            && s'.wire == s.wire + s.out[..n] && s'.out == s.out[n..] && (s'.writing <==> n < |s.out|)
            && s'.passed == s.passed && s'.state == s.state && s'.reading == s.reading && s'.closes == s.closes
            && s'.fins == s.fins + if s.state == Disconnecting && n == |s.out| then [Fin(s.wire + s.out, s.passed)] else []
  {
    assert s.out[..|s.out|] == s.out;
    assert s.fins + [] == s.fins;
  }

  lemma {:induction false} DrainsFrom(s: State, ns: seq<nat>)
    requires Inv(s) && s.state == Disconnecting && s.writing
    requires (forall k :: 0 <= k < |ns| ==> ns[k] > 0) && Sum(ns) >= |s.out|
    ensures Run(s, Writes(ns)).Next?
    ensures var s' := Run(s, Writes(ns)).state;
            && s'.out == "" && s'.wire == s.passed && !s'.writing && s'.fins == s.fins + [Fin(s.passed, s.passed)]
    decreases |ns|
  {
    hide Inv, StepSend, StepClose, StepDestroyed, StepWrite;
    InvGives(s);
    assert ns != [];
    var n := Taken(ns[0], s.out);
    var s1 := StepWrite(s, ns[0]);
    TakenEnough(s, ns[0]);
    WriteMoves(s, n);
    StepKeeps(s, HandleWrite(ns[0]));
    assert Writes(ns)[1..] == Writes(ns[1..]);
    if s1.writing {
      DrainsFrom(s1, ns[1..]);
      assert s.fins + [] == s.fins;
    } else {
      InvGives(s1);
      StaysDrained(s1, ns[1..]);
      assert s.wire + s.out == s.passed;
      assert s.out[..|s.out|] == s.out;
    }
  }

  lemma InvGives(s: State)
    requires Inv(s)
    ensures s.wire + s.out == s.passed && (s.writing ==> s.out != "")
  {
  }

  lemma TakenEnough(s: State, wrote: nat)
    ensures StepWrite(s, wrote) == StepWrite(s, Taken(wrote, s.out))
  {
  }

  lemma {:induction false} StaysDrained(s: State, ns: seq<nat>)
    requires !s.writing
    ensures Run(s, Writes(ns)) == Next(s)
    decreases |ns|
  {
    if ns != [] {
      assert Writes(ns)[1..] == Writes(ns[1..]);
      StaysDrained(s, ns[1..]);
    }
  }

  /**
   After any run in which the connection is in kDisconnecting with output waiting,
   writable events that take at least one byte each, and all of it together, put
   every message on the socket and shut the write side once, behind the last byte.
   */
  lemma DrainsToFin(cs: seq<Call>, ns: seq<nat>)
    requires Run(Init(), cs).Next? && Run(Init(), cs).state.state == Disconnecting && Run(Init(), cs).state.writing
    requires (forall k :: 0 <= k < |ns| ==> ns[k] > 0) && Sum(ns) >= |Run(Init(), cs).state.out|
    ensures var s := Run(Init(), cs).state; var r := Run(s, Writes(ns));
            && r.Next? && r.state.out == "" && r.state.wire == Messages(cs) && !r.state.writing
            && r.state.fins == s.fins + [Fin(Messages(cs), Messages(cs))]
  {
    RunKeeps(Init(), cs);
    assert "" + Messages(cs) == Messages(cs);
    DrainsFrom(Run(Init(), cs).state, ns);
  }

  // ---- After a close ----

  /** The call runs `disableAll`: it closes, or destroys a connection still in kConnected. */
  predicate Disables(s: State, c: Call) {
    match c
    case HandleClose => true
    case ForceCloseInLoop => s.state in {Connected, Disconnecting}
    case Destroyed => s.state == Connected
    case _ => false
  }

  predicate Sends(c: Call) {
    c.SendInLoop? && c.msg != ""
  }

  /** Told from the calls: the last disableAll found output buffered, and no message that is not empty was passed down since. */
  function Stranded(s: State, cs: seq<Call>, before: bool): bool
    decreases |cs|
  {
    if cs == [] then before
    else match Step(s, cs[0])
      case Next(s') => Stranded(s', cs[1..], if Disables(s, cs[0]) then s.out != "" else before && !Sends(cs[0]))
      case _ => before
  }

  /** Told from the calls: a message that is not empty was passed down since the last disableAll. */
  function SentSince(s: State, cs: seq<Call>, before: bool): bool
    decreases |cs|
  {
    if cs == [] then before
    else match Step(s, cs[0])
      case Next(s') => SentSince(s', cs[1..], !Disables(s, cs[0]) && (before || Sends(cs[0])))
      case _ => before
  }

  predicate IsStranded(s: State) {
    s.out != "" && !s.writing
  }

  lemma StepStranded(s: State, c: Call)
    requires Inv(s) && Step(s, c).Next?
    ensures IsStranded(Step(s, c).state) <==> if Disables(s, c) then s.out != "" else IsStranded(s) && !Sends(c)
    ensures Step(s, c).state.writing ==> !Disables(s, c) && (s.writing || Sends(c))
  {
    match c
    case SendInLoop(msg, wrote) => assert Step(s, c).state == StepSend(s, msg, wrote);
    case HandleWrite(wrote) => assert Step(s, c).state == StepWrite(s, wrote);
    case _ =>
  }

  lemma {:induction false} RunStranded(s: State, cs: seq<Call>, left: bool, sent: bool)
    requires Inv(s) && Run(s, cs).Next? && (left <==> IsStranded(s)) && (s.writing ==> sent)
    ensures Stranded(s, cs, left) <==> IsStranded(Run(s, cs).state)
    ensures Run(s, cs).state.writing ==> SentSince(s, cs, sent)
    decreases |cs|
  {
    hide Inv, Step, Disables, Sends, IsStranded;
    if cs != [] {
      var c := cs[0];
      StepKeeps(s, c);
      StepStranded(s, c);
      RunStranded(Step(s, c).state, cs[1..],
                  if Disables(s, c) then s.out != "" else left && !Sends(c), !Disables(s, c) && (sent || Sends(c)));
    }
  }

  /**
   After any run, a `shutdownInLoop` shuts the write side on output that has not reached the
   socket exactly when the last disableAll found output buffered and nothing was sent since.
   */
  lemma EarlyFinIff(cs: seq<Call>)
    requires Run(Init(), cs).Next?
    ensures var s := Run(Init(), cs).state;
            (StepShutdownInLoop(s).fins == s.fins + [Fin(s.wire, s.passed)] && s.wire != s.passed) <==> Stranded(Init(), cs, false)
  {
    RunKeeps(Init(), cs);
    RunStranded(Init(), cs, false, false);
    var s := Run(Init(), cs).state;
    assert |s.wire| + |s.out| == |s.passed|;
    assert s.out == "" ==> s.wire + s.out == s.wire;
    assert |s.fins + [Fin(s.wire, s.passed)]| == |s.fins| + 1;
  }

  /** It happens: one byte of two is written, the peer closes, and the shutdown asked for cuts the other off. */
  lemma CloseCutsOutputOff()
    ensures var r := Run(Init(), [Establish] + ([SendInLoop("ab", 1)] + ([HandleClose] + ([ShutdownInLoop] + []))));
            r.Next? && r.state.fins == [Fin("a", "ab")]
  {
    var s1 := Init().(state := Connected, reading := true);
    var s2 := s1.(wire := "a", out := "b", passed := "ab", writing := true);
    var s3 := s2.(reading := false, writing := false, disabled := true, closes := 1);
    assert "ab"[..1] == "a" && "ab"[1..] == "b" && "" + "ab"[..1] == "a" && "" + "ab" == "ab" && "" + "b" == "b";
    assert StepSend(s1, "ab", 1) == s2;
    RunNext(Init(), Establish, s1, [SendInLoop("ab", 1)] + ([HandleClose] + ([ShutdownInLoop] + [])));
    RunNext(s1, SendInLoop("ab", 1), s2, [HandleClose] + ([ShutdownInLoop] + []));
    RunNext(s2, HandleClose, s3, [ShutdownInLoop] + []);
    RunNext(s3, ShutdownInLoop, StepShutdownInLoop(s3), []);
    assert [] + [Fin("a", "ab")] == [Fin("a", "ab")];
  }

  /** Once closed, a connection that nothing was sent on since the last disableAll is destroyed without failing. */
  lemma NoLateSendDestroys(cs: seq<Call>)
    requires Run(Init(), cs).Next? && Run(Init(), cs).state.closes > 0 && !SentSince(Init(), cs, false)
    ensures StepDestroyed(Run(Init(), cs).state).Next?
  {
    RunKeeps(Init(), cs);
    RunStranded(Init(), cs, false, false);
  }

  /** After a close, destruction fails its assertion exactly when a late send switched writing on and the state is not kConnected. */
  lemma DestroyFailsIff(cs: seq<Call>)
    requires Run(Init(), cs).Next? && Run(Init(), cs).state.closes > 0
    ensures var s := Run(Init(), cs).state; StepDestroyed(s).Crashed? <==> s.state != Connected && s.writing
  {
    RunKeeps(Init(), cs);
  }

  lemma RunNext(s: State, c: Call, s': State, rest: seq<Call>)
    requires Step(s, c) == Next(s')
    ensures Run(s, [c] + rest) == Run(s', rest)
    ensures Run(s', []) == Next(s')
  {
    assert ([c] + rest)[1..] == rest;
  }

  /** A late send does that: after `shutdown` and a close, one unwritten byte makes `connectDestroyed` abort. */
  lemma LateSendBreaksDestroy(msg: string)
    requires msg != ""
    ensures Run(Init(), [Establish] + ([Shutdown] + ([HandleClose] + ([SendInLoop(msg, -1)] + ([Destroyed] + []))))).Crashed?
  {
    var s1 := Init().(state := Connected, reading := true);
    var s2 := s1.(state := Disconnecting);
    var s3 := s2.(reading := false, disabled := true, closes := 1);
    var s4 := StepSend(s3, msg, -1);
    RunNext(Init(), Establish, s1, [Shutdown] + ([HandleClose] + ([SendInLoop(msg, -1)] + ([Destroyed] + []))));
    RunNext(s1, Shutdown, s2, [HandleClose] + ([SendInLoop(msg, -1)] + ([Destroyed] + [])));
    RunNext(s2, HandleClose, s3, [SendInLoop(msg, -1)] + ([Destroyed] + []));
    RunNext(s3, SendInLoop(msg, -1), s4, [Destroyed] + []);
    assert StepDestroyed(s4).Crashed?;
    assert ([Destroyed] + [])[0] == Destroyed;
  }

  /** `handleClose` leaves the state open, so a force-close still queued closes a second time. */
  lemma ForceCloseClosesTwice()
    ensures var r := Run(Init(), [Establish] + ([ForceClose] + ([HandleClose] + ([ForceCloseInLoop] + []))));
            r.Next? && r.state.closes == 2
  {
    var s1 := Init().(state := Connected, reading := true);
    var s2 := s1.(state := Disconnecting);
    var s3 := s2.(reading := false, disabled := true, closes := 1);
    RunNext(Init(), Establish, s1, [ForceClose] + ([HandleClose] + ([ForceCloseInLoop] + [])));
    RunNext(s1, ForceClose, s2, [HandleClose] + ([ForceCloseInLoop] + []));
    RunNext(s2, HandleClose, s3, [ForceCloseInLoop] + []);
    RunNext(s3, ForceCloseInLoop, s3.(closes := 2), []);
  }
}
