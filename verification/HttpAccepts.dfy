/**
 The other direction: every message whose head the automaton gets through is a
 rendering of some well-formed message. Together with HttpGrammar.dfy this says
 exactly which byte strings the parser accepts and what it makes of each.
 */
module HttpAccepts {
  import opened Common
  import opened HttpRequests
  import opened HttpGrammar

  /** The automaton came past the line feed that ends the head. */
  predicate HeadDone(m: Machine) {
    m.fields.state in {InBody, End} || m.fault.Some?
  }

  predicate InHead(s: ParseState) {
    s in {Start, InMethod, BeforePath, InPath, BeforeParamKey, InParamKey, BeforeParamValue, InParamValue,
          BeforeVersion, InVersion, InHeaderKey, BeforeHeaderValue, InHeaderValue, WCr, WCrLf, WCrLfCr}
  }

  // ---- What has been read so far ----

  function Sep(ps: seq<Param>): string { if ps == [] then "?" else "&" }

  function Target(d: Message): string { RenderTarget(d) + RenderParams(d.params, "?") }

  function HeadText(d: Message): string { Target(d) + RenderVersion(d) + RenderHeaders(d.headers) }

  predicate GoodStart(d: Message) {
    Lead(d.lead) && Verb(d.verb) && d.gap != "" && Blanks(d.gap)
  }

  predicate GoodTarget(d: Message) {
    GoodStart(d) && Path(d.path) && forall x | x in d.params :: GoodParam(x)
  }

  predicate GoodHead(d: Message) {
    GoodTarget(d) && d.gap2 != "" && Blanks(d.gap2) && Vers(d.version) && forall h | h in d.headers :: GoodHeader(h)
  }

  /** In each state: the bytes before p (or before the mark) are the rendering of d so far. */
  ghost predicate ReadSoFar(m: Machine, msg: string, p: nat, d: Message, pad: string)
    requires m.begin <= p <= |msg|
  {
    var text := msg[m.begin..p];
    match m.fields.state
    case Start => msg[..p] == d.lead && Lead(d.lead)
    case InMethod => msg[..m.begin] == d.lead && Lead(d.lead) && Verb(text)
    case BeforePath => msg[..p] == d.lead + d.verb + d.gap && GoodStart(d)
    case InPath => msg[..m.begin] == d.lead + d.verb + d.gap && GoodStart(d) && Path(text) && d.params == []
    case BeforeParamKey => msg[..p] == Target(d) + Sep(d.params) && GoodTarget(d)
    case InParamKey => msg[..m.begin] == Target(d) + Sep(d.params) && GoodTarget(d) && Key(text)
    case BeforeParamValue =>
      msg[..p] == Target(d) + (Sep(d.params) + m.paramKey + "=") && GoodTarget(d) && Key(m.paramKey)
    case InParamValue =>
      msg[..m.begin] == Target(d) + (Sep(d.params) + m.paramKey + "=") && GoodTarget(d) && Key(m.paramKey) && Val(text)
    case BeforeVersion => msg[..p] == Target(d) + d.gap2 && GoodTarget(d) && d.gap2 != "" && Blanks(d.gap2)
    case InVersion => msg[..m.begin] == Target(d) + d.gap2 && GoodTarget(d) && d.gap2 != "" && Blanks(d.gap2) && Vers(text)
    case WCr => msg[..p] + "\n" == HeadText(d) && GoodHead(d)
    case WCrLf => msg[..p] == HeadText(d) && GoodHead(d)
    case InHeaderKey => msg[..m.begin] == HeadText(d) && GoodHead(d) && HKey(text)
    case BeforeHeaderValue =>
      msg[..p] == HeadText(d) + (m.headerKey + ":" + pad) && GoodHead(d) && HKey(m.headerKey) && Blanks(pad)
    case InHeaderValue =>
      && msg[..m.begin] == HeadText(d) + (m.headerKey + ":" + pad)
      && GoodHead(d) && HKey(m.headerKey) && Blanks(pad) && HVal(text) && text != ""
    case WCrLfCr => msg[..p] == HeadText(d) + ("\r" + d.junk) && GoodHead(d) && Junk(d.junk)
    case _ => false
  }

  lemma {:induction false} ParamsSnoc(ps: seq<Param>, x: Param, sep: string)
    ensures RenderParams(ps + [x], sep)
         == RenderParams(ps, sep) + ((if ps == [] then sep else "&") + x.key + "=" + x.value)
    decreases |ps|
  {
    if ps == [] {
      assert ps + [x] == [x];
    } else {
      assert (ps + [x])[1..] == ps[1..] + [x];
      ParamsSnoc(ps[1..], x, "&");
      var y := ps[0];
      var head := sep + y.key + "=" + y.value;
      assert RenderParams(ps + [x], sep) == head + RenderParams(ps[1..] + [x], "&");
    }
  }

  lemma {:induction false} HeadersSnoc(hs: seq<Header>, h: Header)
    ensures RenderHeaders(hs + [h]) == RenderHeaders(hs) + (h.key + ":" + h.pad + h.value + "\r\n")
  {
    if hs == [] {
      assert hs + [h] == [h];
    } else {
      assert (hs + [h])[1..] == hs[1..] + [h];
      HeadersSnoc(hs[1..], h);
      var y := hs[0];
      var head := y.key + ":" + y.pad + y.value + "\r\n";
      assert RenderHeaders(hs + [h]) == head + RenderHeaders(hs[1..] + [h]);
    }
  }

  lemma AddedParam(d: Message, x: Param)
    ensures Target(d.(params := d.params + [x])) == Target(d) + (Sep(d.params) + x.key + "=") + x.value
  {
    ParamsSnoc(d.params, x, "?");
    var d' := d.(params := d.params + [x]);
    assert RenderTarget(d') == RenderTarget(d);
  }

  lemma AddedHeader(d: Message, h: Header)
    ensures HeadText(d.(headers := d.headers + [h])) == HeadText(d) + (h.key + ":" + h.pad) + h.value + "\r\n"
  {
    HeadersSnoc(d.headers, h);
    var d' := d.(headers := d.headers + [h]);
    assert Target(d') == Target(d) && RenderVersion(d') == RenderVersion(d);
  }

  // ---- One byte further ----

  lemma Grow(msg: string, b: nat, p: nat)
    requires b <= p < |msg|
    ensures msg[b..p + 1] == msg[b..p] + [msg[p]] && msg[..p + 1] == msg[..p] + [msg[p]]
    ensures msg[..p] == msg[..b] + msg[b..p]
    ensures msg[p..p + 1] == [msg[p]]
  {
  }

  lemma AdvanceVerb(m: Machine, msg: string, p: nat, d: Message) returns (d': Message)
    requires m.begin <= p < |msg| && m.fields.state in {Start, InMethod}
    requires ReadSoFar(m, msg, p, d, "")
    requires InHead(Step(m, msg, p).fields.state)
    ensures ReadSoFar(Step(m, msg, p), msg, p + 1, d', "")
  {
    hide MethodNamed, VersionNamed, EndOfHead, TakeBody, Target, HeadText;
    Grow(msg, m.begin, p);
    var c := msg[p];
    d' := d;
    match m.fields.state
    case Start =>
      if IsEol(c) || IsBlank(c) {
        d' := d.(lead := d.lead + [c]);
      }
    case InMethod =>
      if IsBlank(c) {
        d' := d.(verb := msg[m.begin..p], gap := [c]);
      }
  }

  lemma AdvancePath(m: Machine, msg: string, p: nat, d: Message) returns (d': Message)
    requires m.begin <= p < |msg| && m.fields.state in {BeforePath, InPath}
    requires ReadSoFar(m, msg, p, d, "")
    requires InHead(Step(m, msg, p).fields.state)
    ensures ReadSoFar(Step(m, msg, p), msg, p + 1, d', "")
  {
    hide MethodNamed, VersionNamed, EndOfHead, TakeBody, HeadText;
    Grow(msg, m.begin, p);
    var text := msg[m.begin..p];
    var c := msg[p];
    d' := d;
    match m.fields.state
    case BeforePath =>
      if IsBlank(c) {
        d' := d.(gap := d.gap + [c]);
        assert d.lead + d.verb + d.gap + [c] == d.lead + d.verb + (d.gap + [c]);
      } else {
        d' := d.(params := []);
      }
    case InPath =>
      if IsBlank(c) {
        d' := d.(path := text, gap2 := [c]);
        assert Target(d') == d.lead + d.verb + d.gap + text;
      } else if c == '?' {
        d' := d.(path := text);
        assert Target(d') == d.lead + d.verb + d.gap + text;
      }
  }

  lemma AdvanceParamKey(m: Machine, msg: string, p: nat, d: Message) returns (d': Message)
    requires m.begin <= p < |msg| && m.fields.state in {BeforeParamKey, InParamKey}
    requires ReadSoFar(m, msg, p, d, "")
    requires InHead(Step(m, msg, p).fields.state)
    ensures ReadSoFar(Step(m, msg, p), msg, p + 1, d', "")
  {
    hide RenderTarget, RenderParams, Target, HeadText, MethodNamed, VersionNamed, EndOfHead, TakeBody;
    Grow(msg, m.begin, p);
    d' := d;
    if m.fields.state == InParamKey && msg[p] == '=' {
      var base, text := Target(d), msg[m.begin..p];
      assert base + Sep(d.params) + text + [msg[p]] == base + (Sep(d.params) + text + "=");
    }
  }

  lemma AdvanceParamValue(m: Machine, msg: string, p: nat, d: Message) returns (d': Message)
    requires m.begin <= p < |msg| && m.fields.state in {BeforeParamValue, InParamValue}
    requires ReadSoFar(m, msg, p, d, "")
    requires InHead(Step(m, msg, p).fields.state)
    ensures ReadSoFar(Step(m, msg, p), msg, p + 1, d', "")
  {
    hide RenderTarget, RenderParams, Target, HeadText, MethodNamed, VersionNamed, EndOfHead, TakeBody;
    Grow(msg, m.begin, p);
    var text := msg[m.begin..p];
    var c := msg[p];
    d' := d;
    if m.fields.state == InParamValue && (c == '&' || IsBlank(c)) {
      var x := Param(m.paramKey, text);
      AddedParam(d, x);
      d' := d.(params := d.params + [x], gap2 := [c]);
      assert Target(d') == Target(d.(params := d.params + [x])) by { SameTarget(d', d.(params := d.params + [x])); }
      assert forall y | y in d'.params :: y in d.params || y == x;
    }
  }

  lemma SameTarget(d: Message, e: Message)
    requires d.lead == e.lead && d.verb == e.verb && d.gap == e.gap && d.path == e.path && d.params == e.params
    ensures Target(d) == Target(e)
    ensures d.gap2 == e.gap2 && d.version == e.version && d.headers == e.headers ==> HeadText(d) == HeadText(e)
  {
  }

  lemma AdvanceBeforeVersion(m: Machine, msg: string, p: nat, d: Message) returns (d': Message)
    requires m.begin <= p < |msg| && m.fields.state == BeforeVersion
    requires ReadSoFar(m, msg, p, d, "")
    ensures ReadSoFar(Step(m, msg, p), msg, p + 1, d', "")
  {
    hide HeadText, Target, RenderVersion, RenderHeaders;
    Grow(msg, m.begin, p);
    var c := msg[p];
    d' := d;
    if IsBlank(c) {
      d' := d.(gap2 := d.gap2 + [c]);
      SameTarget(d', d);
      assert Target(d) + d.gap2 + [c] == Target(d) + (d.gap2 + [c]);
    }
  }

  lemma AdvanceInVersion(m: Machine, msg: string, p: nat, d: Message) returns (d': Message)
    requires m.begin <= p < |msg| && m.fields.state == InVersion
    requires ReadSoFar(m, msg, p, d, "")
    ensures ReadSoFar(Step(m, msg, p), msg, p + 1, d', "")
  {
    hide HeadText, Target, RenderVersion, RenderHeaders;
    Grow(msg, m.begin, p);
    d' := d;
    if msg[p] == CR {
      var text := msg[m.begin..p];
      d' := d.(version := text, headers := []);
      SameTarget(d', d);
      LineEnded(d');
      assert msg[..p + 1] + "\n" == Target(d) + d.gap2 + text + ([CR] + "\n");
    }
  }

  lemma LineEnded(d: Message)
    requires d.headers == []
    ensures HeadText(d) == Target(d) + d.gap2 + d.version + ([CR] + "\n")
  {
    hide Target;
    assert HeadText(d) == Target(d) + (d.gap2 + d.version + "\r\n") + "";
    assert [CR] + "\n" == "\r\n";
  }

  lemma AdvanceHeaderKey(m: Machine, msg: string, p: nat, d: Message, pad: string) returns (d': Message, pad': string)
    requires m.begin <= p < |msg| && m.fields.state in {InHeaderKey, WCr, WCrLf}
    requires ReadSoFar(m, msg, p, d, pad)
    requires InHead(Step(m, msg, p).fields.state)
    ensures ReadSoFar(Step(m, msg, p), msg, p + 1, d', pad')
  {
    hide HeadText, Target, RenderTarget, RenderParams, RenderHeaders, RenderVersion, MethodNamed, VersionNamed, EndOfHead, TakeBody;
    Grow(msg, m.begin, p);
    var text := msg[m.begin..p];
    var c := msg[p];
    d', pad' := d, pad;
    var base := HeadText(d);
    match m.fields.state
    case InHeaderKey =>
      if c == ':' {
        pad' := "";
        assert base + text + [c] == base + (text + ":" + "");
      }
    case WCr =>
    case WCrLf =>
      if c == CR {
        d' := d.(junk := "");
        SameTarget(d', d);
        assert base + [c] == base + ("\r" + "");
      }
  }

  lemma AdvanceHeaderValue(m: Machine, msg: string, p: nat, d: Message, pad: string) returns (d': Message, pad': string)
    requires m.begin <= p < |msg| && m.fields.state in {BeforeHeaderValue, InHeaderValue}
    requires ReadSoFar(m, msg, p, d, pad)
    requires InHead(Step(m, msg, p).fields.state)
    ensures ReadSoFar(Step(m, msg, p), msg, p + 1, d', pad')
  {
    hide HeadText, Target, RenderTarget, RenderParams, RenderHeaders, RenderVersion, MethodNamed, VersionNamed, EndOfHead, TakeBody;
    Grow(msg, m.begin, p);
    var text := msg[m.begin..p];
    var c := msg[p];
    d', pad' := d, pad;
    var base := HeadText(d) + (m.headerKey + ":" + pad);
    if c == CR {
      var value := if m.fields.state == InHeaderValue then text else "";
      d' := AddHeaderTo(d, Header(m.headerKey, pad, value));
      assert base + value + [c] + "\n" == base + value + "\r\n";
      assert base + "" == base;
    } else if m.fields.state == BeforeHeaderValue && IsBlank(c) {
      pad' := pad + [c];
      assert base + [c] == HeadText(d) + (m.headerKey + ":" + pad');
    }
  }

  lemma AdvanceJunk(m: Machine, msg: string, p: nat, d: Message) returns (d': Message)
    requires m.begin <= p < |msg| && m.fields.state == WCrLfCr && msg[p] != LF
    requires ReadSoFar(m, msg, p, d, "")
    ensures ReadSoFar(Step(m, msg, p), msg, p + 1, d', "")
  {
    Grow(msg, m.begin, p);
    d' := d.(junk := d.junk + [msg[p]]);
    SameTarget(d', d);
    hide HeadText, Target;
    assert HeadText(d) + ("\r" + d.junk) + [msg[p]] == HeadText(d) + ("\r" + (d.junk + [msg[p]]));
  }

  lemma AddHeaderTo(d: Message, h: Header) returns (d': Message)
    requires GoodHead(d) && GoodHeader(h)
    ensures GoodHead(d') && HeadText(d') == HeadText(d) + (h.key + ":" + h.pad) + h.value + "\r\n"
  {
    AddedHeader(d, h);
    d' := d.(headers := d.headers + [h]);
    assert forall y | y in d'.headers :: y in d.headers || y == h;
  }

  lemma Advance(m: Machine, msg: string, p: nat, d: Message, pad: string) returns (d': Message, pad': string)
    requires m.begin <= p < |msg| && InHead(m.fields.state)
    requires m.fields.state == WCrLfCr ==> msg[p] != LF
    requires ReadSoFar(m, msg, p, d, pad)
    requires InHead(Step(m, msg, p).fields.state)
    ensures ReadSoFar(Step(m, msg, p), msg, p + 1, d', pad')
  {
    hide ReadSoFar, Step;
    OnlyHeaderNeedsPad(m, msg, p, d, pad);
    StepKeepsPad(m, msg, p);
    var next := Step(m, msg, p);
    pad' := pad;
    if m.fields.state in {Start, InMethod} {
      d' := AdvanceVerb(m, msg, p, d);
    } else if m.fields.state in {BeforePath, InPath} {
      d' := AdvancePath(m, msg, p, d);
    } else if m.fields.state in {BeforeParamKey, InParamKey} {
      d' := AdvanceParamKey(m, msg, p, d);
    } else if m.fields.state in {BeforeParamValue, InParamValue} {
      d' := AdvanceParamValue(m, msg, p, d);
    } else if m.fields.state == BeforeVersion {
      d' := AdvanceBeforeVersion(m, msg, p, d);
    } else if m.fields.state == InVersion {
      d' := AdvanceInVersion(m, msg, p, d);
    } else if m.fields.state == WCrLfCr {
      d' := AdvanceJunk(m, msg, p, d);
    } else if m.fields.state in {BeforeHeaderValue, InHeaderValue} {
      d', pad' := AdvanceHeaderValue(m, msg, p, d, pad);
    } else {
      d', pad' := AdvanceHeaderKey(m, msg, p, d, pad);
    }
    if m.fields.state !in {InHeaderKey, BeforeHeaderValue, InHeaderValue, WCr, WCrLf} {
      OnlyHeaderNeedsPad(next, msg, p + 1, d', pad);
    }
  }

  lemma OnlyHeaderNeedsPad(m: Machine, msg: string, p: nat, d: Message, pad: string)
    requires m.begin <= p <= |msg|
    ensures m.fields.state !in {BeforeHeaderValue, InHeaderValue} ==>
              (ReadSoFar(m, msg, p, d, pad) <==> ReadSoFar(m, msg, p, d, ""))
  {
  }

  lemma StepKeepsPad(m: Machine, msg: string, p: nat)
    requires m.begin <= p < |msg| && InHead(m.fields.state) && (m.fields.state == WCrLfCr ==> msg[p] != LF)
    ensures m.fields.state !in {InHeaderKey, BeforeHeaderValue, InHeaderValue} ==>
              Step(m, msg, p).fields.state !in {BeforeHeaderValue, InHeaderValue}
  {
    hide EndOfHead, TakeBody, MethodNamed, VersionNamed;
  }

  /** Follow the automaton to the end of the head, collecting the parts. */
  lemma Decode(m: Machine, msg: string, p: nat, d: Message, pad: string) returns (full: Message)
    requires m.begin <= p <= |msg| && InHead(m.fields.state) && m.fault == None
    requires ReadSoFar(m, msg, p, d, pad)
    requires HeadDone(Run(m, msg, p))
    ensures WellFormed(full) && Render(full) == msg
    decreases |msg| - p
  {
    hide ReadSoFar, Step, Run, WellFormed, Render;
    StillInHead(m, msg, p);
    if m.fields.state == WCrLfCr && msg[p] == LF {
      full := d.(rest := msg[p + 1..]);
      OnlyHeaderNeedsPad(m, msg, p, d, pad);
      Finish(m, msg, p, d);
    } else {
      var d', pad' := Advance(m, msg, p, d, pad);
      full := Decode(Step(m, msg, p), msg, p + 1, d', pad');
    }
  }

  /** A run that gets through the head has a byte to read, and after it is either at the end of the head or still inside. */
  lemma StillInHead(m: Machine, msg: string, p: nat)
    requires m.begin <= p <= |msg| && InHead(m.fields.state) && m.fault == None && HeadDone(Run(m, msg, p))
    ensures p < |msg|
    ensures !(m.fields.state == WCrLfCr && msg[p] == LF) ==>
      var next := Step(m, msg, p);
      InHead(next.fields.state) && next.fault == None && HeadDone(Run(next, msg, p + 1))
  {
    hide EndOfHead, TakeBody, MethodNamed, VersionNamed;
  }

  lemma Finish(m: Machine, msg: string, p: nat, d: Message)
    requires m.begin <= p < |msg| && m.fields.state == WCrLfCr && msg[p] == LF
    requires ReadSoFar(m, msg, p, d, "")
    ensures var full := d.(rest := msg[p + 1..]); WellFormed(full) && Render(full) == msg
  {
    var full := d.(rest := msg[p + 1..]);
    SameTarget(full, d);
    assert msg == msg[..p] + [msg[p]] + msg[p + 1..];
    assert Render(full) == HeadText(full) + RenderEnd(full) + full.rest;
    hide HeadText, Target;
    assert HeadText(d) + ("\r" + d.junk) + "\n" == HeadText(d) + ("\r" + d.junk + "\n");
  }

  /**
   Exactly the renderings: from the start state the automaton gets through the
   head of a message if and only if the message renders a well-formed one.
   */
  lemma AcceptsExactlyRenderings(msg: string, someMethod: Method, someVersion: Version)
    ensures HeadDone(Run(Entry(Fresh(someMethod, someVersion)), msg, 0))
       <==> exists d :: WellFormed(d) && Render(d) == msg
  {
    var m := Entry(Fresh(someMethod, someVersion));
    if HeadDone(Run(m, msg, 0)) {
      var nothing := Message("", "", "", "", [], "", "", [], "", "");
      var d := Decode(m, msg, 0, nothing, "");
    }
    forall d | WellFormed(d) && Render(d) == msg
      ensures HeadDone(Run(m, msg, 0))
    {
      ParseInvertsRender(d, someMethod, someVersion);
    }
  }

  // ---- What is refused, and why ----

  predicate Refuses(s: ParseState) {
    s in {Invalid, InvalidMethod, InvalidPath, InvalidVersion, InvalidHeader}
  }

  /** The byte c that cannot follow what stands before it, by the state the refusal ends in. */
  predicate Flaw(s: ParseState, before: string, c: char, d: Message, key: string) {
    match s
    case InvalidMethod => before == d.lead + d.verb && Lead(d.lead) && Verb(d.verb) && !('A' <= c <= 'Z') && !Space(c)
    case InvalidPath =>
      || (before == d.lead + d.verb + d.gap && GoodStart(d) && c != '/' && !Space(c))
      || (before == Target(d) + Sep(d.params) && GoodTarget(d) && !Opens(c))
      || (before == Target(d) + Sep(d.params) + key && GoodTarget(d) && Key(key) && Space(c))
      || (before == Target(d) + (Sep(d.params) + key + "=") && GoodTarget(d) && Key(key) && !Opens(c))
    case Invalid =>
      || (before == d.lead && Lead(d.lead) && Opens(c) && !('A' <= c <= 'Z'))
      || (before + "\n" == HeadText(d) && GoodHead(d) && c != '\n')
      || (before == HeadText(d) && GoodHead(d) && Space(c))
    case _ => false
  }

  lemma FlawInStart(m: Machine, msg: string, p: nat, d: Message) returns (d': Message)
    requires m.begin <= p < |msg| && m.fields.state in {Start, InMethod, BeforePath} && ReadSoFar(m, msg, p, d, "")
    requires Refuses(Step(m, msg, p).fields.state)
    ensures Flaw(Step(m, msg, p).fields.state, msg[..p], msg[p], d', "")
  {
    hide Target, HeadText, MethodNamed, VersionNamed, EndOfHead, TakeBody, Key, Val, Path;
    Grow(msg, m.begin, p);
    d' := if m.fields.state == InMethod then d.(verb := msg[m.begin..p]) else d;
  }

  lemma FlawInParams(m: Machine, msg: string, p: nat, d: Message) returns (key: string)
    requires m.begin <= p < |msg| && m.fields.state in {BeforeParamKey, InParamKey, BeforeParamValue}
    requires ReadSoFar(m, msg, p, d, "")
    requires Refuses(Step(m, msg, p).fields.state)
    ensures Flaw(Step(m, msg, p).fields.state, msg[..p], msg[p], d, key)
  {
    hide Target, HeadText, MethodNamed, VersionNamed, EndOfHead, TakeBody, Key, Val, Path, GoodTarget;
    Grow(msg, m.begin, p);
    key := if m.fields.state == InParamKey then msg[m.begin..p] else m.paramKey;
  }

  lemma FlawInLines(m: Machine, msg: string, p: nat, d: Message)
    requires m.begin <= p < |msg| && m.fields.state in {WCr, WCrLf} && ReadSoFar(m, msg, p, d, "")
    requires Refuses(Step(m, msg, p).fields.state)
    ensures Flaw(Step(m, msg, p).fields.state, msg[..p], msg[p], d, "")
  {
    hide Target, HeadText, MethodNamed, VersionNamed, EndOfHead, TakeBody, GoodHead;
  }

  lemma RefusingStates(m: Machine, msg: string, p: nat)
    requires m.begin <= p < |msg| && InHead(m.fields.state) && Refuses(Step(m, msg, p).fields.state)
    ensures m.fields.state in {Start, InMethod, BeforePath, BeforeParamKey, InParamKey, BeforeParamValue, WCr, WCrLf}
  {
    hide MethodNamed, VersionNamed, Stoi;
  }

  lemma FlawFound(m: Machine, msg: string, p: nat, d: Message, pad: string) returns (d': Message, key: string)
    requires m.begin <= p < |msg| && InHead(m.fields.state) && ReadSoFar(m, msg, p, d, pad)
    requires Refuses(Step(m, msg, p).fields.state)
    ensures Flaw(Step(m, msg, p).fields.state, msg[..p], msg[p], d', key)
  {
    hide ReadSoFar, Step, Flaw;
    RefusingStates(m, msg, p);
    OnlyHeaderNeedsPad(m, msg, p, d, pad);
    d', key := d, "";
    if m.fields.state in {Start, InMethod, BeforePath} {
      d' := FlawInStart(m, msg, p, d);
    } else if m.fields.state in {WCr, WCrLf} {
      FlawInLines(m, msg, p, d);
    } else {
      key := FlawInParams(m, msg, p, d);
    }
  }

  /** The end of a run that a byte of the head stops. */
  lemma FindFlaw(m: Machine, msg: string, p: nat, d: Message, pad: string) returns (q: nat, d': Message, key: string)
    requires m.begin <= p <= |msg| && InHead(m.fields.state) && m.fault == None
    requires ReadSoFar(m, msg, p, d, pad)
    requires Refuses(Run(m, msg, p).fields.state)
    ensures p <= q < |msg| && Flaw(Run(m, msg, p).fields.state, msg[..q], msg[q], d', key)
    decreases |msg| - p
  {
    hide ReadSoFar, Step, Run, Flaw;
    RefusalAhead(m, msg, p);
    var next := Step(m, msg, p);
    if Refuses(next.fields.state) {
      d', key := FlawFound(m, msg, p, d, pad);
      q := p;
    } else {
      var e, pad' := Advance(m, msg, p, d, pad);
      q, d', key := FindFlaw(next, msg, p + 1, e, pad');
    }
  }

  lemma RefusalAhead(m: Machine, msg: string, p: nat)
    requires m.begin <= p <= |msg| && InHead(m.fields.state) && m.fault == None && Refuses(Run(m, msg, p).fields.state)
    ensures p < |msg| && !(m.fields.state == WCrLfCr && msg[p] == LF)
    ensures var next := Step(m, msg, p);
            && Run(m, msg, p).fields.state == Run(next, msg, p + 1).fields.state
            && (Refuses(next.fields.state) ==> Run(m, msg, p).fields.state == next.fields.state)
            && (!Refuses(next.fields.state) ==> InHead(next.fields.state) && next.fault == None)
  {
    hide Step;
    if p < |msg| {
      StepWithinHead(m, msg, p);
      if m.fields.state == WCrLfCr && msg[p] == LF {
        BodyNeverRefuses(Step(m, msg, p), msg, p + 1);
      }
    }
  }

  lemma StepWithinHead(m: Machine, msg: string, p: nat)
    requires m.begin <= p < |msg| && InHead(m.fields.state) && m.fault == None
    ensures var next := Step(m, msg, p);
            if m.fields.state == WCrLfCr && msg[p] == LF
            then next.fields.state in {InBody, End} || (next.fault.Some? && next.fields.state == WCrLfCr)
            else next.fault == None && (Refuses(next.fields.state) || InHead(next.fields.state))
  {
    hide MethodNamed, VersionNamed, Stoi;
  }

  lemma BodyNeverRefuses(m: Machine, msg: string, p: nat)
    requires m.begin <= p && (m.fields.state in {InBody, End} || (m.fault.Some? && m.fields.state == WCrLfCr))
    ensures !Refuses(Run(m, msg, p).fields.state)
  {
    hide Stoi;
  }

  /**
   Every way a message can be refused, and the state it leaves: the run stops in
   one of the five invalid states only over a byte that cannot follow the part of
   a message before it, the state telling which part that is.
   */
  lemma RefusesOverAFlaw(msg: string, someMethod: Method, someVersion: Version)
    ensures var s := Run(Entry(Fresh(someMethod, someVersion)), msg, 0).fields.state;
            Refuses(s) ==> exists q, d, key :: 0 <= q < |msg| && Flaw(s, msg[..q], msg[q], d, key)
  {
    var m := Entry(Fresh(someMethod, someVersion));
    if Refuses(Run(m, msg, 0).fields.state) {
      var nothing := Message("", "", "", "", [], "", "", [], "", "");
      var q, d, key := FindFlaw(m, msg, 0, nothing, "");
    }
  }
}
