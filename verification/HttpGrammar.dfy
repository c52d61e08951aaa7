/**
 The language the request parser accepts, written as a renderer: a message is
 its parts laid end to end, with every freedom of layout the automaton allows
 (leading blank lines, runs of blanks, bytes between the last CR and its LF).
 The automaton is proved to invert the renderer, and to accept nothing else.
 */
module HttpGrammar {
  import opened Common
  import opened HttpRequests

  datatype Param = Param(key: string, value: string)
  datatype Header = Header(key: string, pad: string, value: string)

  datatype Message = Message(
    lead: string, verb: string, gap: string, path: string, params: seq<Param>,
    gap2: string, version: string, headers: seq<Header>, junk: string, rest: string)

  // ---- Well-formed parts ----

  predicate Space(c: char) { c == ' ' || c == '\t' }
  predicate Opens(c: char) { c != ' ' && c != '\t' && c != '\r' && c != '\n' }

  predicate Blanks(s: string) { forall k :: 0 <= k < |s| ==> Space(s[k]) }
  predicate Lead(s: string) { forall k :: 0 <= k < |s| ==> !Opens(s[k]) }
  predicate Verb(s: string) { s != "" && forall k :: 0 <= k < |s| ==> 'A' <= s[k] <= 'Z' }
  predicate Path(s: string) { s != "" && s[0] == '/' && forall k :: 0 <= k < |s| ==> !Space(s[k]) && s[k] != '?' }
  predicate Key(s: string) { s != "" && Opens(s[0]) && forall k :: 1 <= k < |s| ==> s[k] != '=' && !Space(s[k]) }
  predicate Val(s: string) { s != "" && Opens(s[0]) && forall k :: 1 <= k < |s| ==> s[k] != '&' && !Space(s[k]) }
  predicate Vers(s: string) { s != "" && !Space(s[0]) && forall k :: 1 <= k < |s| ==> s[k] != '\r' }
  predicate HKey(s: string) { s != "" && !Space(s[0]) && s[0] != '\r' && forall k :: 1 <= k < |s| ==> s[k] != ':' }
  predicate HVal(s: string) { (s != "" ==> !Space(s[0])) && forall k :: 0 <= k < |s| ==> s[k] != '\r' }
  predicate Junk(s: string) { forall k :: 0 <= k < |s| ==> s[k] != '\n' }

  predicate GoodParam(p: Param) { Key(p.key) && Val(p.value) }
  predicate GoodHeader(h: Header) { HKey(h.key) && Blanks(h.pad) && HVal(h.value) }

  predicate WellFormed(d: Message) {
    && Lead(d.lead) && Verb(d.verb)
    && d.gap != "" && Blanks(d.gap) && Path(d.path)
    && (forall p | p in d.params :: GoodParam(p))
    && d.gap2 != "" && Blanks(d.gap2) && Vers(d.version)
    && (forall h | h in d.headers :: GoodHeader(h))
    && Junk(d.junk)
  }

  // ---- The renderer ----

  function RenderParams(ps: seq<Param>, sep: string): string {
    if ps == [] then "" else sep + ps[0].key + "=" + ps[0].value + RenderParams(ps[1..], "&")
  }

  function RenderHeaders(hs: seq<Header>): string {
    if hs == [] then "" else hs[0].key + ":" + hs[0].pad + hs[0].value + "\r\n" + RenderHeaders(hs[1..])
  }

  function RenderTarget(d: Message): string { d.lead + d.verb + d.gap + d.path }
  function RenderVersion(d: Message): string { d.gap2 + d.version + "\r\n" }
  function RenderEnd(d: Message): string { "\r" + d.junk + "\n" }

  function Render(d: Message): string {
    RenderTarget(d) + RenderParams(d.params, "?") + RenderVersion(d) + RenderHeaders(d.headers) + RenderEnd(d) + d.rest
  }

  // ---- What a message means ----

  function ParamMap(ps: seq<Param>, m: map<string, string>): map<string, string> {
    if ps == [] then m else ParamMap(ps[1..], Insert(m, ps[0].key, ps[0].value))
  }

  function HeadMap(hs: seq<Header>, m: map<string, string>): map<string, string> {
    if hs == [] then m else HeadMap(hs[1..], Insert(m, hs[0].key, hs[0].value))
  }

  datatype Meaning = Meaning(fields: Fields, fault: Option<Fault>)

  /** The head's fields, in the state in which the bytes after the head are still to be looked at. */
  function HeadFields(d: Message, s: ParseState): Fields {
    Fields(MethodNamed(d.verb), VersionNamed(d.version), d.path,
           ParamMap(d.params, map[]), HeadMap(d.headers, map[]), "", s)
  }

  /**
   Body length by Content-Length when there is one (section 3.3.3 of RFC 7230),
   otherwise everything that follows. With no byte after the head the
   automaton stops in the body state and never reaches its end state.
   */
  function Interpret(d: Message): Meaning {
    var heads := HeadMap(d.headers, map[]);
    if "Content-Length" in heads then
      match Stoi(heads["Content-Length"])
      case NotANumber => Meaning(HeadFields(d, WCrLfCr), Some(LengthNotANumber))
      case OutOfRange => Meaning(HeadFields(d, WCrLfCr), Some(LengthOutOfRange))
      case Value(n) =>
        if n <= 0 then Meaning(HeadFields(d, End), None)
        else if d.rest == "" then Meaning(HeadFields(d, InBody), None)
        else if n <= |d.rest| then Meaning(HeadFields(d, End).(body := d.rest[..n]), None)
        else Meaning(HeadFields(d, InBody), Some(BodyOverrun))
    else if d.rest == "" then Meaning(HeadFields(d, InBody), None)
    else Meaning(HeadFields(d, End).(body := d.rest), None)
  }

  // ---- The same, entry by entry and name by name ----

  /** The i-th parameter is the first with its name. */
  predicate FirstParam(ps: seq<Param>, i: nat)
    requires i < |ps|
  {
    forall j :: 0 <= j < i ==> ps[j].key != ps[i].key
  }

  predicate FirstHeader(hs: seq<Header>, i: nat)
    requires i < |hs|
  {
    forall j :: 0 <= j < i ==> hs[j].key != hs[i].key
  }

  /** The table has exactly the names of the list, each with the value it was first given. */
  ghost predicate FirstParamsWin(m: map<string, string>, ps: seq<Param>) {
    && (forall key :: key in m ==> exists i :: 0 <= i < |ps| && ps[i].key == key)
    && (forall i :: 0 <= i < |ps| ==> ps[i].key in m)
    && (forall i :: 0 <= i < |ps| && FirstParam(ps, i) ==> m[ps[i].key] == ps[i].value)
  }

  ghost predicate FirstHeadersWin(m: map<string, string>, hs: seq<Header>) {
    && (forall key :: key in m ==> exists i :: 0 <= i < |hs| && hs[i].key == key)
    && (forall i :: 0 <= i < |hs| ==> hs[i].key in m)
    && (forall i :: 0 <= i < |hs| && FirstHeader(hs, i) ==> m[hs[i].key] == hs[i].value)
  }

  predicate NamesMethod(m: Method, name: string) {
    && (m == DELETE <==> name == "DELETE") && (m == GET <==> name == "GET") && (m == HEAD <==> name == "HEAD")
    && (m == POST <==> name == "POST") && (m == PUT <==> name == "PUT")
    && (m == INVALID <==> name !in {"DELETE", "GET", "HEAD", "POST", "PUT"})
  }

  predicate NamesVersion(v: Version, name: string) {
    && (v == Http11 <==> name == "HTTP/1.1") && (v == Http10 <==> name == "HTTP/1.0")
    && (v == Unknown <==> name !in {"HTTP/1.1", "HTTP/1.0"})
  }

  /** The fields hold what the head of the message says. */
  ghost predicate ReadsHead(f: Fields, d: Message) {
    && NamesMethod(f.verb, d.verb) && NamesVersion(f.version, d.version) && f.path == d.path
    && FirstParamsWin(f.params, d.params) && FirstHeadersWin(f.heads, d.headers)
  }

  /** What is in the table first stays, and among the rest the first of the list is kept. */
  lemma {:induction false} ParamMapEntries(ps: seq<Param>, m: map<string, string>)
    ensures var r := ParamMap(ps, m);
            && (forall key :: key in m ==> key in r && r[key] == m[key])
            && (forall key :: key in r ==> key in m || exists i :: 0 <= i < |ps| && ps[i].key == key)
            && (forall i :: 0 <= i < |ps| ==> ps[i].key in r)
            && (forall i :: 0 <= i < |ps| && FirstParam(ps, i) && ps[i].key !in m ==> r[ps[i].key] == ps[i].value)
  {
    if ps != [] {
      var m' := Insert(m, ps[0].key, ps[0].value);
      var rest := ps[1..];
      ParamMapEntries(rest, m');
      assert forall i :: 0 < i < |ps| ==> ps[i] == rest[i - 1];
      var r := ParamMap(ps, m);
      forall key | key in r && key !in m
        ensures exists i :: 0 <= i < |ps| && ps[i].key == key
      {
        if key != ps[0].key {
          var i :| 0 <= i < |rest| && rest[i].key == key;
          assert ps[i + 1].key == key;
        }
      }
      forall i | 0 < i < |ps| && FirstParam(ps, i) && ps[i].key !in m
        ensures r[ps[i].key] == ps[i].value
      {
        assert FirstParam(rest, i - 1);
        assert ps[0].key != ps[i].key;
      }
    }
  }

  lemma {:induction false} HeadMapEntries(hs: seq<Header>, m: map<string, string>)
    ensures var r := HeadMap(hs, m);
            && (forall key :: key in m ==> key in r && r[key] == m[key])
            && (forall key :: key in r ==> key in m || exists i :: 0 <= i < |hs| && hs[i].key == key)
            && (forall i :: 0 <= i < |hs| ==> hs[i].key in r)
            && (forall i :: 0 <= i < |hs| && FirstHeader(hs, i) && hs[i].key !in m ==> r[hs[i].key] == hs[i].value)
  {
    if hs != [] {
      var m' := Insert(m, hs[0].key, hs[0].value);
      var rest := hs[1..];
      HeadMapEntries(rest, m');
      assert forall i :: 0 < i < |hs| ==> hs[i] == rest[i - 1];
      var r := HeadMap(hs, m);
      forall key | key in r && key !in m
        ensures exists i :: 0 <= i < |hs| && hs[i].key == key
      {
        if key != hs[0].key {
          var i :| 0 <= i < |rest| && rest[i].key == key;
          assert hs[i + 1].key == key;
        }
      }
      forall i | 0 < i < |hs| && FirstHeader(hs, i) && hs[i].key !in m
        ensures r[hs[i].key] == hs[i].value
      {
        assert FirstHeader(rest, i - 1);
        assert hs[0].key != hs[i].key;
      }
    }
  }

  lemma ParamMapFirst(ps: seq<Param>)
    ensures FirstParamsWin(ParamMap(ps, map[]), ps)
  {
    hide ParamMap;
    ParamMapEntries(ps, map[]);
  }

  lemma HeadMapFirst(hs: seq<Header>)
    ensures FirstHeadersWin(HeadMap(hs, map[]), hs)
  {
    hide HeadMap;
    HeadMapEntries(hs, map[]);
  }

  lemma HeadFieldsRead(d: Message, s: ParseState)
    ensures ReadsHead(HeadFields(d, s), d)
  {
    hide ParamMap, HeadMap, FirstParamsWin, FirstHeadersWin;
    ParamMapFirst(d.params);
    HeadMapFirst(d.headers);
  }

  lemma InterpretReads(d: Message)
    ensures ReadsHead(Interpret(d).fields, d)
  {
    hide ParamMap, HeadMap, FirstParamsWin, FirstHeadersWin, Stoi, NamesMethod, NamesVersion, MethodNamed, VersionNamed;
    HeadFieldsRead(d, End);
    HeadFieldsRead(d, InBody);
    HeadFieldsRead(d, WCrLfCr);
  }

  // ---- Moving along the message ----

  /** The part s stands in the message at position p. */
  ghost predicate At(msg: string, p: nat, s: string) {
    p + |s| <= |msg| && msg[p..p + |s|] == s
  }

  lemma AtSplit(msg: string, p: nat, a: string, b: string)
    requires At(msg, p, a + b)
    ensures At(msg, p, a) && At(msg, p + |a|, b)
  {
    var s := msg[p..p + |a + b|];
    assert s[..|a|] == a && s[|a|..] == b;
    assert msg[p..p + |a|] == s[..|a|];
    assert msg[p + |a|..p + |a| + |b|] == s[|a|..];
  }

  lemma AtChar(msg: string, p: nat, s: string, k: nat)
    requires At(msg, p, s) && k < |s|
    ensures p + k < |msg| && msg[p + k] == s[k]
  {
    assert msg[p..p + |s|][k] == msg[p + k];
  }

  /** Bytes that leave the automaton as it is can be skipped. */
  lemma {:induction false} Skip(m: Machine, msg: string, p: nat, e: nat)
    requires m.begin <= p <= e <= |msg| && !m.Halted()
    requires forall k :: p <= k < e ==> Step(m, msg, k) == m
    ensures Run(m, msg, p) == Run(m, msg, e)
    decreases e - p
  {
    hide Run, Step;
    if p < e {
      One(m, msg, p);
      Skip(m, msg, p + 1, e);
    }
  }

  lemma One(m: Machine, msg: string, p: nat)
    requires m.begin <= p < |msg| && !m.Halted()
    ensures Run(m, msg, p) == Run(Step(m, msg, p), msg, p + 1)
  {
    hide Step;
  }

  /** A token: its first byte sets the mark and the state, the others are skipped, and then comes the byte that ends it. */
  lemma Token(m: Machine, s: ParseState, msg: string, p: nat, e: nat) returns (m': Machine)
    requires m.begin <= p < e < |msg| && !m.Halted() && !m.Mark(p, s).Halted()
    requires Step(m, msg, p) == m.Mark(p, s)
    requires forall k :: p < k < e ==> Step(m.Mark(p, s), msg, k) == m.Mark(p, s)
    ensures m' == Step(m.Mark(p, s), msg, e)
    ensures Run(m, msg, p) == Run(m', msg, e + 1)
  {
    hide Run, Step;
    One(m, msg, p);
    Skip(m.Mark(p, s), msg, p + 1, e);
    One(m.Mark(p, s), msg, e);
    m' := Step(m.Mark(p, s), msg, e);
  }

  // ---- Section by section: rendering is undone ----

  lemma EatVerb(m: Machine, msg: string, p: nat, verb: string) returns (m': Machine)
    requires m.begin <= p && m.fields.state == Start && !m.Halted()
    requires At(msg, p, verb) && Verb(verb)
    requires p + |verb| < |msg| && IsBlank(msg[p + |verb|])
    ensures m'.begin <= p + |verb| && m'.fault == None
    ensures m'.fields == m.fields.(verb := MethodNamed(verb), state := BeforePath)
    ensures Run(m, msg, p) == Run(m', msg, p + |verb| + 1)
  {
    hide Run;
    var e := p + |verb|;
    AtChar(msg, p, verb, 0);
    forall k | p < k < e
      ensures IsUpper(msg[k])
    {
      AtChar(msg, p, verb, k - p);
    }
    m' := Token(m, InMethod, msg, p, e);
  }

  lemma EatPath(m: Machine, msg: string, p: nat, path: string) returns (m': Machine)
    requires m.begin <= p && m.fields.state == BeforePath && !m.Halted()
    requires At(msg, p, path) && Path(path)
    requires p + |path| < |msg| && (IsBlank(msg[p + |path|]) || msg[p + |path|] == '?')
    ensures m'.begin <= p + |path| && m'.fault == None
    ensures m'.fields == m.fields.(path := path, state := if msg[p + |path|] == '?' then BeforeParamKey else BeforeVersion)
    ensures Run(m, msg, p) == Run(m', msg, p + |path| + 1)
  {
    hide Run;
    var e := p + |path|;
    AtChar(msg, p, path, 0);
    forall k | p < k < e
      ensures !IsBlank(msg[k]) && msg[k] != '?'
    {
      AtChar(msg, p, path, k - p);
    }
    m' := Token(m, InPath, msg, p, e);
  }

  lemma EatParamKey(m: Machine, msg: string, p: nat, key: string) returns (m': Machine)
    requires m.begin <= p && m.fields.state == BeforeParamKey && !m.Halted()
    requires At(msg, p, key) && Key(key)
    requires p + |key| < |msg| && msg[p + |key|] == '='
    ensures m'.begin <= p + |key| && m'.fault == None && m'.paramKey == key
    ensures m'.fields == m.fields.(state := BeforeParamValue)
    ensures Run(m, msg, p) == Run(m', msg, p + |key| + 1)
  {
    hide Run;
    var e := p + |key|;
    AtChar(msg, p, key, 0);
    forall k | p < k < e
      ensures msg[k] != '=' && !IsBlank(msg[k])
    {
      AtChar(msg, p, key, k - p);
    }
    m' := Token(m, InParamKey, msg, p, e);
  }

  lemma EatParamValue(m: Machine, msg: string, p: nat, value: string) returns (m': Machine)
    requires m.begin <= p && m.fields.state == BeforeParamValue && !m.Halted()
    requires At(msg, p, value) && Val(value)
    requires p + |value| < |msg| && (IsBlank(msg[p + |value|]) || msg[p + |value|] == '&')
    ensures m'.begin <= p + |value| && m'.fault == None
    ensures m'.fields == m.fields.(params := Insert(m.fields.params, m.paramKey, value),
                                   state := if msg[p + |value|] == '&' then BeforeParamKey else BeforeVersion)
    ensures Run(m, msg, p) == Run(m', msg, p + |value| + 1)
  {
    hide Run;
    var e := p + |value|;
    AtChar(msg, p, value, 0);
    forall k | p < k < e
      ensures msg[k] != '&' && !IsBlank(msg[k])
    {
      AtChar(msg, p, value, k - p);
    }
    m' := Token(m, InParamValue, msg, p, e);
  }

  /** Where the parts of a parameter stand. */
  lemma ParamParts(msg: string, p: nat, ps: seq<Param>, sep: string)
    requires ps != [] && At(msg, p, RenderParams(ps, sep))
    ensures var a := p + |sep|; var b := a + |ps[0].key| + 1; var c := b + |ps[0].value|;
            && At(msg, p, sep) && At(msg, a, ps[0].key) && At(msg, b - 1, "=") && At(msg, b, ps[0].value)
            && At(msg, c, RenderParams(ps[1..], "&"))
            && c + |RenderParams(ps[1..], "&")| == p + |RenderParams(ps, sep)|
  {
    var x := ps[0];
    AtSplit(msg, p, sep + x.key + "=" + x.value, RenderParams(ps[1..], "&"));
    AtSplit(msg, p, sep + x.key + "=", x.value);
    AtSplit(msg, p, sep + x.key, "=");
    AtSplit(msg, p, sep, x.key);
  }

  lemma ParamMapHead(ps: seq<Param>, m: map<string, string>)
    requires ps != []
    ensures ParamMap(ps, m) == ParamMap(ps[1..], Insert(m, ps[0].key, ps[0].value))
    ensures |ps| == 1 ==> ParamMap(ps, m) == Insert(m, ps[0].key, ps[0].value) && RenderParams(ps[1..], "&") == ""
  {
  }

  lemma EatParam(m: Machine, msg: string, p: nat, x: Param) returns (m': Machine)
    requires m.begin <= p && m.fields.state == BeforeParamKey && !m.Halted() && GoodParam(x)
    requires At(msg, p, x.key) && At(msg, p + |x.key|, "=") && At(msg, p + |x.key| + 1, x.value)
    requires var e := p + |x.key| + 1 + |x.value|; e < |msg| && (IsBlank(msg[e]) || msg[e] == '&')
    ensures var e := p + |x.key| + 1 + |x.value|;
            && m'.begin <= e && m'.fault == None
            && m'.fields == m.fields.(params := Insert(m.fields.params, x.key, x.value),
                                      state := if msg[e] == '&' then BeforeParamKey else BeforeVersion)
            && Run(m, msg, p) == Run(m', msg, e + 1)
  {
    hide Run, At, Insert, Key, Val;
    AtChar(msg, p + |x.key|, "=", 0);
    var m1 := EatParamKey(m, msg, p, x.key);
    m' := EatParamValue(m1, msg, p + |x.key| + 1, x.value);
  }

  lemma {:induction false} EatParams(m: Machine, msg: string, p: nat, ps: seq<Param>, sep: string) returns (m': Machine)
    requires m.begin <= p + 1 && m.fields.state == BeforeParamKey && !m.Halted() && |sep| == 1
    requires ps != [] && (forall x | x in ps :: GoodParam(x))
    requires At(msg, p, RenderParams(ps, sep))
    requires var e := p + |RenderParams(ps, sep)|; e < |msg| && IsBlank(msg[e])
    ensures var e := p + |RenderParams(ps, sep)|; m'.begin <= e && Run(m, msg, p + 1) == Run(m', msg, e + 1)
    ensures m'.fault == None
    ensures m'.fields == m.fields.(params := ParamMap(ps, m.fields.params), state := BeforeVersion)
    decreases |ps|
  {
    hide Run, At, ParamMap, RenderParams, Insert, GoodParam;
    ParamParts(msg, p, ps, sep);
    ParamMapHead(ps, m.fields.params);
    var x := ps[0];
    var c := p + 1 + |x.key| + 1 + |x.value|;
    if |ps| > 1 {
      ParamParts(msg, c, ps[1..], "&");
      AtChar(msg, c, "&", 0);
      var m1 := EatParam(m, msg, p + 1, x);
      m' := EatParams(m1, msg, c, ps[1..], "&");
    } else {
      m' := EatParam(m, msg, p + 1, x);
    }
  }

  lemma BlankSkips(m: Machine, msg: string, p: nat)
    requires m.begin <= p < |msg| && m.fields.state in {BeforePath, BeforeVersion, BeforeHeaderValue} && IsBlank(msg[p])
    ensures Step(m, msg, p) == m
  {
  }

  lemma EatGap(m: Machine, msg: string, p: nat, gap: string)
    requires m.begin <= p && !m.Halted()
    requires m.fields.state in {BeforePath, BeforeVersion, BeforeHeaderValue}
    requires At(msg, p, gap) && Blanks(gap)
    ensures Run(m, msg, p) == Run(m, msg, p + |gap|)
  {
    hide Run, Step;
    forall k | p <= k < p + |gap|
      ensures Step(m, msg, k) == m
    {
      AtChar(msg, p, gap, k - p);
      BlankSkips(m, msg, k);
    }
    Skip(m, msg, p, p + |gap|);
  }

  lemma EatVersion(m: Machine, msg: string, p: nat, version: string) returns (m': Machine)
    requires m.begin <= p && m.fields.state == BeforeVersion && !m.Halted()
    requires At(msg, p, version) && Vers(version) && At(msg, p + |version|, "\r\n")
    ensures m'.begin <= p + |version| && m'.fault == None
    ensures m'.fields == m.fields.(version := VersionNamed(version), state := WCrLf)
    ensures Run(m, msg, p) == Run(m', msg, p + |version| + 2)
  {
    hide Run;
    var e := p + |version|;
    AtChar(msg, p, version, 0);
    AtChar(msg, e, "\r\n", 0);
    AtChar(msg, e, "\r\n", 1);
    forall k | p < k < e
      ensures msg[k] != CR
    {
      AtChar(msg, p, version, k - p);
    }
    var m1 := Token(m, InVersion, msg, p, e);
    One(m1, msg, e + 1);
    m' := Step(m1, msg, e + 1);
  }

  lemma EatHeaderKey(m: Machine, msg: string, p: nat, key: string) returns (m': Machine)
    requires m.begin <= p && m.fields.state == WCrLf && !m.Halted()
    requires At(msg, p, key) && HKey(key) && p + |key| < |msg| && msg[p + |key|] == ':'
    ensures m'.begin <= p + |key| && m'.fault == None && m'.headerKey == key
    ensures m'.fields == m.fields.(state := BeforeHeaderValue)
    ensures Run(m, msg, p) == Run(m', msg, p + |key| + 1)
  {
    hide Run;
    var e := p + |key|;
    AtChar(msg, p, key, 0);
    forall k | p < k < e
      ensures msg[k] != ':'
    {
      AtChar(msg, p, key, k - p);
    }
    m' := Token(m, InHeaderKey, msg, p, e);
  }

  lemma EatHeaderValue(m: Machine, msg: string, p: nat, value: string) returns (m': Machine)
    requires m.begin <= p && m.fields.state == BeforeHeaderValue && !m.Halted()
    requires At(msg, p, value) && HVal(value) && At(msg, p + |value|, "\r\n")
    ensures m'.begin <= p + |value| && m'.fault == None
    ensures m'.fields == m.fields.(heads := Insert(m.fields.heads, m.headerKey, value), state := WCrLf)
    ensures Run(m, msg, p) == Run(m', msg, p + |value| + 2)
  {
    hide Run;
    var e := p + |value|;
    AtChar(msg, e, "\r\n", 0);
    AtChar(msg, e, "\r\n", 1);
    var m1 := Step(m, msg, p);
    if value == "" {
      One(m, msg, p);
    } else {
      AtChar(msg, p, value, 0);
      forall k | p < k < e
        ensures msg[k] != CR
      {
        AtChar(msg, p, value, k - p);
      }
      m1 := Token(m, InHeaderValue, msg, p, e);
    }
    One(m1, msg, e + 1);
    m' := Step(m1, msg, e + 1);
  }

  lemma HeaderParts(msg: string, p: nat, hs: seq<Header>)
    requires hs != [] && At(msg, p, RenderHeaders(hs))
    ensures var h := hs[0]; var a := p + |h.key|; var b := a + 1 + |h.pad|; var c := b + |h.value|;
            && At(msg, p, h.key) && At(msg, a, ":") && At(msg, a + 1, h.pad) && At(msg, b, h.value)
            && At(msg, c, "\r\n") && At(msg, c + 2, RenderHeaders(hs[1..]))
            && c + 2 + |RenderHeaders(hs[1..])| == p + |RenderHeaders(hs)|
  {
    hide At, RenderHeaders;
    var h := hs[0];
    HeadersHead(hs);
    AtSplit(msg, p, h.key + ":" + h.pad + h.value + "\r\n", RenderHeaders(hs[1..]));
    AtSplit(msg, p, h.key + ":" + h.pad + h.value, "\r\n");
    AtSplit(msg, p, h.key + ":" + h.pad, h.value);
    AtSplit(msg, p, h.key + ":", h.pad);
    AtSplit(msg, p, h.key, ":");
  }

  lemma HeadersHead(hs: seq<Header>)
    requires hs != []
    ensures RenderHeaders(hs) == hs[0].key + ":" + hs[0].pad + hs[0].value + "\r\n" + RenderHeaders(hs[1..])
  {
  }

  lemma {:induction false} EatHeaders(m: Machine, msg: string, p: nat, hs: seq<Header>) returns (m': Machine)
    requires m.begin <= p && m.fields.state == WCrLf && !m.Halted()
    requires (forall h | h in hs :: GoodHeader(h)) && At(msg, p, RenderHeaders(hs))
    ensures var e := p + |RenderHeaders(hs)|; m'.begin <= e && Run(m, msg, p) == Run(m', msg, e)
    ensures m'.fault == None
    ensures m'.fields == m.fields.(heads := HeadMap(hs, m.fields.heads))
    decreases |hs|
  {
    hide Run, At;
    m' := m;
    if hs != [] {
      HeaderParts(msg, p, hs);
      var h := hs[0];
      assert GoodHeader(h);
      var a := p + |h.key| + 1;
      var b := a + |h.pad|;
      AtChar(msg, a - 1, ":", 0);
      var m1 := EatHeaderKey(m, msg, p, h.key);
      EatGap(m1, msg, a, h.pad);
      var m2 := EatHeaderValue(m1, msg, b, h.value);
      m' := EatHeaders(m2, msg, b + |h.value| + 2, hs[1..]);
    }
  }

  /** After the headers: CR, anything but a line feed, the line feed, and what it decides. */
  lemma EatEnd(m: Machine, msg: string, p: nat, junk: string) returns (m': Machine)
    requires m.begin <= p && m.fields.state == WCrLf && !m.Halted()
    requires At(msg, p, "\r") && At(msg, p + 1, junk) && At(msg, p + 1 + |junk|, "\n") && Junk(junk)
    ensures m'.begin <= p && m'.fault == None && m'.fields == m.fields.(state := WCrLfCr)
    ensures var q := p + 1 + |junk|; Run(m, msg, p) == Run(EndOfHead(m', msg, q), msg, q + 1)
  {
    hide Run, EndOfHead;
    var q := p + 1 + |junk|;
    AtChar(msg, p, "\r", 0);
    AtChar(msg, q, "\n", 0);
    One(m, msg, p);
    m' := Step(m, msg, p);
    forall k | p < k < q
      ensures msg[k] != LF
    {
      AtChar(msg, p + 1, junk, k - p - 1);
    }
    Skip(m', msg, p + 1, q);
    One(m', msg, q);
  }

  /** The last two steps read the length and take the body as `Interpret` says. */
  lemma EatBody(m: Machine, msg: string, q: nat, d: Message)
    requires m.begin <= q < |msg| && msg[q + 1..] == d.rest && m.fault == None
    requires m.fields == HeadFields(d, WCrLfCr)
    ensures var r := Run(EndOfHead(m, msg, q), msg, q + 1);
            Meaning(r.fields, r.fault) == Interpret(d)
  {
    var e := EndOfHead(m, msg, q);
    if d.rest != "" && !e.Halted() {
      var t := TakeBody(e, msg, q + 1);
      assert Run(e, msg, q + 1) == Run(t, msg, q + 2) == t;
      assert |msg| - q - 1 == |d.rest|;
      if 0 <= e.bodyLength <= |d.rest| {
        assert msg[q + 1..q + 1 + e.bodyLength] == d.rest[..e.bodyLength];
        assert d.rest[..|d.rest|] == d.rest;
      }
    }
  }

  /** Where the sections of a rendering end. */
  datatype Marks = Marks(verb: nat, gap: nat, path: nat, params: nat, gap2: nat, version: nat, headers: nat, end: nat)

  function MarksOf(d: Message): Marks {
    var verb := |d.lead|;
    var gap := verb + |d.verb|;
    var path := gap + |d.gap|;
    var params := path + |d.path|;
    var gap2 := params + |RenderParams(d.params, "?")|;
    var version := gap2 + |d.gap2|;
    var headers := version + |d.version| + 2;
    Marks(verb, gap, path, params, gap2, version, headers, headers + |RenderHeaders(d.headers)|)
  }

  lemma MessageSections(d: Message)
    ensures var msg := Render(d); var k := MarksOf(d);
            && At(msg, 0, RenderTarget(d)) && At(msg, k.params, RenderParams(d.params, "?"))
            && At(msg, k.gap2, RenderVersion(d)) && At(msg, k.headers, RenderHeaders(d.headers))
            && At(msg, k.end, RenderEnd(d))
            && k.end + |d.junk| + 2 <= |msg| && msg[k.end + |d.junk| + 2..] == d.rest
  {
    hide At, Render, RenderTarget, RenderParams, RenderHeaders, RenderVersion, RenderEnd, MarksOf;
    var msg := Render(d);
    SectionLengths(d);
    var s1 := RenderTarget(d);
    var s2 := s1 + RenderParams(d.params, "?");
    var s3 := s2 + RenderVersion(d);
    var s4 := s3 + RenderHeaders(d.headers);
    var s5 := s4 + RenderEnd(d);
    WholeAt(msg);
    AtSplit(msg, 0, s5, d.rest);
    AtTail(msg, |s5|, d.rest);
    AtSplit(msg, 0, s4, RenderEnd(d));
    AtSplit(msg, 0, s3, RenderHeaders(d.headers));
    AtSplit(msg, 0, s2, RenderVersion(d));
    AtSplit(msg, 0, s1, RenderParams(d.params, "?"));
  }

  lemma WholeAt(msg: string)
    ensures At(msg, 0, msg)
  {
  }

  lemma AtTail(msg: string, p: nat, s: string)
    requires At(msg, p, s) && p + |s| == |msg|
    ensures msg[p..] == s
  {
  }

  lemma SectionLengths(d: Message)
    ensures Render(d) == RenderTarget(d) + RenderParams(d.params, "?") + RenderVersion(d) + RenderHeaders(d.headers) + RenderEnd(d) + d.rest
    ensures var k := MarksOf(d);
            && |RenderTarget(d)| == k.params && k.params + |RenderParams(d.params, "?")| == k.gap2
            && k.gap2 + |RenderVersion(d)| == k.headers && k.headers + |RenderHeaders(d.headers)| == k.end
            && |RenderEnd(d)| == |d.junk| + 2
  {
    hide RenderParams, RenderHeaders;
  }

  lemma MessageParts(d: Message)
    ensures var msg := Render(d); var k := MarksOf(d);
            && At(msg, 0, d.lead) && At(msg, k.verb, d.verb) && At(msg, k.gap, d.gap) && At(msg, k.path, d.path)
            && At(msg, k.params, RenderParams(d.params, "?")) && At(msg, k.gap2, d.gap2)
            && At(msg, k.version, d.version) && At(msg, k.headers - 2, "\r\n")
            && At(msg, k.headers, RenderHeaders(d.headers))
            && At(msg, k.end, "\r") && At(msg, k.end + 1, d.junk) && At(msg, k.end + 1 + |d.junk|, "\n")
            && k.end + |d.junk| + 2 <= |msg| && msg[k.end + |d.junk| + 2..] == d.rest
  {
    hide At, Render, RenderTarget, RenderParams, RenderHeaders, RenderVersion, RenderEnd;
    var msg := Render(d);
    var k := MarksOf(d);
    MessageSections(d);
    TargetParts(msg, d);
    VersionParts(msg, k.gap2, d);
    EndParts(msg, k.end, d);
  }

  lemma TargetParts(msg: string, d: Message)
    requires At(msg, 0, RenderTarget(d))
    ensures var k := MarksOf(d);
            At(msg, 0, d.lead) && At(msg, k.verb, d.verb) && At(msg, k.gap, d.gap) && At(msg, k.path, d.path)
  {
    AtSplit(msg, 0, d.lead + d.verb + d.gap, d.path);
    AtSplit(msg, 0, d.lead + d.verb, d.gap);
    AtSplit(msg, 0, d.lead, d.verb);
  }

  lemma VersionParts(msg: string, p: nat, d: Message)
    requires At(msg, p, RenderVersion(d))
    ensures var v := p + |d.gap2|;
            At(msg, p, d.gap2) && At(msg, v, d.version) && At(msg, v + |d.version|, "\r\n")
  {
    AtSplit(msg, p, d.gap2 + d.version, "\r\n");
    AtSplit(msg, p, d.gap2, d.version);
  }

  lemma EndParts(msg: string, p: nat, d: Message)
    requires At(msg, p, RenderEnd(d))
    ensures At(msg, p, "\r") && At(msg, p + 1, d.junk) && At(msg, p + 1 + |d.junk|, "\n")
  {
    AtSplit(msg, p, "\r" + d.junk, "\n");
    AtSplit(msg, p, "\r", d.junk);
  }

  lemma LeadSkips(m: Machine, msg: string, p: nat)
    requires m.begin <= p < |msg| && m.fields.state == Start && (IsBlank(msg[p]) || IsEol(msg[p]))
    ensures Step(m, msg, p) == m
  {
  }

  /** The request line up to its target: method and path, and whether parameters follow. */
  lemma EatRequestLine(m: Machine, d: Message) returns (m': Machine)
    requires WellFormed(d) && m == Entry(m.fields) && m.fields.state == Start
    ensures var msg := Render(d); var k := MarksOf(d);
            k.params < |msg| && m'.begin <= k.params && Run(m, msg, 0) == Run(m', msg, k.params + 1)
    ensures m'.fault == None
    ensures m'.fields == m.fields.(verb := MethodNamed(d.verb), path := d.path,
                                   state := if d.params == [] then BeforeVersion else BeforeParamKey)
  {
    hide Run, At, Render, Step, MethodNamed;
    var msg := Render(d);
    var k := MarksOf(d);
    MessageParts(d);
    forall i | 0 <= i < k.verb
      ensures Step(m, msg, i) == m
    {
      AtChar(msg, 0, d.lead, i);
      LeadSkips(m, msg, i);
    }
    AtChar(msg, k.gap, d.gap, 0);
    Skip(m, msg, 0, k.verb);
    var m1 := EatVerb(m, msg, k.verb, d.verb);
    One(m1, msg, k.gap);
    BlankSkips(m1, msg, k.gap);
    EatGap(m1, msg, k.gap, d.gap);
    NextAfterPath(d);
    m' := EatPath(m1, msg, k.path, d.path);
  }

  lemma NextAfterPath(d: Message)
    requires WellFormed(d)
    ensures var msg := Render(d); var k := MarksOf(d);
            && k.params < |msg| && (if d.params == [] then IsBlank(msg[k.params]) else msg[k.params] == '?')
            && k.gap2 < |msg| && IsBlank(msg[k.gap2])
  {
    var msg := Render(d);
    var k := MarksOf(d);
    MessageParts(d);
    AtChar(msg, k.gap2, d.gap2, 0);
    if d.params != [] {
      ParamParts(msg, k.params, d.params, "?");
      AtChar(msg, k.params, "?", 0);
    }
  }

  /**
   The parser inverts the renderer: parsing any rendering from the start state
   yields exactly the message's method, path and version, under each parameter
   and header name the value it was first given, and the body its Content-Length
   says, or the way it fails.
   */
  lemma ParseInvertsRender(d: Message, someMethod: Method, someVersion: Version)
    requires WellFormed(d)
    ensures var r := Run(Entry(Fresh(someMethod, someVersion)), Render(d), 0);
            Meaning(r.fields, r.fault) == Interpret(d) && ReadsHead(r.fields, d)
  {
    hide Run, At, Render, EndOfHead, Interpret, ReadsHead;
    InterpretReads(d);
    var msg := Render(d);
    var k := MarksOf(d);
    var m := Entry(Fresh(someMethod, someVersion));
    MessageParts(d);
    NextAfterPath(d);
    var m1 := EatRequestLine(m, d);
    if d.params != [] {
      m1 := EatParams(m1, msg, k.params, d.params, "?");
    }
    EatTail(m1, d);
  }

  /** From the blank that ends the target to the last byte. */
  lemma EatTail(m: Machine, d: Message)
    requires WellFormed(d) && m.fault == None
    requires m.fields == HeadFields(d, BeforeVersion).(version := m.fields.version, heads := map[])
    requires var k := MarksOf(d); m.begin <= k.gap2
    ensures var r := Run(m, Render(d), MarksOf(d).gap2 + 1);
            Meaning(r.fields, r.fault) == Interpret(d)
  {
    hide Run, At, Render, EndOfHead, Interpret, Step, VersionNamed, MethodNamed, ParamMap, HeadMap;
    var msg := Render(d);
    var k := MarksOf(d);
    MessageParts(d);
    NextAfterPath(d);
    One(m, msg, k.gap2);
    BlankSkips(m, msg, k.gap2);
    EatGap(m, msg, k.gap2, d.gap2);
    var m3 := EatVersion(m, msg, k.version, d.version);
    var m4 := EatHeaders(m3, msg, k.headers, d.headers);
    var m5 := EatEnd(m4, msg, k.end, d.junk);
    EatBody(m5, msg, k.end + 1 + |d.junk|, d);
  }
}
