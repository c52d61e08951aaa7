/**
 The log-pattern tokeniser, `LogFormatter::init` of vserver/Log.cc. `Tokens` says
 what it makes of a pattern; the class runs the source's nested index loops; and the
 tokeniser is proved to undo the writing of a pattern, and on which patterns.
 */
module LogPattern {
  import opened Common

  /** An entry of `vec`: text and format, and whether it is a directive. */
  datatype Token = Text(text: string) | Item(name: string, fmt: string)

  predicate IsAlpha(c: char) { 'a' <= c <= 'z' || 'A' <= c <= 'Z' }

  /** What the scan of a name passes over: a closing brace does not end it. */
  predicate InName(c: char) { IsAlpha(c) || c == '}' }

  /** The first position from n on that is not part of a name. */
  function NameEnd(p: string, n: nat): (e: nat)
    requires n <= |p|
    ensures n <= e <= |p|
    ensures forall k :: n <= k < e ==> InName(p[k])
    ensures e < |p| ==> !InName(p[e])
    decreases |p| - n
  {
    if n < |p| && InName(p[n]) then NameEnd(p, n + 1) else n
  }

  /** The first closing brace from n on, or the end. */
  function BraceEnd(p: string, n: nat): (e: nat)
    requires n <= |p|
    ensures n <= e <= |p|
    ensures forall k :: n <= k < e ==> p[k] != '}'
    ensures e < |p| ==> p[e] == '}'
    decreases |p| - n
  {
    if n < |p| && p[n] != '}' then BraceEnd(p, n + 1) else n
  }

  /** What follows a percent sign: a name, maybe with a format in braces, up to next; or an open brace. */
  datatype Scan = Found(name: string, fmt: string, next: nat) | Unclosed

  function ScanAt(p: string, i: nat): (r: Scan)
    requires i < |p|
    ensures r.Found? ==> i < r.next <= |p|
  {
    var e := NameEnd(p, i + 1);
    if e < |p| && p[e] == '{' then
      var c := BraceEnd(p, e + 1);
      if c < |p| then Found(p[i + 1..e], p[e + 1..c], c + 1) else Unclosed
    else Found(p[i + 1..e], "", e)
  }

  predicate Doubled(p: string, i: nat) {
    i + 1 < |p| && p[i + 1] == '%'
  }

  function Flush(nstr: string): seq<Token> {
    if nstr == "" then [] else [Text(nstr)]
  }

  const ERROR_TEXT := "<<pattern_error>>"

  /** The tokens from position i on, with literal text still pending. A doubled percent moves on by one character only. */
  function Tokens(p: string, i: nat, nstr: string): seq<Token>
    decreases |p| - i
  {
    if i >= |p| then Flush(nstr)
    else if p[i] != '%' then Tokens(p, i + 1, nstr + [p[i]])
    else if Doubled(p, i) then Tokens(p, i + 1, nstr + "%")
    else match ScanAt(p, i)
      case Found(name, fmt, next) => Flush(nstr) + [Item(name, fmt)] + Tokens(p, next, "")
      case Unclosed => [Text(ERROR_TEXT)] + Tokens(p, i + 1, nstr)
  }

  /** Whether the walk from i meets a brace that is never closed. */
  predicate Broken(p: string, i: nat)
    decreases |p| - i
  {
    if i >= |p| then false
    else if p[i] != '%' || Doubled(p, i) then Broken(p, i + 1)
    else match ScanAt(p, i)
      case Found(_, _, next) => Broken(p, next)
      case Unclosed => true
  }

  /** One turn of the walk. */
  lemma TokensAt(p: string, i: nat, nstr: string)
    requires i <= |p|
    ensures i == |p| ==> Tokens(p, i, nstr) == Flush(nstr) && !Broken(p, i)
    ensures i < |p| && p[i] != '%' ==> Tokens(p, i, nstr) == Tokens(p, i + 1, nstr + [p[i]]) && Broken(p, i) == Broken(p, i + 1)
    ensures i < |p| && p[i] == '%' && Doubled(p, i) ==>
              Tokens(p, i, nstr) == Tokens(p, i + 1, nstr + "%") && Broken(p, i) == Broken(p, i + 1)
    ensures i < |p| && p[i] == '%' && !Doubled(p, i) ==>
              match ScanAt(p, i)
              case Found(name, fmt, next) =>
                Tokens(p, i, nstr) == Flush(nstr) + [Item(name, fmt)] + Tokens(p, next, "") && Broken(p, i) == Broken(p, next)
              case Unclosed => Tokens(p, i, nstr) == [Text(ERROR_TEXT)] + Tokens(p, i + 1, nstr) && Broken(p, i)
  {
    hide ScanAt;
  }

  // ---- The formatter's items ----

  const KNOWN := {"m", "p", "c", "t", "n", "d", "f", "l", "T", "F", "N"}

  datatype FormatItem = Literal(text: string) | Format(key: string, fmt: string)

  function ItemFor(t: Token): FormatItem {
    match t
    case Text(text) => Literal(text)
    case Item(name, fmt) => if name in KNOWN then Format(name, fmt) else Literal("<<error_format %" + name + ">>")
  }

  function ItemsFor(ts: seq<Token>): (r: seq<FormatItem>)
    ensures |r| == |ts| && forall k :: 0 <= k < |ts| ==> r[k] == ItemFor(ts[k])
  {
    seq(|ts|, k requires 0 <= k < |ts| => ItemFor(ts[k]))
  }

  predicate Unknown(t: Token) { t.Item? && t.name !in KNOWN }

  predicate AnyUnknown(ts: seq<Token>) { exists t :: t in ts && Unknown(t) }

  lemma NoItems()
    ensures ItemsFor([]) == []
  {
  }

  lemma OneMoreItem(ts: seq<Token>, t: Token)
    ensures ItemsFor(ts + [t]) == ItemsFor(ts) + [ItemFor(t)]
  {
  }

  class LogFormatter {
    const pattern: string
    var items: seq<FormatItem>
    var error: bool

    constructor (pattern: string)
      ensures this.pattern == pattern && items == [] && !error
    {
      this.pattern := pattern;
      items, error := [], false;
    }

    method Init()
      requires items == [] && !error
      modifies this
      ensures items == ItemsFor(Tokens(pattern, 0, ""))
      ensures error <==> Broken(pattern, 0) || exists t :: t in Tokens(pattern, 0, "") && Unknown(t)
      ensures forall xs :: GoodList(xs) && RenderAll(xs) == pattern ==> Says(items, error, xs)
    {
      hide Tokens, Broken, GoodList, RenderAll, Says, ItemsFor;
      forall xs | GoodList(xs) && RenderAll(xs) == pattern
        ensures Says(ItemsFor(Tokens(pattern, 0, "")), AnyUnknown(Tokens(pattern, 0, "")), xs) && !Broken(pattern, 0)
      {
        ItemsInvertRender(xs);
      }
      NoItems();
      var vec := Tokenise();
      var k := 0;
      while k < |vec|
        invariant 0 <= k <= |vec|
        invariant items == ItemsFor(vec[..k])
        invariant error <==> Broken(pattern, 0) || exists t :: t in vec[..k] && Unknown(t)
      {
        assert vec[..k + 1] == vec[..k] + [vec[k]];
        OneMoreItem(vec[..k], vec[k]);
        match vec[k] {
          case Text(text) => items := items + [Literal(text)];
          case Item(name, fmt) =>
            if name !in KNOWN {
              items := items + [Literal("<<error_format %" + name + ">>")];
              error := true;
              assert Unknown(vec[k]);
            } else {
              items := items + [Format(name, fmt)];
            }
        }
        k := k + 1;
      }
      assert vec[..k] == vec;
    }

    /** The first half of `init`: the walk over the pattern. */
    method Tokenise() returns (vec: seq<Token>)
      requires !error
      modifies this`error
      ensures vec == Tokens(pattern, 0, "") && error == Broken(pattern, 0)
    {
      hide Tokens, Broken, ScanAt, Flush;
      vec := [];
      var nstr := "";
      var i := 0;
      while i < |pattern|
        invariant 0 <= i <= |pattern|
        invariant vec + Tokens(pattern, i, nstr) == Tokens(pattern, 0, "")
        invariant error || Broken(pattern, i) <==> Broken(pattern, 0)
        decreases |pattern| - i
      {
        TokensAt(pattern, i, nstr);
        if pattern[i] != '%' {
          nstr := nstr + [pattern[i]];
          i := i + 1;
          continue;
        }
        if i + 1 < |pattern| {
          if pattern[i + 1] == '%' {
            nstr := nstr + "%";
            i := i + 1;
            continue;
          }
        }
        var open, str, fmt, n := ScanDirective(i);
        if !open {
          Assoc(vec, Flush(nstr) + [Item(str, fmt)], Tokens(pattern, n, ""));
          vec := vec + (Flush(nstr) + [Item(str, fmt)]);
          nstr := "";
          i := n;
        } else {
          error := true;
          Assoc(vec, [Text(ERROR_TEXT)], Tokens(pattern, i + 1, nstr));
          vec := vec + [Text(ERROR_TEXT)];
          i := i + 1;
        }
      }
      TokensAt(pattern, i, nstr);
      vec := vec + Flush(nstr);
    }

    /** The inner loop: n runs from i + 1 over the name and, once a brace opens, over the format. */
    method ScanDirective(i: nat) returns (open: bool, str: string, fmt: string, n: nat)
      requires i < |pattern|
      ensures open <==> ScanAt(pattern, i).Unclosed?
      ensures !open ==> ScanAt(pattern, i) == Found(str, fmt, n)
    {
      n := i + 1;
      open, str, fmt := false, "", "";
      var fmtBegin := 0;
      ghost var e := NameEnd(pattern, i + 1);
      while n < |pattern|
        invariant i + 1 <= n <= |pattern| && fmt == ""
        invariant !open ==> e == NameEnd(pattern, n) && str == if n == |pattern| then pattern[i + 1..] else ""
        invariant open ==> e < |pattern| && pattern[e] == '{' && fmtBegin == e < n
        invariant open ==> str == pattern[i + 1..e] || e == i + 1
        invariant open ==> BraceEnd(pattern, e + 1) == BraceEnd(pattern, n)
        invariant open && n < |pattern| ==> str == pattern[i + 1..e]
        decreases |pattern| - n
      {
        var c := pattern[n];
        if !open && !IsAlpha(c) && c != '{' && c != '}' {
          str := pattern[i + 1..n];
          break;
        }
        if !open {
          if c == '{' {
            str := pattern[i + 1..n];
            open := true;
            fmtBegin := n;
            n := n + 1;
            continue;
          }
        } else {
          if c == '}' {
            fmt := pattern[fmtBegin + 1..n];
            open := false;
            n := n + 1;
            break;
          }
        }
        n := n + 1;
        if n == |pattern| {
          if str == "" {
            str := pattern[i + 1..];
          }
        }
      }
    }
  }

  // ---- Writing a pattern ----

  datatype Piece = Lit(text: string) | Dir(name: string, fmt: Option<string>)

  function Render(x: Piece): string {
    match x
    case Lit(text) => text
    case Dir(name, None) => "%" + name
    case Dir(name, Some(fmt)) => "%" + name + "{" + fmt + "}"
  }

  function RenderAll(xs: seq<Piece>): string {
    if xs == [] then "" else Render(xs[0]) + RenderAll(xs[1..])
  }

  function TokenOf(x: Piece): Token {
    match x
    case Lit(text) => Text(text)
    case Dir(name, fmt) => Item(name, if fmt.Some? then fmt.value else "")
  }

  function TokensOf(xs: seq<Piece>): seq<Token> {
    if xs == [] then [] else [TokenOf(xs[0])] + TokensOf(xs[1..])
  }

  /** Letters, and a closing brace, which does not end a name. */
  predicate NameChar(c: char) { 'a' <= c <= 'z' || 'A' <= c <= 'Z' || c == '}' }

  predicate GoodPiece(x: Piece) {
    match x
    case Lit(text) => text != "" && forall k :: 0 <= k < |text| ==> text[k] != '%'
    case Dir(name, fmt) =>
      && (forall k :: 0 <= k < |name| ==> NameChar(name[k]))
      && (fmt.Some? ==> forall k :: 0 <= k < |fmt.value| ==> fmt.value[k] != '}')
  }

  /** What may stand behind a piece without being read as part of it. */
  predicate Follows(x: Piece, y: Piece) {
    match x
    case Lit(_) => y.Dir?
    case Dir(_, Some(_)) => true
    case Dir(name, None) =>
      if y.Lit? then y.text != "" && !NameChar(y.text[0]) && y.text[0] != '{' else name != ""
  }

  predicate GoodList(xs: seq<Piece>) {
    && (forall x | x in xs :: GoodPiece(x))
    && (forall k :: 0 <= k < |xs| - 1 ==> Follows(xs[k], xs[k + 1]))
  }

  /** The walk from i meets neither a doubled percent nor an unclosed brace. */
  predicate Plain(p: string, i: nat)
    decreases |p| - i
  {
    if i >= |p| then true
    else if p[i] != '%' then Plain(p, i + 1)
    else if Doubled(p, i) then false
    else match ScanAt(p, i)
      case Found(_, _, next) => Plain(p, next)
      case Unclosed => false
  }

  lemma {:induction false} LiteralRun(p: string, i: nat, e: nat, nstr: string)
    requires i <= e <= |p| && forall k :: i <= k < e ==> p[k] != '%'
    ensures Tokens(p, i, nstr) == Tokens(p, e, nstr + p[i..e])
    ensures Plain(p, i) == Plain(p, e) && Broken(p, i) == Broken(p, e)
    decreases e - i
  {
    if i == e {
      assert nstr + p[i..e] == nstr;
    } else {
      LiteralRun(p, i + 1, e, nstr + [p[i]]);
      assert nstr + [p[i]] + p[i + 1..e] == nstr + p[i..e];
    }
  }

  lemma {:induction false} NameEndIs(p: string, n: nat, e: nat)
    requires n <= e <= |p| && (forall k :: n <= k < e ==> InName(p[k])) && (e < |p| ==> !InName(p[e]))
    ensures NameEnd(p, n) == e
    decreases e - n
  {
    if n < e {
      NameEndIs(p, n + 1, e);
    }
  }

  lemma {:induction false} BraceEndIs(p: string, n: nat, e: nat)
    requires n <= e < |p| && (forall k :: n <= k < e ==> p[k] != '}') && p[e] == '}'
    ensures BraceEnd(p, n) == e
    decreases e - n
  {
    if n < e {
      BraceEndIs(p, n + 1, e);
    }
  }

  // ---- Tokenising undoes writing ----

  lemma ScanBare(p: string, i: nat, e: nat)
    requires i < e <= |p| && (forall k :: i < k < e ==> InName(p[k]))
    requires e < |p| ==> !InName(p[e]) && p[e] != '{'
    ensures ScanAt(p, i) == Found(p[i + 1..e], "", e)
  {
    NameEndIs(p, i + 1, e);
  }

  lemma ScanBraced(p: string, i: nat, e: nat, c: nat)
    requires i < e < c < |p| && (forall k :: i < k < e ==> InName(p[k])) && p[e] == '{'
    requires (forall k :: e < k < c ==> p[k] != '}') && p[c] == '}'
    ensures ScanAt(p, i) == Found(p[i + 1..e], p[e + 1..c], c + 1)
  {
    NameEndIs(p, i + 1, e);
    BraceEndIs(p, e + 1, c);
  }

  /** A bare directive written at i, with nothing behind it that can be read as part of it. */
  lemma BareScanned(p: string, i: nat, name: string, rest: seq<Piece>)
    requires i <= |p| && p[i..] == "%" + name + RenderAll(rest)
    requires GoodPiece(Dir(name, None))
    requires rest != [] ==> GoodPiece(rest[0]) && Follows(Dir(name, None), rest[0])
    ensures i < |p| && p[i] == '%' && !Doubled(p, i)
    ensures ScanAt(p, i) == Found(name, "", i + 1 + |name|)
  {
    hide ScanAt, RenderAll, Follows;
    var e := i + 1 + |name|;
    Opened(p, i, '%', name, RenderAll(rest));
    if rest != [] {
      NotInName(name, rest);
      assert p[e..][0] == p[e];
    } else {
      assert e == |p| by { NothingLeft(); }
    }
    ScanBare(p, i, e);
  }

  lemma NothingLeft()
    ensures RenderAll([]) == ""
  {
  }

  lemma NotInName(name: string, rest: seq<Piece>)
    requires rest != [] && GoodPiece(rest[0]) && Follows(Dir(name, None), rest[0])
    ensures RenderAll(rest) != ""
    ensures var c := RenderAll(rest)[0]; !InName(c) && c != '{' && (c == '%' ==> name != "")
  {
    hide RenderAll;
    FirstChar(rest);
  }

  /** A string made of two parts, position by position. */
  lemma Spread(p: string, i: nat, a: string, b: string)
    requires i <= |p| && p[i..] == a + b
    ensures i + |a| + |b| == |p| && p[i..i + |a|] == a && p[i + |a|..] == b
    ensures forall k :: i <= k < i + |a| ==> p[k] == a[k - i]
    ensures forall k :: i + |a| <= k < |p| ==> p[k] == b[k - i - |a|]
  {
    var q := p[i..];
    assert |q| == |p| - i == |a| + |b|;
    assert forall k :: i <= k < |p| ==> p[k] == q[k - i];
  }

  lemma BracedScanned(p: string, i: nat, name: string, fmt: string, rest: seq<Piece>)
    requires i <= |p| && p[i..] == "%" + name + "{" + fmt + "}" + RenderAll(rest)
    requires GoodPiece(Dir(name, Some(fmt)))
    ensures i < |p| && p[i] == '%' && !Doubled(p, i)
    ensures ScanAt(p, i) == Found(name, fmt, i + |name| + |fmt| + 3)
  {
    hide ScanAt, RenderAll;
    var e := i + 1 + |name|;
    var c := e + 1 + |fmt|;
    BracedLayout(p, i, name, fmt, RenderAll(rest));
    ScanBraced(p, i, e, c);
  }

  /** Where the parts of a directive with a format lie. */
  lemma BracedLayout(p: string, i: nat, name: string, fmt: string, tail: string)
    requires i <= |p| && p[i..] == "%" + name + "{" + fmt + "}" + tail
    ensures
      var e := i + 1 + |name|;
      var c := e + 1 + |fmt|;
      && c < |p| && p[i] == '%' && p[e] == '{' && p[c] == '}' && p[i + 1..e] == name && p[e + 1..c] == fmt
      && (forall k :: i < k < e ==> p[k] == name[k - i - 1])
      && (forall k :: e < k < c ==> p[k] == fmt[k - e - 1])
  {
    var b, d := "{" + fmt, "}" + tail;
    assert p[i..] == "%" + name + (b + d);
    Opened(p, i, '%', name, b + d);
    var e := i + 1 + |name|;
    assert p[e..] == [p[e]] + fmt + d;
    Opened(p, e, '{', fmt, d);
    assert p[e + 1 + |fmt|..] == d;
  }

  /** A sign and a text written at i. */
  lemma Opened(p: string, i: nat, sign: char, text: string, tail: string)
    requires i <= |p| && p[i..] == [sign] + text + tail
    ensures i + 1 + |text| + |tail| == |p| && p[i] == sign
    ensures p[i + 1..i + 1 + |text|] == text && p[i + 1 + |text|..] == tail
    ensures forall k :: i < k < i + 1 + |text| ==> p[k] == text[k - i - 1]
  {
    assert [sign] + text + tail == [sign] + (text + tail);
    Spread(p, i, [sign], text + tail);
    Spread(p, i + 1, text, tail);
  }

  lemma DirectiveScanned(p: string, i: nat, x: Piece, rest: seq<Piece>)
    requires i <= |p| && p[i..] == Render(x) + RenderAll(rest)
    requires x.Dir? && GoodPiece(x)
    requires rest != [] ==> GoodPiece(rest[0]) && Follows(x, rest[0])
    ensures i < |p| && p[i] == '%' && !Doubled(p, i)
    ensures ScanAt(p, i) == Found(TokenOf(x).name, TokenOf(x).fmt, i + |Render(x)|)
  {
    hide ScanAt, RenderAll, Doubled;
    match x.fmt {
      case None => BareScanned(p, i, x.name, rest);
      case Some(fmt) => BracedScanned(p, i, x.name, fmt, rest);
    }
  }

  lemma FirstChar(xs: seq<Piece>)
    requires xs != [] && GoodPiece(xs[0])
    ensures RenderAll(xs) != "" && RenderAll(xs)[0] == if xs[0].Dir? then '%' else xs[0].text[0]
  {
    assert RenderAll(xs) == Render(xs[0]) + RenderAll(xs[1..]);
  }

  lemma GoodTail(xs: seq<Piece>)
    requires GoodList(xs) && xs != []
    ensures GoodPiece(xs[0]) && GoodList(xs[1..]) && (xs[1..] != [] ==> GoodPiece(xs[1]) && Follows(xs[0], xs[1]))
  {
    var rest := xs[1..];
    assert forall y :: y in rest ==> y in xs;
    forall k | 0 <= k < |rest| - 1 ensures Follows(rest[k], rest[k + 1]) {
      assert Follows(xs[k + 1], xs[k + 2]);
    }
  }

  lemma {:induction false} TokensFrom(p: string, i: nat, nstr: string, xs: seq<Piece>)
    requires i <= |p| && p[i..] == RenderAll(xs) && GoodList(xs)
    requires nstr == "" || xs == [] || xs[0].Dir?
    ensures Tokens(p, i, nstr) == Flush(nstr) + TokensOf(xs)
    ensures Plain(p, i) && !Broken(p, i)
    decreases |xs|
  {
    hide *;
    if xs == [] {
      AtEnd(p, i, nstr);
    } else {
      var x, rest := xs[0], xs[1..];
      GoodTail(xs);
      Unfold(xs);
      Spread(p, i, Render(x), RenderAll(rest));
      if x.Lit? {
        assert Render(x) == x.text && Flush(nstr) == [] && Flush(x.text) == [TokenOf(x)] by { LitFacts(x, nstr); }
        LiteralStep(p, i, x.text);
        FollowsLit(x, rest);
        TokensFrom(p, i + |x.text|, x.text, rest);
      } else {
        DirectiveScanned(p, i, x, rest);
        DirectiveStep(p, i, nstr);
        TokensFrom(p, i + |Render(x)|, "", rest);
        DirFacts(x);
        assert Flush(nstr) + [TokenOf(x)] + TokensOf(rest) == Flush(nstr) + ([TokenOf(x)] + TokensOf(rest));
      }
    }
  }

  lemma AtEnd(p: string, i: nat, nstr: string)
    requires i <= |p| && p[i..] == RenderAll([])
    ensures Tokens(p, i, nstr) == Flush(nstr) + TokensOf([]) && Plain(p, i) && !Broken(p, i)
  {
    assert i == |p|;
  }

  lemma Unfold(xs: seq<Piece>)
    requires xs != []
    ensures RenderAll(xs) == Render(xs[0]) + RenderAll(xs[1..]) && TokensOf(xs) == [TokenOf(xs[0])] + TokensOf(xs[1..])
  {
  }

  lemma LitFacts(x: Piece, nstr: string)
    requires x.Lit? && GoodPiece(x) && nstr == ""
    ensures Render(x) == x.text && Flush(nstr) == [] && Flush(x.text) == [TokenOf(x)] && GoodPiece(Lit(x.text))
  {
  }

  lemma FollowsLit(x: Piece, rest: seq<Piece>)
    requires x.Lit? && (rest != [] ==> Follows(x, rest[0]))
    ensures rest == [] || rest[0].Dir?
  {
  }

  lemma DirFacts(x: Piece)
    requires x.Dir?
    ensures TokenOf(x).Item? && Flush("") == [] && Item(TokenOf(x).name, TokenOf(x).fmt) == TokenOf(x)
    ensures forall ts: seq<Token> :: Flush("") + ts == ts
  {
  }

  lemma DirectiveStep(p: string, i: nat, nstr: string)
    requires i < |p| && p[i] == '%' && !Doubled(p, i) && ScanAt(p, i).Found?
    ensures
      var r := ScanAt(p, i);
      && Tokens(p, i, nstr) == Flush(nstr) + [Item(r.name, r.fmt)] + Tokens(p, r.next, "")
      && Plain(p, i) == Plain(p, r.next) && Broken(p, i) == Broken(p, r.next)
  {
  }

  lemma LiteralStep(p: string, i: nat, text: string)
    requires i + |text| <= |p| && p[i..i + |text|] == text && GoodPiece(Lit(text))
    ensures Tokens(p, i, "") == Tokens(p, i + |text|, text) && text != ""
    ensures Plain(p, i) == Plain(p, i + |text|) && Broken(p, i) == Broken(p, i + |text|)
  {
    hide Tokens, Plain, Broken;
    var e := i + |text|;
    assert forall k :: i <= k < e ==> p[k] == text[k - i];
    LiteralRun(p, i, e, "");
    assert "" + p[i..e] == text;
  }

  /** Writing a list of pieces and tokenising it gives the list back, and no error. */
  lemma TokeniserInvertsRender(xs: seq<Piece>)
    requires GoodList(xs)
    ensures Tokens(RenderAll(xs), 0, "") == TokensOf(xs)
    ensures Plain(RenderAll(xs), 0) && !Broken(RenderAll(xs), 0)
  {
    var p := RenderAll(xs);
    assert p[0..] == p;
    TokensFrom(p, 0, "", xs);
  }

  /** The formatters: message, level, logger, thread id, newline, time, file, line, tab, fiber id, thread name. */
  predicate IsLetter(name: string) {
    |name| == 1 && name[0] in "mpctndflTFN"
  }

  /** What a piece becomes: its own text; the formatter of its letter with the text between its braces; or an error text. */
  predicate ItemSays(item: FormatItem, x: Piece) {
    match x
    case Lit(text) => item == Literal(text)
    case Dir(name, fmt) =>
      if IsLetter(name) then item == Format(name, if fmt.Some? then fmt.value else "")
      else item == Literal("<<error_format %" + name + ">>")
  }

  predicate BadName(x: Piece) { x.Dir? && !IsLetter(x.name) }

  ghost predicate Says(items: seq<FormatItem>, error: bool, xs: seq<Piece>) {
    && |items| == |xs|
    && (forall k :: 0 <= k < |xs| ==> ItemSays(items[k], xs[k]))
    && (error <==> exists k :: 0 <= k < |xs| && BadName(xs[k]))
  }

  lemma {:induction false} TokensOfAt(xs: seq<Piece>)
    ensures |TokensOf(xs)| == |xs| && forall k :: 0 <= k < |xs| ==> TokensOf(xs)[k] == TokenOf(xs[k])
  {
    if xs != [] {
      TokensOfAt(xs[1..]);
    }
  }

  lemma ItemOfPiece(x: Piece)
    ensures ItemSays(ItemFor(TokenOf(x)), x) && (Unknown(TokenOf(x)) <==> BadName(x))
  {
    if x.Dir? && IsLetter(x.name) {
      assert x.name == [x.name[0]];
      assert x.name in KNOWN;
    }
  }

  /**
   The round trip to the items: for every well-formed list, the items of its
   rendering are, piece by piece, the literal's own text, the directive's letter
   with exactly the text between its braces, or the error text for a name that is
   none of the eleven letters; and such a name is the only error.
   */
  lemma ItemsInvertRender(xs: seq<Piece>)
    requires GoodList(xs)
    ensures var ts := Tokens(RenderAll(xs), 0, ""); Says(ItemsFor(ts), AnyUnknown(ts), xs)
    ensures !Broken(RenderAll(xs), 0)
  {
    hide Tokens, GoodList, RenderAll, TokenOf, TokensOf, Unknown, BadName, ItemFor, ItemSays, Broken;
    TokeniserInvertsRender(xs);
    TokensOfAt(xs);
    var ts := TokensOf(xs);
    forall k | 0 <= k < |xs|
      ensures ItemSays(ItemsFor(ts)[k], xs[k]) && (Unknown(ts[k]) <==> BadName(xs[k]))
    {
      ItemOfPiece(xs[k]);
    }
  }

  /**
   A brace that is never closed: the error text goes in front of the text already
   pending, and the directive's own letters are read again as text.
   */
  lemma UnclosedBrace(text: string, name: string, tail: string)
    requires forall k :: 0 <= k < |text| ==> text[k] != '%'
    requires forall k :: 0 <= k < |name| ==> InName(name[k])
    requires forall k :: 0 <= k < |tail| ==> tail[k] != '%' && tail[k] != '}'
    ensures var p := text + "%" + name + "{" + tail;
            && ItemsFor(Tokens(p, 0, "")) == [Literal("<<pattern_error>>"), Literal(text + name + "{" + tail)]
            && Broken(p, 0)
  {
    hide *;
    var p := text + "%" + name + "{" + tail;
    var i := |text|;
    var rest := p[i + 1..];
    UnclosedLayout(text, name, tail);
    ScanUnclosed(p, i, i + 1 + |name|);
    UnclosedWalk(p, i, text);
    LiteralRun(p, 0, i, "");
    assert "" + p[0..i] == text;
    TwoTexts(text + p[i + 1..]);
    assert text + p[i + 1..] == text + name + "{" + tail;
  }

  lemma UnclosedLayout(text: string, name: string, tail: string)
    requires forall k :: 0 <= k < |text| ==> text[k] != '%'
    requires forall k :: 0 <= k < |name| ==> InName(name[k])
    requires forall k :: 0 <= k < |tail| ==> tail[k] != '%' && tail[k] != '}'
    ensures var p := text + "%" + name + "{" + tail; var i := |text|; var e := i + 1 + |name|;
            && e < |p| && p[i] == '%' && p[e] == '{' && !Doubled(p, i)
            && (forall k :: 0 <= k < i ==> p[k] != '%') && (forall k :: i < k < e ==> InName(p[k]))
            && (forall k :: i < k < |p| ==> p[k] != '%') && (forall k :: e < k < |p| ==> p[k] != '}')
            && text + p[i + 1..] == text + name + "{" + tail
  {
    var p := text + "%" + name + "{" + tail;
    var i := |text|;
    assert forall k :: i < k < i + 1 + |name| ==> p[k] == name[k - i - 1];
    assert p[i + 1..] == name + "{" + tail;
    assert text + (name + "{" + tail) == text + name + "{" + tail;
  }

  lemma ScanUnclosed(p: string, i: nat, e: nat)
    requires i < e < |p| && (forall k :: i < k < e ==> InName(p[k])) && p[e] == '{'
    requires forall k :: e < k < |p| ==> p[k] != '}'
    ensures ScanAt(p, i) == Unclosed
  {
    NameEndIs(p, i + 1, e);
  }

  lemma UnclosedWalk(p: string, i: nat, nstr: string)
    requires i < |p| && p[i] == '%' && !Doubled(p, i) && ScanAt(p, i) == Unclosed
    requires forall k :: i < k < |p| ==> p[k] != '%'
    requires i + 1 < |p|
    ensures Tokens(p, i, nstr) == [Text(ERROR_TEXT), Text(nstr + p[i + 1..])] && Broken(p, i)
  {
    hide Tokens, Broken, ScanAt;
    TokensAt(p, i, nstr);
    LiteralRun(p, i + 1, |p|, nstr);
    TokensAt(p, |p|, nstr + p[i + 1..]);
    assert p[i + 1..|p|] == p[i + 1..];
  }

  lemma TwoTexts(text: string)
    ensures ItemsFor([Text(ERROR_TEXT), Text(text)]) == [Literal("<<pattern_error>>"), Literal(text)]
  {
  }

  // ---- Every plain pattern is a rendering ----

  function Pending(nstr: string): seq<Piece> {
    if nstr == "" then [] else [Lit(nstr)]
  }

  function DirAt(p: string, i: nat): Piece
    requires i < |p| && ScanAt(p, i).Found?
  {
    var r := ScanAt(p, i);
    Dir(r.name, if r.next > NameEnd(p, i + 1) then Some(r.fmt) else None)
  }

  function Pieces(p: string, i: nat, nstr: string): seq<Piece>
    requires i <= |p| && Plain(p, i)
    decreases |p| - i
  {
    if i == |p| then Pending(nstr)
    else if p[i] != '%' then Pieces(p, i + 1, nstr + [p[i]])
    else
      Pending(nstr) + ([DirAt(p, i)] + Pieces(p, ScanAt(p, i).next, ""))
  }

  /** The first piece shows on the first character. */
  predicate StartsLike(xs: seq<Piece>, s: string) {
    if s == "" then xs == []
    else xs != [] && if s[0] == '%' then xs[0].Dir? else xs[0].Lit? && xs[0].text != "" && xs[0].text[0] == s[0]
  }

  lemma GoodCons(x: Piece, xs: seq<Piece>)
    requires GoodPiece(x) && GoodList(xs) && (xs != [] ==> Follows(x, xs[0]))
    ensures GoodList([x] + xs) && RenderAll([x] + xs) == Render(x) + RenderAll(xs)
    ensures TokensOf([x] + xs) == [TokenOf(x)] + TokensOf(xs)
  {
    var ys := [x] + xs;
    assert ys[1..] == xs;
    forall k | 0 <= k < |ys| - 1 ensures Follows(ys[k], ys[k + 1]) {
      if k > 0 {
        assert Follows(xs[k - 1], xs[k]);
      }
    }
  }

  lemma DirectiveWritten(p: string, i: nat, rest: seq<Piece>)
    requires i < |p| && p[i] == '%' && !Doubled(p, i) && ScanAt(p, i).Found?
    requires StartsLike(rest, p[ScanAt(p, i).next..])
    ensures
      var x := DirAt(p, i);
      GoodPiece(x) && Render(x) == p[i..ScanAt(p, i).next] && (rest != [] ==> Follows(x, rest[0]))
  {
    hide GoodPiece, Render, Follows, StartsLike;
    var e := NameEnd(p, i + 1);
    if e < |p| && p[e] == '{' {
      BracedWritten(p, i, e, BraceEnd(p, e + 1));
      FollowsBraced(DirAt(p, i), rest);
    } else {
      BareWritten(p, i, e, rest);
    }
  }

  lemma FollowsBraced(x: Piece, rest: seq<Piece>)
    requires x.Dir? && x.fmt.Some?
    ensures rest != [] ==> Follows(x, rest[0])
  {
  }

  lemma BareWritten(p: string, i: nat, e: nat, rest: seq<Piece>)
    requires i < e <= |p| && p[i] == '%' && !Doubled(p, i) && (forall k :: i < k < e ==> InName(p[k]))
    requires e < |p| ==> !InName(p[e]) && p[e] != '{'
    requires StartsLike(rest, p[e..])
    ensures
      var x := Dir(p[i + 1..e], None);
      GoodPiece(x) && Render(x) == p[i..e] && (rest != [] ==> Follows(x, rest[0]))
  {
    var name := p[i + 1..e];
    assert p[i..e] == "%" + name;
    if rest != [] {
      assert e < |p| && p[e..][0] == p[e];
      if name == "" {
        assert e == i + 1;
      }
    }
  }

  lemma BracedWritten(p: string, i: nat, e: nat, c: nat)
    requires i < e < c < |p| && p[i] == '%' && p[e] == '{' && p[c] == '}'
    requires (forall k :: i < k < e ==> InName(p[k])) && (forall k :: e < k < c ==> p[k] != '}')
    ensures
      var x := Dir(p[i + 1..e], Some(p[e + 1..c]));
      GoodPiece(x) && Render(x) == p[i..c + 1]
  {
    hide NameEnd, BraceEnd, ScanAt;
    CutThree(p, i, e, c);
    assert [p[i]] == "%" && [p[e]] == "{" && [p[c]] == "}";
  }

  lemma CutThree(p: string, i: nat, e: nat, c: nat)
    requires i < e < c < |p|
    ensures p[i..c + 1] == [p[i]] + p[i + 1..e] + [p[e]] + p[e + 1..c] + [p[c]]
  {
  }

  lemma {:induction false} PiecesWritePattern(p: string, i: nat, nstr: string)
    requires i <= |p| && Plain(p, i) && forall k :: 0 <= k < |nstr| ==> nstr[k] != '%'
    ensures GoodList(Pieces(p, i, nstr)) && RenderAll(Pieces(p, i, nstr)) == nstr + p[i..]
    ensures StartsLike(Pieces(p, i, nstr), nstr + p[i..])
    decreases |p| - i
  {
    hide GoodList, ScanAt, NameEnd, RenderAll, DirAt, StartsLike, Render, GoodPiece, Follows, Pending;
    if i == |p| {
      NoPieces();
      assert nstr + p[i..] == nstr + "";
      assert Pending(nstr) + [] == Pending(nstr);
      PendingWritten(nstr, [], "");
    } else if p[i] != '%' {
      PiecesWritePattern(p, i + 1, nstr + [p[i]]);
      assert nstr + [p[i]] + p[i + 1..] == nstr + p[i..];
    } else {
      var next := ScanAt(p, i).next;
      PiecesWritePattern(p, next, "");
      assert "" + p[next..] == p[next..];
      WithDirective(p, i, Pieces(p, next, ""));
      PendingWritten(nstr, [DirAt(p, i)] + Pieces(p, next, ""), p[i..]);
    }
  }

  lemma WithDirective(p: string, i: nat, rest: seq<Piece>)
    requires i < |p| && p[i] == '%' && !Doubled(p, i) && ScanAt(p, i).Found?
    requires GoodList(rest) && RenderAll(rest) == p[ScanAt(p, i).next..] && StartsLike(rest, p[ScanAt(p, i).next..])
    ensures GoodList([DirAt(p, i)] + rest) && RenderAll([DirAt(p, i)] + rest) == p[i..]
    ensures StartsLike([DirAt(p, i)] + rest, p[i..]) && DirAt(p, i).Dir?
  {
    hide GoodList, ScanAt, RenderAll, Render, GoodPiece, Follows;
    var next := ScanAt(p, i).next;
    DirectiveWritten(p, i, rest);
    GoodCons(DirAt(p, i), rest);
    assert p[i..next] + p[next..] == p[i..];
    assert p[i..][0] == '%';
  }

  lemma NoPieces()
    ensures GoodList([]) && RenderAll([]) == "" && StartsLike([], "")
  {
  }

  lemma PendingWritten(nstr: string, xs: seq<Piece>, s: string)
    requires GoodList(xs) && RenderAll(xs) == s && (forall k :: 0 <= k < |nstr| ==> nstr[k] != '%')
    requires xs == [] || xs[0].Dir?
    requires StartsLike(xs, s)
    ensures GoodList(Pending(nstr) + xs) && RenderAll(Pending(nstr) + xs) == nstr + s
    ensures StartsLike(Pending(nstr) + xs, nstr + s)
  {
    hide GoodList, RenderAll;
    if nstr == "" {
      assert Pending(nstr) + xs == xs && nstr + s == s;
    } else {
      GoodCons(Lit(nstr), xs);
    }
  }

  /** The patterns written from well-formed lists are exactly those without a doubled percent or an open brace. */
  lemma PlainIffWritten(p: string)
    ensures Plain(p, 0) <==> exists xs :: GoodList(xs) && RenderAll(xs) == p
  {
    if Plain(p, 0) {
      PiecesWritePattern(p, 0, "");
      assert "" + p[0..] == p;
      assert GoodList(Pieces(p, 0, "")) && RenderAll(Pieces(p, 0, "")) == p;
    }
    forall xs | GoodList(xs) && RenderAll(xs) == p ensures Plain(p, 0) {
      TokeniserInvertsRender(xs);
    }
  }

  /** A doubled percent does not escape: one percent goes to the text and the other still opens a directive. */
  lemma DoubledPercentStillOpens(p: string, i: nat, nstr: string)
    requires i < |p| && p[i] == '%' && Doubled(p, i) && !Doubled(p, i + 1) && ScanAt(p, i + 1).Found?
    ensures
      var r := ScanAt(p, i + 1);
      Tokens(p, i, nstr) == [Text(nstr + "%"), Item(r.name, r.fmt)] + Tokens(p, r.next, "")
  {
    var r := ScanAt(p, i + 1);
    assert Tokens(p, i, nstr) == Tokens(p, i + 1, nstr + "%") == Flush(nstr + "%") + [Item(r.name, r.fmt)] + Tokens(p, r.next, "");
  }
}
