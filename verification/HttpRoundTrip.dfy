/** The everyday case: a request written in the plain layout is read back field by field. */
module HttpRoundTrip {
  import opened Common
  import opened HttpRequests
  import opened HttpGrammar

  datatype Request = Request(
    verb: Method, path: string, params: seq<Param>, version: Version, headers: seq<Header>, body: string)

  function MethodName(m: Method): string
    requires m != INVALID
  {
    match m
    case DELETE => "DELETE"
    case GET => "GET"
    case HEAD => "HEAD"
    case POST => "POST"
    case PUT => "PUT"
  }

  function VersionName(v: Version): string
    requires v != Unknown
  {
    if v == Http11 then "HTTP/1.1" else "HTTP/1.0"
  }

  /** Single blanks, nothing in front, nothing between the last CR and LF. */
  function Plain(r: Request): Message
    requires r.verb != INVALID && r.version != Unknown
  {
    Message("", MethodName(r.verb), " ", r.path, r.params, " ", VersionName(r.version), r.headers, "", r.body)
  }

  predicate GoodRequest(r: Request) {
    && r.verb != INVALID && r.version != Unknown && Path(r.path)
    && (forall p | p in r.params :: GoodParam(p))
    && (forall h | h in r.headers :: GoodHeader(h))
  }

  /** The body is as long as the first Content-Length header says, if there is one. */
  ghost predicate LengthMatches(r: Request) {
    forall i :: 0 <= i < |r.headers| && r.headers[i].key == "Content-Length" && FirstHeader(r.headers, i)
      ==> Stoi(r.headers[i].value) == Value(|r.body|)
  }

  ghost predicate HasLength(hs: seq<Header>) {
    exists i :: 0 <= i < |hs| && hs[i].key == "Content-Length"
  }

  lemma {:induction false} FirstWith(hs: seq<Header>, i: nat) returns (k: nat)
    requires i < |hs|
    ensures k <= i && hs[k].key == hs[i].key && FirstHeader(hs, k)
  {
    if j :| 0 <= j < i && hs[j].key == hs[i].key {
      k := FirstWith(hs, j);
    } else {
      k := i;
    }
  }

  /**
   Reading back a plain request gives its own fields, with the first value given
   under each name. The one thing that does not come back is the end state: with
   neither a body nor a Content-Length the automaton is left waiting for a body.
   */
  lemma RequestRoundTrip(r: Request, someMethod: Method, someVersion: Version)
    requires GoodRequest(r) && LengthMatches(r)
    ensures var out := Run(Entry(Fresh(someMethod, someVersion)), Render(Plain(r)), 0); var f := out.fields;
            && out.fault == None
            && f.verb == r.verb && f.version == r.version && f.path == r.path && f.body == r.body
            && FirstParamsWin(f.params, r.params) && FirstHeadersWin(f.heads, r.headers)
            && f.state == if r.body == "" && !HasLength(r.headers) then InBody else End
  {
    hide Run, Render, Stoi, MethodNamed, VersionNamed;
    var d := Plain(r);
    ParseInvertsRender(d, someMethod, someVersion);
    var heads := HeadMap(r.headers, map[]);
    HeadFieldsRead(d, End);
    assert r.body[..|r.body|] == r.body;
    if i :| 0 <= i < |r.headers| && r.headers[i].key == "Content-Length" {
      var k := FirstWith(r.headers, i);
      assert heads["Content-Length"] == r.headers[k].value;
    }
  }

  // ---- Numbers in headers ----

  function Decimal(n: nat): string {
    var digit := [(n % 10) as char + '0'];
    if n < 10 then digit else Decimal(n / 10) + digit
  }

  lemma {:induction false} DecimalDigits(n: nat)
    ensures Decimal(n) != "" && forall k :: 0 <= k < |Decimal(n)| ==> IsDigit(Decimal(n)[k])
  {
    if n >= 10 {
      DecimalDigits(n / 10);
    }
  }

  lemma {:induction false} DigitsAppend(s: string, t: string, acc: nat)
    requires forall k :: 0 <= k < |s| ==> IsDigit(s[k])
    ensures Digits(s + t, acc) == Digits(t, Digits(s, acc))
  {
    if s == "" {
      assert s + t == t;
    } else {
      assert (s + t)[1..] == s[1..] + t;
      DigitsAppend(s[1..], t, 10 * acc + (s[0] as int - '0' as int));
    }
  }

  lemma {:induction false} DigitsOfDecimal(n: nat)
    ensures Digits(Decimal(n), 0) == n
  {
    var digit := [(n % 10) as char + '0'];
    assert Digits(digit, n / 10) == Digits(digit[1..], 10 * (n / 10) + n % 10) == n;
    if n >= 10 {
      DigitsOfDecimal(n / 10);
      DecimalDigits(n / 10);
      DigitsAppend(Decimal(n / 10), digit, 0);
    } else {
      assert Digits(digit, 0) == Digits(digit[1..], n) == n;
    }
  }

  /** `stoi` reads back every length a sender can write, as far as an int goes. */
  lemma StoiInvertsDecimal(n: nat)
    ensures Stoi(Decimal(n)) == if n < 0x8000_0000 then Value(n) else OutOfRange
  {
    DecimalDigits(n);
    DigitsOfDecimal(n);
    assert IsDigit(Decimal(n)[0]);
  }

  /** The number a run of digits writes: each digit counts ten times the one after it. */
  function Natural(digits: string): (n: int)
    requires forall k :: 0 <= k < |digits| ==> '0' <= digits[k] <= '9'
    ensures n >= 0
  {
    if digits == "" then 0
    else 10 * Natural(digits[..|digits| - 1]) + (digits[|digits| - 1] as int - '0' as int)
  }

  /** What `strtol` takes for a number: white space, at most one sign, digits, and whatever follows them. */
  predicate Numeral(space: string, sign: string, digits: string, tail: string) {
    && (forall k :: 0 <= k < |space| ==> space[k] in " \t\n\U{0B}\U{0C}\r")
    && sign in {"", "+", "-"}
    && digits != "" && (forall k :: 0 <= k < |digits| ==> '0' <= digits[k] <= '9')
    && (tail != "" ==> !('0' <= tail[0] <= '9'))
  }

  lemma {:induction false} DigitsAreNatural(digits: string, tail: string)
    requires forall k :: 0 <= k < |digits| ==> '0' <= digits[k] <= '9'
    requires tail != "" ==> !('0' <= tail[0] <= '9')
    ensures Digits(digits + tail, 0) == Natural(digits)
  {
    DigitsAppend(digits, tail, 0);
    DigitsAlone(digits);
  }

  lemma {:induction false} DigitsAlone(digits: string)
    requires forall k :: 0 <= k < |digits| ==> '0' <= digits[k] <= '9'
    ensures Digits(digits, 0) == Natural(digits)
    decreases |digits|
  {
    if digits != "" {
      var init, last := digits[..|digits| - 1], digits[|digits| - 1..];
      DigitsAlone(init);
      assert digits == init + last;
      DigitsAppend(init, last, 0);
      assert last[1..] == "";
    }
  }

  /** A numeral is read as the number it writes, if an int can hold it. */
  lemma {:induction false} StoiReads(space: string, sign: string, digits: string, tail: string)
    requires Numeral(space, sign, digits, tail)
    ensures var n: int := if sign == "-" then -Natural(digits) else Natural(digits);
            Stoi(space + sign + digits + tail) == if -0x8000_0000 <= n < 0x8000_0000 then Value(n) else OutOfRange
    decreases |space|
  {
    if space != "" {
      StoiReads(space[1..], sign, digits, tail);
      var s := space + sign + digits + tail;
      assert s[1..] == space[1..] + sign + digits + tail;
      assert s[0] == space[0];
      StoiSkipsSpace(s);
    } else {
      assert space + sign + digits + tail == sign + (digits + tail);
      StoiAfterSpace(sign, digits, tail);
    }
  }

  lemma StoiSkipsSpace(s: string)
    requires s != "" && s[0] in " \t\n\U{0B}\U{0C}\r"
    ensures Stoi(s) == Stoi(s[1..])
  {
  }

  lemma StoiAfterSpace(sign: string, digits: string, tail: string)
    requires Numeral("", sign, digits, tail)
    ensures var n: int := if sign == "-" then -Natural(digits) else Natural(digits);
            Stoi(sign + (digits + tail)) == if -0x8000_0000 <= n < 0x8000_0000 then Value(n) else OutOfRange
  {
    hide Natural, Digits;
    var rest := digits + tail;
    var s := sign + rest;
    assert rest != "" && rest[0] == digits[0];
    DigitsAreNatural(digits, tail);
    if sign == "" {
      assert s == rest;
    } else {
      assert s[1..] == rest && s[0] == sign[0];
    }
  }

  /** Anything else is refused: there is a number exactly when the text is a numeral. */
  lemma {:induction false} StoiRefuses(s: string)
    ensures Stoi(s) == NotANumber <==>
            !exists space, sign, digits, tail :: Numeral(space, sign, digits, tail) && s == space + sign + digits + tail
  {
    if space, sign, digits, tail :| Numeral(space, sign, digits, tail) && s == space + sign + digits + tail {
      StoiReads(space, sign, digits, tail);
    } else if Stoi(s) != NotANumber {
      var space, sign, digits, tail := NumeralOf(s);
      assert false;
    }
  }

  lemma {:induction false} NumeralOf(s: string) returns (space: string, sign: string, digits: string, tail: string)
    requires Stoi(s) != NotANumber
    ensures Numeral(space, sign, digits, tail) && s == space + sign + digits + tail
  {
    hide Digits, Numeral, IsSpace;
    if IsSpace(s[0]) {
      StoiAtSpace(s);
      var inner;
      inner, sign, digits, tail := NumeralOf(s[1..]);
      space := [s[0]] + inner;
      MoreSpace(s[0], inner, sign, digits, tail);
      assert s == [s[0]] + s[1..];
      assert s == space + sign + digits + tail;
    } else {
      space := "";
      sign, digits, tail := NumeralAfterSpace(s);
      assert s == space + sign + digits + tail;
    }
  }

  lemma StoiAtSpace(s: string)
    requires s != "" && IsSpace(s[0])
    ensures Stoi(s) == Stoi(s[1..])
  {
  }

  lemma MoreSpace(c: char, space: string, sign: string, digits: string, tail: string)
    requires IsSpace(c) && Numeral(space, sign, digits, tail)
    ensures Numeral([c] + space, sign, digits, tail)
  {
  }

  lemma NumeralAfterSpace(s: string) returns (sign: string, digits: string, tail: string)
    requires Stoi(s) != NotANumber && !IsSpace(s[0])
    ensures Numeral("", sign, digits, tail) && s == sign + digits + tail
  {
    hide Digits, IsSpace;
    sign := if s[0] == '-' || s[0] == '+' then [s[0]] else "";
    digits, tail := LeadingDigits(s[|sign|..]);
    assert s == sign + s[|sign|..];
  }

  lemma {:induction false} LeadingDigits(s: string) returns (digits: string, tail: string)
    ensures s == digits + tail && (forall k :: 0 <= k < |digits| ==> '0' <= digits[k] <= '9')
    ensures tail != "" ==> !('0' <= tail[0] <= '9')
    ensures digits == "" ==> s == tail
  {
    digits, tail := "", s;
    if s != "" && IsDigit(s[0]) {
      digits, tail := LeadingDigits(s[1..]);
      digits := [s[0]] + digits;
    }
  }
}
