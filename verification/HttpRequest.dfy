/**
 The request parser of vserver/net/HttpRequeset.{h,cc}: a one-pass automaton
 over the received bytes. `Step` and `Run` say what the automaton does, the class
 runs it with the source's own loop, and HttpGrammar.dfy says what it accepts.
 */
module HttpRequests {
  import opened Common

  const CR := '\r'
  const LF := '\n'
  const CONTENT_LENGTH := "Content-Length"

  datatype Method = DELETE | GET | HEAD | POST | PUT | INVALID
  datatype Version = Http10 | Http11 | Unknown

  datatype ParseState =
    | Invalid | InvalidMethod | InvalidPath | InvalidVersion | InvalidHeader
    | Start | InMethod | BeforePath | InPath
    | BeforeParamKey | InParamKey | BeforeParamValue | InParamValue
    | BeforeVersion | InVersion
    | InHeaderKey | BeforeHeaderValue | InHeaderValue
    | WCr | WCrLf | WCrLfCr
    | InBody | End

  /** The data members of `HttpRequest`. */
  datatype Fields = Fields(
    verb: Method, version: Version, path: string,
    params: map<string, string>, heads: map<string, string>,
    body: string, state: ParseState)

  /** How `parse` can leave other than by returning: `stoi` throws, or the body is read past the end. */
  datatype Fault = LengthNotANumber | LengthOutOfRange | BodyOverrun

  /** The members together with the locals of `parse`. */
  datatype Machine = Machine(
    fields: Fields, begin: nat, paramKey: string, headerKey: string,
    bodyLength: int, fault: Option<Fault>)
  {
    predicate Halted() {
      || fault.Some?
      || fields.state in {Invalid, InvalidHeader, InvalidMethod, InvalidPath, InvalidVersion, End}
    }

    function Goto(s: ParseState): Machine {
      this.(fields := fields.(state := s))
    }

    function Mark(p: nat, s: ParseState): Machine {
      Goto(s).(begin := p)
    }

    function AddParam(value: string): Machine {
      this.(fields := fields.(params := Insert(fields.params, paramKey, value)))
    }

    function AddHeader(value: string): Machine {
      this.(fields := fields.(heads := Insert(fields.heads, headerKey, value)))
    }
  }

  // ---- Characters, names and numbers ----

  predicate IsBlank(c: char) { c == ' ' || c == '\t' }
  predicate IsUpper(c: char) { 'A' <= c <= 'Z' }
  predicate IsEol(c: char) { c == CR || c == LF }

  /** `unordered_map::insert` keeps the value already there. */
  function Insert(m: map<string, string>, key: string, value: string): map<string, string> {
    if key in m then m else m[key := value]
  }

  function MethodNamed(name: string): Method {
    match name
    case "DELETE" => DELETE
    case "GET" => GET
    case "HEAD" => HEAD
    case "POST" => POST
    case "PUT" => PUT
    case _ => INVALID
  }

  function VersionNamed(name: string): Version {
    match name
    case "HTTP/1.1" => Http11
    case "HTTP/1.0" => Http10
    case _ => Unknown
  }

  datatype Number = Value(n: int) | NotANumber | OutOfRange

  predicate IsSpace(c: char) {
    c in {' ', '\t', '\n', '\U{0B}', '\U{0C}', '\r'}
  }

  predicate IsDigit(c: char) { '0' <= c <= '9' }

  /** The value of the leading digits of s, after those already read into acc. */
  function Digits(s: string, acc: nat): nat {
    if s == "" || !IsDigit(s[0]) then acc
    else Digits(s[1..], 10 * acc + (s[0] as int - '0' as int))
  }

  /** `std::stoi`: leading space, a sign, then at least one digit; the rest is ignored; 32-bit range. */
  function Stoi(s: string): Number {
    if s == "" then NotANumber
    else if IsSpace(s[0]) then Stoi(s[1..])
    else
      var signed := s[0] == '-' || s[0] == '+';
      var digits := if signed then s[1..] else s;
      if digits == "" || !IsDigit(digits[0]) then NotANumber
      else
        var magnitude: int := Digits(digits, 0);
        var n := if s[0] == '-' then -magnitude else magnitude;
        if -0x8000_0000 <= n < 0x8000_0000 then Value(n) else OutOfRange
  }

  // ---- The automaton ----

  /** The line feed that ends the head: decide how much body follows it. */
  function EndOfHead(m: Machine, msg: string, p: nat): Machine
    requires p < |msg|
  {
    if CONTENT_LENGTH in m.fields.heads then
      match Stoi(m.fields.heads[CONTENT_LENGTH])
      case Value(n) => m.Goto(if n > 0 then InBody else End).(bodyLength := n)
      case NotANumber => m.(fault := Some(LengthNotANumber))
      case OutOfRange => m.(fault := Some(LengthOutOfRange))
    else
      m.Goto(InBody).(bodyLength := |msg| - p - 1)
  }

  /** `m_body.assign(p, bodyLength)` reads that many bytes, whether or not they were received. */
  function TakeBody(m: Machine, msg: string, p: nat): Machine
    requires p < |msg|
  {
    if 0 <= m.bodyLength <= |msg| - p
    then m.Goto(End).(fields := m.Goto(End).fields.(body := msg[p..p + m.bodyLength]))
    else m.(fault := Some(BodyOverrun))
  }

  /** One turn of the switch at position p. */
  function Step(m: Machine, msg: string, p: nat): (r: Machine)
    requires m.begin <= p < |msg|
    ensures r.begin <= p
  {
    var c := msg[p];
    var text := msg[m.begin..p];
    match m.fields.state
    case Start =>
      if IsEol(c) || IsBlank(c) then m else if IsUpper(c) then m.Mark(p, InMethod) else m.Goto(Invalid)
    case InMethod =>
      if IsUpper(c) then m
      else if IsBlank(c) then m.Mark(p, BeforePath).(fields := m.Goto(BeforePath).fields.(verb := MethodNamed(text)))
      else m.Goto(InvalidMethod)
    case BeforePath =>
      if IsBlank(c) then m else if c == '/' then m.Mark(p, InPath) else m.Goto(InvalidPath)
    case InPath =>
      if IsBlank(c) || c == '?'
      then m.(fields := m.fields.(path := text, state := if c == '?' then BeforeParamKey else BeforeVersion))
      else m
    case BeforeParamKey =>
      if IsBlank(c) || IsEol(c) then m.Goto(InvalidPath) else m.Mark(p, InParamKey)
    case InParamKey =>
      if c == '=' then m.Goto(BeforeParamValue).(paramKey := text)
      else if IsBlank(c) then m.Goto(InvalidPath)
      else m
    case BeforeParamValue =>
      if IsBlank(c) || IsEol(c) then m.Goto(InvalidPath) else m.Mark(p, InParamValue)
    case InParamValue =>
      if c == '&' then m.AddParam(text).Goto(BeforeParamKey)
      else if IsBlank(c) then m.AddParam(text).Goto(BeforeVersion)
      else m
    case BeforeVersion =>
      if IsBlank(c) then m else m.Mark(p, InVersion)
    case InVersion =>
      if c == CR then m.(fields := m.fields.(version := VersionNamed(text), state := WCr)) else m
    case InHeaderKey =>
      if c == ':' then m.Goto(BeforeHeaderValue).(headerKey := text) else m
    case BeforeHeaderValue =>  // falls through into the next case
      if IsBlank(c) then m
      else if c == CR then m.Mark(p, WCr).AddHeader("")
      else m.Mark(p, InHeaderValue)
    case InHeaderValue =>
      if c == CR then m.AddHeader(text).Goto(WCr) else m
    case WCr =>
      m.Goto(if c == LF then WCrLf else Invalid)
    case WCrLf =>
      if c == CR then m.Goto(WCrLfCr) else if IsBlank(c) then m.Goto(Invalid) else m.Mark(p, InHeaderKey)
    case WCrLfCr =>
      if c == LF then EndOfHead(m, msg, p) else m
    case InBody =>
      TakeBody(m, msg, p)
    case _ => m
  }

  /** The loop: from position p until it halts or the bytes run out. */
  function Run(m: Machine, msg: string, p: nat): Machine
    requires m.begin <= p
    decreases |msg| - p
  {
    if p >= |msg| || m.Halted() then m else Run(Step(m, msg, p), msg, p + 1)
  }

  /** What the locals of `parse` hold on entry. */
  function Entry(f: Fields): Machine {
    Machine(f, 0, "", "", 0, None)
  }

  // ---- The class ----

  class HttpRequest {
    var verb: Method
    var version: Version
    var path: string
    var params: map<string, string>
    var heads: map<string, string>
    var body: string
    var state: ParseState

    function View(): Fields
      reads this
    {
      Fields(verb, version, path, params, heads, body, state)
    }

    /** The source leaves method and version uninitialised: they are whatever was there. */
    constructor (someMethod: Method, someVersion: Version)
      ensures View() == Fresh(someMethod, someVersion)
    {
      verb, version := someMethod, someVersion;
      path, params, heads, body, state := "", map[], map[], "", Start;
    }

    /** `parse`. The result is the way it ended: None when it returned normally. */
    method Parse(msg: string) returns (fault: Option<Fault>)
      modifies this
      ensures View() == Run(Entry(old(View())), msg, 0).fields
      ensures fault == Run(Entry(old(View())), msg, 0).fault
    {
      var pos, begin := 0, 0;
      var paramKey, headerKey := "", "";
      var bodyLength := 0;
      fault := None;
      hide Run, Stoi, MethodNamed, VersionNamed, Insert;
      ghost var final := Run(Entry(View()), msg, 0);
      while fault.None?
            && state !in {Invalid, InvalidHeader, InvalidMethod, InvalidPath, InvalidVersion, End}
            && pos < |msg|
        invariant 0 <= begin <= pos <= |msg|
        invariant final == Run(Machine(View(), begin, paramKey, headerKey, bodyLength, fault), msg, pos)
      {
        ghost var before := Machine(View(), begin, paramKey, headerKey, bodyLength, fault);
        var c := msg[pos];
        match state {
          case Start =>
            if c == CR || c == LF || IsBlank(c) {
            } else if IsUpper(c) {
              begin := pos;
              state := InMethod;
            } else {
              state := Invalid;
            }
          case InMethod =>
            if IsUpper(c) {
            } else if IsBlank(c) {
              verb := MethodNamed(msg[begin..pos]);
              begin := pos;
              state := BeforePath;
            } else {
              state := InvalidMethod;
            }
          case BeforePath =>
            if IsBlank(c) {
            } else if c == '/' {
              begin := pos;
              state := InPath;
            } else {
              state := InvalidPath;
            }
          case InPath =>
            if IsBlank(c) {
              path := msg[begin..pos];
              state := BeforeVersion;
            } else if c == '?' {
              path := msg[begin..pos];
              state := BeforeParamKey;
            }
          case BeforeParamKey =>
            if IsBlank(c) || c == LF || c == CR {
              state := InvalidPath;
            } else {
              begin := pos;
              state := InParamKey;
            }
          case InParamKey =>
            if c == '=' {
              paramKey := msg[begin..pos];
              state := BeforeParamValue;
            } else if IsBlank(c) {
              state := InvalidPath;
            }
          case BeforeParamValue =>
            if IsBlank(c) || c == LF || c == CR {
              state := InvalidPath;
            } else {
              begin := pos;
              state := InParamValue;
            }
          case InParamValue =>
            if c == '&' {
              params := Insert(params, paramKey, msg[begin..pos]);
              state := BeforeParamKey;
            } else if IsBlank(c) {
              params := Insert(params, paramKey, msg[begin..pos]);
              state := BeforeVersion;
            }
          case BeforeVersion =>
            if !IsBlank(c) {
              begin := pos;
              state := InVersion;
            }
          case InVersion =>
            if c == CR {
              version := VersionNamed(msg[begin..pos]);
              state := WCr;
            }
          case InHeaderKey =>
            if c == ':' {
              headerKey := msg[begin..pos];
              state := BeforeHeaderValue;
            }
          case BeforeHeaderValue =>
            if !IsBlank(c) {
              begin := pos;
              state := InHeaderValue;
            }
            if c == CR {
              assert msg[begin..pos] == "";
              heads := Insert(heads, headerKey, msg[begin..pos]);
              state := WCr;
            }
          case InHeaderValue =>
            if c == CR {
              heads := Insert(heads, headerKey, msg[begin..pos]);
              state := WCr;
            }
          case InBody =>
            if 0 <= bodyLength <= |msg| - pos {
              body := msg[pos..pos + bodyLength];
              state := End;
            } else {
              fault := Some(BodyOverrun);
            }
          case WCr =>
            state := if c == LF then WCrLf else Invalid;
          case WCrLf =>
            if c == CR {
              state := WCrLfCr;
            } else if IsBlank(c) {
              state := Invalid;
            } else {
              begin := pos;
              state := InHeaderKey;
            }
          case WCrLfCr =>
            if c == LF {
              if CONTENT_LENGTH in heads {
                match Stoi(heads[CONTENT_LENGTH]) {
                  case Value(n) =>
                    bodyLength := n;
                    state := if bodyLength > 0 then InBody else End;
                  case NotANumber =>
                    fault := Some(LengthNotANumber);
                  case OutOfRange =>
                    fault := Some(LengthOutOfRange);
                }
              } else {
                bodyLength := |msg| - pos - 1;
                state := InBody;
              }
            }
          case _ =>
        }
        assert Machine(View(), begin, paramKey, headerKey, bodyLength, fault) == Step(before, msg, pos);
        RunGoesOn(before, msg, pos);
        pos := pos + 1;
      }
      RunEnds(Machine(View(), begin, paramKey, headerKey, bodyLength, fault), msg, pos);
    }
  }

  lemma RunGoesOn(m: Machine, msg: string, p: nat)
    requires m.begin <= p < |msg| && !m.Halted()
    ensures Run(m, msg, p) == Run(Step(m, msg, p), msg, p + 1)
  {
  }

  lemma RunEnds(m: Machine, msg: string, p: nat)
    requires m.begin <= p && (p >= |msg| || m.Halted())
    ensures Run(m, msg, p) == m
  {
  }

  function Fresh(someMethod: Method, someVersion: Version): Fields {
    Fields(someMethod, someVersion, "", map[], map[], "", Start)
  }
}
