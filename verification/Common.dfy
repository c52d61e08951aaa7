/** Small vocabulary shared by the models. */
module Common {

  datatype Option<+T> = None | Some(value: T)

  /** One step of a protocol: taken, not enabled, or the program fails (an assertion, a bad dereference). */
  datatype Outcome<+S> = Next(state: S) | Disabled | Crashed

  /** The concatenation of a list of byte strings. */
  function Flat(parts: seq<string>): string {
    if parts == [] then "" else parts[0] + Flat(parts[1..])
  }

  lemma {:induction false} FlatAppend(a: seq<string>, b: seq<string>)
    ensures Flat(a + b) == Flat(a) + Flat(b)
  {
    if a == [] {
      assert a + b == b;
    } else {
      assert (a + b)[1..] == a[1..] + b;
      FlatAppend(a[1..], b);
    }
  }

  lemma FlatSnoc(a: seq<string>, x: string)
    ensures Flat(a + [x]) == Flat(a) + x
  {
    FlatAppend(a, [x]);
    assert Flat([x]) == x + Flat([]);
  }

  /** A list splits the stream it carries: the first k parts make a prefix of the whole. */
  lemma FlatPrefix(parts: seq<string>, k: nat)
    requires k <= |parts|
    ensures Flat(parts[..k]) <= Flat(parts)
  {
    assert parts == parts[..k] + parts[k..];
    FlatAppend(parts[..k], parts[k..]);
  }

  lemma Assoc<T>(a: seq<T>, b: seq<T>, c: seq<T>)
    ensures a + (b + c) == a + b + c
  {
  }
}
