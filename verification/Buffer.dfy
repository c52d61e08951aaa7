/**
 The socket buffer of vserver/net/Buffer.h: a vector with a read and a write
 index, eight spare bytes in front, in-place compaction and growth on demand.
 Every method is proved to act on the readable slice as a byte queue does.
 */
module Buffers {
  import opened Common

  const CHEAP_PREPEND: nat := 8
  const INITIAL_SIZE: nat := 1024
  const EXTRA_SIZE: nat := 65536

  /** What one call of `readv` did: it filled some bytes (none at end of file), or it failed. */
  datatype Readv = Filled(data: string) | Failed

  /** What one call of `read` did; Again is EAGAIN, an empty chunk the end of the stream. */
  datatype Read = Got(data: string) | Again | Broken

  /** Some chunks of at most the size asked for, and then the read that ends them. */
  predicate AllReads(rs: seq<Read>) {
    && rs != []
    && (forall k :: 0 <= k < |rs| ==> rs[k].Got? ==> |rs[k].data| <= EXTRA_SIZE)
    && (forall k :: 0 <= k < |rs| ==> ((rs[k].Got? && rs[k].data != "") <==> k < |rs| - 1))
  }

  function Chunks(rs: seq<Read>): seq<string> {
    if rs == [] then []
    else Chunk(rs[0]) + Chunks(rs[1..])
  }

  function Chunk(x: Read): seq<string> {
    if x.Got? && x.data != "" then [x.data] else []
  }

  lemma {:induction false} ChunksSnoc(rs: seq<Read>, x: Read)
    ensures Chunks(rs + [x]) == Chunks(rs) + Chunk(x)
  {
    if rs == [] {
      assert rs + [x] == [x];
    } else {
      assert (rs + [x])[1..] == rs[1..] + [x];
      ChunksSnoc(rs[1..], x);
      Assoc(Chunk(rs[0]), Chunks(rs[1..]), Chunk(x));
    }
  }

  lemma ChunksSoFar(rs: seq<Read>, k: nat)
    requires k < |rs|
    ensures Chunks(rs[..k + 1]) == Chunks(rs[..k]) + Chunk(rs[k])
    ensures k == |rs| - 1 ==> rs[..k + 1] == rs
  {
    hide Chunks;
    assert rs[..k + 1] == rs[..k] + [rs[k]];
    ChunksSnoc(rs[..k], rs[k]);
  }

  class Buffer {
    var store: array<char>
    var readIndex: nat
    var writeIndex: nat

    ghost predicate Valid()
      reads this
    {
      CHEAP_PREPEND <= readIndex <= writeIndex <= store.Length
    }

    /** The abstract value: the bytes between the two indices. */
    function Readable(): string
      requires Valid()
      reads this, store
    {
      store[readIndex..writeIndex]
    }

    function ReadableBytes(): (n: nat)
      requires Valid()
      reads this, store
      ensures n == |Readable()|
    {
      writeIndex - readIndex
    }

    function WritableBytes(): nat
      requires Valid()
      reads this
    {
      store.Length - writeIndex
    }

    constructor (initialSize: nat)
      ensures Valid() && fresh(store)
      ensures Readable() == "" && WritableBytes() == initialSize && readIndex == 8
    {
      store := new char[CHEAP_PREPEND + initialSize](_ => '\0');
      readIndex := CHEAP_PREPEND;
      writeIndex := CHEAP_PREPEND;
    }

    method RetrieveAll()
      requires Valid()
      modifies this`readIndex, this`writeIndex
      ensures Valid() && Readable() == ""
      ensures readIndex == CHEAP_PREPEND
    {
      readIndex := CHEAP_PREPEND;
      writeIndex := CHEAP_PREPEND;
    }

    /** `retrieve`: the read index moves on, and both go back to the front once nothing is left. */
    method Retrieve(len: nat)
      requires Valid() && len <= |Readable()|
      modifies this`readIndex, this`writeIndex
      ensures Valid() && Readable() == old(Readable())[len..]
      ensures if len < |old(Readable())| then readIndex == old(readIndex) + len && writeIndex == old(writeIndex)
              else readIndex == writeIndex == 8
    {
      if len < ReadableBytes() {
        readIndex := readIndex + len;
      } else {
        RetrieveAll();
      }
    }

    method RetrieveAsString(len: nat) returns (result: string)
      requires Valid() && len <= |Readable()|
      modifies this`readIndex, this`writeIndex
      ensures Valid() && result + Readable() == old(Readable()) && |result| == len
    {
      result := store[readIndex..readIndex + len];
      Retrieve(len);
    }

    /** The growing half of `makeSpace`: `vector::resize(m_pWrite + len)`. */
    method Resize(len: nat)
      requires Valid() && WritableBytes() < len
      modifies this`store
      ensures Valid() && fresh(store)
      ensures store.Length == old(writeIndex) + len > old(store.Length)
      ensures Readable() == old(Readable())
    {
      var grown := new char[writeIndex + len](_ => '\0');
      forall i | 0 <= i < store.Length {
        grown[i] := store[i];
      }
      assert grown[readIndex..writeIndex] == store[readIndex..writeIndex];
      store := grown;
    }

    /** The compacting half of `makeSpace`: an overlapping forward copy to the front. */
    method Compact()
      requires Valid() && CHEAP_PREPEND < readIndex
      modifies this`readIndex, this`writeIndex, store
      ensures Valid() && store == old(store)
      ensures readIndex == CHEAP_PREPEND && Readable() == old(Readable())
    {
      var readable := ReadableBytes();
      ghost var was := store[..];
      var k := 0;
      while k < readable
        modifies store
        invariant 0 <= k <= readable
        invariant store[CHEAP_PREPEND..CHEAP_PREPEND + k] == was[readIndex..readIndex + k]
        invariant forall j :: readIndex + k <= j < writeIndex ==> store[j] == was[j]
      {
        store[CHEAP_PREPEND + k] := store[readIndex + k];
        k := k + 1;
      }
      assert store[CHEAP_PREPEND..CHEAP_PREPEND + readable] == was[readIndex..writeIndex];
      readIndex := CHEAP_PREPEND;
      writeIndex := CHEAP_PREPEND + readable;
    }

    /**
     `makeSpace`. The precondition is the assertion of its compacting branch:
     called with enough room and nothing in front to reclaim, the source aborts;
     `ensureWritableBytes` never calls it so.
     */
    method MakeSpace(len: nat)
      requires Valid()
      requires WritableBytes() < len || CHEAP_PREPEND < readIndex
      modifies this, store
      ensures Valid() && (store == old(store) || fresh(store))
      ensures Readable() == old(Readable())
      ensures WritableBytes() >= len
      ensures store.Length >= old(store.Length)
      ensures if old(WritableBytes() + readIndex) < len + 8
              then store != old(store) && store.Length == old(writeIndex) + len && readIndex == old(readIndex)
              else store == old(store) && readIndex == 8
    {
      if WritableBytes() + readIndex < len + CHEAP_PREPEND {
        Resize(len);
      } else {
        Compact();
      }
    }

    method EnsureWritableBytes(len: nat)
      requires Valid()
      modifies this, store
      ensures Valid() && (store == old(store) || fresh(store))
      ensures Readable() == old(Readable())
      ensures WritableBytes() >= len
      ensures store.Length >= old(store.Length)
      ensures if old(WritableBytes()) >= len then store == old(store) && readIndex == old(readIndex)
              else if old(WritableBytes() + readIndex) < len + 8 then store.Length == old(writeIndex) + len
              else store == old(store) && readIndex == 8
    {
      if WritableBytes() < len {
        MakeSpace(len);
      }
    }

    method Append(data: string)
      requires Valid()
      modifies this, store
      ensures Valid() && (store == old(store) || fresh(store))
      ensures Readable() == old(Readable()) + data
      ensures store.Length >= old(store.Length)
    {
      EnsureWritableBytes(|data|);
      CopyIn(data);
      writeIndex := writeIndex + |data|;
    }

    /** Bytes laid down behind the readable ones, by `std::copy` or by the kernel. */
    method CopyIn(data: string)
      requires Valid() && |data| <= WritableBytes()
      modifies store
      ensures Valid() && Readable() == old(Readable())
      ensures store[readIndex..writeIndex + |data|] == old(Readable()) + data
    {
      forall i | 0 <= i < |data| {
        store[writeIndex + i] := data[i];
      }
      assert store[readIndex..writeIndex] == old(store[readIndex..writeIndex]);
    }

    /** The most `readOnece` can ask the kernel for. */
    function ReadCapacity(): nat
      requires Valid()
      reads this
    {
      WritableBytes() + if WritableBytes() < EXTRA_SIZE then EXTRA_SIZE else 0
    }

    /**
     `readOnece`: one scatter read into the free tail and, when that is short,
     into a spill area that is appended afterwards. A failed `readv` throws
     before the buffer is touched.
     */
    method ReadOnce(io: Readv) returns (n: Option<nat>)
      requires Valid()
      requires io.Filled? ==> |io.data| <= ReadCapacity()
      modifies this, store
      ensures Valid() && (store == old(store) || fresh(store))
      ensures store.Length >= old(store.Length)
      ensures io.Failed? ==> n == None && Readable() == old(Readable())
      ensures io.Filled? ==> n == Some(|io.data|) && Readable() == old(Readable()) + io.data
    {
      var writable := WritableBytes();
      match io {
        case Failed =>
          n := None;
        case Filled(data) =>
          n := Some(|data|);
          if |data| <= writable {
            CopyIn(data);
            writeIndex := writeIndex + |data|;
          } else {
            CopyIn(data[..writable]);
            writeIndex := store.Length;
            assert Readable() == old(Readable()) + data[..writable];
            Append(data[writable..]);
            assert data[..writable] + data[writable..] == data;
            assert Readable() == old(Readable()) + (data[..writable] + data[writable..]);
          }
      }
    }

    /**
     `readAll`: every chunk read is appended in turn, until the stream ends, the kernel has
     no more, or a read fails otherwise, which aborts (no result).
     */
    method ReadAll(rs: seq<Read>) returns (n: Option<nat>)
      requires Valid() && AllReads(rs)
      modifies this, store
      ensures Valid() && (store == old(store) || fresh(store))
      ensures Readable() == old(Readable()) + Flat(Chunks(rs))
      ensures n == if rs[|rs| - 1].Broken? then None else Some(|Readable()|)
    {
      var k := 0;
      assert rs[..0] == [] && Chunks([]) == [];
      while true
        invariant 0 <= k < |rs| && AllReads(rs)
        invariant Valid() && (store == old(store) || fresh(store))
        invariant Readable() == old(Readable()) + Flat(Chunks(rs[..k]))
        decreases |rs| - k
      {
        ChunksSoFar(rs, k);
        assert k == |rs| - 1 ==> Chunk(rs[k]) == [] && Chunks(rs) == Chunks(rs[..k]);
        match rs[k] {
          case Broken => return None;
          case Again => break;
          case Got(data) =>
            if data == "" {
              break;
            }
            FlatSnoc(Chunks(rs[..k]), data);
            Append(data);
        }
        k := k + 1;
      }
      n := Some(ReadableBytes());
    }

    /** A whole run of the buffer follows the queue, whatever the layout went through. */
    method Replay(ops: seq<Op>) returns (taken: string)
      requires Valid() && Legal(Readable(), ops)
      modifies this, store
      ensures Valid() && (store == old(store) || fresh(store))
      ensures Readable() == After(old(Readable()), ops)
      ensures taken == Taken(old(Readable()), ops)
      ensures taken + Readable() == old(Readable()) + Enqueued(ops)
      ensures store.Length >= old(store.Length)
    {
      hide After, Taken, Legal, Enqueued;
      var k := 0;
      taken := "";
      ghost var q := Readable();
      while k < |ops|
        invariant 0 <= k <= |ops|
        invariant Valid() && (store == old(store) || fresh(store))
        invariant store.Length >= old(store.Length)
        invariant Legal(Readable(), ops[k..])
        invariant After(q, ops) == After(Readable(), ops[k..])
        invariant Taken(q, ops) == taken + Taken(Readable(), ops[k..])
      {
        NextOp(Readable(), ops, k);
        match ops[k] {
          case Put(data) =>
            Append(data);
          case Take(len) =>
            var bytes := RetrieveAsString(len);
            Assoc(taken, bytes, Taken(Readable(), ops[k + 1..]));
            taken := taken + bytes;
        }
        k := k + 1;
      }
      NoMoreOps(Readable(), ops);
      QueueConserves(q, ops);
    }
  }

  // ---- The queue the buffer refines ----

  datatype Op = Put(data: string) | Take(len: nat)

  function Enqueued(ops: seq<Op>): string {
    if ops == [] then "" else (if ops[0].Put? then ops[0].data else "") + Enqueued(ops[1..])
  }

  /** Never take more than is there: the assertion at the head of `retrieve`. */
  predicate Legal(q: string, ops: seq<Op>)
    decreases |ops|
  {
    ops == [] ||
    match ops[0]
    case Put(data) => Legal(q + data, ops[1..])
    case Take(len) => len <= |q| && Legal(q[len..], ops[1..])
  }

  function After(q: string, ops: seq<Op>): string
    requires Legal(q, ops)
    decreases |ops|
  {
    if ops == [] then q else
    match ops[0]
    case Put(data) => After(q + data, ops[1..])
    case Take(len) => After(q[len..], ops[1..])
  }

  function Taken(q: string, ops: seq<Op>): string
    requires Legal(q, ops)
    decreases |ops|
  {
    if ops == [] then "" else
    match ops[0]
    case Put(data) => Taken(q + data, ops[1..])
    case Take(len) => q[..len] + Taken(q[len..], ops[1..])
  }

  /** What the k-th call does to the queue. */
  lemma NextOp(q: string, ops: seq<Op>, k: nat)
    requires k < |ops| && Legal(q, ops[k..])
    ensures ops[k].Put? ==>
              var q' := q + ops[k].data;
              && Legal(q', ops[k + 1..]) && After(q, ops[k..]) == After(q', ops[k + 1..])
              && Taken(q, ops[k..]) == Taken(q', ops[k + 1..])
    ensures ops[k].Take? ==>
              && ops[k].len <= |q| && Legal(q[ops[k].len..], ops[k + 1..])
              && After(q, ops[k..]) == After(q[ops[k].len..], ops[k + 1..])
              && Taken(q, ops[k..]) == q[..ops[k].len] + Taken(q[ops[k].len..], ops[k + 1..])
  {
    assert ops[k..][0] == ops[k] && ops[k..][1..] == ops[k + 1..];
  }

  lemma NoMoreOps(q: string, ops: seq<Op>)
    ensures Legal(q, ops[|ops|..]) && After(q, ops[|ops|..]) == q && Taken(q, ops[|ops|..]) == ""
  {
    assert ops[|ops|..] == [];
  }

  /** Conservation: what was taken, followed by what is left, is what went in, in order. */
  lemma {:induction false} QueueConserves(q: string, ops: seq<Op>)
    requires Legal(q, ops)
    ensures Taken(q, ops) + After(q, ops) == q + Enqueued(ops)
    decreases |ops|
  {
    if ops != [] {
      match ops[0]
      case Put(data) =>
        QueueConserves(q + data, ops[1..]);
      case Take(len) =>
        QueueConserves(q[len..], ops[1..]);
        assert Taken(q, ops) + After(q, ops) == q[..len] + (q[len..] + Enqueued(ops[1..]));
        assert q[..len] + (q[len..] + Enqueued(ops[1..])) == q + Enqueued(ops[1..]);
    }
  }
}
