/** The observed process's address space and the accessor's typed reads.

    A snapshot maps 32-bit addresses to bytes. Integer reads assemble
    little-endian bytes (the observed process runs on x86), so a 2-byte
    field and a 4-byte field only interfere when their byte ranges overlap.
    String reads use the accessor's own length-aware decoding, which lives
    in the memory library and is not part of this model: a snapshot simply
    records the string the accessor decodes at each string-slot address.

    A pointer chain is a list of offsets: each step adds its offset to the
    current pointer and dereferences (one 32-bit read); the chain ends in
    one typed read at a final offset from the last pointer. */
module Memory {
  import opened Results

  const I16Min: int := -0x8000
  const I16Max: int := 0x7FFF
  const I32Min: int := -0x8000_0000
  const I32Max: int := 0x7FFF_FFFF
  const U32Bound: int := 0x1_0000_0000
  const U64Bound: int := 0x1_0000_0000_0000_0000

  /** Two's-complement wrap-around into the `i32` range. */
  function WrapI32(x: int): (r: int)
    ensures I32Min <= r <= I32Max
    ensures I32Min <= x <= I32Max ==> r == x
  {
    (x - I32Min) % U32Bound + I32Min
  }

  type Byte = b: int | 0 <= b < 256

  datatype Snapshot = Snapshot(bytes: map<int, Byte>, strings: map<int, string>)

  /** A read of an unmapped or unreadable address; `addr` is the address the
      failing typed read started at. */
  datatype ReadError = MemoryRead(addr: int)

  predicate Mapped(m: Snapshot, a: int, n: nat)
  {
    forall i :: a <= i < a + n ==> i in m.bytes
  }

  function ReadBytes(m: Snapshot, a: int, n: nat): (r: Result<seq<Byte>, ReadError>)
    ensures r.Ok? <==> Mapped(m, a, n)
    ensures r.Ok? ==> |r.value| == n && forall k :: 0 <= k < n ==> r.value[k] == m.bytes[a + k]
    ensures r.Err? ==> r.error == MemoryRead(a)
  {
    if forall i | a <= i < a + n :: i in m.bytes then Ok(seq(n, k requires 0 <= k < n => m.bytes[a + k]))
    else Err(MemoryRead(a))
  }

  function Power256(n: nat): (p: nat)
    ensures p >= 1
  {
    if n == 0 then 1 else 256 * Power256(n - 1)
  }

  /** Little-endian value of a byte sequence. */
  function Unsigned(bs: seq<Byte>): (v: nat)
    ensures v < Power256(|bs|)
  {
    if |bs| == 0 then 0 else bs[0] + 256 * Unsigned(bs[1..])
  }

  /** Two's-complement reading of an unsigned value of the given width. */
  function ToSigned(u: int, bound: int): int
  {
    if u >= bound / 2 then u - bound else u
  }

  function ReadI16(m: Snapshot, a: int): (r: Result<int, ReadError>)
    ensures r.Ok? <==> Mapped(m, a, 2)
    ensures r.Ok? ==> I16Min <= r.value <= I16Max
    ensures r.Err? ==> r.error == MemoryRead(a)
  {
    var bs :- ReadBytes(m, a, 2);
    assert Power256(2) == 0x1_0000;
    Ok(ToSigned(Unsigned(bs), 0x1_0000))
  }

  function ReadI32(m: Snapshot, a: int): (r: Result<int, ReadError>)
    ensures r.Ok? <==> Mapped(m, a, 4)
    ensures r.Ok? ==> I32Min <= r.value <= I32Max
    ensures r.Err? ==> r.error == MemoryRead(a)
  {
    var bs :- ReadBytes(m, a, 4);
    assert Power256(4) == U32Bound;
    Ok(ToSigned(Unsigned(bs), U32Bound))
  }

  function ReadU32(m: Snapshot, a: int): (r: Result<int, ReadError>)
    ensures r.Ok? <==> Mapped(m, a, 4)
    ensures r.Ok? ==> 0 <= r.value < U32Bound
    ensures r.Err? ==> r.error == MemoryRead(a)
  {
    var bs :- ReadBytes(m, a, 4);
    assert Power256(4) == U32Bound;
    Ok(Unsigned(bs))
  }

  function ReadU64(m: Snapshot, a: int): (r: Result<int, ReadError>)
    ensures r.Ok? <==> Mapped(m, a, 8)
    ensures r.Ok? ==> 0 <= r.value < U64Bound
    ensures r.Err? ==> r.error == MemoryRead(a)
  {
    var bs :- ReadBytes(m, a, 8);
    assert Power256(8) == U64Bound;
    Ok(Unsigned(bs))
  }

  function ReadString(m: Snapshot, a: int): (r: Result<string, ReadError>)
    ensures r.Ok? <==> a in m.strings
    ensures r.Ok? ==> r.value == m.strings[a]
    ensures r.Err? ==> r.error == MemoryRead(a)
  {
    if a in m.strings then Ok(m.strings[a]) else Err(MemoryRead(a))
  }

  // ---------------------------------------------------------------------
  // Writing, the inverse of reading (used to lay out fake memories)
  // ---------------------------------------------------------------------

  /** Little-endian bytes of `v` in `n` bytes. */
  function Encode(v: nat, n: nat): (bs: seq<Byte>)
    requires v < Power256(n)
    ensures |bs| == n
  {
    if n == 0 then [] else [v % 256] + Encode(v / 256, n - 1)
  }

  lemma {:induction false} UnsignedEncode(v: nat, n: nat)
    requires v < Power256(n)
    ensures Unsigned(Encode(v, n)) == v
    decreases n
  {
    if n > 0 {
      UnsignedEncode(v / 256, n - 1);
      assert Encode(v, n)[1..] == Encode(v / 256, n - 1);
    }
  }

  function ByteAt(bs: seq<Byte>, a: int, i: int): Byte
    requires a <= i < a + |bs|
  {
    bs[i - a]
  }

  function Write(m: Snapshot, a: int, bs: seq<Byte>): (m': Snapshot)
    ensures m'.strings == m.strings
    ensures Mapped(m', a, |bs|)
    ensures forall k :: 0 <= k < |bs| ==> m'.bytes[a + k] == bs[k]
    ensures forall i :: (i < a || a + |bs| <= i) ==> (i in m'.bytes <==> i in m.bytes)
    ensures forall i :: (i < a || a + |bs| <= i) && i in m.bytes ==> m'.bytes[i] == m.bytes[i]
  {
    var written := map i | a <= i < a + |bs| :: ByteAt(bs, a, i);
    assert forall k :: 0 <= k < |bs| ==> ByteAt(bs, a, a + k) == bs[k];
    m.(bytes := m.bytes + written)
  }

  function EncodeI16(v: int): (bs: seq<Byte>)
    requires I16Min <= v <= I16Max
    ensures |bs| == 2
  {
    assert Power256(2) == 0x1_0000;
    Encode(if v < 0 then v + 0x1_0000 else v, 2)
  }

  function EncodeI32(v: int): (bs: seq<Byte>)
    requires I32Min <= v <= I32Max
    ensures |bs| == 4
  {
    assert Power256(4) == U32Bound;
    Encode(if v < 0 then v + U32Bound else v, 4)
  }

  function EncodeU64(v: int): (bs: seq<Byte>)
    requires 0 <= v < U64Bound
    ensures |bs| == 8
  {
    assert Power256(8) == U64Bound;
    Encode(v, 8)
  }

  lemma ReadBytesWritten(m: Snapshot, a: int, bs: seq<Byte>)
    ensures ReadBytes(Write(m, a, bs), a, |bs|) == Ok(bs)
  {
    var r := ReadBytes(Write(m, a, bs), a, |bs|);
    assert r.value == bs;
  }

  /** Reading back what was written gives the value written. */
  lemma ReadWrittenI16(m: Snapshot, a: int, v: int)
    requires I16Min <= v <= I16Max
    ensures ReadI16(Write(m, a, EncodeI16(v)), a) == Ok(v)
  {
    assert Power256(2) == 0x1_0000;
    var u := if v < 0 then v + 0x1_0000 else v;
    ReadBytesWritten(m, a, EncodeI16(v));
    UnsignedEncode(u, 2);
  }

  lemma ReadWrittenI32(m: Snapshot, a: int, v: int)
    requires I32Min <= v <= I32Max
    ensures ReadI32(Write(m, a, EncodeI32(v)), a) == Ok(v)
  {
    assert Power256(4) == U32Bound;
    var u := if v < 0 then v + U32Bound else v;
    ReadBytesWritten(m, a, EncodeI32(v));
    UnsignedEncode(u, 4);
  }

  lemma ReadWrittenU64(m: Snapshot, a: int, v: int)
    requires 0 <= v < U64Bound
    ensures ReadU64(Write(m, a, EncodeU64(v)), a) == Ok(v)
  {
    assert Power256(8) == U64Bound;
    ReadBytesWritten(m, a, EncodeU64(v));
    UnsignedEncode(v, 8);
  }

  // ---------------------------------------------------------------------
  // Framing: a read depends only on the bytes it covers
  // ---------------------------------------------------------------------

  predicate AgreeOn(m1: Snapshot, m2: Snapshot, a: int, n: nat)
  {
    forall i :: a <= i < a + n ==> (i in m1.bytes <==> i in m2.bytes) && (i in m1.bytes ==> m1.bytes[i] == m2.bytes[i])
  }

  lemma ReadBytesFrame(m1: Snapshot, m2: Snapshot, a: int, n: nat)
    requires AgreeOn(m1, m2, a, n)
    ensures ReadBytes(m1, a, n) == ReadBytes(m2, a, n)
  {
    if Mapped(m1, a, n) {
      assert ReadBytes(m1, a, n).value == ReadBytes(m2, a, n).value;
    }
  }

  /** Writing `bs` at `a` leaves every read of a disjoint byte range as it was. */
  lemma WriteFrame(m: Snapshot, a: int, bs: seq<Byte>, b: int, n: nat)
    requires b + n <= a || a + |bs| <= b
    ensures AgreeOn(Write(m, a, bs), m, b, n)
  {
  }

  // ---------------------------------------------------------------------
  // Pointer chains
  // ---------------------------------------------------------------------

  /** The pointer a chain ends at, and the addresses it dereferenced, in order. */
  datatype Walk = Walk(target: int, visited: seq<int>)

  /** Follows `offsets` from `base`: one 32-bit dereference per offset. */
  function FollowChain(m: Snapshot, base: int, offsets: seq<int>): (r: Result<Walk, ReadError>)
    ensures r.Ok? ==> |r.value.visited| == |offsets|
    ensures r.Ok? && |offsets| > 0 ==> r.value.visited[0] == base + offsets[0]
    ensures r.Err? ==> |offsets| > 0 && ReadI32(m, r.error.addr).Err?
    decreases |offsets|
  {
    if |offsets| == 0 then Ok(Walk(base, []))
    else
      var next :- ReadI32(m, base + offsets[0]);
      var rest :- FollowChain(m, next, offsets[1..]);
      Ok(Walk(rest.target, [base + offsets[0]] + rest.visited))
  }

  /** A successful walk read every address it visited; each address after
      the first is the pointer read at the one before plus the next offset,
      and the walk ends at the last pointer read. */
  lemma FollowChainWalk(m: Snapshot, base: int, offsets: seq<int>)
    requires FollowChain(m, base, offsets).Ok?
    ensures var w := FollowChain(m, base, offsets).value;
      && (forall i :: 0 <= i < |offsets| ==> ReadI32(m, w.visited[i]).Ok?)
      && (forall i :: 0 <= i < |offsets| - 1 ==> w.visited[i + 1] == ReadI32(m, w.visited[i]).value + offsets[i + 1])
      && w.target == (if |offsets| == 0 then base else ReadI32(m, w.visited[|offsets| - 1]).value)
  {
    WalkReadable(m, base, offsets);
    WalkLinks(m, base, offsets);
    WalkTarget(m, base, offsets);
  }

  lemma {:induction false} WalkReadable(m: Snapshot, base: int, offsets: seq<int>)
    requires FollowChain(m, base, offsets).Ok?
    ensures forall i :: 0 <= i < |offsets| ==> ReadI32(m, FollowChain(m, base, offsets).value.visited[i]).Ok?
    decreases |offsets|
  {
    if |offsets| > 0 {
      ChainTail(m, base, offsets);
      var next := ReadI32(m, base + offsets[0]).value;
      WalkReadable(m, next, offsets[1..]);
      var w := FollowChain(m, base, offsets).value;
      var rest := FollowChain(m, next, offsets[1..]).value;
      assert forall i :: 1 <= i < |offsets| ==> w.visited[i] == rest.visited[i - 1];
    }
  }

  lemma {:induction false} WalkLinks(m: Snapshot, base: int, offsets: seq<int>)
    requires FollowChain(m, base, offsets).Ok?
    ensures var w := FollowChain(m, base, offsets).value;
      forall i :: 0 <= i < |offsets| - 1 ==>
        ReadI32(m, w.visited[i]).Ok? && w.visited[i + 1] == ReadI32(m, w.visited[i]).value + offsets[i + 1]
    decreases |offsets|
  {
    if |offsets| > 0 {
      ChainTail(m, base, offsets);
      var next := ReadI32(m, base + offsets[0]).value;
      WalkLinks(m, next, offsets[1..]);
      var w := FollowChain(m, base, offsets).value;
      var rest := FollowChain(m, next, offsets[1..]).value;
      forall i | 0 <= i < |offsets| - 1
        ensures ReadI32(m, w.visited[i]).Ok? && w.visited[i + 1] == ReadI32(m, w.visited[i]).value + offsets[i + 1]
      {
        assert w.visited[i + 1] == rest.visited[i];
        if i == 0 {
          assert w.visited[0] == base + offsets[0];
          assert rest.visited[0] == next + offsets[1..][0];
        } else {
          assert w.visited[i] == rest.visited[i - 1];
          assert offsets[1..][i] == offsets[i + 1];
        }
      }
    }
  }

  lemma {:induction false} WalkTarget(m: Snapshot, base: int, offsets: seq<int>)
    requires FollowChain(m, base, offsets).Ok?
    ensures var w := FollowChain(m, base, offsets).value;
      if |offsets| == 0 then w.target == base
      else ReadI32(m, w.visited[|offsets| - 1]).Ok? && w.target == ReadI32(m, w.visited[|offsets| - 1]).value
    decreases |offsets|
  {
    if |offsets| > 0 {
      ChainTail(m, base, offsets);
      var next := ReadI32(m, base + offsets[0]).value;
      WalkTarget(m, next, offsets[1..]);
      var w := FollowChain(m, base, offsets).value;
      var rest := FollowChain(m, next, offsets[1..]).value;
      if |offsets| > 1 {
        assert w.visited[|offsets| - 1] == rest.visited[|offsets| - 2];
      }
    }
  }

  /** A walk that succeeded made its first read and then walked the rest
      of the chain from the pointer it read. */
  lemma ChainTail(m: Snapshot, base: int, offsets: seq<int>)
    requires |offsets| > 0 && FollowChain(m, base, offsets).Ok?
    ensures ReadI32(m, base + offsets[0]).Ok?
    ensures FollowChain(m, ReadI32(m, base + offsets[0]).value, offsets[1..]).Ok?
    ensures var rest := FollowChain(m, ReadI32(m, base + offsets[0]).value, offsets[1..]).value;
      FollowChain(m, base, offsets).value == Walk(rest.target, [base + offsets[0]] + rest.visited)
  {
  }

  /** Every pointer a successful walk dereferenced reads the same in `m2`. */
  predicate AgreeOnWalk(m1: Snapshot, m2: Snapshot, w: Walk)
  {
    forall i :: 0 <= i < |w.visited| ==> ReadI32(m1, w.visited[i]) == ReadI32(m2, w.visited[i])
  }

  lemma ReadI32Frame(m1: Snapshot, m2: Snapshot, a: int)
    requires AgreeOn(m1, m2, a, 4)
    ensures ReadI32(m1, a) == ReadI32(m2, a)
  {
    ReadBytesFrame(m1, m2, a, 4);
  }

  lemma ChainUnfold(m: Snapshot, base: int, offsets: seq<int>)
    requires |offsets| > 0 && ReadI32(m, base + offsets[0]).Ok?
    requires FollowChain(m, ReadI32(m, base + offsets[0]).value, offsets[1..]).Ok?
    ensures var rest := FollowChain(m, ReadI32(m, base + offsets[0]).value, offsets[1..]).value;
      FollowChain(m, base, offsets) == Ok(Walk(rest.target, [base + offsets[0]] + rest.visited))
  {
  }

  /** A chain reads nothing but the four bytes at each address it dereferences. */
  lemma {:induction false} ChainFrame(m1: Snapshot, m2: Snapshot, base: int, offsets: seq<int>)
    requires FollowChain(m1, base, offsets).Ok?
    requires AgreeOnWalk(m1, m2, FollowChain(m1, base, offsets).value)
    ensures FollowChain(m2, base, offsets) == FollowChain(m1, base, offsets)
    decreases |offsets|
  {
    if |offsets| > 0 {
      var a := base + offsets[0];
      ChainTail(m1, base, offsets);
      var next := ReadI32(m1, a).value;
      var rest := FollowChain(m1, next, offsets[1..]).value;
      AgreeOnWalkTail(m1, m2, FollowChain(m1, base, offsets).value, a, rest);
      ChainFrame(m1, m2, next, offsets[1..]);
      ChainUnfold(m2, base, offsets);
    }
  }

  /** Agreement on a walk is agreement on its first address and on the
      rest of it. */
  lemma AgreeOnWalkTail(m1: Snapshot, m2: Snapshot, w: Walk, a: int, rest: Walk)
    requires w.visited == [a] + rest.visited
    requires AgreeOnWalk(m1, m2, w)
    ensures ReadI32(m2, a) == ReadI32(m1, a)
    ensures AgreeOnWalk(m1, m2, rest)
  {
    assert w.visited[0] == a;
    assert forall i :: 0 <= i < |rest.visited| ==> rest.visited[i] == w.visited[i + 1];
  }

  /** `ptrs` are the pointers a chain reads, listed step by step: the
      first step reads the 32-bit pointer `ptrs[0]` at `base + offsets[0]`,
      and the rest of the chain starts from it. */
  predicate Derefs(m: Snapshot, base: int, offsets: seq<int>, ptrs: seq<int>)
    decreases |offsets|
  {
    |ptrs| == |offsets| &&
    (|offsets| == 0 || (ReadI32(m, base + offsets[0]) == Ok(ptrs[0]) && Derefs(m, ptrs[0], offsets[1..], ptrs[1..])))
  }

  /** A chain whose pointers are all readable ends at the last of them. */
  lemma {:induction false} ChainFollowsDerefs(m: Snapshot, base: int, offsets: seq<int>, ptrs: seq<int>)
    requires Derefs(m, base, offsets, ptrs)
    ensures FollowChain(m, base, offsets).Ok?
    ensures FollowChain(m, base, offsets).value.target == (if |ptrs| == 0 then base else ptrs[|ptrs| - 1])
    decreases |offsets|
  {
    if |offsets| > 0 {
      ChainFollowsDerefs(m, ptrs[0], offsets[1..], ptrs[1..]);
      ChainUnfold(m, base, offsets);
    }
  }

  /** A chain followed by an `i16` read: fails exactly when the chain or the
      final two bytes are unreadable. */
  function ChainI16(m: Snapshot, base: int, offsets: seq<int>, field: int): (r: Result<int, ReadError>)
    ensures r.Ok? <==> FollowChain(m, base, offsets).Ok? && Mapped(m, FollowChain(m, base, offsets).value.target + field, 2)
    ensures r.Ok? ==> I16Min <= r.value <= I16Max
  {
    var w :- FollowChain(m, base, offsets);
    ReadI16(m, w.target + field)
  }

  function ChainI32(m: Snapshot, base: int, offsets: seq<int>, field: int): (r: Result<int, ReadError>)
    ensures r.Ok? <==> FollowChain(m, base, offsets).Ok? && Mapped(m, FollowChain(m, base, offsets).value.target + field, 4)
    ensures r.Ok? ==> I32Min <= r.value <= I32Max
  {
    var w :- FollowChain(m, base, offsets);
    ReadI32(m, w.target + field)
  }

  function ChainU32(m: Snapshot, base: int, offsets: seq<int>, field: int): (r: Result<int, ReadError>)
    ensures r.Ok? <==> FollowChain(m, base, offsets).Ok? && Mapped(m, FollowChain(m, base, offsets).value.target + field, 4)
    ensures r.Ok? ==> 0 <= r.value < U32Bound
  {
    var w :- FollowChain(m, base, offsets);
    ReadU32(m, w.target + field)
  }

  /** `r` is the string held in slot `field` of the object the chain ends
      at: a failure exactly when the chain fails or the slot is empty. */
  predicate IsChainString(m: Snapshot, base: int, offsets: seq<int>, field: int, r: Result<string, ReadError>)
  {
    var c := FollowChain(m, base, offsets);
    && (r.Ok? <==> c.Ok? && c.value.target + field in m.strings)
    && (r.Ok? ==> r.value == m.strings[c.value.target + field])
  }

  function ChainString(m: Snapshot, base: int, offsets: seq<int>, field: int): (r: Result<string, ReadError>)
    ensures IsChainString(m, base, offsets, field, r)
  {
    var w :- FollowChain(m, base, offsets);
    ReadString(m, w.target + field)
  }

  /** The object a chain ends at. */
  predicate ChainEndsAt(m: Snapshot, base: int, offsets: seq<int>, target: int)
  {
    FollowChain(m, base, offsets).Ok? && FollowChain(m, base, offsets).value.target == target
  }

  /** A chain read that reaches its target is the plain read at the target
      plus the field offset. */
  lemma ChainReadsTarget(m: Snapshot, base: int, offsets: seq<int>, target: int, field: int)
    requires ChainEndsAt(m, base, offsets, target)
    ensures ChainI16(m, base, offsets, field) == ReadI16(m, target + field)
    ensures ChainI32(m, base, offsets, field) == ReadI32(m, target + field)
    ensures ChainU32(m, base, offsets, field) == ReadU32(m, target + field)
    ensures ChainString(m, base, offsets, field) == ReadString(m, target + field)
  {
  }

  lemma ReadI16Frame(m1: Snapshot, m2: Snapshot, a: int)
    requires AgreeOn(m1, m2, a, 2)
    ensures ReadI16(m1, a) == ReadI16(m2, a)
  {
    ReadBytesFrame(m1, m2, a, 2);
  }

  /** Storing an `i16` leaves an `i16` read of a disjoint slot unchanged. */
  lemma ReadI16AfterDisjointWrite(m: Snapshot, x: int, v: int, y: int)
    requires I16Min <= v <= I16Max
    requires y + 2 <= x || x + 2 <= y
    ensures ReadI16(Write(m, x, EncodeI16(v)), y) == ReadI16(m, y)
  {
    WriteFrame(m, x, EncodeI16(v), y, 2);
    ReadI16Frame(Write(m, x, EncodeI16(v)), m, y);
  }

  /** Pointer chains read bytes only: replacing the string slots leaves every
      chain as it was. */
  lemma {:induction false} ChainIgnoresStrings(m: Snapshot, strings: map<int, string>, base: int, offsets: seq<int>)
    ensures FollowChain(m.(strings := strings), base, offsets) == FollowChain(m, base, offsets)
    decreases |offsets|
  {
    var m' := m.(strings := strings);
    if |offsets| > 0 {
      assert ReadBytes(m', base + offsets[0], 4) == ReadBytes(m, base + offsets[0], 4);
      assert ReadI32(m', base + offsets[0]) == ReadI32(m, base + offsets[0]);
      if ReadI32(m, base + offsets[0]).Ok? {
        ChainIgnoresStrings(m, strings, ReadI32(m, base + offsets[0]).value, offsets[1..]);
      }
    }
  }
}
