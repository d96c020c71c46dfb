/** A byte ring in an array: its logical content from a base position, and the wrapping copies. */
module Ring {
  import opened Types

  /** The reduction `% capacity`, for an index that is less than two turns. */
  function Wrap(i: nat, cap: nat): (r: nat)
    requires i < 2 * cap
  {
    if i < cap then i else i - cap
  }

  lemma WrapIsMod(i: nat, cap: nat)
    requires i < 2 * cap
    ensures Wrap(i, cap) == i % cap
  {
    if i < cap {
      QuotientIs(i, cap, 0);
    } else {
      QuotientIs(i, cap, 1);
    }
  }

  lemma QuotientIs(i: nat, cap: nat, q: nat)
    requires q * cap <= i < (q + 1) * cap
    ensures i % cap == i - q * cap
  {
    var d := i / cap;
    assert i == cap * d + i % cap;
    if d < q {
      MulMono(cap, d + 1, q);
    } else if q < d {
      MulMono(cap, q + 1, d);
    }
  }

  lemma MulMono(c: nat, a: nat, b: nat)
    requires a <= b
    ensures a * c == c * a <= c * b == b * c
  {
  }

  /** The ring read from position `base`, once round. */
  function Logical(ring: seq<uint8>, base: nat): (s: seq<uint8>)
    requires base <= |ring|
    ensures |s| == |ring|
    ensures forall j | 0 <= j < |ring| :: s[j] == ring[Wrap(base + j, |ring|)]
  {
    ring[base..] + ring[..base]
  }

  /** `s` with `data` written over it from position `o`. */
  function Splice(s: seq<uint8>, o: nat, data: seq<uint8>): seq<uint8>
    requires o + |data| <= |s|
  {
    s[..o] + data + s[o + |data|..]
  }

  lemma SpliceExtends(s: seq<uint8>, p: nat, data: seq<uint8>)
    requires p + |data| <= |s|
    ensures Splice(s, p, data)[..p + |data|] == s[..p] + data
  {
  }

  /** Advancing the base by `d` rotates the logical content. */
  lemma LogicalRotates(ring: seq<uint8>, index: nat, d: nat)
    requires index < |ring| && d < |ring|
    ensures Logical(ring, Wrap(index + d, |ring|) + 1)
         == Logical(ring, index + 1)[d..] + Logical(ring, index + 1)[..d]
  {
  }

  lemma SliceOfPrefix(s: seq<uint8>, n: nat, i: nat, len: nat)
    requires i + len <= n <= |s|
    ensures s[..n][i..i + len] == s[i..i + len]
  {
  }

  method Memcpy(dst: array<uint8>, at: uint32, data: seq<uint8>)
    requires at as int + |data| <= dst.Length
    modifies dst
    ensures dst[..] == Splice(old(dst[..]), at as int, data)
  {
    forall i | 0 <= i < |data| {
      dst[at as int + i] := data[i];
    }
    assert dst[..] == Splice(old(dst[..]), at as int, data);
  }

  /** The copy into a ring used by both buffers: one memcpy, or two when the range passes the array end. */
  method CopyIn(ring: array<uint8>, start: uint32, data: seq<uint8>, ghost base: nat, ghost o: nat)
    requires 1 <= |data| && base <= ring.Length && o + |data| <= ring.Length < TWO_32
    requires start as int == Wrap(base + o, ring.Length)
    modifies ring
    ensures Logical(ring[..], base) == Splice(Logical(old(ring[..]), base), o, data)
  {
    ghost var was := ring[..];
    if start as int + |data| - 1 <= ring.Length - 1 {
      Memcpy(ring, start, data);
      SpliceStraight(was, start as int, data, base, o);
    } else {
      var tailLen := ring.Length - start as int;
      Memcpy(ring, start, data[..tailLen]);
      Memcpy(ring, 0, data[tailLen..]);
      SpliceWrapped(was, start as int, data, tailLen, base, o);
    }
  }

  lemma SpliceStraight(ring: seq<uint8>, start: nat, data: seq<uint8>, base: nat, o: nat)
    requires base <= |ring| && o + |data| <= |ring|
    requires start + |data| <= |ring| && 1 <= |data| && start == Wrap(base + o, |ring|)
    ensures Logical(Splice(ring, start, data), base) == Splice(Logical(ring, base), o, data)
  {
    var after := Splice(ring, start, data);
    forall j | 0 <= j < |ring|
      ensures Logical(after, base)[j] == Splice(Logical(ring, base), o, data)[j]
    {
      assert Logical(after, base)[j] == after[Wrap(base + j, |ring|)];
    }
  }

  lemma SpliceWrapped(ring: seq<uint8>, start: nat, data: seq<uint8>, t: nat, base: nat, o: nat)
    requires base <= |ring| && o + |data| <= |ring|
    requires 1 <= t < |data| && start + t == |ring| && start == Wrap(base + o, |ring|)
    ensures Logical(Splice(Splice(ring, start, data[..t]), 0, data[t..]), base)
         == Splice(Logical(ring, base), o, data)
  {
    var after := Splice(Splice(ring, start, data[..t]), 0, data[t..]);
    assert after == data[t..] + ring[|data| - t..start] + data[..t];
    forall j | 0 <= j < |ring|
      ensures Logical(after, base)[j] == Splice(Logical(ring, base), o, data)[j]
    {
      assert Logical(after, base)[j] == after[Wrap(base + j, |ring|)];
    }
  }

  /** The copy out of a ring, with the wrap test on the end of the array. */
  method CopyOut(ring: array<uint8>, start: uint32, len: uint32, ghost base: nat, ghost o: nat)
    returns (data: seq<uint8>)
    requires 1 <= len && base <= ring.Length && o + len as int <= ring.Length < TWO_32
    requires start as int == Wrap(base + o, ring.Length)
    ensures data == Logical(ring[..], base)[o..o + len as int]
  {
    if start as int + len as int - 1 <= ring.Length - 1 {
      data := ring[start..start as int + len as int];
    } else {
      var tailLen := ring.Length - start as int;
      data := ring[start..] + ring[..len as int - tailLen];
    }
  }
}
