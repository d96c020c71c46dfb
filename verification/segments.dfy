/** Out-of-order segments: the sorted list as a value, and the doubly linked list that implements it. */
module Segments {
  import opened Types

  datatype Seg = Seg(lo: int, hi: int)

  /** Segments are nonempty, in order and pairwise disjoint; neighbours may touch. */
  ghost predicate Sorted(segs: seq<Seg>) {
    && (forall i | 0 <= i < |segs| :: segs[i].lo <= segs[i].hi)
    && (forall i, j | 0 <= i < j < |segs| :: segs[i].hi < segs[j].lo)
  }

  /** Every segment lies within lo..hi-1. */
  ghost predicate Within(segs: seq<Seg>, lo: int, hi: int) {
    forall i | 0 <= i < |segs| :: lo <= segs[i].lo && segs[i].hi < hi
  }

  ghost predicate Covers(segs: seq<Seg>, k: int) {
    exists i | 0 <= i < |segs| :: segs[i].lo <= k <= segs[i].hi
  }

  /** Inserts [s, e] into a sorted list, joining it with every segment it overlaps. */
  function Insert(segs: seq<Seg>, s: int, e: int): (m: seq<Seg>)
    ensures m != []
  {
    if segs == [] then [Seg(s, e)]
    else if segs[0].hi < s then [segs[0]] + Insert(segs[1..], s, e)
    else if e < segs[0].lo then [Seg(s, e)] + segs
    else Insert(segs[1..], Min(segs[0].lo, s), Max(segs[0].hi, e))
  }

  lemma CoversCons(head: Seg, tail: seq<Seg>, k: int)
    ensures Covers([head] + tail, k) <==> head.lo <= k <= head.hi || Covers(tail, k)
  {
    var all := [head] + tail;
    if Covers(tail, k) {
      var i :| 0 <= i < |tail| && tail[i].lo <= k <= tail[i].hi;
      assert all[i + 1] == tail[i];
    }
    assert all[0] == head;
    if Covers(all, k) {
      var i :| 0 <= i < |all| && all[i].lo <= k <= all[i].hi;
      assert i > 0 ==> all[i] == tail[i - 1];
    }
  }

  /** Inserting covers exactly the old numbers and the new range. */
  lemma {:induction false} InsertCovers(segs: seq<Seg>, s: int, e: int, k: int)
    requires Sorted(segs) && s <= e
    ensures Covers(Insert(segs, s, e), k) <==> Covers(segs, k) || s <= k <= e
  {
    if segs == [] {
      CoversCons(Seg(s, e), [], k);
    } else {
      var head, tail := segs[0], segs[1..];
      assert segs == [head] + tail;
      CoversCons(head, tail, k);
      if head.hi < s {
        InsertCovers(tail, s, e, k);
        CoversCons(head, Insert(tail, s, e), k);
      } else if e < head.lo {
        CoversCons(Seg(s, e), segs, k);
      } else {
        InsertCovers(tail, Min(head.lo, s), Max(head.hi, e), k);
      }
    }
  }

  lemma {:induction false} InsertWithin(segs: seq<Seg>, s: int, e: int, lo: int, hi: int)
    requires Within(segs, lo, hi) && lo <= s && e < hi
    ensures Within(Insert(segs, s, e), lo, hi)
  {
    if segs != [] {
      var head, tail := segs[0], segs[1..];
      assert Within(tail, lo, hi);
      if head.hi < s {
        InsertWithin(tail, s, e, lo, hi);
      } else if head.lo <= e {
        InsertWithin(tail, Min(head.lo, s), Max(head.hi, e), lo, hi);
      }
    }
  }

  lemma SortedCons(head: Seg, tail: seq<Seg>, hi: int)
    requires head.lo <= head.hi && Sorted(tail) && Within(tail, head.hi + 1, hi)
    ensures Sorted([head] + tail)
  {
  }

  lemma SortedTail(segs: seq<Seg>, lo: int, hi: int)
    requires Sorted(segs) && segs != [] && Within(segs, lo, hi)
    ensures Sorted(segs[1..]) && Within(segs[1..], segs[0].hi + 1, hi)
  {
  }

  /** Inserting keeps the list sorted and disjoint. */
  lemma {:induction false} InsertSorted(segs: seq<Seg>, s: int, e: int, lo: int, hi: int)
    requires Sorted(segs) && s <= e && Within(segs, lo, hi) && e < hi
    ensures Sorted(Insert(segs, s, e))
  {
    if segs != [] {
      var head, tail := segs[0], segs[1..];
      SortedTail(segs, lo, hi);
      if head.hi < s {
        InsertSorted(tail, s, e, head.hi + 1, hi);
        InsertWithin(tail, s, e, head.hi + 1, hi);
        SortedCons(head, Insert(tail, s, e), hi);
      } else if e < head.lo {
        assert Within(segs, e + 1, hi);
        SortedCons(Seg(s, e), segs, hi);
      } else {
        InsertSorted(tail, Min(head.lo, s), Max(head.hi, e), head.hi + 1, hi);
      }
    }
  }

  /** The first segment after an insertion: it is the joined one exactly when it reaches `s`, and it then
      starts at `s` or at an old segment that reaches `s`. */
  lemma {:induction false} InsertHead(segs: seq<Seg>, s: int, e: int)
    requires Sorted(segs) && s <= e
    ensures var h := Insert(segs, s, e)[0];
            if segs != [] && segs[0].hi < s then h == segs[0]
            else e <= h.hi && h.lo == if segs != [] && segs[0].lo <= e then Min(segs[0].lo, s) else s
  {
    if segs != [] && s <= segs[0].hi && segs[0].lo <= e {
      var head, tail := segs[0], segs[1..];
      assert Sorted(tail);
      InsertHead(tail, Min(head.lo, s), Max(head.hi, e));
    }
  }

  /** Where the joined segment ends, when it is the first: past every segment that starts by `e`, and no further. */
  lemma {:induction false} InsertReach(segs: seq<Seg>, s: int, e: int)
    requires Sorted(segs) && s <= e && (segs != [] ==> s <= segs[0].hi)
    ensures var h := Insert(segs, s, e)[0].hi;
            && (forall i | 0 <= i < |segs| && segs[i].lo <= e :: segs[i].hi <= h)
            && (h == e || exists i | 0 <= i < |segs| :: segs[i].lo <= e && segs[i].hi == h)
  {
    if segs != [] && segs[0].lo <= e {
      var head, tail := segs[0], segs[1..];
      var e' := Max(head.hi, e);
      assert forall i | 0 <= i < |tail| :: tail[i] == segs[i + 1];
      InsertReach(tail, Min(head.lo, s), e');
      InsertHead(tail, Min(head.lo, s), e');
      var h := Insert(tail, Min(head.lo, s), e')[0].hi;
      if h != e' {
        var i :| 0 <= i < |tail| && tail[i].lo <= e' && tail[i].hi == h;
        assert segs[i + 1].hi == h;
      }
    }
  }

  /** Positions l..r-1 are exactly the segments that overlap [s, e]. */
  ghost predicate Overlap(segs: seq<Seg>, l: nat, r: nat, s: int, e: int) {
    && l <= r <= |segs|
    && (forall i | 0 <= i < l :: segs[i].hi < s)
    && (forall i | l <= i < r :: s <= segs[i].hi && segs[i].lo <= e)
    && (forall i | r <= i < |segs| :: e < segs[i].lo)
  }

  function Joined(segs: seq<Seg>, l: nat, r: nat, s: int, e: int): Seg
    requires l <= r <= |segs|
  {
    if l < r then Seg(Min(segs[l].lo, s), Max(segs[r - 1].hi, e)) else Seg(s, e)
  }

  /** Insertion at one go: the overlapping run gives way to one segment. */
  lemma {:induction false} InsertIs(segs: seq<Seg>, l: nat, r: nat, s: int, e: int)
    requires Sorted(segs) && s <= e && Overlap(segs, l, r, s, e)
    ensures Insert(segs, s, e) == Replaced(segs, l, r, Joined(segs, l, r, s, e))
  {
    if 0 < l {
      var head, tail := segs[0], segs[1..];
      OverlapTail(segs, l, r, s, e);
      InsertIs(tail, l - 1, r - 1, s, e);
      assert l < r ==> tail[l - 1] == segs[l] && tail[r - 2] == segs[r - 1];
      assert Joined(segs, l, r, s, e) == Joined(tail, l - 1, r - 1, s, e);
      ReplacedCons(segs, l, r, Joined(segs, l, r, s, e));
    } else {
      assert segs[..0] + [Joined(segs, 0, r, s, e)] == [Joined(segs, 0, r, s, e)];
      if 0 < r {
        InsertJoins(segs, r, s, e);
      } else {
        InsertBefore(segs, s, e);
        assert segs[r..] == segs;
      }
    }
  }

  lemma OverlapTail(segs: seq<Seg>, l: nat, r: nat, s: int, e: int)
    requires Sorted(segs) && Overlap(segs, l, r, s, e) && 0 < l
    ensures Sorted(segs[1..]) && Overlap(segs[1..], l - 1, r - 1, s, e)
  {
    var tail := segs[1..];
    assert forall i | 0 <= i < |tail| :: tail[i] == segs[i + 1];
  }

  lemma ReplacedCons(segs: seq<Seg>, l: nat, r: nat, j: Seg)
    requires 0 < l <= r <= |segs|
    ensures Replaced(segs, l, r, j) == [segs[0]] + Replaced(segs[1..], l - 1, r - 1, j)
  {
    assert segs[..l] == [segs[0]] + segs[1..][..l - 1];
    assert segs[r..] == segs[1..][r - 1..];
  }

  lemma InsertBefore(segs: seq<Seg>, s: int, e: int)
    requires Sorted(segs) && s <= e && forall i | 0 <= i < |segs| :: e < segs[i].lo
    ensures Insert(segs, s, e) == [Seg(s, e)] + segs
  {
    assert segs != [] ==> segs[0].lo <= segs[0].hi;
  }

  lemma {:induction false} InsertJoins(segs: seq<Seg>, r: nat, s: int, e: int)
    requires Sorted(segs) && s <= e && 0 < r && Overlap(segs, 0, r, s, e)
    ensures Insert(segs, s, e) == [Joined(segs, 0, r, s, e)] + segs[r..]
  {
    var head, tail := segs[0], segs[1..];
    var s', e' := Min(head.lo, s), Max(head.hi, e);
    assert forall i | 0 <= i < |tail| :: tail[i] == segs[i + 1];
    if r == 1 {
      InsertBefore(tail, s', e');
    } else {
      InsertJoins(tail, r - 1, s', e');
      assert tail[r - 1..] == segs[r..];
    }
  }

  /** `s` with positions l..r-1 replaced by the one element `x`. */
  function Replaced<T>(s: seq<T>, l: nat, r: nat, x: T): seq<T>
    requires l <= r <= |s|
  {
    s[..l] + [x] + s[r..]
  }

  class Segment {
    var startSeqnumInclusive: uint32
    var endSeqnumInclusive: uint32
    var prev: Segment?
    var next: Segment?

    /** A node fresh from malloc, which leaves whatever it finds in the two links. */
    constructor (lo: uint32, hi: uint32, junkPrev: Segment?, junkNext: Segment?)
      ensures startSeqnumInclusive == lo && endSeqnumInclusive == hi
      ensures prev == junkPrev && next == junkNext
    {
      startSeqnumInclusive, endSeqnumInclusive := lo, hi;
      prev, next := junkPrev, junkNext;
    }

    function Value(): Seg
      reads this
    {
      Seg(startSeqnumInclusive as int, endSeqnumInclusive as int)
    }
  }

  /** The node at position `i`, or null when there is none. */
  function NodeAt(nodes: seq<Segment>, i: int): Segment? {
    if 0 <= i < |nodes| then nodes[i] else null
  }

  ghost predicate Distinct(nodes: seq<Segment>) {
    forall i, j | 0 <= i < j < |nodes| :: nodes[i] != nodes[j]
  }

  /** `nodes` is a well-formed doubly linked list of distinct nodes. */
  ghost predicate Chain(nodes: seq<Segment>)
    reads nodes
  {
    && Distinct(nodes)
    && (forall i {:trigger nodes[i].prev} | 0 <= i < |nodes| :: nodes[i].prev == NodeAt(nodes, i - 1))
    && (forall i {:trigger nodes[i].next} | 0 <= i < |nodes| :: nodes[i].next == NodeAt(nodes, i + 1))
  }

  /** The nodes hold the segments `segs`. */
  ghost predicate Hold(nodes: seq<Segment>, segs: seq<Seg>)
    reads nodes
  {
    && |nodes| == |segs|
    && forall i | 0 <= i < |nodes| :: nodes[i].Value() == segs[i]
  }

  function Min32(a: uint32, b: uint32): uint32 {
    if a < b then a else b
  }

  function Max32(a: uint32, b: uint32): uint32 {
    if a < b then b else a
  }

  /** The first node, from the left, that does not end before `s`. */
  method SearchLeft(start: Segment, s: uint32, ghost nodes: seq<Segment>, ghost segs: seq<Seg>)
    returns (leftEnd: Segment?, ghost l: nat)
    requires |nodes| > 0 && start == nodes[0] && Chain(nodes) && Hold(nodes, segs)
    ensures l <= |nodes| && leftEnd == NodeAt(nodes, l)
    ensures forall i | 0 <= i < l :: segs[i].hi < s as int
    ensures l < |nodes| ==> s as int <= segs[l].hi
  {
    leftEnd, l := start, 0;
    while leftEnd != null && leftEnd.endSeqnumInclusive < s
      invariant l <= |nodes| && leftEnd == NodeAt(nodes, l)
      invariant forall i | 0 <= i < l :: segs[i].hi < s as int
      decreases |nodes| - l
    {
      leftEnd := leftEnd.next;
      l := l + 1;
    }
  }

  /** One past the first node, from the right, that does not start after `e`. */
  method SearchRight(end: Segment, e: uint32, ghost nodes: seq<Segment>, ghost segs: seq<Seg>)
    returns (rightEnd: Segment?, ghost r: nat)
    requires |nodes| > 0 && end == nodes[|nodes| - 1] && Chain(nodes) && Hold(nodes, segs)
    ensures r <= |nodes| && rightEnd == NodeAt(nodes, r - 1)
    ensures forall i | r <= i < |nodes| :: e as int < segs[i].lo
    ensures 0 < r ==> segs[r - 1].lo <= e as int
  {
    rightEnd, r := end, |nodes|;
    while rightEnd != null && rightEnd.startSeqnumInclusive > e
      invariant r <= |nodes| && rightEnd == NodeAt(nodes, r - 1)
      invariant forall i | r <= i < |nodes| :: e as int < segs[i].lo
      decreases r
    {
      rightEnd := rightEnd.prev;
      r := r - 1;
    }
  }

  /** The two searches frame exactly the segments that overlap [s, e]. */
  lemma SearchesFrame(segs: seq<Seg>, l: nat, r: nat, s: int, e: int)
    requires Sorted(segs) && s <= e && l <= |segs| && r <= |segs|
    requires (forall i | 0 <= i < l :: segs[i].hi < s) && (l < |segs| ==> s <= segs[l].hi)
    requires (forall i | r <= i < |segs| :: e < segs[i].lo) && (0 < r ==> segs[r - 1].lo <= e)
    ensures Overlap(segs, l, r, s, e)
  {
    assert l <= r by {
      if 0 < l {
        assert segs[l - 1].lo <= segs[l - 1].hi;
      }
    }
    forall i | l <= i < r
      ensures s <= segs[i].hi && segs[i].lo <= e
    {
      assert segs[l].hi <= segs[i].hi && segs[i].lo <= segs[r - 1].lo;
    }
  }

  /** The clean-up loop: frees the nodes from leftEnd to rightEnd, in order and once each, and follows no
      link of a node it has freed. */
  method FreeRun(leftEnd: Segment, rightEnd: Segment, ghost nodes: seq<Segment>, ghost l: nat, ghost r: nat)
    returns (freed: seq<Segment>)
    requires l < r <= |nodes| && leftEnd == nodes[l] && rightEnd == nodes[r - 1]
    requires Distinct(nodes)
    requires forall i {:trigger nodes[i].next} | l <= i < r - 1 :: nodes[i].next == nodes[i + 1]
    requires forall i {:trigger nodes[i].prev} | l < i < r :: nodes[i].prev == nodes[i - 1]
    ensures freed == nodes[l..r]
  {
    if leftEnd == rightEnd {
      return [leftEnd];
    }
    freed := [];
    var left := leftEnd.next;
    ghost var i := l + 1;
    while left != rightEnd
      invariant l < i < r && left == nodes[i] && freed == nodes[l..i - 1]
      decreases r - i
    {
      assert left !in freed;
      var done: Segment := left.prev;
      assert done !in freed;
      freed := freed + [done];
      assert left !in freed;
      left := left.next;
      i := i + 1;
    }
    assert rightEnd !in freed;
    var last: Segment := rightEnd.prev;
    assert last !in freed && last != rightEnd;
    freed := freed + [last, rightEnd];
  }

  /** The links of a list whose positions l..r-1 have given way to `seg`, but for the links of `seg`. */
  ghost predicate SplicedLinks(nodes: seq<Segment>, l: nat, r: nat, seg: Segment)
    requires l <= r <= |nodes|
    reads nodes
  {
    && (0 < l ==> nodes[l - 1].next == seg)
    && (r < |nodes| ==> nodes[r].prev == seg)
    && (forall i {:trigger nodes[i].prev} | 0 <= i < l :: nodes[i].prev == NodeAt(nodes, i - 1))
    && (forall i {:trigger nodes[i].next} | 0 <= i < l - 1 :: nodes[i].next == nodes[i + 1])
    && (forall i {:trigger nodes[i].prev} | r < i < |nodes| :: nodes[i].prev == nodes[i - 1])
    && (forall i {:trigger nodes[i].next} | r <= i < |nodes| :: nodes[i].next == NodeAt(nodes, i + 1))
  }

  lemma SplicedDistinct(nodes: seq<Segment>, l: nat, r: nat, seg: Segment)
    requires l <= r <= |nodes| && seg !in nodes && Distinct(nodes)
    ensures Distinct(Replaced(nodes, l, r, seg))
  {
    var m := Replaced(nodes, l, r, seg);
    assert forall i | 0 <= i < l :: m[i] == nodes[i];
    assert forall i | l < i < |m| :: m[i] == nodes[i - l - 1 + r];
  }

  /** The links of the new node: a link to the left is never set when no node reaches up to the range from
      the left, and a link to the right never when no node reaches down to it. */
  ghost predicate OwnLinks(nodes: seq<Segment>, l: nat, r: nat, seg: Segment, junkPrev: Segment?, junkNext: Segment?)
    requires l <= r <= |nodes|
    reads seg
  {
    && seg.prev == (if r == 0 then junkPrev else NodeAt(nodes, l - 1))
    && seg.next == (if l == |nodes| then junkNext else NodeAt(nodes, r))
  }

  /** The list is well formed exactly when the links that were never set happen to be null. */
  lemma SplicedIsChain(nodes: seq<Segment>, l: nat, r: nat, seg: Segment, junkPrev: Segment?, junkNext: Segment?)
    requires l <= r <= |nodes| && seg !in nodes && Distinct(nodes)
    requires SplicedLinks(nodes, l, r, seg) && OwnLinks(nodes, l, r, seg, junkPrev, junkNext)
    ensures Chain(Replaced(nodes, l, r, seg))
       <==> (r == 0 ==> junkPrev == null) && (l == |nodes| ==> junkNext == null)
  {
    var m := Replaced(nodes, l, r, seg);
    SplicedDistinct(nodes, l, r, seg);
    assert m[l] == seg && NodeAt(m, l - 1) == NodeAt(nodes, l - 1) && NodeAt(m, l + 1) == NodeAt(nodes, r);
    if (r == 0 ==> junkPrev == null) && (l == |nodes| ==> junkNext == null) {
      forall i | 0 <= i < |m|
        ensures m[i].prev == NodeAt(m, i - 1) && m[i].next == NodeAt(m, i + 1)
      {
        if l < i {
          assert m[i] == nodes[i - l - 1 + r];
        }
      }
    } else {
      assert m[l].prev != NodeAt(m, l - 1) || m[l].next != NodeAt(m, l + 1);
    }
  }

  lemma SplicedHolds(nodes: seq<Segment>, segs: seq<Seg>, l: nat, r: nat, seg: Segment)
    requires l <= r <= |nodes| && Hold(nodes, segs)
    ensures Hold(Replaced(nodes, l, r, seg), Replaced(segs, l, r, seg.Value()))
  {
    var m := Replaced(nodes, l, r, seg);
    forall i | 0 <= i < |m|
      ensures m[i].Value() == Replaced(segs, l, r, seg.Value())[i]
    {
      if l < i {
        assert m[i] == nodes[i - l - 1 + r];
      }
    }
  }

  lemma SplicedMembers(nodes: seq<Segment>, l: nat, r: nat, seg: Segment)
    requires l <= r <= |nodes|
    ensures forall n | n in Replaced(nodes, l, r, seg) :: n in nodes || n == seg
  {
  }

  /** `start` and `end` name the ends of the list, except for an end that has just been placed at `l`. */
  ghost predicate OldEnds(nodes: seq<Segment>, l: nat, start: Segment?, end: Segment?) {
    && (0 < l < |nodes| ==> start == nodes[0])
    && (l < |nodes| - 1 ==> end == nodes[|nodes| - 1])
  }

  lemma SplicedEnds(nodes: seq<Segment>, l: nat, r: nat, seg: Segment, start: Segment, end: Segment)
    requires l <= r <= |nodes| && nodes != [] && start == nodes[0] && end == nodes[|nodes| - 1]
    ensures var m := Replaced(nodes, l, r, seg);
            && l < |m| && m[l] == seg && OldEnds(m, l, start, end)
            && (l < |m| - 1 ==> m[l + 1] == nodes[r])
  {
  }

  lemma ReplacedEnds(segs: seq<Seg>, l: nat, r: nat, s: int, e: int)
    requires Sorted(segs) && s <= e && Overlap(segs, l, r, s, e)
    ensures var m := Insert(segs, s, e);
            && l < |m| && m[l] == Joined(segs, l, r, s, e)
            && m[l].lo <= s && e <= m[l].hi && (0 < l ==> m[0].hi < s)
  {
    InsertIs(segs, l, r, s, e);
  }

  lemma GapIffNoOverlap(nodes: seq<Segment>, l: nat, r: nat)
    requires Chain(nodes) && l <= r <= |nodes|
    ensures l == |nodes| || r == 0 || nodes[r - 1].next == nodes[l] <==> l == r
  {
  }

  /** The case no node reaches, told from the ends of the list. */
  lemma BeyondEnds(segs: seq<Seg>, l: nat, r: nat, s: int, e: int)
    requires Sorted(segs) && segs != [] && s <= e && Overlap(segs, l, r, s, e)
    ensures r == 0 <==> e < segs[0].lo
    ensures l == |segs| <==> segs[|segs| - 1].hi < s
  {
    assert segs[0].lo <= segs[0].hi;
  }

  /** Merges [s, e] into the list and returns the node that now holds it, with the nodes it freed. The list
      is well formed again exactly when the range lies neither before nor beyond all of it, or the link that
      is not set in that case holds null. */
  method SegmentMerge(start: Segment, end: Segment, s: uint32, e: uint32,
                      junkPrev: Segment?, junkNext: Segment?, ghost nodes: seq<Segment>, ghost segs: seq<Seg>)
    returns (seg: Segment, freed: seq<Segment>, ghost l: nat, ghost r: nat)
    requires |nodes| > 0 && start == nodes[0] && end == nodes[|nodes| - 1]
    requires Chain(nodes) && Hold(nodes, segs) && Sorted(segs) && s <= e
    modifies nodes
    ensures fresh(seg) && Overlap(segs, l, r, s as int, e as int) && freed == nodes[l..r]
    ensures seg.Value() == Joined(segs, l, r, s as int, e as int)
    ensures Chain(Replaced(nodes, l, r, seg))
       <==> && (e as int < segs[0].lo ==> junkPrev == null)
            && (segs[|segs| - 1].hi < s as int ==> junkNext == null)
    ensures Hold(Replaced(nodes, l, r, seg), Insert(segs, s as int, e as int))
  {
    var leftEnd, rightEnd;
    leftEnd, l := SearchLeft(start, s, nodes, segs);
    rightEnd, r := SearchRight(end, e, nodes, segs);
    SearchesFrame(segs, l, r, s as int, e as int);
    seg, freed := Place(start, end, leftEnd, rightEnd, s, e, junkPrev, junkNext, nodes, segs, l, r);
    SplicedIsChain(nodes, l, r, seg, junkPrev, junkNext);
    BeyondEnds(segs, l, r, s as int, e as int);
    SplicedHolds(nodes, segs, l, r, seg);
    InsertIs(segs, l, r, s as int, e as int);
  }

  /** With a stale link in the memory it is given, merging beyond the end of a list breaks the list. */
  method SegmentMergeFails() returns (only: Segment, seg: Segment)
    ensures fresh(only) && fresh(seg) && only != seg && !Chain([only, seg])
  {
    only := new Segment(10, 11, null, null);
    ghost var nodes, segs := [only], [only.Value()];
    var freed;
    ghost var l, r;
    seg, freed, l, r := SegmentMerge(only, only, 20, 21, null, only, nodes, segs);
    assert Replaced(nodes, l, r, seg) == [only, seg];
  }

  /** The first segment of a list. */
  method FirstSegment(s: uint32, e: uint32, junkPrev: Segment?, junkNext: Segment?) returns (seg: Segment)
    ensures fresh(seg) && seg.Value() == Seg(s as int, e as int)
    ensures Chain([seg]) <==> junkPrev == null && junkNext == null
  {
    seg := new Segment(s, e, junkPrev, junkNext);
    assert [seg][0] == seg;
  }

  /** Links the new node in, by the case the two searches found. */
  method Place(start: Segment, end: Segment, leftEnd: Segment?, rightEnd: Segment?, s: uint32, e: uint32,
               junkPrev: Segment?, junkNext: Segment?,
               ghost nodes: seq<Segment>, ghost segs: seq<Seg>, ghost l: nat, ghost r: nat)
    returns (seg: Segment, freed: seq<Segment>)
    requires |nodes| > 0 && start == nodes[0] && end == nodes[|nodes| - 1]
    requires Chain(nodes) && Hold(nodes, segs)
    requires l <= r <= |nodes| && leftEnd == NodeAt(nodes, l) && rightEnd == NodeAt(nodes, r - 1)
    modifies nodes
    ensures fresh(seg) && freed == nodes[l..r] && Hold(nodes, segs)
    ensures SplicedLinks(nodes, l, r, seg) && OwnLinks(nodes, l, r, seg, junkPrev, junkNext)
    ensures seg.Value() == Joined(segs, l, r, s as int, e as int)
  {
    GapIffNoOverlap(nodes, l, r);
    if leftEnd == null || rightEnd == null || rightEnd.next == leftEnd {
      seg := PlaceApart(start, end, leftEnd, rightEnd, s, e, junkPrev, junkNext, nodes, segs, l);
      freed := [];
    } else {
      seg, freed := ReplaceRun(leftEnd, rightEnd, s, e, junkPrev, junkNext, nodes, segs, l, r);
    }
  }

  /** The three cases without overlap: right-most, left-most, or in the gap between two neighbours. The first
      leaves `next` unset and the second `prev`. */
  method PlaceApart(start: Segment, end: Segment, leftEnd: Segment?, rightEnd: Segment?, s: uint32, e: uint32,
                    junkPrev: Segment?, junkNext: Segment?,
                    ghost nodes: seq<Segment>, ghost segs: seq<Seg>, ghost l: nat)
    returns (seg: Segment)
    requires |nodes| > 0 && start == nodes[0] && end == nodes[|nodes| - 1]
    requires Chain(nodes) && Hold(nodes, segs)
    requires l <= |nodes| && leftEnd == NodeAt(nodes, l) && rightEnd == NodeAt(nodes, l - 1)
    modifies nodes
    ensures fresh(seg) && Hold(nodes, segs) && seg.Value() == Seg(s as int, e as int)
    ensures SplicedLinks(nodes, l, l, seg) && OwnLinks(nodes, l, l, seg, junkPrev, junkNext)
  {
    seg := new Segment(s, e, junkPrev, junkNext);
    if leftEnd == null {
      seg.prev := end;
      end.next := seg;
    } else if rightEnd == null {
      seg.next := start;
      start.prev := seg;
    } else {
      seg.next := leftEnd;
      leftEnd.prev := seg;
      seg.prev := rightEnd;
      rightEnd.next := seg;
    }
  }

  /** The overlapping case: one new node takes the place of the run leftEnd..rightEnd. */
  method ReplaceRun(leftEnd: Segment, rightEnd: Segment, s: uint32, e: uint32, junkPrev: Segment?, junkNext: Segment?,
                    ghost nodes: seq<Segment>, ghost segs: seq<Seg>, ghost l: nat, ghost r: nat)
    returns (seg: Segment, freed: seq<Segment>)
    requires l < r <= |nodes| && leftEnd == nodes[l] && rightEnd == nodes[r - 1]
    requires Chain(nodes) && Hold(nodes, segs)
    modifies nodes
    ensures fresh(seg) && freed == nodes[l..r] && Hold(nodes, segs)
    ensures SplicedLinks(nodes, l, r, seg) && OwnLinks(nodes, l, r, seg, junkPrev, junkNext)
    ensures seg.Value() == Joined(segs, l, r, s as int, e as int)
  {
    seg := new Segment(Min32(leftEnd.startSeqnumInclusive, s), Max32(rightEnd.endSeqnumInclusive, e),
                       junkPrev, junkNext);
    LinkOver(seg, leftEnd, rightEnd, nodes, segs, l, r);
    freed := FreeRun(leftEnd, rightEnd, nodes, l, r);
  }

  /** Links a new node over the run, whose own links inside it stay as they were. */
  method LinkOver(seg: Segment, leftEnd: Segment, rightEnd: Segment,
                  ghost nodes: seq<Segment>, ghost segs: seq<Seg>, ghost l: nat, ghost r: nat)
    requires l < r <= |nodes| && leftEnd == nodes[l] && rightEnd == nodes[r - 1]
    requires Chain(nodes) && Hold(nodes, segs) && seg !in nodes
    modifies nodes`prev, nodes`next, seg`prev, seg`next
    ensures Hold(nodes, segs) && SplicedLinks(nodes, l, r, seg)
    ensures seg.prev == NodeAt(nodes, l - 1) && seg.next == NodeAt(nodes, r)
    ensures forall i {:trigger nodes[i].next} | l <= i < r - 1 :: nodes[i].next == nodes[i + 1]
    ensures forall i {:trigger nodes[i].prev} | l < i < r :: nodes[i].prev == nodes[i - 1]
  {
    seg.next := rightEnd.next;
    if rightEnd.next != null {
      rightEnd.next.prev := seg;
    }
    seg.prev := leftEnd.prev;
    if leftEnd.prev != null {
      leftEnd.prev.next := seg;
    }
  }
}
