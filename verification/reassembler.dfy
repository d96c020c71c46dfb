/** The receive buffer as a value: what recv_buffer_t means, without indices or links. */
module Reassembler {
  import opened Types
  import opened Ring
  import opened Segments

  datatype Verdict = CanReceive | TooLong | AlreadyRead | AlreadyReceived

  /** `ring` is the byte ring read once round from the byte after `read`. */
  datatype RecvView = RecvView(cap: int, read: int, next: int, segs: seq<Seg>, ring: seq<uint8>) {

    ghost predicate Ok() {
      && MIN_CAPACITY <= cap <= MAX_CAPACITY && |ring| == cap
      && read < next <= read + cap
      && Sorted(segs)
      && Within(segs, next, read + cap)
    }

    /** Byte `k` has arrived: it is in the in-order prefix or in a segment. */
    ghost predicate Holds(k: int) {
      k < next || Covers(segs, k)
    }

    function ByteAt(k: int): uint8
      requires |ring| == cap && read < k <= read + cap
    {
      ring[k - read - 1]
    }

    function MaxRead(): int {
      next - read - 1
    }

    function MaxReceive(): int {
      cap - (next - read)
    }

    function Check(s: int, len: nat): Verdict {
      if s <= read then AlreadyRead
      else if s + len - 1 < next then AlreadyReceived
      else if s + len - 1 - read >= cap then TooLong
      else CanReceive
    }

    /** What a reader takes: the first `n` unread bytes. */
    function Front(n: nat): seq<uint8>
      requires n <= |ring|
    {
      ring[..n]
    }

    function Read(n: nat): RecvView
      requires n <= |ring|
    {
      this.(read := read + n, ring := ring[n..] + ring[..n])
    }

    /** Stores the bytes and inserts their range; a joined segment that starts no later than the next
        expected number becomes part of the in-order prefix. */
    function Receive(s: int, data: seq<uint8>): RecvView
      requires Ok() && 1 <= |data| && Check(s, |data|) == CanReceive
    {
      var m := Insert(segs, s, s + |data| - 1);
      var stored := this.(ring := Splice(ring, s - read - 1, data));
      if m[0].lo <= next && s <= m[0].hi
      then stored.(next := m[0].hi + 1, segs := m[1..])
      else stored.(segs := m)
    }

    /** A packet's data is taken in if the check allows it and dropped otherwise. */
    function Offer(s: int, data: seq<uint8>): RecvView
      requires Ok() && 1 <= |data|
    {
      if Check(s, |data|) == CanReceive then Receive(s, data) else this
    }
  }

  /** A packet is received exactly when it lies in the window and reaches past the in-order prefix; a refusal
      says what was wrong with it, and one that is refused as already received brings nothing new. */
  lemma CheckIs(v: RecvView, s: int, len: nat)
    requires v.Ok() && 1 <= len
    ensures v.Check(s, len) == CanReceive <==> v.read < s && v.next <= s + len - 1 < v.read + v.cap
    ensures v.Check(s, len) == AlreadyRead <==> s <= v.read
    ensures v.Check(s, len) == AlreadyReceived <==> v.read < s && s + len <= v.next
    ensures v.Check(s, len) == TooLong <==> v.read < s && v.read + v.cap < s + len
    ensures v.Check(s, len) == AlreadyReceived ==> forall k | s <= k < s + len :: v.Holds(k)
  {
  }

  /** A segment of the buffer starts exactly at the next expected byte and the packet reaches into it. */
  ghost predicate TouchesHead(v: RecvView, s: int) {
    v.segs != [] && v.segs[0].lo == v.next && s <= v.segs[0].hi
  }

  /** The list after an insertion, whichever branch of Receive follows. */
  lemma InsertedOk(v: RecvView, s: int, e: int)
    requires v.Ok() && s <= e && v.read < s && e < v.read + v.cap
    ensures var m := Insert(v.segs, s, e);
            Sorted(m) && Within(m, Min(v.next, s), v.read + v.cap)
  {
    InsertSorted(v.segs, s, e, v.next, v.read + v.cap);
    InsertWithin(v.segs, s, e, Min(v.next, s), v.read + v.cap);
  }

  lemma AbsorbedOk(v: RecvView, m: seq<Seg>)
    requires v.Ok() && m != [] && Sorted(m) && Within(m, v.read + 1, v.read + v.cap)
    ensures v.(next := m[0].hi + 1, segs := m[1..]).Ok()
  {
    SortedTail(m, v.read + 1, v.read + v.cap);
  }

  lemma KeptOk(v: RecvView, m: seq<Seg>)
    requires v.Ok() && m != [] && Sorted(m) && Within(m, v.read + 1, v.read + v.cap) && v.next <= m[0].lo
    ensures v.(segs := m).Ok()
  {
    StartsAt(m, v.next);
  }

  /** Accepting a packet keeps the buffer well formed. */
  lemma ReceiveOk(v: RecvView, s: int, data: seq<uint8>)
    requires v.Ok() && 1 <= |data| && v.Check(s, |data|) == CanReceive
    ensures v.Receive(s, data).Ok()
  {
    var e := s + |data| - 1;
    var m := Insert(v.segs, s, e);
    var stored := v.(ring := Splice(v.ring, s - v.read - 1, data));
    InsertedOk(v, s, e);
    assert Within(m, v.read + 1, v.read + v.cap);
    if m[0].lo <= v.next && s <= m[0].hi {
      AbsorbedOk(stored, m);
    } else {
      InsertHead(v.segs, s, e);
      KeptOk(stored, m);
    }
  }

  /** The head of a sorted list bounds all of it from below. */
  lemma StartsAt(segs: seq<Seg>, lo: int)
    requires Sorted(segs) && (segs != [] ==> lo <= segs[0].lo)
    ensures forall i | 0 <= i < |segs| :: lo <= segs[i].lo
  {
  }

  /** The next expected number moves only forward: strictly when the joined segment reaches the in-order
      prefix, and not at all otherwise. */
  lemma ReceiveMoves(v: RecvView, s: int, data: seq<uint8>)
    requires v.Ok() && 1 <= |data| && v.Check(s, |data|) == CanReceive
    ensures v.next <= v.Receive(s, data).next
    ensures v.next < v.Receive(s, data).next <==> s <= v.next || TouchesHead(v, s)
    ensures s <= v.next || TouchesHead(v, s) ==> s + |data| <= v.Receive(s, data).next
  {
    InsertHead(v.segs, s, s + |data| - 1);
  }

  /** Where the in-order prefix ends when it advances: past the packet and every segment that starts within it,
      and no further. */
  lemma ReceiveReaches(v: RecvView, s: int, data: seq<uint8>)
    requires v.Ok() && 1 <= |data| && v.Check(s, |data|) == CanReceive && (s <= v.next || TouchesHead(v, s))
    ensures var n, e := v.Receive(s, data).next, s + |data|;
            && e <= n && (forall i | 0 <= i < |v.segs| && v.segs[i].lo < e :: v.segs[i].hi < n)
            && (n == e || exists i | 0 <= i < |v.segs| :: v.segs[i].lo < e && v.segs[i].hi + 1 == n)
  {
    InsertHead(v.segs, s, s + |data| - 1);
    InsertReach(v.segs, s, s + |data| - 1);
  }

  /** The acknowledgement is maximal: the next expected byte is really missing. */
  ghost predicate Maximal(v: RecvView) {
    !v.Holds(v.next)
  }

  lemma MaximalIff(v: RecvView)
    requires v.Ok()
    ensures Maximal(v) <==> v.segs == [] || v.next < v.segs[0].lo
  {
    if v.segs != [] && v.segs[0].lo <= v.next {
      assert v.segs[0].lo <= v.next <= v.segs[0].hi;
    }
  }

  /** Accepting a packet loses a maximal acknowledgement exactly when the packet reaches the in-order prefix
      and a segment already held starts right behind what is then in order. */
  lemma ReceiveMaximalIff(v: RecvView, s: int, data: seq<uint8>)
    requires v.Ok() && 1 <= |data| && v.Check(s, |data|) == CanReceive && Maximal(v)
    ensures var w := v.Receive(s, data);
            Maximal(w) <==> !(s <= v.next && v.Holds(w.next))
  {
    var w := v.Receive(s, data);
    ReceiveHolds(v, s, data, w.next);
    ReceiveMoves(v, s, data);
    MaximalIff(v);
  }

  /** Accepting a packet adds exactly its own byte numbers to what the buffer holds. */
  lemma ReceiveHolds(v: RecvView, s: int, data: seq<uint8>, k: int)
    requires v.Ok() && 1 <= |data| && v.Check(s, |data|) == CanReceive
    ensures v.Receive(s, data).Holds(k) <==> v.Holds(k) || s <= k < s + |data|
  {
    var e := s + |data| - 1;
    var m := Insert(v.segs, s, e);
    InsertCovers(v.segs, s, e, k);
    if m[0].lo <= v.next && s <= m[0].hi {
      InsertHead(v.segs, s, e);
      assert m == [m[0]] + m[1..];
      CoversCons(m[0], m[1..], k);
    }
  }

  /** Accepting a packet writes its bytes at their own numbers and no others. */
  lemma ReceiveBytes(v: RecvView, s: int, data: seq<uint8>, k: int)
    requires v.Ok() && 1 <= |data| && v.Check(s, |data|) == CanReceive
    requires v.read < k <= v.read + v.cap
    ensures |v.Receive(s, data).ring| == v.cap && v.Receive(s, data).read == v.read
    ensures v.Receive(s, data).ByteAt(k) == if s <= k < s + |data| then data[k - s] else v.ByteAt(k)
  {
  }

  /** Reading moves the anchor only: what is held, and every later byte, stay where they were. */
  lemma ReadKeeps(v: RecvView, n: nat)
    requires v.Ok() && n <= v.MaxRead()
    ensures v.Read(n).Ok() && v.Read(n).next == v.next
    ensures forall k :: v.Read(n).Holds(k) <==> v.Holds(k)
    ensures forall k | v.read + n < k <= v.read + v.cap :: v.Read(n).ByteAt(k) == v.ByteAt(k)
    ensures |v.Front(n)| == n && forall i | 0 <= i < n :: v.Front(n)[i] == v.ByteAt(v.read + 1 + i)
  {
  }
}
