/** The send buffer as a value: what send_buffer_t means, without indices. */
module SendViews {
  import opened Types
  import opened Ring

  /** `pending` holds the written bytes that are not yet acknowledged, numbered from acked + 1. */
  datatype SendView = SendView(cap: int, acked: int, sent: int, pending: seq<uint8>) {

    ghost predicate Ok() {
      && MIN_CAPACITY <= cap <= MAX_CAPACITY
      && acked <= sent < Next() <= acked + cap
    }

    /** The number of the next byte the application will write. */
    function Next(): int {
      acked + 1 + |pending|
    }

    function MaxWrite(): int {
      cap - (Next() - acked)
    }

    function Fresh(): int {
      Next() - sent - 1
    }

    function Unacked(): int {
      sent - acked
    }

    function Write(data: seq<uint8>): SendView {
      this.(pending := pending + data)
    }

    /** The bytes numbered first .. first + len - 1. */
    function Bytes(first: int, len: int): seq<uint8>
      requires acked < first && 0 <= len && first + len <= Next()
    {
      Cut(pending, first - acked - 1, len)
    }

    /** A cumulative acknowledgement of everything before `ack`. */
    function Ack(ack: int): SendView
      requires ack <= Next()
    {
      if ack - 1 <= acked then this
      else this.(acked := ack - 1, pending := Cut(pending, ack - 1 - acked, Next() - ack))
    }
  }

  lemma BytesIs(v: SendView, first: int, len: int)
    requires v.acked < first && 0 <= len && first + len <= v.Next()
    ensures v.Bytes(first, len) == v.pending[first - v.acked - 1..first - v.acked - 1 + len]
  {
    CutIs(v.pending, first - v.acked - 1, len);
  }

  lemma BytesWithin(v: SendView, first: int, n: nat, off: nat, len: nat)
    requires v.acked < first && first + n <= v.Next() && off + len <= n
    ensures Cut(v.Bytes(first, n), off, len) == v.Bytes(first + off, len)
  {
    CutOfCut(v.pending, first - v.acked - 1, n, off, len);
  }

  /** Fresh bytes stay where they are while the sent cursor passes over those before them. */
  lemma BytesNow(v: SendView, off: nat, w: SendView, data: seq<uint8>, len: nat)
    requires v.Ok() && w == v.(sent := v.sent + off) && off + len <= |data| <= v.Fresh()
    requires data == v.Bytes(v.sent + 1, |data|)
    ensures w.Bytes(w.sent + 1, len) == Cut(data, off, len)
  {
    BytesWithin(v, v.sent + 1, |data|, off, len);
  }

  /** The space left, the fresh bytes and the bytes in flight always make up the capacity less one. */
  lemma SendConservation(v: SendView)
    requires v.Ok()
    ensures v.MaxWrite() + v.Fresh() + v.Unacked() == v.cap - 1
    ensures 0 <= v.MaxWrite() && 0 <= v.Fresh() && 0 <= v.Unacked()
  {
  }

  /** A valid acknowledgement moves neither the last sent nor the next written number, and keeps the bytes
      that stay pending under their own numbers. */
  lemma AckKeeps(v: SendView, ack: int)
    requires v.Ok() && ack - 1 <= v.sent
    ensures v.Ack(ack).Ok() && v.Ack(ack).acked == Max(v.acked, ack - 1)
    ensures v.Ack(ack).sent == v.sent && v.Ack(ack).Next() == v.Next()
    ensures forall k | v.Ack(ack).acked < k < v.Next() :: v.Ack(ack).Bytes(k, 1) == v.Bytes(k, 1)
  {
  }

  /** Acknowledgements commute and repeat harmlessly: only the largest counts. */
  lemma AckIsMax(v: SendView, a: int, b: int)
    requires v.Ok() && a - 1 <= v.sent && b - 1 <= v.sent
    ensures v.Ack(a).Ack(b) == v.Ack(Max(a, b))
  {
  }

  // ---------------------------------------------------------------- places in the array

  /** The index at which byte `k` lies: byte isn + 1 was written at index 1. */
  function Place(isn: int, cap: int, k: int): (i: int)
    requires 0 < cap
    ensures 0 <= i < cap
  {
    (k - isn) % cap
  }

  lemma PlaceOfNear(isn: int, cap: int, k: int)
    requires 0 < cap && isn <= k < isn + 2 * cap
    ensures Place(isn, cap, k) == Wrap(k - isn, cap)
  {
    WrapIsMod(k - isn, cap);
  }

  lemma PlaceMoves(isn: int, cap: int, k: int, d: nat)
    requires 0 < cap && d < cap && isn <= k
    ensures Place(isn, cap, k + d) == Wrap(Place(isn, cap, k) + d, cap)
  {
    DivMod(k - isn, cap);
    RestMoves((k - isn) / cap, (k - isn) % cap, cap, d);
  }

  lemma DivMod(n: nat, cap: nat)
    requires 0 < cap
    ensures n == n / cap * cap + n % cap
  {
  }

  /** Whole turns do not change a place. */
  lemma RestMoves(q: nat, i: nat, cap: nat, d: nat)
    requires i < cap && d < cap
    ensures (q * cap + i + d) % cap == Wrap(i + d, cap)
  {
    if i + d < cap {
      QuotientIs(q * cap + i + d, cap, q);
    } else {
      assert (q + 1) * cap == q * cap + cap && (q + 2) * cap == q * cap + 2 * cap;
      QuotientIs(q * cap + i + d, cap, q + 1);
    }
  }

  /** The bytes first .. first + len - 1 lie above the acked byte and before the end of the array. */
  predicate Straight(v: SendView, isn: int, first: int, len: int)
    requires 0 < v.cap
  {
    && Place(isn, v.cap, v.acked) < Place(isn, v.cap, first)
    && Place(isn, v.cap, first) + len <= v.cap
  }

  /** A run of bytes is straight exactly when its parts are. */
  lemma StraightSplits(v: SendView, isn: int, first: int, n: int, len: int)
    requires 0 < v.cap && 1 <= n < len < v.cap && isn <= first
    ensures Straight(v, isn, first, len) <==> Straight(v, isn, first, n) && Straight(v, isn, first + n, len - n)
  {
    PlaceMoves(isn, v.cap, first, n);
  }

  /** Bytes in the live window are straight exactly while none of them has been numbered a whole capacity
      past the initial number. */
  lemma StraightIff(v: SendView, isn: int, len: int)
    requires v.Ok() && isn <= v.acked && v.sent < isn + v.cap && 1 <= len <= v.Fresh()
    ensures Straight(v, isn, v.sent + 1, len) <==> v.sent + len < isn + v.cap
  {
    PlaceOfNear(isn, v.cap, v.acked);
    PlaceOfNear(isn, v.cap, v.sent + 1);
  }
}
