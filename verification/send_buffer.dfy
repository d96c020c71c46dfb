/** The send buffer of send_buffer.c: a byte ring with three cursors, all decoded from wrapped indices. */
module SendBuffers {
  import opened Types
  import opened Ring
  import opened SendViews

  class SendBuffer {
    const capacity: uint32
    const buffer: array<uint8>
    ghost const isn: int
    var lastByteAckedSeqnum: uint32
    var lastByteAckedIndex: uint32
    var lastByteSentIndex: uint32
    var nextByteWrittenIndex: uint32

    /** Indices are in range and no sequence number of the window passes 2^32. */
    ghost predicate Shape()
      reads this
    {
      && MIN_CAPACITY <= capacity as int <= MAX_CAPACITY && buffer.Length == capacity as int
      && lastByteAckedIndex < capacity && lastByteSentIndex < capacity && nextByteWrittenIndex < capacity
      && lastByteAckedSeqnum as int + capacity as int < TWO_32
    }

    ghost function View(): SendView
      requires Shape()
      reads this, buffer
    {
      SendView(capacity as int, lastByteAckedSeqnum as int, LastByteSentSeqnum() as int,
               Logical(buffer[..], lastByteAckedIndex as int + 1)
                 [..NextByteWrittenSeqnum() as int - lastByteAckedSeqnum as int - 1])
    }

    ghost predicate Valid()
      reads this, buffer
    {
      Shape() && View().Ok()
    }

    /** The acked byte lies where its number says, counted from the initial number at index 0. */
    ghost predicate Homed()
      requires 0 < capacity
      reads this`lastByteAckedSeqnum, this`lastByteAckedIndex
    {
      isn <= lastByteAckedSeqnum as int
      && lastByteAckedIndex as int == Place(isn, capacity as int, lastByteAckedSeqnum as int)
    }

    constructor (capacity: uint32, isn: uint32)
      requires MIN_CAPACITY <= capacity as int <= MAX_CAPACITY && isn as int + capacity as int < TWO_32
      ensures Valid() && fresh(buffer)
      ensures View() == SendView(capacity as int, isn as int, isn as int, []) && lastByteAckedIndex == 0
      ensures this.isn == isn as int && Homed()
    {
      this.capacity := capacity;
      this.isn := isn as int;
      buffer := new uint8[capacity];
      lastByteAckedSeqnum := isn;
      lastByteAckedIndex := 0;
      lastByteSentIndex := 0;
      nextByteWrittenIndex := 1;
    }

    function SeqnumToIndex(seqnum: uint32): (index: uint32)
      requires Shape()
      requires lastByteAckedSeqnum <= seqnum && seqnum < lastByteAckedSeqnum + capacity
      reads this
      ensures index < capacity && IndexToSeqnum(index) == seqnum
      ensures index as int
           == Wrap(lastByteAckedIndex as int + (seqnum as int - lastByteAckedSeqnum as int), capacity as int)
    {
      WrapIsMod(lastByteAckedIndex as int + (seqnum as int - lastByteAckedSeqnum as int), capacity as int);
      (lastByteAckedIndex + (seqnum - lastByteAckedSeqnum)) % capacity
    }

    function IndexToSeqnum(index: uint32): (seqnum: uint32)
      requires Shape() && index < capacity
      reads this
      ensures lastByteAckedSeqnum <= seqnum && seqnum < lastByteAckedSeqnum + capacity
      ensures index as int
           == Wrap(lastByteAckedIndex as int + (seqnum as int - lastByteAckedSeqnum as int), capacity as int)
    {
      if index >= lastByteAckedIndex then
        index - lastByteAckedIndex + lastByteAckedSeqnum
      else
        var tailLen := capacity - 1 - lastByteAckedIndex;
        index + 1 + tailLen + lastByteAckedSeqnum
    }

    /** Equal indices mean a full buffer. */
    function NextByteWrittenSeqnum(): (seqnum: uint32)
      requires Shape()
      reads this
      ensures lastByteAckedSeqnum < seqnum && seqnum <= lastByteAckedSeqnum + capacity
      ensures nextByteWrittenIndex as int
           == Wrap(lastByteAckedIndex as int + (seqnum as int - lastByteAckedSeqnum as int), capacity as int)
    {
      if nextByteWrittenIndex > lastByteAckedIndex then
        nextByteWrittenIndex - lastByteAckedIndex + lastByteAckedSeqnum
      else
        capacity - 1 - lastByteAckedIndex + (nextByteWrittenIndex + 1) + lastByteAckedSeqnum
    }

    /** Equal indices mean nothing is in flight. */
    function LastByteSentSeqnum(): (seqnum: uint32)
      requires Shape()
      reads this
      ensures seqnum == IndexToSeqnum(lastByteSentIndex)
    {
      if lastByteSentIndex >= lastByteAckedIndex then
        lastByteSentIndex - lastByteAckedIndex + lastByteAckedSeqnum
      else
        capacity - 1 - lastByteAckedIndex + (lastByteSentIndex + 1) + lastByteAckedSeqnum
    }

    function MaxWrite(): (n: uint32)
      requires Shape()
      reads this
      ensures n as int == capacity as int - (NextByteWrittenSeqnum() as int - lastByteAckedSeqnum as int)
    {
      capacity - (NextByteWrittenSeqnum() - lastByteAckedSeqnum)
    }

    function MaxNewDump(): (n: uint32)
      requires Valid()
      reads this, buffer
      ensures n as int + UnacknowledgedCount() as int + MaxWrite() as int == capacity as int - 1
    {
      NextByteWrittenSeqnum() - LastByteSentSeqnum() - 1
    }

    function UnacknowledgedCount(): uint32
      requires Shape()
      reads this
    {
      LastByteSentSeqnum() - lastByteAckedSeqnum
    }

    method Write(data: seq<uint8>)
      requires Valid() && |data| <= MaxWrite() as int
      modifies this`nextByteWrittenIndex, buffer
      ensures Valid() && View() == old(View()).Write(data)
    {
      ghost var v := View();
      if |data| == 0 {
        assert v.Write(data) == v;
        return;
      }
      ghost var logical := Logical(buffer[..], lastByteAckedIndex as int + 1);
      Append(data);
      SpliceExtends(logical, |v.pending|, data);
      assert View().pending == v.pending + data;
    }

    /** Copies the data in after the last written byte and moves the write cursor past it. */
    method Append(data: seq<uint8>)
      requires Valid() && 1 <= |data| <= MaxWrite() as int
      modifies this`nextByteWrittenIndex, buffer
      ensures Shape() && NextByteWrittenSeqnum() as int == old(NextByteWrittenSeqnum()) as int + |data|
      ensures Logical(buffer[..], lastByteAckedIndex as int + 1)
           == Splice(old(Logical(buffer[..], lastByteAckedIndex as int + 1)), |old(View()).pending|, data)
    {
      ghost var o := NextByteWrittenSeqnum() as int - lastByteAckedSeqnum as int - 1;
      CopyIn(buffer, nextByteWrittenIndex, data, lastByteAckedIndex as int + 1, o);
      MoveWritten(|data| as uint32);
    }

    method MoveWritten(len: uint32)
      requires Shape() && 1 <= len <= MaxWrite()
      modifies this`nextByteWrittenIndex
      ensures Shape() && NextByteWrittenSeqnum() == old(NextByteWrittenSeqnum()) + len
    {
      var index := nextByteWrittenIndex;
      WrapIsMod(index as int + len as int, capacity as int);
      nextByteWrittenIndex := (index + len) % capacity;
      assert nextByteWrittenIndex as int == Wrap(index as int + len as int, capacity as int);
    }

    /** Copies `len` bytes from `startIndex` and moves the sent cursor when they end at or past it. */
    method Dump(startIndex: uint32, len: uint32) returns (data: seq<uint8>)
      requires Valid() && startIndex < capacity && startIndex != lastByteAckedIndex
      requires IndexToSeqnum(startIndex) as int + len as int <= NextByteWrittenSeqnum() as int
      modifies this`lastByteSentIndex
      ensures Valid() && data == old(View()).Bytes(old(IndexToSeqnum(startIndex)) as int, len as int)
      ensures View() == if len == 0 then old(View()) else
          old(View()).(sent := Max(old(View()).sent, old(IndexToSeqnum(startIndex)) as int + len as int - 1))
    {
      if len == 0 {
        return [];
      }
      ghost var v, first := View(), IndexToSeqnum(startIndex) as int;
      data := CopyFrom(startIndex, len);
      MarkSent(startIndex, len);
      assert IndexToSeqnum(startIndex) as int == first;
      assert View() == v.(sent := Max(v.sent, first + len as int - 1));
    }

    /** One turn of the loop in multiple_send: the number and the bytes that come right after the last sent. */
    method DumpFresh(len: uint32) returns (seqnum: uint32, data: seq<uint8>)
      requires Valid() && 1 <= len <= MaxNewDump()
      modifies this`lastByteSentIndex
      ensures Valid() && seqnum as int == old(View()).sent + 1
      ensures data == old(View()).Bytes(seqnum as int, len as int)
      ensures View() == old(View()).(sent := old(View()).sent + len as int)
    {
      seqnum := LastByteSentSeqnum() + 1;
      WrapIsMod(lastByteSentIndex as int + 1, capacity as int);
      var startIndex := (lastByteSentIndex + 1) % capacity;
      assert IndexToSeqnum(startIndex) == seqnum;
      data := Dump(startIndex, len);
    }

    /** One turn of the loop in resend_unacknowledged: bytes from `numSent` past the acked ones, again. */
    method CopyUnacked(numSent: uint32, len: uint32) returns (seqnum: uint32, data: seq<uint8>)
      requires Valid() && 1 <= len && numSent as int + len as int <= UnacknowledgedCount() as int
      ensures seqnum as int == View().acked + 1 + numSent as int
      ensures data == View().Bytes(seqnum as int, len as int)
    {
      WrapIsMod(lastByteAckedIndex as int + 1, capacity as int);
      var startIndex := (lastByteAckedIndex + 1) % capacity;
      var startSeq := lastByteAckedSeqnum + 1;
      WrapIsMod(startIndex as int + numSent as int, capacity as int);
      var currIndex := (startIndex + numSent) % capacity;
      seqnum := startSeq + numSent;
      assert IndexToSeqnum(currIndex) == seqnum;
      data := CopyFrom(currIndex, len);
    }

    /** Moves the sent cursor to the last of `len` bytes when that is at or past it. */
    method MarkSent(startIndex: uint32, len: uint32)
      requires Shape() && startIndex < capacity && startIndex != lastByteAckedIndex && 1 <= len
      requires IndexToSeqnum(startIndex) as int + len as int <= NextByteWrittenSeqnum() as int
      modifies this`lastByteSentIndex
      ensures Shape() && LastByteSentSeqnum() as int
           == Max(old(LastByteSentSeqnum()) as int, IndexToSeqnum(startIndex) as int + len as int - 1)
    {
      WrapIsMod(startIndex as int + len as int - 1, capacity as int);
      var endIndex := (startIndex + len - 1) % capacity;
      assert IndexToSeqnum(endIndex) == IndexToSeqnum(startIndex) + len - 1;
      if IndexToSeqnum(endIndex) >= LastByteSentSeqnum() {
        lastByteSentIndex := endIndex;
      }
    }

    method CopyFrom(startIndex: uint32, len: uint32) returns (data: seq<uint8>)
      requires Valid() && startIndex < capacity && startIndex != lastByteAckedIndex && 1 <= len
      requires IndexToSeqnum(startIndex) as int + len as int <= NextByteWrittenSeqnum() as int
      ensures data == View().Bytes(IndexToSeqnum(startIndex) as int, len as int)
    {
      ghost var v, first := View(), IndexToSeqnum(startIndex) as int;
      BytesOnRing(first, len as int);
      data := CopyRing(startIndex, len, first - lastByteAckedSeqnum as int - 1, v.Bytes(first, len as int));
      assert View() == v;
    }

    /** The same, for bytes known by their place on the ring. */
    method CopyRing(startIndex: uint32, len: uint32, ghost o: nat, ghost bytes: seq<uint8>)
      returns (data: seq<uint8>)
      requires Shape() && 1 <= len && o + len as int <= capacity as int
      requires startIndex as int == Wrap(lastByteAckedIndex as int + 1 + o, capacity as int)
      requires bytes == Logical(buffer[..], lastByteAckedIndex as int + 1)[o..o + len as int]
      ensures data == bytes
    {
      data := CopyOut(buffer, startIndex, len, lastByteAckedIndex as int + 1, o);
    }

    /** Pending bytes lie on the ring behind the acked one. */
    lemma BytesOnRing(first: int, len: nat)
      requires Valid() && View().acked < first && first + len <= View().Next()
      ensures var o := first - lastByteAckedSeqnum as int - 1;
              View().Bytes(first, len) == Logical(buffer[..], lastByteAckedIndex as int + 1)[o..o + len]
    {
      var o := first - lastByteAckedSeqnum as int - 1;
      var logical, n := Logical(buffer[..], lastByteAckedIndex as int + 1), |View().pending|;
      assert View().pending == logical[..n];
      SliceOfPrefix(logical, n, o, len);
      BytesIs(View(), first, len);
    }

    /** An acknowledgement of sent bytes keeps both other decoded cursors; one of unsent bytes, which the
        range asserts let through, throws the sent cursor a whole turn forward. */
    method UpdateAck(hdrAck: uint32)
      requires Valid() && 1 <= hdrAck && hdrAck as int - 1 + capacity as int < TWO_32
      requires hdrAck - 1 < lastByteAckedSeqnum + capacity
      modifies this`lastByteAckedSeqnum, this`lastByteAckedIndex
      ensures Shape()
      ensures hdrAck as int - 1 <= old(View()).sent ==> Valid() && View() == old(View()).Ack(hdrAck as int)
      ensures hdrAck - 1 > old(lastByteAckedSeqnum) ==>
        lastByteAckedIndex as int == Wrap(old(lastByteAckedIndex) as int
                                          + (hdrAck as int - 1 - old(lastByteAckedSeqnum) as int), capacity as int)
      ensures hdrAck as int - 1 > old(View()).sent ==>
        View().sent == old(View()).sent + capacity as int
      ensures old(Homed()) ==> Homed()
    {
      var acked := hdrAck - 1;
      if acked > lastByteAckedSeqnum {
        ghost var from, index, homed := lastByteAckedSeqnum, lastByteAckedIndex, Homed();
        ShiftAcked(acked);
        if homed {
          HomeMoves(from, index);
        }
      }
    }

    /** The acked index stays where its number belongs. */
    lemma HomeMoves(from: uint32, index: uint32)
      requires 0 < capacity && isn <= from as int && index as int == Place(isn, capacity as int, from as int)
      requires from <= lastByteAckedSeqnum && lastByteAckedSeqnum as int < from as int + capacity as int
      requires lastByteAckedIndex as int
            == Wrap(index as int + (lastByteAckedSeqnum as int - from as int), capacity as int)
      ensures Homed()
    {
      PlaceMoves(isn, capacity as int, from as int, lastByteAckedSeqnum as int - from as int);
    }

    /** Moves the acked cursor forward. */
    method ShiftAcked(acked: uint32)
      requires Valid() && lastByteAckedSeqnum < acked && acked < lastByteAckedSeqnum + capacity
      requires acked as int + capacity as int < TWO_32
      modifies this`lastByteAckedSeqnum, this`lastByteAckedIndex
      ensures Shape() && lastByteAckedSeqnum == acked
      ensures acked as int <= old(View()).sent ==> Valid() && View() == old(View()).Ack(acked as int + 1)
      ensures lastByteAckedIndex as int
           == Wrap(old(lastByteAckedIndex) as int + (acked as int - old(lastByteAckedSeqnum) as int), capacity as int)
      ensures acked as int > old(View()).sent ==> View().sent == old(View()).sent + capacity as int
    {
      ghost var v, index := View(), lastByteAckedIndex;
      MoveAcked(acked);
      if acked as int <= v.sent {
        AckMoved(v, index);
      }
    }

    lemma AckMoved(v: SendView, index: uint32)
      requires Shape() && v.Ok() && v.cap == capacity as int && index < capacity
      requires v.pending == Logical(buffer[..], index as int + 1)[..|v.pending|]
      requires v.acked < lastByteAckedSeqnum as int <= v.sent
      requires LastByteSentSeqnum() as int == v.sent && NextByteWrittenSeqnum() as int == v.Next()
      requires lastByteAckedIndex as int == Wrap(index as int + (lastByteAckedSeqnum as int - v.acked), capacity as int)
      ensures Valid() && View() == v.Ack(lastByteAckedSeqnum as int + 1)
    {
      var d := lastByteAckedSeqnum as int - v.acked;
      PendingRotates(buffer[..], index as int, |v.pending|, d);
      assert View().pending == v.pending[d..];
      CutIs(v.pending, d, |v.pending| - d);
    }

    method MoveAcked(acked: uint32)
      requires Shape() && lastByteAckedSeqnum < acked && acked < lastByteAckedSeqnum + capacity
      requires acked as int + capacity as int < TWO_32
      modifies this`lastByteAckedSeqnum, this`lastByteAckedIndex
      ensures Shape() && lastByteAckedSeqnum == acked
      ensures LastByteSentSeqnum() == old(LastByteSentSeqnum())
                                    + if acked <= old(LastByteSentSeqnum()) then 0 else capacity
      ensures acked < old(NextByteWrittenSeqnum()) ==> NextByteWrittenSeqnum() == old(NextByteWrittenSeqnum())
      ensures lastByteAckedIndex as int
           == Wrap(old(lastByteAckedIndex) as int + (acked as int - old(lastByteAckedSeqnum) as int), capacity as int)
    {
      var idx := SeqnumToIndex(acked);
      lastByteAckedSeqnum := acked;
      lastByteAckedIndex := idx;
    }

    // ------------------------------------------------------------ the copies as the source writes them

    /** A nonempty run of bytes of the live window, from the byte at `startIndex`. */
    ghost predicate Live(startIndex: uint32, len: uint32)
      requires Shape()
      reads this
    {
      && startIndex < capacity && startIndex != lastByteAckedIndex && 1 <= len
      && IndexToSeqnum(startIndex) as int + len as int <= NextByteWrittenSeqnum() as int
    }

    ghost predicate DumpsAsWritten(startIndex: uint32, len: uint32)
      requires Valid() && Live(startIndex, len)
      reads this, buffer
    {
      CopyAsWritten(buffer[..], lastByteAckedIndex as int, startIndex as int, len as int)
      == Some(View().Bytes(IndexToSeqnum(startIndex) as int, len as int))
    }

    lemma DumpAsWrittenIsRight(startIndex: uint32, len: uint32)
      requires Valid() && Live(startIndex, len)
      ensures DumpsAsWritten(startIndex, len)
         <==> lastByteAckedIndex < startIndex && startIndex as int + len as int <= capacity as int
    {
      var o := IndexToSeqnum(startIndex) as int - lastByteAckedSeqnum as int - 1;
      SliceOfPrefix(Logical(buffer[..], lastByteAckedIndex as int + 1), |View().pending|, o, len as int);
      BytesIs(View(), IndexToSeqnum(startIndex) as int, len as int);
      CopyAsWrittenIsRight(buffer[..], lastByteAckedIndex as int, o, startIndex as int, len as int);
    }

    /** The same, told from the numbers of the bytes. */
    lemma DumpAsWrittenByNumber(startIndex: uint32, len: uint32)
      requires Valid() && Homed() && Live(startIndex, len)
      ensures startIndex as int == Place(isn, capacity as int, IndexToSeqnum(startIndex) as int)
      ensures DumpsAsWritten(startIndex, len) <==> Straight(View(), isn, IndexToSeqnum(startIndex) as int, len as int)
    {
      var d := IndexToSeqnum(startIndex) as int - lastByteAckedSeqnum as int;
      PlaceMoves(isn, capacity as int, lastByteAckedSeqnum as int, d);
      DumpAsWrittenIsRight(startIndex, len);
    }

    /** With the copy as the source writes it, every dump is right exactly while the pending bytes have not
        come round to the front of the array. */
    lemma EveryDumpAsWritten()
      requires Valid()
      ensures (forall start, len | Live(start, len) :: DumpsAsWritten(start, len))
         <==> nextByteWrittenIndex == 0 || lastByteAckedIndex < nextByteWrittenIndex
    {
      if nextByteWrittenIndex == 0 || lastByteAckedIndex < nextByteWrittenIndex {
        forall start, len | Live(start, len)
          ensures DumpsAsWritten(start, len)
        {
          DumpAsWrittenIsRight(start, len);
        }
      } else {
        var last := nextByteWrittenIndex - 1;
        assert Live(last, 1);
        DumpAsWrittenIsRight(last, 1);
      }
    }

    ghost predicate ResendsAsWritten(startIndex: uint32, len: uint32)
      requires Valid() && Live(startIndex, len)
      reads this, buffer
    {
      ResendCopyAsWritten(buffer[..], startIndex as int, len as int)
      == Some(View().Bytes(IndexToSeqnum(startIndex) as int, len as int))
    }

    lemma ResendAsWrittenIsRight(startIndex: uint32, len: uint32)
      requires Valid() && Live(startIndex, len)
      ensures ResendsAsWritten(startIndex, len) <==> startIndex as int + len as int <= capacity as int
    {
      var o := IndexToSeqnum(startIndex) as int - lastByteAckedSeqnum as int - 1;
      SliceOfPrefix(Logical(buffer[..], lastByteAckedIndex as int + 1), |View().pending|, o, len as int);
      BytesIs(View(), IndexToSeqnum(startIndex) as int, len as int);
      ResendCopyAsWrittenIsRight(buffer[..], lastByteAckedIndex as int, o, startIndex as int, len as int);
    }

    lemma ResendAsWrittenByNumber(startIndex: uint32, len: uint32)
      requires Valid() && Homed() && Live(startIndex, len)
      ensures ResendsAsWritten(startIndex, len)
         <==> Place(isn, capacity as int, IndexToSeqnum(startIndex) as int) + len as int <= capacity as int
    {
      DumpAsWrittenByNumber(startIndex, len);
      ResendAsWrittenIsRight(startIndex, len);
    }

    /** Bytes that have been sent, from the byte at `startIndex`. */
    ghost predicate InFlight(startIndex: uint32, len: uint32)
      requires Shape()
      reads this
    {
      Live(startIndex, len) && IndexToSeqnum(startIndex) as int + len as int <= LastByteSentSeqnum() as int + 1
    }

    /** With the retransmission as the source writes it, every one is right exactly while the bytes in flight
        do not straddle the end of the array. */
    lemma EveryResendAsWritten()
      requires Valid()
      ensures (forall start, len | InFlight(start, len) :: ResendsAsWritten(start, len))
         <==> lastByteAckedIndex <= lastByteSentIndex || lastByteAckedIndex == capacity - 1
    {
      if lastByteAckedIndex <= lastByteSentIndex || lastByteAckedIndex == capacity - 1 {
        forall start, len | InFlight(start, len)
          ensures ResendsAsWritten(start, len)
        {
          ResendAsWrittenIsRight(start, len);
        }
      } else {
        assert InFlight(capacity - 1, 2);
        ResendAsWrittenIsRight(capacity - 1, 2);
      }
    }
  }

  /** Calls lead to a buffer with pending bytes on both sides of the end of the array, where a dump as the
      source writes it leaves the array, or is refused for a byte that has come round to the front. */
  method DumpFails() returns (b: SendBuffer)
    ensures fresh(b) && fresh(b.buffer) && b.Valid() && b.lastByteAckedIndex == 2 && b.capacity == 4
    ensures b.View() == SendView(4, 2, 2, [3, 4])
    ensures b.Live(3, 2) && !b.DumpsAsWritten(3, 2) && CopyAsWritten(b.buffer[..], 2, 3, 2) == None
    ensures b.Live(0, 1) && !b.DumpsAsWritten(0, 1) && CopyAsWritten(b.buffer[..], 2, 0, 1) == None
  {
    b := new SendBuffer(4, 0);
    b.Write([1, 2]);
    var seqnum, data := b.DumpFresh(2);
    b.UpdateAck(3);
    b.Write([3, 4]);
    b.DumpAsWrittenIsRight(3, 2);
    b.DumpAsWrittenIsRight(0, 1);
  }

  /** Once those bytes are in flight, so is their retransmission. */
  method ResendFails() returns (b: SendBuffer)
    ensures fresh(b) && fresh(b.buffer) && b.Valid() && b.InFlight(3, 2) && !b.ResendsAsWritten(3, 2)
  {
    b := DumpFails();
    var seqnum, data := b.DumpFresh(2);
    b.ResendAsWrittenIsRight(3, 2);
  }

  lemma PrefixRotates(s: seq<uint8>, p: nat, d: nat)
    requires d <= p <= |s|
    ensures (s[d..] + s[..d])[..p - d] == s[..p][d..]
  {
  }

  /** Moving the base of the ring forward drops that many bytes from the front of what it holds. */
  lemma PendingRotates(ring: seq<uint8>, index: nat, p: nat, d: nat)
    requires index < |ring| && d <= p < |ring|
    ensures Logical(ring, Wrap(index + d, |ring|) + 1)[..p - d] == Logical(ring, index + 1)[..p][d..]
  {
    LogicalRotates(ring, index, d);
    PrefixRotates(Logical(ring, index + 1), p, d);
  }

  /** The copy out as send_buffer.c writes it, whose test compares the unreduced end index with the acked
      index; None when a memcpy would leave the array or its length would be negative. */
  function CopyAsWritten(ring: seq<uint8>, ackedIndex: nat, start: nat, len: nat): Option<seq<uint8>>
    requires start < |ring|
  {
    if start + len - 1 > ackedIndex then
      if start + len <= |ring| then Some(ring[start..start + len]) else None
    else
      var tailLen := |ring| - start;
      if tailLen <= len && len - tailLen <= |ring| then Some(ring[start..] + ring[..len - tailLen]) else None
  }

  /** On a range of the live window the copy as written is right exactly when the range starts above the
      acked index and stays inside the array. */
  lemma CopyAsWrittenIsRight(ring: seq<uint8>, ackedIndex: nat, o: nat, start: nat, len: nat)
    requires ackedIndex < |ring| && 1 <= len && o + len < |ring|
    requires start == Wrap(ackedIndex + 1 + o, |ring|)
    ensures CopyAsWritten(ring, ackedIndex, start, len) == Some(Logical(ring, ackedIndex + 1)[o..o + len])
       <==> ackedIndex < start && start + len <= |ring|
  {
    if ackedIndex < start && start + len <= |ring| {
      assert Logical(ring, ackedIndex + 1)[o..o + len] == ring[start..start + len];
    }
  }

  /** The retransmission as backend.c writes it reads straight on from its index. */
  function ResendCopyAsWritten(ring: seq<uint8>, start: nat, len: nat): Option<seq<uint8>> {
    if start + len <= |ring| then Some(ring[start..start + len]) else None
  }

  lemma ResendCopyAsWrittenIsRight(ring: seq<uint8>, ackedIndex: nat, o: nat, start: nat, len: nat)
    requires ackedIndex < |ring| && 1 <= len && o + len < |ring|
    requires start == Wrap(ackedIndex + 1 + o, |ring|)
    ensures ResendCopyAsWritten(ring, start, len) == Some(Logical(ring, ackedIndex + 1)[o..o + len])
       <==> start + len <= |ring|
  {
    if start + len <= |ring| {
      assert Logical(ring, ackedIndex + 1)[o..o + len] == ring[start..start + len];
    }
  }
}
