/** The receive buffer of recv_buffer.c: a byte ring addressed by indices, and a linked list of segments. */
module RecvBuffers {
  import opened Types
  import opened Ring
  import opened Segments
  import opened Reassembler

  class RecvBuffer {
    const capacity: uint32
    const buffer: array<uint8>
    var lastByteReadSeqnum: uint32
    var lastByteReadIndex: uint32
    var nextByteExpectedIndex: uint32
    var start: Segment?
    var end: Segment?
    ghost var nodes: seq<Segment>
    ghost var segs: seq<Seg>

    /** Allocated, but not yet anchored at the peer's initial sequence number. */
    ghost predicate Created()
      reads this
    {
      && MIN_CAPACITY <= capacity as int <= MAX_CAPACITY && buffer.Length == capacity as int
      && lastByteReadSeqnum == 0 && start == null && end == null && nodes == [] && segs == []
    }

    /** Indices are in range and no sequence number of the window passes 2^32. */
    ghost predicate Shape()
      reads this
    {
      && MIN_CAPACITY <= capacity as int <= MAX_CAPACITY && buffer.Length == capacity as int
      && lastByteReadIndex < capacity && nextByteExpectedIndex < capacity
      && lastByteReadSeqnum as int + capacity as int < TWO_32
    }

    ghost predicate Linked()
      reads this, nodes
    {
      && Chain(nodes) && Hold(nodes, segs)
      && start == NodeAt(nodes, 0) && end == NodeAt(nodes, |nodes| - 1)
    }

    ghost function View(): RecvView
      requires Shape()
      reads this, buffer
    {
      RecvView(capacity as int, lastByteReadSeqnum as int, NextByteExpectedSeqnum() as int, segs,
               Logical(buffer[..], lastByteReadIndex as int + 1))
    }

    ghost predicate Valid()
      reads this, buffer, nodes
    {
      Shape() && Linked() && View().Ok()
    }

    constructor (capacity: uint32)
      requires MIN_CAPACITY <= capacity as int <= MAX_CAPACITY
      ensures Created() && this.capacity == capacity && fresh(buffer)
    {
      this.capacity := capacity;
      buffer := new uint8[capacity];
      lastByteReadSeqnum := 0;
      start, end, nodes, segs := null, null, [], [];
    }

    method Initialize(otherIsn: uint32)
      requires Created() && otherIsn as int + capacity as int < TWO_32
      modifies this
      ensures Valid() && nodes == []
      ensures View() == RecvView(capacity as int, otherIsn as int, otherIsn as int + 1, [], Logical(buffer[..], 1))
    {
      lastByteReadSeqnum := otherIsn;
      lastByteReadIndex := 0;
      nextByteExpectedIndex := 1;
    }

    /** The source asks only that the number has not been read; its sum is cut to 32 bits. */
    function SeqnumToIndex(seqnum: uint32): (index: uint32)
      requires Shape() && lastByteReadSeqnum <= seqnum
      reads this
      ensures index < capacity
      ensures seqnum as int <= lastByteReadSeqnum as int + capacity as int ==>
        index as int == Wrap(lastByteReadIndex as int + (seqnum as int - lastByteReadSeqnum as int), capacity as int)
    {
      var sum := lastByteReadIndex as int + (seqnum - lastByteReadSeqnum) as int;
      assert sum < 2 * capacity as int ==> sum % TWO_32 % capacity as int == Wrap(sum, capacity as int) by {
        if sum < 2 * capacity as int {
          WrapIsMod(sum, capacity as int);
        }
      }
      (sum % TWO_32) as uint32 % capacity
    }

    /** Decodes the next expected number from the two indices; equal indices mean a full buffer. */
    function NextByteExpectedSeqnum(): (seqnum: uint32)
      requires Shape()
      reads this
      ensures lastByteReadSeqnum < seqnum && seqnum as int <= lastByteReadSeqnum as int + capacity as int
      ensures nextByteExpectedIndex == SeqnumToIndex(seqnum)
    {
      if nextByteExpectedIndex > lastByteReadIndex then
        nextByteExpectedIndex - lastByteReadIndex + lastByteReadSeqnum
      else
        capacity - 1 - lastByteReadIndex + (nextByteExpectedIndex + 1) + lastByteReadSeqnum
    }

    function MaxRead(): (n: uint32)
      requires Shape()
      reads this
      ensures n as int + MaxReceive() as int == capacity as int - 1
    {
      NextByteExpectedSeqnum() - lastByteReadSeqnum - 1
    }

    function MaxReceive(): uint32
      requires Shape()
      reads this
    {
      capacity - (NextByteExpectedSeqnum() - lastByteReadSeqnum)
    }

    method Read(len: uint32) returns (buf: seq<uint8>)
      requires Valid() && len <= MaxRead()
      requires lastByteReadSeqnum as int + len as int + capacity as int < TWO_32
      modifies this`lastByteReadSeqnum, this`lastByteReadIndex
      ensures Valid()
      ensures buf == old(View()).Front(len as int)
      ensures View() == old(View()).Read(len as int)
    {
      ghost var v := View();
      if len == 0 {
        assert v.Read(0) == v;
        return [];
      }
      buf := CopyFrom(len);
      ReadKeeps(v, len as int);
      Advance(len);
      assert View() == v.Read(len as int);
      assert Linked();
    }

    /** Moves the read cursor; the decoded next expected number does not change. */
    method Advance(len: uint32)
      requires Shape() && len <= MaxRead()
      requires lastByteReadSeqnum as int + len as int + capacity as int < TWO_32
      modifies this`lastByteReadSeqnum, this`lastByteReadIndex
      ensures Shape() && lastByteReadSeqnum == old(lastByteReadSeqnum) + len
      ensures NextByteExpectedSeqnum() == old(NextByteExpectedSeqnum())
      ensures Logical(buffer[..], lastByteReadIndex as int + 1)
           == Logical(buffer[..], old(lastByteReadIndex) as int + 1)[len..]
            + Logical(buffer[..], old(lastByteReadIndex) as int + 1)[..len]
    {
      LogicalRotates(buffer[..], lastByteReadIndex as int, len as int);
      WrapIsMod(lastByteReadIndex as int + len as int, capacity as int);
      lastByteReadSeqnum := lastByteReadSeqnum + len;
      lastByteReadIndex := (lastByteReadIndex + len) % capacity;
    }

    method CopyFrom(len: uint32) returns (data: seq<uint8>)
      requires Valid() && 1 <= len <= MaxRead()
      ensures data == View().Front(len as int)
    {
      var endIndex := SeqnumToIndex(lastByteReadSeqnum + len);
      if endIndex > lastByteReadIndex {
        data := buffer[lastByteReadIndex + 1..lastByteReadIndex + 1 + len];
      } else {
        var tailLen := capacity - 1 - lastByteReadIndex;
        data := buffer[lastByteReadIndex + 1..] + buffer[..len - tailLen];
      }
    }

    method Check(seqnum: uint32, len: uint32) returns (verdict: Verdict)
      requires Valid() && seqnum as int + len as int < TWO_32
      ensures verdict == View().Check(seqnum as int, len as int)
    {
      if seqnum <= lastByteReadSeqnum {
        return AlreadyRead;
      }
      var lastSeq := seqnum + len - 1;
      if lastSeq < NextByteExpectedSeqnum() {
        return AlreadyReceived;
      }
      return if lastSeq - lastByteReadSeqnum >= capacity then TooLong else CanReceive;
    }

    method Store(seqnum: uint32, data: seq<uint8>)
      requires Shape() && 1 <= |data| && lastByteReadSeqnum < seqnum
      requires seqnum as int + |data| <= lastByteReadSeqnum as int + capacity as int
      modifies buffer
      ensures Logical(buffer[..], lastByteReadIndex as int + 1)
           == Splice(Logical(old(buffer[..]), lastByteReadIndex as int + 1),
                     seqnum as int - lastByteReadSeqnum as int - 1, data)
    {
      CopyIn(buffer, SeqnumToIndex(seqnum), data, lastByteReadIndex as int + 1,
             seqnum as int - lastByteReadSeqnum as int - 1);
    }

    /** Takes a packet in: stores its bytes, then merges its range into the segments or the in-order prefix. */
    method Receive(seqnum: uint32, data: seq<uint8>)
      requires Valid() && 1 <= |data| && seqnum as int + |data| < TWO_32
      requires View().Check(seqnum as int, |data|) == CanReceive
      modifies this`nextByteExpectedIndex, this`start, this`end, this`nodes, this`segs, buffer, nodes
      ensures Valid() && (forall n | n in nodes :: n in old(nodes) || fresh(n))
      ensures View() == old(View()).Receive(seqnum as int, data)
    {
      ghost var v := View();
      Record(seqnum, |data| as uint32, data);
      Store(seqnum, data);
      Received(v, seqnum as int, data);
    }

    /** What handle_message does with a payload under the receive lock. */
    method Offer(seqnum: uint32, data: seq<uint8>)
      requires Valid() && 1 <= |data| && seqnum as int + |data| < TWO_32
      modifies this`nextByteExpectedIndex, this`start, this`end, this`nodes, this`segs, buffer, nodes
      ensures Valid() && (forall n | n in nodes :: n in old(nodes) || fresh(n))
      ensures View() == old(View()).Offer(seqnum as int, data)
    {
      var verdict := Check(seqnum, |data| as uint32);
      if verdict == CanReceive {
        Receive(seqnum, data);
      }
    }

    lemma Received(v: RecvView, s: int, data: seq<uint8>)
      requires Shape() && Linked() && v.Ok() && 1 <= |data| && v.Check(s, |data|) == CanReceive
      requires v.cap == capacity as int && v.read == lastByteReadSeqnum as int
      requires NextByteExpectedSeqnum() as int == v.Receive(s, data).next && segs == v.Receive(s, data).segs
      requires Logical(buffer[..], lastByteReadIndex as int + 1) == Splice(v.ring, s - v.read - 1, data)
      ensures Valid() && View() == v.Receive(s, data)
    {
      ReceiveOk(v, s, data);
    }

    /** The bookkeeping of Receive: the in-order case, the first segment, or a merge into the list. */
    method Record(seqnum: uint32, len: uint32, ghost data: seq<uint8>)
      requires Valid() && 1 <= len && seqnum as int + len as int < TWO_32 && |data| == len as int
      requires View().Check(seqnum as int, len as int) == CanReceive
      modifies this`nextByteExpectedIndex, this`start, this`end, this`nodes, this`segs, nodes
      ensures Shape() && Linked() && (forall n | n in nodes :: n in old(nodes) || fresh(n))
      ensures NextByteExpectedSeqnum() as int == old(View()).Receive(seqnum as int, data).next
      ensures segs == old(View()).Receive(seqnum as int, data).segs
    {
      if start == null {
        RecordFirst(seqnum, len);
      } else {
        RecordMerged(seqnum, len);
      }
    }

    /** No segments yet: the packet extends the in-order prefix or becomes the first segment. */
    method RecordFirst(seqnum: uint32, len: uint32)
      requires Shape() && 1 <= len && seqnum as int + len as int < TWO_32
      requires nodes == [] && segs == [] && start == null && end == null
      requires NextByteExpectedSeqnum() as int <= seqnum as int + len as int - 1
      requires seqnum as int + len as int <= lastByteReadSeqnum as int + capacity as int
      modifies this`nextByteExpectedIndex, this`start, this`end, this`nodes, this`segs
      ensures Shape() && Linked() && (forall n | n in nodes :: fresh(n))
      ensures seqnum <= old(NextByteExpectedSeqnum()) ==> NextByteExpectedSeqnum() == seqnum + len && segs == []
      ensures seqnum > old(NextByteExpectedSeqnum()) ==>
        && NextByteExpectedSeqnum() == old(NextByteExpectedSeqnum())
        && segs == [Seg(seqnum as int, seqnum as int + len as int - 1)]
    {
      var nextExpectedSeq := NextByteExpectedSeqnum();
      if seqnum <= nextExpectedSeq {
        nextByteExpectedIndex := SeqnumToIndex(seqnum + len);
      } else {
        var seg := FirstSegment(seqnum, seqnum + len - 1, null, null);
        start, end := seg, seg;
        nodes, segs := [seg], [seg.Value()];
      }
    }

    /** Segments exist: merge into the list, then hand the result to the in-order prefix or keep it. */
    method RecordMerged(seqnum: uint32, len: uint32)
      requires Valid() && 1 <= len && seqnum as int + len as int < TWO_32 && nodes != []
      requires View().Check(seqnum as int, len as int) == CanReceive
      modifies this`nextByteExpectedIndex, this`start, this`end, this`nodes, this`segs, nodes
      ensures Shape() && Linked() && (forall n | n in nodes :: n in old(nodes) || fresh(n))
      ensures var m := Insert(old(segs), seqnum as int, seqnum as int + len as int - 1);
              if m[0].lo <= old(View()).next && seqnum as int <= m[0].hi
              then NextByteExpectedSeqnum() as int == m[0].hi + 1 && segs == m[1..]
              else NextByteExpectedSeqnum() as int == old(View()).next && segs == m
    {
      ghost var v := View();
      var seg, l := MergeIn(seqnum, seqnum + len - 1);
      MergedNode(v, seqnum as int, seqnum as int + len as int - 1, l, seg.Value());
      ghost var m := segs;
      assert NextByteExpectedSeqnum() as int == v.next && (l == 0 ==> seg.Value() == m[0]);
      Settle(seg, l);
    }

    /** The merged node joins the in-order prefix, or stays in the list. */
    method Settle(seg: Segment, ghost l: nat)
      requires Shape() && Chain(nodes) && Hold(nodes, segs) && l < |nodes| && seg == nodes[l]
      requires lastByteReadSeqnum <= seg.endSeqnumInclusive
      requires seg.endSeqnumInclusive as int < lastByteReadSeqnum as int + capacity as int
      requires seg.startSeqnumInclusive <= NextByteExpectedSeqnum() ==> l == 0
      requires OldEnds(nodes, l, start, end)
      modifies this`nextByteExpectedIndex, this`start, this`end, this`nodes, this`segs, seg.next
      ensures Shape() && Linked() && (forall n | n in nodes :: n in old(nodes))
      ensures if old(seg.startSeqnumInclusive <= NextByteExpectedSeqnum()) then
                NextByteExpectedSeqnum() == old(seg.endSeqnumInclusive) + 1 && segs == old(segs)[1..]
              else
                NextByteExpectedSeqnum() == old(NextByteExpectedSeqnum()) && segs == old(segs)
    {
      if seg.startSeqnumInclusive <= NextByteExpectedSeqnum() {
        Absorb(seg);
      } else {
        Keep(seg, l);
      }
    }

    /** Merges a range into the list; `start` and `end` still name the ends of the old list. */
    method MergeIn(s: uint32, e: uint32) returns (seg: Segment, ghost l: nat)
      requires Linked() && nodes != [] && Sorted(segs) && s <= e
      modifies this`nodes, this`segs, nodes
      ensures l < |nodes| && nodes[l] == seg && fresh(seg)
      ensures Chain(nodes) && Hold(nodes, segs) && segs == Insert(old(segs), s as int, e as int)
      ensures segs[l] == seg.Value() && (0 < l ==> segs[0].hi < s as int)
      ensures seg.Value().lo <= s as int && e as int <= seg.Value().hi
      ensures OldEnds(nodes, l, start, end)
      ensures forall n | n in nodes :: n in old(nodes) || n == seg
      ensures seg.next == null || seg.next in old(nodes)
    {
      ghost var was, first, last := nodes, start, end;
      var freed;
      ghost var r;
      seg, freed, l, r := SegmentMerge(start, end, s, e, null, null, nodes, segs);
      assert start == first && end == last;
      SplicedEnds(was, l, r, seg, first, last);
      SplicedMembers(was, l, r, seg);
      ReplacedEnds(segs, l, r, s as int, e as int);
      nodes, segs := Replaced(was, l, r, seg), Insert(segs, s as int, e as int);
    }

    /** The merged node is the head and reaches the in-order prefix: the prefix takes it over. */
    method Absorb(seg: Segment)
      requires Shape() && Chain(nodes) && Hold(nodes, segs) && nodes != [] && seg == nodes[0]
      requires lastByteReadSeqnum <= seg.endSeqnumInclusive
      requires seg.endSeqnumInclusive as int < lastByteReadSeqnum as int + capacity as int
      requires |nodes| > 1 ==> end == nodes[|nodes| - 1]
      modifies this`nextByteExpectedIndex, this`start, this`end, this`nodes, this`segs, seg.next
      ensures Shape() && Linked() && nodes == old(nodes)[1..] && segs == old(segs)[1..]
      ensures NextByteExpectedSeqnum() == old(seg.endSeqnumInclusive) + 1
    {
      nextByteExpectedIndex := SeqnumToIndex(seg.endSeqnumInclusive + 1);
      RemoveHead(seg);
    }

    method RemoveHead(seg: Segment)
      requires Chain(nodes) && Hold(nodes, segs) && nodes != [] && seg == nodes[0]
      requires |nodes| > 1 ==> end == nodes[|nodes| - 1]
      modifies this`start, this`end, this`nodes, this`segs, seg.next
      ensures Linked() && nodes == old(nodes)[1..] && segs == old(segs)[1..]
    {
      ghost var rest, left := nodes[1..], segs[1..];
      assert nodes[..0] + rest == rest && segs[..0] + left == left;
      if seg.prev == null {
        start := seg.next;
      }
      if seg.next == null {
        end := seg.prev;
      }
      SegmentDisconnect(seg, nodes, segs, 0);
      nodes, segs := rest, left;
      assert Chain(nodes) && Hold(nodes, segs);
    }

    /** The merged node stays in the list; it may be a new first or last node. */
    method Keep(seg: Segment, ghost l: nat)
      requires Chain(nodes) && Hold(nodes, segs) && l < |nodes| && seg == nodes[l]
      requires OldEnds(nodes, l, start, end)
      modifies this`start, this`end
      ensures Linked()
    {
      if seg.prev == null {
        start := seg;
      }
      if seg.next == null {
        end := seg;
      }
    }
  }

  /** Where the merged segment lies: it reaches the in-order prefix only as the head of the list. */
  lemma MergedNode(v: RecvView, s: int, e: int, l: nat, j: Seg)
    requires v.Ok() && v.read < s <= e && v.next <= e < v.read + v.cap
    requires l < |Insert(v.segs, s, e)| && j == Insert(v.segs, s, e)[l]
    requires j.lo <= s && e <= j.hi && (0 < l ==> Insert(v.segs, s, e)[0].hi < s)
    ensures j.hi < v.read + v.cap
    ensures var m := Insert(v.segs, s, e);
            j.lo <= v.next <==> l == 0 && m[0].lo <= v.next && s <= m[0].hi
  {
    InsertWithin(v.segs, s, e, Min(v.next, s), v.read + v.cap);
    InsertSorted(v.segs, s, e, v.next, v.read + v.cap);
    InsertHead(v.segs, s, e);
  }

  lemma DistinctWithout(nodes: seq<Segment>, i: nat)
    requires i < |nodes| && Distinct(nodes)
    ensures Distinct(nodes[..i] + nodes[i + 1..])
  {
    var rest := nodes[..i] + nodes[i + 1..];
    assert forall k | 0 <= k < |rest| :: rest[k] == nodes[if k < i then k else k + 1];
  }

  /** Unlinks the node at position `i`. */
  method SegmentDisconnect(seg: Segment, ghost nodes: seq<Segment>, ghost segs: seq<Seg>, ghost i: nat)
    requires i < |nodes| && seg == nodes[i] && Chain(nodes) && Hold(nodes, segs)
    modifies seg.prev, seg.next
    ensures Chain(nodes[..i] + nodes[i + 1..])
    ensures Hold(nodes[..i] + nodes[i + 1..], segs[..i] + segs[i + 1..])
  {
    if seg.prev != null {
      seg.prev.next := seg.next;
    }
    if seg.next != null {
      seg.next.prev := seg.prev;
    }
    ghost var rest, left := nodes[..i] + nodes[i + 1..], segs[..i] + segs[i + 1..];
    DistinctWithout(nodes, i);
    forall k | 0 <= k < |rest|
      ensures rest[k].prev == NodeAt(rest, k - 1) && rest[k].next == NodeAt(rest, k + 1)
      ensures rest[k].Value() == left[k]
    {
      assert rest[k] == nodes[if k < i then k else k + 1];
      assert left[k] == segs[if k < i then k else k + 1];
    }
  }
}
