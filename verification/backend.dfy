/** The socket of cmu_tcp.h with its two buffers: each critical section of backend.c and cmu_tcp.c as a
    method over 32-bit fields, proved to do what the section does to the endpoint as a value. */
module Backend {
  import opened Types
  import opened Ring
  import opened CmuPacket
  import opened Reassembler
  import opened SendViews
  import opened RecvBuffers
  import opened SendBuffers
  import opened Endpoints

  class CmuSocket {
    const sendBuf: SendBuffer
    const recvBuf: RecvBuffer
    var state: State
    var lastAckReceived: uint32
    var nextSeqExpected: uint32
    var rcvdAdvertisedWindow: uint16
    var dying: bool

    ghost predicate Anchored()
      reads this`state
    {
      state == SynRcvd || state == Established
    }

    ghost predicate RecvValid()
      reads this`state, recvBuf, recvBuf.buffer, recvBuf.nodes
    {
      if Anchored() then recvBuf.Valid() else recvBuf.Created()
    }

    ghost function RecvState(): RecvView
      requires RecvValid()
      reads this`state, recvBuf, recvBuf.buffer, recvBuf.nodes
    {
      if Anchored() then recvBuf.View()
      else RecvView(recvBuf.capacity as int, 0, 1, [], Logical(recvBuf.buffer[..], 1))
    }

    ghost predicate Valid()
      reads this, sendBuf, sendBuf.buffer, recvBuf, recvBuf.buffer, recvBuf.nodes
    {
      sendBuf.buffer != recvBuf.buffer && sendBuf.Valid() && sendBuf.Homed() && RecvValid()
    }

    ghost function View(): Endpoint
      requires Valid()
      reads this, sendBuf, sendBuf.buffer, recvBuf, recvBuf.buffer, recvBuf.nodes
    {
      Endpoint(state, lastAckReceived as int, nextSeqExpected as int, rcvdAdvertisedWindow as int, dying,
               sendBuf.View(), RecvState())
    }

    /** cmu_socket */
    constructor (capacity: uint32, isn: uint32)
      requires MIN_CAPACITY <= capacity as int <= MAX_CAPACITY && isn as int + capacity as int < TWO_32
      ensures Valid()
      ensures fresh(sendBuf) && fresh(sendBuf.buffer) && fresh(recvBuf) && fresh(recvBuf.buffer)
      ensures recvBuf.nodes == [] && sendBuf.capacity == recvBuf.capacity == capacity && sendBuf.isn == isn as int
      ensures exists memory: seq<uint8> :: |memory| == capacity as int && View() == Initial(isn as int, memory)
    {
      sendBuf := new SendBuffer(capacity, isn);
      recvBuf := new RecvBuffer(capacity);
      state, dying := Closed, false;
      lastAckReceived, nextSeqExpected := isn, 0;
      rcvdAdvertisedWindow := CP1_WINDOW_SIZE as uint16;
      new;
      assert View() == Initial(isn as int, Logical(recvBuf.buffer[..], 1));
    }

    /** The first section of handle_message: the acknowledgement and the advertised window. */
    method HandleAck(pkt: Packet)
      requires Valid() && pkt.Fits() && AckInRange(View(), pkt)
      requires View().send.sent + View().send.cap < TWO_32
      modifies this`lastAckReceived, this`rcvdAdvertisedWindow, sendBuf
      ensures Valid() && View() == AckSection(old(View()), pkt)
    {
      NoteAck(pkt);
      rcvdAdvertisedWindow := pkt.window as uint16;
    }

    method NoteAck(pkt: Packet)
      requires Valid() && pkt.Fits() && AckInRange(View(), pkt)
      requires View().send.sent + View().send.cap < TWO_32
      modifies this`lastAckReceived, sendBuf
      ensures Valid() && View() == AckSection(old(View()), pkt).(window := old(View()).window)
    {
      var acknum := pkt.ackNum as uint32;
      if acknum != lastAckReceived {
        TakeAck(acknum);
      }
    }

    method TakeAck(acknum: uint32)
      requires Valid() && 1 <= acknum && acknum as int <= View().send.sent + 1
      requires View().send.sent + View().send.cap < TWO_32
      modifies this`lastAckReceived, sendBuf
      ensures Valid() && View() == old(View()).(
        lastAck := Max(old(View()).lastAck, acknum as int), send := old(View()).send.Ack(acknum as int))
    {
      ghost var ep := View();
      lastAckReceived := if lastAckReceived > acknum then lastAckReceived else acknum;
      assert View() == ep.(lastAck := Max(ep.lastAck, acknum as int));
      UpdateSendAck(acknum);
    }

    method UpdateSendAck(acknum: uint32)
      requires Valid() && 1 <= acknum && acknum as int <= View().send.sent + 1
      requires View().send.sent + View().send.cap < TWO_32
      modifies sendBuf
      ensures Valid() && View() == old(View()).(send := old(View()).send.Ack(acknum as int))
    {
      ghost var v := RecvState();
      sendBuf.UpdateAck(acknum);
      assert RecvValid() && RecvState() == v;
    }

    /** The second section: the payload. */
    method HandleData(pkt: Packet)
      requires Valid() && Anchored() && pkt.payload != [] && pkt.Fits()
      requires pkt.seqNum + |pkt.payload| < TWO_32
      modifies this`nextSeqExpected, recvBuf, recvBuf.buffer, recvBuf.nodes
      ensures Valid()
      ensures forall i | 0 <= i < |recvBuf.nodes| ::
        recvBuf.nodes[i] in old(recvBuf.nodes) || fresh(recvBuf.nodes[i])
      ensures View() == DataSection(old(View()), pkt)
    {
      TakeData(pkt);
      ghost var send, recv := sendBuf.View(), RecvState();
      nextSeqExpected := recvBuf.NextByteExpectedSeqnum();
      assert sendBuf.Valid() && sendBuf.View() == send;
      assert RecvValid() && RecvState() == recv;
    }

    method TakeData(pkt: Packet)
      requires Valid() && Anchored() && pkt.payload != [] && pkt.Fits()
      requires pkt.seqNum + |pkt.payload| < TWO_32
      modifies recvBuf, recvBuf.buffer, recvBuf.nodes
      ensures Valid()
      ensures forall i | 0 <= i < |recvBuf.nodes| ::
        recvBuf.nodes[i] in old(recvBuf.nodes) || fresh(recvBuf.nodes[i])
      ensures View() == old(View()).(recv := Take(old(View()).recv, pkt))
    {
      ghost var ep := View();
      recvBuf.Offer(pkt.seqNum as uint32, pkt.payload);
      assert sendBuf.Valid() && sendBuf.View() == ep.send;
    }

    /** The third section: the window, then the pure acknowledgement. */
    method Reply() returns (pkt: Packet)
      requires Valid() && Anchored()
      ensures pkt == ReplyPacket(View())
    {
      var window := recvBuf.MaxReceive() as uint16;
      pkt := Packet(lastAckReceived as int, nextSeqExpected as int, false, true, false, window as int, []);
    }

    /** All of handle_message, when nothing runs in between; a FIN packet is dropped whole. */
    method HandleMessage(pkt: Packet) returns (replies: seq<Packet>)
      requires Valid() && Anchored() && pkt.Fits() && MessageAsserts(pkt)
      requires !pkt.fin ==> AckInRange(View(), pkt)
      requires View().send.sent + View().send.cap < TWO_32 && pkt.seqNum + |pkt.payload| < TWO_32
      modifies this`lastAckReceived, this`rcvdAdvertisedWindow, this`nextSeqExpected
      modifies sendBuf, recvBuf, recvBuf.buffer, recvBuf.nodes
      ensures Valid()
      ensures forall i | 0 <= i < |recvBuf.nodes| ::
        recvBuf.nodes[i] in old(recvBuf.nodes) || fresh(recvBuf.nodes[i])
      ensures pkt.fin ==> View() == old(View()) && replies == []
      ensures !pkt.fin && pkt.payload == [] ==> View() == AckSection(old(View()), pkt) && replies == []
      ensures !pkt.fin && pkt.payload != [] ==> View() == Handled(old(View()), pkt) && replies == [ReplyPacket(View())]
    {
      replies := [];
      if pkt.fin {
        return;
      }
      HandleAck(pkt);
      if pkt.payload != [] {
        replies := HandlePayload(pkt);
      }
    }

    method HandlePayload(pkt: Packet) returns (replies: seq<Packet>)
      requires Valid() && Anchored() && pkt.payload != [] && pkt.Fits()
      requires pkt.seqNum + |pkt.payload| < TWO_32
      modifies this`nextSeqExpected, recvBuf, recvBuf.buffer, recvBuf.nodes
      ensures Valid()
      ensures forall i | 0 <= i < |recvBuf.nodes| ::
        recvBuf.nodes[i] in old(recvBuf.nodes) || fresh(recvBuf.nodes[i])
      ensures View() == DataSection(old(View()), pkt) && replies == [ReplyPacket(View())]
    {
      HandleData(pkt);
      var reply := Reply();
      replies := [reply];
    }

    /** multiple_send: fresh bytes, as far as the known window allows. */
    method MultipleSend() returns (pkts: seq<Packet>)
      requires Valid() && Anchored()
      modifies sendBuf`lastByteSentIndex
      ensures Valid() && View() == SendFresh(old(View())).0 && pkts == SendFresh(old(View())).1
    {
      var currAdvWindow := recvBuf.MaxReceive() as uint16;
      var numUnacknowledged := sendBuf.UnacknowledgedCount();
      pkts := [];
      ghost var ep := View();
      if numUnacknowledged < rcvdAdvertisedWindow as uint32 {
        var available := sendBuf.MaxNewDump();
        var allowed := rcvdAdvertisedWindow as uint32 - numUnacknowledged;
        pkts := SendRun(if available < allowed then available else allowed, nextSeqExpected, currAdvWindow, ep);
        assert sendBuf.View() == ep.send.(sent := ep.send.sent + FreshLen(ep)) && RecvState() == ep.recv;
      }
    }

    /** The sending loop of multiple_send. */
    method SendRun(len: uint32, ack: uint32, window: uint16, ghost ep: Endpoint) returns (pkts: seq<Packet>)
      requires sendBuf.Valid() && len <= sendBuf.MaxNewDump()
      requires ack as int == ep.nextExp && window as int == ep.recv.MaxReceive()
      modifies sendBuf`lastByteSentIndex
      ensures sendBuf.Valid()
      ensures sendBuf.View() == old(sendBuf.View()).(sent := old(sendBuf.View()).sent + len as int)
      ensures pkts == Packetize(ep, old(sendBuf.View()).sent + 1,
                                old(sendBuf.View()).Bytes(old(sendBuf.View()).sent + 1, len as int))
    {
      ghost var v := sendBuf.View();
      ghost var data := v.Bytes(v.sent + 1, len as int);
      ghost var off := 0;
      var targetSendLen := len;
      pkts := [];
      while targetSendLen > 0
        invariant 0 <= off == |data| - targetSendLen as int
        invariant |data| == len as int <= v.Fresh() && data == v.Bytes(v.sent + 1, |data|)
        invariant sendBuf.Valid() && sendBuf.View() == v.(sent := v.sent + off)
        invariant pkts + PacketizeFrom(ep, v.sent + 1, data, off) == Packetize(ep, v.sent + 1, data)
        decreases targetSendLen
      {
        var payloadLen := if targetSendLen < MSS as uint32 then targetSendLen else MSS as uint32;
        pkts := SendTurn(pkts, payloadLen, ack, window, ep, v, data, off);
        targetSendLen := targetSendLen - payloadLen;
        off := off + payloadLen as int;
      }
    }

    /** One turn of that loop: the packet with the next `len` fresh bytes. */
    method SendTurn(sent: seq<Packet>, len: uint32, ack: uint32, window: uint16, ghost ep: Endpoint,
                    ghost v: SendView, ghost data: seq<uint8>, ghost off: nat)
      returns (pkts: seq<Packet>)
      requires sendBuf.Valid() && sendBuf.View() == v.(sent := v.sent + off) && v.Ok()
      requires ack as int == ep.nextExp && window as int == ep.recv.MaxReceive()
      requires off < |data| <= v.Fresh() && data == v.Bytes(v.sent + 1, |data|)
      requires len as int == Min(|data| - off, MSS)
      requires sent + PacketizeFrom(ep, v.sent + 1, data, off) == Packetize(ep, v.sent + 1, data)
      modifies sendBuf`lastByteSentIndex
      ensures sendBuf.Valid() && sendBuf.View() == v.(sent := v.sent + off + len as int)
      ensures pkts + PacketizeFrom(ep, v.sent + 1, data, off + len as int) == Packetize(ep, v.sent + 1, data)
    {
      var pkt := FreshPacket(len, ack, window, ep, v, data, off);
      PacketizeTurn(ep, v.sent + 1, data, off, len as int, sent, pkt);
      pkts := sent + [pkt];
    }

    method FreshPacket(len: uint32, ack: uint32, window: uint16, ghost ep: Endpoint,
                       ghost v: SendView, ghost data: seq<uint8>, ghost off: nat)
      returns (pkt: Packet)
      requires sendBuf.Valid() && sendBuf.View() == v.(sent := v.sent + off) && v.Ok()
      requires ack as int == ep.nextExp && window as int == ep.recv.MaxReceive()
      requires 1 <= len && off + len as int <= |data| <= v.Fresh() && data == v.Bytes(v.sent + 1, |data|)
      modifies sendBuf`lastByteSentIndex
      ensures sendBuf.Valid() && sendBuf.View() == v.(sent := v.sent + off + len as int)
      ensures pkt == DataPacket(ep, v.sent + 1 + off, Cut(data, off, len as int))
    {
      ghost var w := sendBuf.View();
      var seqnum, payload := sendBuf.DumpFresh(len);
      BytesNow(v, off, w, data, len as int);
      pkt := Packet(seqnum as int, ack as int, false, true, false, window as int, payload);
    }

    /** resend_unacknowledged: the first bytes in flight again, or a one-byte probe of a zero window. */
    method ResendUnacknowledged() returns (pkts: seq<Packet>)
      requires Valid() && Anchored() && 0 < sendBuf.UnacknowledgedCount()
      ensures pkts == Resend(View())
    {
      var advWindow := recvBuf.MaxReceive() as uint16;
      var numUnacknowledged := sendBuf.UnacknowledgedCount();
      var targetSendLen := if numUnacknowledged < rcvdAdvertisedWindow as uint32 then numUnacknowledged
                           else rcvdAdvertisedWindow as uint32;
      ghost var ep := View();
      if targetSendLen == 0 {
        var pkt := UnackedPacket(0, 1, nextSeqExpected, advWindow, ep);
        PacketizeOne(ep, ep.send.acked + 1, pkt.payload);
        pkts := [pkt];
      } else {
        pkts := ResendRun(targetSendLen, nextSeqExpected, advWindow, ep);
      }
    }

    method UnackedPacket(numSent: uint32, len: uint32, ack: uint32, window: uint16, ghost ep: Endpoint)
      returns (pkt: Packet)
      requires sendBuf.Valid() && 1 <= len && numSent as int + len as int <= sendBuf.UnacknowledgedCount() as int
      requires ack as int == ep.nextExp && window as int == ep.recv.MaxReceive()
      ensures pkt == DataPacket(ep, sendBuf.View().acked + 1 + numSent as int,
                                sendBuf.View().Bytes(sendBuf.View().acked + 1 + numSent as int, len as int))
    {
      var seqnum, payload := sendBuf.CopyUnacked(numSent, len);
      pkt := Packet(seqnum as int, ack as int, false, true, false, window as int, payload);
    }

    /** The sending loop of resend_unacknowledged. */
    method ResendRun(len: uint32, ack: uint32, window: uint16, ghost ep: Endpoint) returns (pkts: seq<Packet>)
      requires sendBuf.Valid() && len <= sendBuf.UnacknowledgedCount()
      requires ack as int == ep.nextExp && window as int == ep.recv.MaxReceive()
      ensures pkts == Packetize(ep, sendBuf.View().acked + 1,
                                sendBuf.View().Bytes(sendBuf.View().acked + 1, len as int))
    {
      ghost var v := sendBuf.View();
      ghost var data := v.Bytes(v.acked + 1, len as int);
      var numSent, targetSendLen := 0, len;
      pkts := [];
      PacketizeEnds(ep, v.acked + 1, data, pkts);
      while targetSendLen > 0
        invariant sendBuf.Valid() && sendBuf.View() == v
        invariant numSent as int + targetSendLen as int == |data| == len as int
        invariant data == v.Bytes(v.acked + 1, |data|)
        invariant pkts + PacketizeFrom(ep, v.acked + 1, data, numSent as int) == Packetize(ep, v.acked + 1, data)
        decreases targetSendLen
      {
        var payloadLen := if targetSendLen < MSS as uint32 then targetSendLen else MSS as uint32;
        pkts := ResendTurn(pkts, numSent, payloadLen, ack, window, ep, data);
        numSent := numSent + payloadLen;
        targetSendLen := targetSendLen - payloadLen;
      }
      PacketizeEnds(ep, v.acked + 1, data, pkts);
    }

    /** One turn of that loop. */
    method ResendTurn(sent: seq<Packet>, numSent: uint32, len: uint32, ack: uint32, window: uint16,
                      ghost ep: Endpoint, ghost data: seq<uint8>)
      returns (pkts: seq<Packet>)
      requires sendBuf.Valid() && numSent as int < |data| <= sendBuf.UnacknowledgedCount() as int
      requires ack as int == ep.nextExp && window as int == ep.recv.MaxReceive()
      requires data == sendBuf.View().Bytes(sendBuf.View().acked + 1, |data|)
      requires len as int == Min(|data| - numSent as int, MSS)
      requires var first := sendBuf.View().acked + 1;
               sent + PacketizeFrom(ep, first, data, numSent as int) == Packetize(ep, first, data)
      ensures var first := sendBuf.View().acked + 1;
              pkts + PacketizeFrom(ep, first, data, numSent as int + len as int) == Packetize(ep, first, data)
    {
      ghost var v := sendBuf.View();
      var pkt := UnackedPacket(numSent, len, ack, window, ep);
      BytesWithin(v, v.acked + 1, |data|, numSent as int, len as int);
      PacketizeTurn(ep, v.acked + 1, data, numSent as int, len as int, sent, pkt);
      pkts := sent + [pkt];
    }

    /** The test that ends the loop of begin_backend. */
    method MayExit(death: bool) returns (exit: bool)
      requires Valid()
      ensures exit <==> death && View().send.Unacked() + View().send.Fresh() == 0
    {
      exit := death && sendBuf.UnacknowledgedCount() + sendBuf.MaxNewDump() == 0;
    }

    // ------------------------------------------------------------ handshake

    /** Client, CLOSED: the first SYN. */
    method ClientStart() returns (syn: Packet)
      requires Valid() && state == Closed
      modifies this`state
      ensures Valid() && View() == old(View()).(state := SynSent) && syn == SynPacket(View())
    {
      state := SynSent;
      syn := Packet(lastAckReceived as int, 0, true, false, false, CP1_WINDOW_SIZE, []);
    }

    /** Client, SYN_SENT: a timeout sends the SYN again. */
    method ClientTimeout() returns (syn: Packet)
      requires Valid() && state == SynSent
      ensures syn == SynPacket(View())
    {
      syn := Packet(lastAckReceived as int, 0, true, false, false, CP1_WINDOW_SIZE, []);
    }

    /** Client, SYN_SENT: the SYN-ACK anchors the receive buffer and completes the client's side. */
    method ClientOnSynAck(pkt: Packet) returns (ack: Packet)
      requires Valid() && state == SynSent && pkt.Fits() && ClientAsserts(View(), pkt)
      requires pkt.seqNum + recvBuf.capacity as int < TWO_32
      modifies this`state, this`lastAckReceived, this`nextSeqExpected, recvBuf
      ensures Valid() && recvBuf.nodes == []
      ensures View() == ClientEstablish(old(View()), pkt) && ack == FinalAckPacket(View())
    {
      recvBuf.Initialize(pkt.seqNum as uint32);
      lastAckReceived := pkt.ackNum as uint32;
      nextSeqExpected := pkt.seqNum as uint32 + 1;
      ack := Packet(lastAckReceived as int, nextSeqExpected as int, false, true, false, CP1_WINDOW_SIZE, []);
      state := Established;
    }

    /** Server, CLOSED: it listens. */
    method ServerStart()
      requires Valid() && state == Closed
      modifies this`state
      ensures Valid() && View() == old(View()).(state := Listen)
    {
      state := Listen;
    }

    /** Server, LISTEN: the SYN anchors the receive buffer. */
    method ServerOnSyn(pkt: Packet) returns (synAck: Packet)
      requires Valid() && state == Listen && pkt.Fits() && ListenAsserts(View(), pkt)
      requires pkt.seqNum + recvBuf.capacity as int < TWO_32
      modifies this`state, this`nextSeqExpected, recvBuf
      ensures Valid() && recvBuf.nodes == []
      ensures View() == ServerListen(old(View()), pkt) && synAck == SynAckPacket(View())
    {
      recvBuf.Initialize(pkt.seqNum as uint32);
      nextSeqExpected := pkt.seqNum as uint32 + 1;
      synAck := Packet(lastAckReceived as int, nextSeqExpected as int, true, true, false, CP1_WINDOW_SIZE, []);
      state := SynRcvd;
    }

    /** Server, SYN_RCVD: the packet completes the handshake, or the SYN-ACK is sent again. */
    method ServerOnSynRcvd(pkt: Packet) returns (resent: seq<Packet>)
      requires Valid() && state == SynRcvd && pkt.Fits() && lastAckReceived as int + 1 < TWO_32
      requires Completes(View(), pkt) || pkt.syn
      modifies this`state
      ensures Valid()
      ensures Completes(old(View()), pkt) ==> View() == old(View()).(state := Established) && resent == []
      ensures !Completes(old(View()), pkt) ==> View() == old(View()) && resent == [SynAckPacket(View())]
    {
      resent := [];
      if pkt.ack && pkt.ackNum as uint32 == lastAckReceived + 1 {
        state := Established;
      } else {
        resent := [Packet(lastAckReceived as int, nextSeqExpected as int, true, true, false, CP1_WINDOW_SIZE, [])];
      }
    }

    // ------------------------------------------------------------ application calls

    /** One turn of the cmu_write loop: as much of `buf` as fits. */
    method CmuWriteTurn(buf: seq<uint8>) returns (written: uint32)
      requires Valid() && |buf| < TWO_31
      modifies sendBuf, sendBuf.buffer
      ensures Valid() && View() == AppWrite(old(View()), buf) && written as int == WriteLen(old(View()), buf)
      ensures written as int <= |buf| && View().send.pending == old(View()).send.pending + buf[..written]
      ensures View() == old(View()).(send := old(View()).send.(pending := View().send.pending))
      ensures written as int == |buf| || 1 + |View().send.pending| == View().send.cap
    {
      written := if |buf| > sendBuf.MaxWrite() as int then sendBuf.MaxWrite() else |buf| as uint32;
      sendBuf.Write(buf[..written]);
    }

    /** cmu_read, once it holds the lock and need not wait; it refuses a negative length. */
    method CmuRead(length: int) returns (buf: Option<seq<uint8>>)
      requires Valid() && Anchored() && View().recv.next - 1 + View().recv.cap < TWO_32
      requires -TWO_31 <= length < TWO_31
      modifies recvBuf`lastByteReadSeqnum, recvBuf`lastByteReadIndex
      ensures Valid()
      ensures length < 0 ==> buf == None && View() == old(View())
      ensures 0 <= length ==> View() == AppRead(old(View()), length).0
      ensures 0 <= length ==> buf == Some(AppRead(old(View()), length).1)
      ensures 0 <= length ==> buf.Some? && HandedOver(old(View()), View(), length, buf.value)
    {
      if length < 0 {
        return None;
      }
      var data := TakeFront(length as uint32);
      buf := Some(data);
    }

    method TakeFront(length: uint32) returns (buf: seq<uint8>)
      requires Valid() && Anchored() && View().recv.next - 1 + View().recv.cap < TWO_32
      modifies recvBuf`lastByteReadSeqnum, recvBuf`lastByteReadIndex
      ensures Valid() && View() == AppRead(old(View()), length as int).0
      ensures buf == AppRead(old(View()), length as int).1
      ensures HandedOver(old(View()), View(), length as int, buf)
    {
      var available := recvBuf.MaxRead();
      var readLen := if available > length then length else available;
      ghost var ep := View();
      assert readLen as int == ReadLen(ep, length as int);
      buf := recvBuf.Read(readLen);
      assert sendBuf.Valid() && sendBuf.View() == ep.send;
    }

    method CmuClose()
      requires Valid()
      modifies this`dying
      ensures Valid() && View() == old(View()).(dying := true)
    {
      dying := true;
    }
  }

  /** A reader gets the bytes right after the last one read: as many as it asked for, or all that are ready. */
  ghost predicate HandedOver(ep: Endpoint, ep': Endpoint, length: int, buf: seq<uint8>) {
    && |buf| <= length && buf <= ep.recv.ring
    && ep' == ep.(recv := ep.recv.(read := ep.recv.read + |buf|, ring := ep'.recv.ring))
    && (|buf| == length || ep'.recv.read + 1 == ep.recv.next) && ep'.recv.read < ep.recv.next
  }

  /** A client that has met its SYN-ACK. */
  method Connect(capacity: uint32, isn: uint32, synAck: Packet) returns (sock: CmuSocket, ghost memory: seq<uint8>)
    requires MIN_CAPACITY <= capacity as int <= MAX_CAPACITY && isn as int + capacity as int < TWO_32
    requires synAck.Fits() && synAck.syn && synAck.ack && synAck.ackNum == isn as int + 1
    requires synAck.seqNum + capacity as int < TWO_32
    ensures |memory| == capacity as int && sock.Valid() && sock.Anchored()
    ensures fresh(sock) && fresh(sock.sendBuf) && fresh(sock.sendBuf.buffer)
    ensures fresh(sock.recvBuf) && fresh(sock.recvBuf.buffer) && sock.recvBuf.nodes == []
    ensures sock.View() == ClientEstablish(Initial(isn as int, memory).(state := SynSent), synAck)
  {
    sock := new CmuSocket(capacity, isn);
    memory :| |memory| == capacity as int && sock.View() == Initial(isn as int, memory);
    var syn := sock.ClientStart();
    var ack := sock.ClientOnSynAck(synAck);
  }

  /** A server that has met the client's SYN and its acknowledgement. */
  method Accept(capacity: uint32, isn: uint32, syn: Packet, ack: Packet)
    returns (sock: CmuSocket, ghost memory: seq<uint8>)
    requires MIN_CAPACITY <= capacity as int <= MAX_CAPACITY && isn as int + capacity as int < TWO_32
    requires syn.Fits() && syn.syn && !syn.ack && !syn.fin && syn.seqNum + capacity as int < TWO_32
    requires ack.Fits() && MessageAsserts(ack) && !ack.fin && ack.payload == [] && ack.ackNum == isn as int + 1
    ensures |memory| == capacity as int && sock.Valid() && sock.Anchored()
    ensures fresh(sock) && fresh(sock.sendBuf) && fresh(sock.sendBuf.buffer)
    ensures fresh(sock.recvBuf) && fresh(sock.recvBuf.buffer) && sock.recvBuf.nodes == []
    ensures var ep := ServerListen(Initial(isn as int, memory).(state := Listen), syn);
            && ep.Ok() && AckInRange(ep.(state := Established), ack)
            && sock.View() == AckSection(ep.(state := Established), ack)
  {
    sock := new CmuSocket(capacity, isn);
    memory :| |memory| == capacity as int && sock.View() == Initial(isn as int, memory);
    sock.ServerStart();
    var synAck := sock.ServerOnSyn(syn);
    var resent := sock.ServerOnSynRcvd(ack);
    sock.HandleAck(ack);
  }

  /** A packet with data, and an acknowledgement of nothing new, that a socket can handle. */
  predicate Plain(p: Packet, ackNum: int) {
    && p.Fits() && MessageAsserts(p) && !p.fin && p.payload != [] && p.ackNum == ackNum
    && p.seqNum + |p.payload| < TWO_32
  }

  /** Both sections on such a packet change neither the numbers nor the send buffer. */
  lemma HandledPlain(ep: Endpoint, p: Packet)
    requires ep.Ok() && Plain(p, ep.lastAck)
    ensures AckInRange(ep, p)
    ensures Handled(ep, p).lastAck == ep.lastAck && Handled(ep, p).send == ep.send
  {
  }

  /** A client from its creation, through the handshake, to its second data packet. */
  method TakesTwo(capacity: uint32, isn: uint32, synAck: Packet, p: Packet, q: Packet)
    returns (sock: CmuSocket, ghost memory: seq<uint8>, ghost ep: Endpoint)
    requires MIN_CAPACITY <= capacity as int <= MAX_CAPACITY && isn as int + capacity as int < TWO_32
    requires synAck.Fits() && synAck.syn && synAck.ack && synAck.ackNum == isn as int + 1
    requires synAck.seqNum + capacity as int < TWO_32
    requires Plain(p, isn as int + 1) && Plain(q, isn as int + 1)
    ensures |memory| == capacity as int && fresh(sock) && sock.Valid() && ep.Ok()
    ensures ep == ClientEstablish(Initial(isn as int, memory).(state := SynSent), synAck)
    ensures AckInRange(ep, p) && AckInRange(Handled(ep, p), q)
    ensures sock.View() == Handled(Handled(ep, p), q)
  {
    sock, memory := Connect(capacity, isn, synAck);
    ep := sock.View();
    var replies := HandleTwo(sock, p, q);
  }

  /** A server from its creation, through the handshake, to its second data packet. */
  method ServesTwo(capacity: uint32, isn: uint32, syn: Packet, ack: Packet, p: Packet, q: Packet)
    returns (sock: CmuSocket, ghost memory: seq<uint8>, ghost ep: Endpoint)
    requires MIN_CAPACITY <= capacity as int <= MAX_CAPACITY && isn as int + capacity as int < TWO_32
    requires syn.Fits() && syn.syn && !syn.ack && !syn.fin && syn.seqNum + capacity as int < TWO_32
    requires ack.Fits() && MessageAsserts(ack) && !ack.fin && ack.payload == [] && ack.ackNum == isn as int + 1
    requires Plain(p, isn as int + 1) && Plain(q, isn as int + 1)
    ensures |memory| == capacity as int && fresh(sock) && sock.Valid() && ep.Ok()
    ensures var listening := ServerListen(Initial(isn as int, memory).(state := Listen), syn);
            && listening.Ok() && AckInRange(listening.(state := Established), ack)
            && ep == AckSection(listening.(state := Established), ack)
    ensures AckInRange(ep, p) && AckInRange(Handled(ep, p), q)
    ensures sock.View() == Handled(Handled(ep, p), q)
  {
    sock, memory := Accept(capacity, isn, syn, ack);
    ep := sock.View();
    var replies := HandleTwo(sock, p, q);
  }

  /** Two data packets, one after the other. */
  method HandleTwo(sock: CmuSocket, p: Packet, q: Packet) returns (replies: seq<Packet>)
    requires sock.Valid() && sock.Anchored() && sock.View().send.sent + sock.View().send.cap < TWO_32
    requires Plain(p, sock.View().lastAck) && Plain(q, sock.View().lastAck)
    modifies sock`lastAckReceived, sock`rcvdAdvertisedWindow, sock`nextSeqExpected
    modifies sock.sendBuf, sock.recvBuf, sock.recvBuf.buffer, sock.recvBuf.nodes
    ensures sock.Valid() && AckInRange(old(sock.View()), p) && AckInRange(Handled(old(sock.View()), p), q)
    ensures sock.View() == Handled(Handled(old(sock.View()), p), q)
  {
    ghost var ep := sock.View();
    HandledPlain(ep, p);
    var first := sock.HandleMessage(p);
    HandledPlain(sock.View(), q);
    var second := sock.HandleMessage(q);
    replies := first + second;
  }
}
