/** Every step keeps the invariant: the steps of an endpoint outside the handshake. */
module StepProofs {
  import opened Types
  import opened CmuPacket
  import opened Reassembler
  import opened SendViews
  import opened Endpoints
  import opened TwoParty

  /** What a process and its peer see of each other. */
  ghost predicate Both(x: Party, y: Party) {
    Local(x, y.log) && Dir(x, y) && Dir(y, x) && Edges(x) && Shaped(y.log)
  }

  /** Nothing that the handshake depends on has changed. */
  ghost predicate SameHand(x: Party, x': Party) {
    && x'.role == x.role && x'.isn == x.isn && x'.ep.state == x.ep.state
    && x.log <= x'.log
    && (forall p | p in x'.log[|x.log|..] :: !p.syn && p.ack && x.ep.state == Established)
    && (x.ep.state == SynRcvd ==> x'.ep.nextExp == x.ep.nextExp)
  }

  lemma StreamAppends(send: SendView, isn: int, wrote: seq<uint8>, data: seq<uint8>)
    requires StreamOk(send, isn, wrote) && |data| <= send.MaxWrite()
    ensures StreamOk(send.Write(data), isn, wrote + data)
  {
  }

  lemma StreamAcks(send: SendView, isn: int, wrote: seq<uint8>, ack: int)
    requires StreamOk(send, isn, wrote) && ack - 1 <= send.sent
    ensures StreamOk(send.Ack(ack), isn, wrote)
  {
    AckKeeps(send, ack);
  }

  /** Writing more, or sending more, leaves what the packets in flight carry as it was. */
  lemma LogStays(log: seq<Packet>, isn: int, wrote: seq<uint8>, more: seq<uint8>, sent: int, sent': int)
    requires LogCarries(log, isn, wrote, sent) && sent <= sent'
    ensures LogCarries(log, isn, wrote + more, sent')
  {
    forall p | p in log
      ensures InStream(p, isn, wrote + more, sent')
    {
      assert InStream(p, isn, wrote, sent);
      var o := p.seqNum - isn - 1;
      if p.payload != [] {
        assert Cut(wrote + more, o, |p.payload|) == Cut(wrote, o, |p.payload|);
      }
    }
  }

  lemma RecvStays(v: RecvView, got: seq<uint8>, isn: int, wrote: seq<uint8>, more: seq<uint8>, sent: int, sent': int)
    requires RecvOk(v, got, isn, wrote, sent) && sent <= sent' <= isn + |wrote + more|
    ensures RecvOk(v, got, isn, wrote + more, sent')
  {
    assert (wrote + more)[..|got|] == wrote[..|got|];
  }

  /** Everything before the next expected number is held, so it has been sent. */
  lemma NextIsSent(v: RecvView, got: seq<uint8>, isn: int, wrote: seq<uint8>, sent: int)
    requires RecvOk(v, got, isn, wrote, sent)
    ensures v.next <= sent + 1
  {
    if v.read < v.next - 1 {
      assert v.Holds(v.next - 1);
    }
  }

  /** Receiving a packet that carries the stream keeps what is held equal to the stream. */
  lemma TakeKeepsAgreement(v: RecvView, p: Packet, got: seq<uint8>, isn: int, wrote: seq<uint8>, sent: int)
    requires RecvOk(v, got, isn, wrote, sent) && p.payload != [] && InStream(p, isn, wrote, sent)
    ensures RecvOk(Take(v, p), got, isn, wrote, sent) && v.next <= Take(v, p).next
  {
    var w := Take(v, p);
    TakeOk(v, p);
    if v.Check(p.seqNum, |p.payload|) == CanReceive {
      forall k | w.read < k && w.Holds(k)
        ensures isn < k <= sent && k <= w.read + w.cap && w.ByteAt(k) == wrote[k - isn - 1]
      {
        ReceiveHolds(v, p.seqNum, p.payload, k);
        ReceiveBytes(v, p.seqNum, p.payload, k);
      }
    }
  }

  lemma TakeKeepsExact(v: RecvView, p: Packet, isn: int, accepted: set<int>)
    requires v.Ok() && p.payload != [] && HoldsExactly(v, isn, accepted)
    ensures HoldsExactly(Take(v, p), isn, accepted + Accepts(v, p))
  {
    if v.Check(p.seqNum, |p.payload|) == CanReceive {
      forall k
        ensures Take(v, p).Holds(k) <==> k <= isn || k in accepted + Accepts(v, p)
      {
        ReceiveHolds(v, p.seqNum, p.payload, k);
        assert v.Holds(k) <==> k <= isn || k in accepted;
      }
    } else {
      assert accepted + Accepts(v, p) == accepted;
    }
  }

  lemma ReadKeepsExact(v: RecvView, n: nat, isn: int, accepted: set<int>)
    requires v.Ok() && n <= v.MaxRead() && HoldsExactly(v, isn, accepted)
    ensures HoldsExactly(v.Read(n), isn, accepted)
  {
    ReadKeeps(v, n);
    forall k
      ensures v.Read(n).Holds(k) <==> k <= isn || k in accepted
    {
      assert v.Read(n).Holds(k) <==> v.Holds(k);
    }
  }

  /** Reading hands over exactly the next bytes of the stream. */
  lemma ReadKeepsAgreement(v: RecvView, n: nat, got: seq<uint8>, isn: int, wrote: seq<uint8>, sent: int)
    requires RecvOk(v, got, isn, wrote, sent) && n <= v.MaxRead()
    ensures RecvOk(v.Read(n), got + v.Front(n), isn, wrote, sent)
  {
    ReadKeeps(v, n);
    NextIsSent(v, got, isn, wrote, sent);
    var all := got + v.Front(n);
    forall i | 0 <= i < |all|
      ensures all[i] == wrote[i]
    {
      if |got| <= i {
        assert v.Holds(isn + 1 + i);
      }
    }
    assert all == wrote[..|all|];
    var w := v.Read(n);
    forall k | w.read < k && w.Holds(k)
      ensures isn < k <= sent && k <= w.read + w.cap && w.ByteAt(k) == wrote[k - isn - 1]
    {
      assert v.Holds(k);
    }
  }

  ghost predicate Kept(x: Party, x': Party, y: Party) {
    Both(x', y) && SameHand(x, x')
  }

  // What a step leaves alone, it keeps.

  /** A step that touches neither buffers, nor numbers, nor log keeps all that the two sides share. */
  lemma FramePc(x: Party, y: Party, pc: Pc, dying: bool)
    requires Both(x, y) && Local(x.(pc := pc, ep := x.ep.(dying := dying)), y.log)
    ensures Kept(x, x.(pc := pc, ep := x.ep.(dying := dying)), y)
  {
    var x' := x.(pc := pc, ep := x.ep.(dying := dying));
  }

  function Wrote(x: Party, data: seq<uint8>): Party {
    x.(ep := x.ep.(send := x.ep.send.Write(data)), wrote := x.wrote + data)
  }

  lemma WriteKeepsOut(x: Party, y: Party, data: seq<uint8>)
    requires Dir(x, y) && |data| <= x.ep.send.MaxWrite()
    ensures Dir(Wrote(x, data), y)
  {
    StreamAppends(x.ep.send, x.isn, x.wrote, data);
    LogStays(x.log, x.isn, x.wrote, data, x.ep.send.sent, x.ep.send.sent);
    if y.ep.Initialized() {
      RecvStays(y.ep.recv, y.got, x.isn, x.wrote, data, x.ep.send.sent, x.ep.send.sent);
    }
  }

  lemma WriteKeeps(x: Party, y: Party, data: seq<uint8>)
    requires Both(x, y) && x.Alive() && !x.ep.dying && |data| <= x.ep.send.MaxWrite()
    ensures Kept(x, Wrote(x, data), y)
  {
    WriteKeepsOut(x, y, data);
  }

  function HasRead(x: Party, n: nat): Party
    requires n <= |x.ep.recv.ring|
  {
    x.(ep := x.ep.(recv := x.ep.recv.Read(n)), got := x.got + x.ep.recv.Front(n))
  }

  lemma ReadKeepsIn(x: Party, y: Party, n: nat)
    requires Dir(y, x) && x.ep.Initialized() && x.ep.recv.Ok() && n <= x.ep.recv.MaxRead()
    ensures Dir(y, HasRead(x, n))
  {
    ReadKeepsAgreement(x.ep.recv, n, x.got, y.isn, y.wrote, y.ep.send.sent);
    ReadKeepsExact(x.ep.recv, n, y.isn, x.accepted);
    ReadKeeps(x.ep.recv, n);
  }

  lemma ReadKeepsEdges(x: Party, n: nat)
    requires Edges(x) && x.ep.recv.Ok() && n <= x.ep.recv.MaxRead()
    ensures Edges(HasRead(x, n))
  {
    var v := x.ep.recv;
    ReadKeeps(v, n);
    if x.ep.state == Established {
      EdgesRise(x.log, x.hs, v.next, v.read + v.cap, v.next, v.read + n + v.cap);
    }
  }

  lemma ReadKeepsAll(x: Party, y: Party, n: nat)
    requires Both(x, y) && x.ep.Initialized() && n <= x.ep.recv.MaxRead()
    ensures Kept(x, HasRead(x, n), y)
  {
    ReadKeepsIn(x, y, n);
    ReadKeepsEdges(x, n);
  }

  /** Every acknowledgement the peer sends is of something that was sent, and not beyond what it expects. */
  lemma AcksAreInRange(x: Party, y: Party, pkt: Packet)
    requires Both(x, y) && pkt in y.log && pkt.ack
    ensures x.isn + 1 <= pkt.ackNum <= x.ep.send.sent + 1 && AckInRange(x.ep, pkt)
    ensures y.ep.Initialized() && pkt.ackNum <= y.ep.recv.next
  {
    assert CarriesNoAck(pkt) || AckOk(pkt, x.isn, y.ep.recv.next);
    NextIsSent(y.ep.recv, y.got, x.isn, x.wrote, x.ep.send.sent);
  }

  /** After an acknowledgement the backend's copy is in step again, even if it lagged before. */
  lemma AckNumbers(ep: Endpoint, isn: int, pkt: Packet)
    requires ep.Ok() && AckInRange(ep, pkt) && isn + 1 <= pkt.ackNum <= ep.send.sent + 1
    requires ep.lastAck == ep.send.acked + 1 || (ep.lastAck == isn && ep.send.acked == isn)
    ensures var ep' := AckSection(ep, pkt);
            && ep' == ep.(lastAck := ep'.lastAck, send := ep'.send, window := pkt.window)
            && ep'.lastAck == ep'.send.acked + 1 == Max(ep.send.acked + 1, pkt.ackNum)
  {
  }

  lemma AckStream(ep: Endpoint, isn: int, wrote: seq<uint8>, pkt: Packet)
    requires ep.Ok() && StreamOk(ep.send, isn, wrote) && AckInRange(ep, pkt) && pkt.ackNum <= ep.send.sent + 1
    ensures var ep' := AckSection(ep, pkt);
            ep'.send.sent == ep.send.sent && StreamOk(ep'.send, isn, wrote)
  {
    AckKeeps(ep.send, pkt.ackNum);
    StreamAcks(ep.send, isn, wrote, pkt.ackNum);
  }

  lemma AckKeepsAll(x: Party, y: Party, pkt: Packet, toTop: bool, pc: Pc)
    requires Both(x, y) && x.pc == Acking(pkt, toTop) && x.ep.state == Established && AckInRange(x.ep, pkt)
    requires pc == Receiving(pkt, toTop) || pc == AfterMessage(toTop)
    ensures Kept(x, x.(ep := AckSection(x.ep, pkt), pc := pc), y)
  {
    AcksAreInRange(x, y, pkt);
    assert ShapedPacket(pkt);
    AckNumbers(x.ep, x.isn, pkt);
    AckStream(x.ep, x.isn, x.wrote, pkt);
    AckKeepsWith(x, y, pkt, toTop, pc, AckSection(x.ep, pkt));
  }

  lemma AckKeepsWith(x: Party, y: Party, pkt: Packet, toTop: bool, pc: Pc, ep: Endpoint)
    requires Both(x, y) && x.pc == Acking(pkt, toTop) && x.ep.state == Established && y.ep.Initialized()
    requires pc == Receiving(pkt, toTop) || pc == AfterMessage(toTop)
    requires ep == x.ep.(lastAck := ep.lastAck, send := ep.send, window := ep.window) && 0 <= ep.window
    requires ep.lastAck == ep.send.acked + 1 && ep.send.sent == x.ep.send.sent
    requires StreamOk(ep.send, x.isn, x.wrote) && ep.lastAck <= y.ep.recv.next
    ensures Kept(x, x.(ep := ep, pc := pc), y)
  {
  }

  function HasTaken(x: Party, pkt: Packet, toTop: bool): Party
    requires x.ep.Ok() && pkt.payload != []
  {
    x.(ep := DataSection(x.ep, pkt), pc := Replying(toTop), accepted := x.accepted + Accepts(x.ep.recv, pkt))
  }

  lemma DataKeepsIn(x: Party, y: Party, pkt: Packet, toTop: bool)
    requires Dir(y, x) && x.ep.Ok() && pkt in y.log && pkt.payload != [] && x.ep.state == Established
    ensures Dir(y, HasTaken(x, pkt, toTop))
  {
    assert InStream(pkt, y.isn, y.wrote, y.ep.send.sent);
    TakeKeepsAgreement(x.ep.recv, pkt, x.got, y.isn, y.wrote, y.ep.send.sent);
    TakeKeepsExact(x.ep.recv, pkt, y.isn, x.accepted);
    AcksRise(x.log, y.isn, x.ep.recv.next, Take(x.ep.recv, pkt).next);
  }

  lemma AcksRise(log: seq<Packet>, isn: int, next: int, next': int)
    requires AcksOk(log, isn, next) && next <= next'
    ensures AcksOk(log, isn, next')
  {
    forall p | p in log
      ensures AckOk(p, isn, next')
    {
      assert AckOk(p, isn, next);
    }
  }

  lemma DataKeepsEdges(x: Party, pkt: Packet, toTop: bool)
    requires Edges(x) && x.ep.Ok() && pkt.payload != [] && x.ep.state == Established
    ensures Edges(HasTaken(x, pkt, toTop))
  {
    var v := x.ep.recv;
    TakeOk(v, pkt);
    EdgesRise(x.log, x.hs, v.next, v.read + v.cap, Take(v, pkt).next, v.read + v.cap);
  }

  lemma DataKeepsAll(x: Party, y: Party, pkt: Packet, toTop: bool)
    requires Both(x, y) && x.pc == Receiving(pkt, toTop) && pkt.payload != [] && x.ep.state == Established
    ensures Kept(x, HasTaken(x, pkt, toTop), y)
  {
    DataKeepsIn(x, y, pkt, toTop);
    DataKeepsEdges(x, pkt, toTop);
  }

  function HasSent(x: Party, n: nat): Party {
    x.(ep := x.ep.(send := x.ep.send.(sent := x.ep.send.sent + n)), pc := Top)
  }

  lemma SentKeepsOut(x: Party, y: Party, n: nat)
    requires Dir(x, y) && n <= x.ep.send.Fresh() && y.ep.Initialized()
    ensures Dir(HasSent(x, n), y)
  {
    assert x.wrote + [] == x.wrote;
    LogStays(x.log, x.isn, x.wrote, [], x.ep.send.sent, x.ep.send.sent + n);
    RecvStays(y.ep.recv, y.got, x.isn, x.wrote, [], x.ep.send.sent, x.ep.send.sent + n);
  }

  /** Moving the sent cursor over fresh bytes. */
  lemma SentKeeps(x: Party, y: Party, n: nat)
    requires Both(x, y) && x.pc == Sending && x.ep.state == Established && n <= x.ep.send.Fresh()
    requires y.ep.Initialized()
    ensures Kept(x, HasSent(x, n), y)
  {
    SentKeepsOut(x, y, n);
  }

  /** The packets an established endpoint may send: its current acknowledgement and window, and bytes of
      its stream that count as sent. */
  ghost predicate Sendable(x: Party, pkts: seq<Packet>) {
    forall p | p in pkts ::
      && p.ack && !p.syn && !p.fin && p.ackNum == x.ep.recv.next && p.window == x.ep.recv.MaxReceive()
      && |p.payload| <= MSS && InStream(p, x.isn, x.wrote, x.ep.send.sent)
  }

  lemma EmitKeepsOut(x: Party, y: Party, pkts: seq<Packet>)
    requires Dir(x, y) && Sendable(x, pkts)
    ensures Dir(Emit(x, pkts), y)
  {
    forall p | p in x.log + pkts
      ensures InStream(p, x.isn, x.wrote, x.ep.send.sent)
    {
    }
  }

  lemma EmitKeepsIn(x: Party, y: Party, pkts: seq<Packet>)
    requires Dir(y, x) && x.ep.state == Established && Sendable(x, pkts)
    ensures Dir(y, Emit(x, pkts))
  {
    assert y.isn + 1 <= x.ep.recv.next;
    assert AcksOk(x.log + pkts, y.isn, x.ep.recv.next);
  }

  lemma EmitKeeps(x: Party, y: Party, pkts: seq<Packet>)
    requires Both(x, y) && x.ep.state == Established && Sendable(x, pkts)
    ensures Kept(x, Emit(x, pkts), y)
  {
    EmitKeepsOut(x, y, pkts);
    EmitKeepsIn(x, y, pkts);
    EmitKeepsEdges(x, pkts);
  }

  lemma EmitKeepsEdges(x: Party, pkts: seq<Packet>)
    requires Edges(x) && x.ep.state == Established && Sendable(x, pkts) && x.ep.recv.Ok()
    ensures Edges(Emit(x, pkts))
  {
    EdgesAppend(x.log, x.hs, x.ep.recv.next, x.ep.recv.read + x.ep.recv.cap, pkts);
  }

  /** Packets that promise exactly what may be promised now keep the order of the log. */
  lemma EdgesAppend(log: seq<Packet>, hs: int, next: int, edge: int, pkts: seq<Packet>)
    requires LogEdges(log, hs, next, edge)
    requires forall p | p in pkts :: p.ackNum == next && Edge(p) == edge
    ensures LogEdges(log + pkts, hs, next, edge)
  {
    var all := log + pkts;
    forall i | hs <= i < |all|
      ensures Promises(all, i, next, edge)
    {
      assert i < |log| ==> Promises(log, i, next, edge);
    }
    forall i, j | hs <= i < j < |all|
      ensures Promises(all, i, all[j].ackNum, Edge(all[j]))
    {
      if j < |log| {
        assert Promises(log, i, log[j].ackNum, Edge(log[j]));
      } else {
        assert all[j] in pkts;
        assert Promises(all, i, next, edge);
      }
    }
  }

  /** Receiving and reading only raise what may be promised. */
  lemma EdgesRise(log: seq<Packet>, hs: int, next: int, edge: int, next': int, edge': int)
    requires LogEdges(log, hs, next, edge) && next <= next' && edge <= edge'
    ensures LogEdges(log, hs, next', edge')
  {
    forall i | hs <= i < |log|
      ensures Promises(log, i, next', edge')
    {
      assert Promises(log, i, next, edge);
    }
  }

  lemma BytesOfStream(send: SendView, isn: int, wrote: seq<uint8>, first: int, len: int)
    requires StreamOk(send, isn, wrote) && send.acked < first && 0 <= len && first + len <= send.Next()
    ensures send.Bytes(first, len) == Cut(wrote, first - isn - 1, len)
  {
  }

  /** A packet that carries a slice of a slice of the stream carries a slice of the stream. */
  lemma CarriesWithin(p: Packet, first: int, data: seq<uint8>, isn: int, wrote: seq<uint8>)
    requires Carries(p, first, data) && isn < first && first - isn - 1 + |data| <= |wrote|
    requires data == Cut(wrote, first - isn - 1, |data|)
    ensures Carries(p, isn + 1, wrote)
  {
    CutOfCut(wrote, first - isn - 1, |data|, p.seqNum - first, |p.payload|);
  }

  lemma CarriersAreSendable(x: Party, ep: Endpoint, first: int, data: seq<uint8>, pkts: seq<Packet>)
    requires x.ep.nextExp == x.ep.recv.next && ep.nextExp == x.ep.nextExp && ep.recv == x.ep.recv
    requires forall p | p in pkts :: Carries(p, first, data) && IsData(ep, p)
    requires x.isn < first && first + |data| <= x.ep.send.sent + 1 && first - x.isn - 1 + |data| <= |x.wrote|
    requires data == Cut(x.wrote, first - x.isn - 1, |data|)
    ensures Sendable(x, pkts)
  {
    forall p | p in pkts
      ensures Carries(p, x.isn + 1, x.wrote)
    {
      CarriesWithin(p, first, data, x.isn, x.wrote);
    }
  }

  /** Packets cut from the stream where the send buffer says they are carry it. */
  lemma PacketsAreSendable(x: Party, ep: Endpoint, first: int, len: int)
    requires StreamOk(x.ep.send, x.isn, x.wrote) && x.ep.nextExp == x.ep.recv.next
    requires ep.nextExp == x.ep.nextExp && ep.recv == x.ep.recv
    requires x.ep.send.acked < first && 0 <= len && first + len <= x.ep.send.sent + 1
    ensures Sendable(x, Packetize(ep, first, x.ep.send.Bytes(first, len)))
  {
    var data := x.ep.send.Bytes(first, len);
    PacketizeCarries(ep, first, data);
    BytesOfStream(x.ep.send, x.isn, x.wrote, first, len);
    CarriersAreSendable(x, ep, first, data, Packetize(ep, first, data));
  }

  lemma KeptTwice(x: Party, x1: Party, x2: Party, y: Party)
    requires Kept(x, x1, y) && Kept(x1, x2, y)
    ensures Kept(x, x2, y)
  {
    var n, n1 := |x.log|, |x1.log|;
    assert x2.log[n..] == x1.log[n..] + x2.log[n1..];
  }

  lemma FreshKeeps(x: Party, y: Party)
    requires Both(x, y) && x.pc == Sending && x.ep.state == Established && y.ep.Initialized()
    ensures Kept(x, Emit(x.(ep := SendFresh(x.ep).0, pc := Top), SendFresh(x.ep).1), y)
  {
    var n := FreshLen(x.ep);
    SendConservation(x.ep.send);
    SentKeeps(x, y, n);
    var x1 := x.(ep := x.ep.(send := x.ep.send.(sent := x.ep.send.sent + n)), pc := Top);
    PacketsAreSendable(x1, x.ep, x.ep.send.sent + 1, n);
    EmitKeeps(x1, y, SendFresh(x.ep).1);
    KeptTwice(x, x1, Emit(x1, SendFresh(x.ep).1), y);
  }

  lemma ResendKeeps(x: Party, y: Party)
    requires Both(x, y) && x.pc == Sending && x.ep.state == Established && 0 < x.ep.send.Unacked()
    ensures Kept(x, Emit(x.(pc := Top), Resend(x.ep)), y)
  {
    var x1 := x.(pc := Top);
    assert x1 == x.(pc := Top, ep := x.ep.(dying := x.ep.dying));
    FramePc(x, y, Top, x.ep.dying);
    PacketsAreSendable(x1, x.ep, x.ep.send.acked + 1, ResendLen(x.ep));
    EmitKeeps(x1, y, Resend(x.ep));
    KeptTwice(x, x1, Emit(x1, Resend(x.ep)), y);
  }

  lemma ReplyKeeps(x: Party, y: Party, toTop: bool)
    requires Both(x, y) && x.pc == Replying(toTop) && x.ep.state == Established
    ensures Kept(x, Emit(x.(pc := AfterMessage(toTop)), [ReplyPacket(x.ep)]), y)
  {
    var x1 := x.(pc := AfterMessage(toTop));
    assert x1 == x.(pc := AfterMessage(toTop), ep := x.ep.(dying := x.ep.dying));
    FramePc(x, y, AfterMessage(toTop), x.ep.dying);
    EmitKeeps(x1, y, [ReplyPacket(x.ep)]);
    KeptTwice(x, x1, Emit(x1, [ReplyPacket(x.ep)]), y);
  }

  lemma PcKeeps(x: Party, y: Party, pc: Pc)
    requires Both(x, y) && Local(x.(pc := pc), y.log)
    ensures Kept(x, x.(pc := pc), y)
  {
    assert x.(pc := pc) == x.(pc := pc, ep := x.ep.(dying := x.ep.dying));
    FramePc(x, y, pc, x.ep.dying);
  }

  lemma TickKeeps(x: Party, y: Party)
    requires Both(x, y) && Enabled(x, Tick, y.log)
    requires x.ep.state == Established && y.ep.Initialized()
    ensures Kept(x, TickStep(x), y) && !TickStep(x).pc.Aborted?
  {
    match x.pc
    case Top => PcKeeps(x, y, Check(x.ep.dying));
    case Check(death) => PcKeeps(x, y, TickStep(x).pc);
    case Acking(pkt, toTop) =>
      AcksAreInRange(x, y, pkt);
      AckKeepsAll(x, y, pkt, toTop, if pkt.payload == [] then AfterMessage(toTop) else Receiving(pkt, toTop));
    case Receiving(pkt, toTop) =>
      if pkt.payload == [] {
        PcKeeps(x, y, AfterMessage(toTop));
      } else {
        DataKeepsAll(x, y, pkt, toTop);
      }
    case Replying(toTop) => ReplyKeeps(x, y, toTop);
    case Sending => FreshKeeps(x, y);
  }

  /** The actions of the application and of the main loop, in any state that allows them. */
  ghost predicate IsLoop(x: Party, a: Action) {
    match a
    case Start => false
    case Timeout => false
    case Deliver(_) => x.pc == Poll
    case _ => true
  }

  /** Of all the asserts a step of the main loop meets, only the one on the SYN flag of a delivered packet
      can fail. */
  lemma LoopKeeps(x: Party, y: Party, a: Action)
    requires Both(x, y) && Enabled(x, a, y.log) && IsLoop(x, a)
    requires x.ep.state == Established ==> y.ep.Initialized()
    ensures Kept(x, Step(x, a), y)
    ensures Step(x, a).pc.Aborted? <==> a.Deliver? && a.pkt.syn
  {
    match a
    case Deliver(pkt) =>
      assert ShapedPacket(pkt);
      PcKeeps(x, y, Handle(pkt, false));
    case NoData => PcKeeps(x, y, Sending);
    case Tick => TickKeeps(x, y);
    case Retransmit => ResendKeeps(x, y);
    case Write(buf) => WriteKeeps(x, y, buf[..WriteLen(x.ep, buf)]);
    case Read(len) => ReadKeepsAll(x, y, ReadLen(x.ep, len));
    case Close => FramePc(x, y, x.pc, true);
  }
}
