/** One endpoint as a value, and the effect of each critical section of backend.c and cmu_tcp.c on it. */
module Endpoints {
  import opened Types
  import opened CmuPacket
  import opened Reassembler
  import opened SendViews

  datatype State = Closed | Listen | SynSent | SynRcvd | Established

  /** The socket: state, the three window_t fields, the close request and the two buffers. */
  datatype Endpoint = Endpoint(state: State, lastAck: int, nextExp: int, window: int, dying: bool,
                               send: SendView, recv: RecvView) {

    ghost predicate Ok() {
      send.Ok() && recv.Ok() && 0 <= window
    }

    /** The receive buffer is anchored; the application calls stop waiting. */
    predicate Initialized() {
      state == SynRcvd || state == Established
    }
  }

  /** cmu_socket: the receive buffer's memory is whatever the allocator left there. */
  function Initial(isn: int, memory: seq<uint8>): Endpoint {
    Endpoint(Closed, isn, 0, CP1_WINDOW_SIZE, false, SendView(|memory|, isn, isn, []),
             RecvView(|memory|, 0, 1, [], memory))
  }

  function Anchor(v: RecvView, isn: int): RecvView {
    v.(read := isn, next := isn + 1)
  }

  // ---------------------------------------------------------------- handshake

  function SynPacket(ep: Endpoint): Packet {
    Packet(ep.lastAck, 0, true, false, false, CP1_WINDOW_SIZE, [])
  }

  function SynAckPacket(ep: Endpoint): Packet {
    Packet(ep.lastAck, ep.nextExp, true, true, false, CP1_WINDOW_SIZE, [])
  }

  /** The client's third handshake packet still advertises the initial constant. */
  function FinalAckPacket(ep: Endpoint): Packet {
    Packet(ep.lastAck, ep.nextExp, false, true, false, CP1_WINDOW_SIZE, [])
  }

  /** The asserts of init_handshake_client on the packet it receives. */
  predicate ClientAsserts(ep: Endpoint, p: Packet) {
    p.syn && p.ack && ep.recv.read == 0 && p.ackNum == ep.lastAck + 1
  }

  function ClientEstablish(ep: Endpoint, p: Packet): Endpoint {
    ep.(state := Established, lastAck := p.ackNum, nextExp := p.seqNum + 1, recv := Anchor(ep.recv, p.seqNum))
  }

  /** The asserts of init_handshake_server in LISTEN. */
  predicate ListenAsserts(ep: Endpoint, p: Packet) {
    p.syn && !p.ack && !p.fin && ep.recv.read == 0
  }

  function ServerListen(ep: Endpoint, p: Packet): Endpoint {
    ep.(state := SynRcvd, nextExp := p.seqNum + 1, recv := Anchor(ep.recv, p.seqNum))
  }

  /** In SYN_RCVD this packet completes the handshake. */
  predicate Completes(ep: Endpoint, p: Packet) {
    p.ack && p.ackNum == ep.lastAck + 1
  }

  // ---------------------------------------------------------------- handle_message

  predicate MessageAsserts(p: Packet) {
    p.ack && !p.syn
  }

  /** The acknowledgement is for something sent, so the range asserts below update_ack hold and the decoded
      cursors stay exact. */
  predicate AckInRange(ep: Endpoint, p: Packet) {
    p.ackNum == ep.lastAck || 1 <= p.ackNum <= ep.send.sent + 1
  }

  function AckSection(ep: Endpoint, p: Packet): Endpoint
    requires ep.Ok() && AckInRange(ep, p)
  {
    if p.ackNum == ep.lastAck then ep.(window := p.window)
    else ep.(lastAck := Max(ep.lastAck, p.ackNum), send := ep.send.Ack(p.ackNum), window := p.window)
  }

  function Take(v: RecvView, p: Packet): RecvView
    requires v.Ok() && p.payload != []
  {
    v.Offer(p.seqNum, p.payload)
  }

  function DataSection(ep: Endpoint, p: Packet): Endpoint
    requires ep.Ok() && p.payload != []
  {
    var recv := Take(ep.recv, p);
    ep.(recv := recv, nextExp := recv.next)
  }

  function DataPacket(ep: Endpoint, seqNum: int, payload: seq<uint8>): Packet {
    Packet(seqNum, ep.nextExp, false, true, false, ep.recv.MaxReceive(), payload)
  }

  function ReplyPacket(ep: Endpoint): Packet {
    DataPacket(ep, ep.lastAck, [])
  }

  // ---------------------------------------------------------------- sending

  /** `data` cut into packets of at most MSS bytes, numbered from `first`. */
  function Packetize(ep: Endpoint, first: int, data: seq<uint8>): seq<Packet> {
    PacketizeFrom(ep, first, data, 0)
  }

  function PacketizeFrom(ep: Endpoint, first: int, data: seq<uint8>, off: nat): seq<Packet>
    requires off <= |data|
    decreases |data| - off
  {
    if off == |data| then []
    else
      var n := Min(|data| - off, MSS);
      [DataPacket(ep, first + off, Cut(data, off, n))] + PacketizeFrom(ep, first, data, off + n)
  }

  /** One turn of a sending loop: the packet made moves from what is left to what is done. */
  lemma PacketizeTurn(ep: Endpoint, first: int, data: seq<uint8>, off: nat, n: nat, pkts: seq<Packet>, pkt: Packet)
    requires off < |data| && n == Min(|data| - off, MSS)
    requires pkts + PacketizeFrom(ep, first, data, off) == Packetize(ep, first, data)
    requires pkt == DataPacket(ep, first + off, Cut(data, off, n))
    ensures pkts + [pkt] + PacketizeFrom(ep, first, data, off + n) == Packetize(ep, first, data)
  {
    var rest := PacketizeFrom(ep, first, data, off + n);
    assert pkts + [pkt] + rest == pkts + ([pkt] + rest);
  }

  /** Where a sending loop begins and ends. */
  lemma PacketizeEnds(ep: Endpoint, first: int, data: seq<uint8>, pkts: seq<Packet>)
    ensures [] + PacketizeFrom(ep, first, data, 0) == Packetize(ep, first, data)
    ensures pkts + PacketizeFrom(ep, first, data, |data|) == pkts
  {
  }

  lemma PacketizeOne(ep: Endpoint, first: int, data: seq<uint8>)
    requires 1 <= |data| <= MSS
    ensures Packetize(ep, first, data) == [DataPacket(ep, first, data)]
  {
    CutAll(data);
    assert PacketizeFrom(ep, first, data, |data|) == [];
  }

  function FreshLen(ep: Endpoint): int {
    if ep.send.Unacked() < ep.window then Min(ep.send.Fresh(), ep.window - ep.send.Unacked()) else 0
  }

  /** multiple_send */
  function SendFresh(ep: Endpoint): (Endpoint, seq<Packet>)
    requires ep.Ok()
  {
    var n := FreshLen(ep);
    (ep.(send := ep.send.(sent := ep.send.sent + n)),
     Packetize(ep, ep.send.sent + 1, ep.send.Bytes(ep.send.sent + 1, n)))
  }

  function ResendLen(ep: Endpoint): int {
    if Min(ep.send.Unacked(), ep.window) == 0 then 1 else Min(ep.send.Unacked(), ep.window)
  }

  /** resend_unacknowledged */
  function Resend(ep: Endpoint): seq<Packet>
    requires ep.Ok() && 0 < ep.send.Unacked()
  {
    Packetize(ep, ep.send.acked + 1, ep.send.Bytes(ep.send.acked + 1, ResendLen(ep)))
  }

  // ---------------------------------------------------------------- application calls

  /** How much of `buf` one turn of the cmu_write loop accepts. */
  function WriteLen(ep: Endpoint, buf: seq<uint8>): int {
    Min(|buf|, ep.send.MaxWrite())
  }

  function AppWrite(ep: Endpoint, buf: seq<uint8>): Endpoint
    requires ep.Ok()
  {
    ep.(send := ep.send.Write(buf[..WriteLen(ep, buf)]))
  }

  function ReadLen(ep: Endpoint, len: nat): int {
    Min(len, ep.recv.MaxRead())
  }

  function AppRead(ep: Endpoint, len: nat): (Endpoint, seq<uint8>)
    requires ep.Ok()
  {
    (ep.(recv := ep.recv.Read(ReadLen(ep, len))), ep.recv.Front(ReadLen(ep, len)))
  }

  // ---------------------------------------------------------------- what the sections keep

  lemma TakeOk(v: RecvView, p: Packet)
    requires v.Ok() && p.payload != []
    ensures Take(v, p).Ok() && v.next <= Take(v, p).next
    ensures Take(v, p).read == v.read && Take(v, p).cap == v.cap
  {
    if v.Check(p.seqNum, |p.payload|) == CanReceive {
      ReceiveOk(v, p.seqNum, p.payload);
      ReceiveMoves(v, p.seqNum, p.payload);
    }
  }

  lemma SectionsKeepOk(ep: Endpoint, p: Packet)
    requires ep.Ok()
    ensures AckInRange(ep, p) && 0 <= p.window ==> AckSection(ep, p).Ok()
    ensures p.payload != [] ==> DataSection(ep, p).Ok() && ep.recv.next <= DataSection(ep, p).nextExp
    ensures SendFresh(ep).0.Ok()
  {
    if p.payload != [] {
      TakeOk(ep.recv, p);
    }
  }

  /** Both sections of handle_message on a packet with data. */
  function Handled(ep: Endpoint, p: Packet): (ep': Endpoint)
    requires ep.Ok() && AckInRange(ep, p) && 0 <= p.window && p.payload != []
    ensures ep'.Ok() && ep.recv.next <= ep'.recv.next && ep'.send.sent == ep.send.sent
  {
    SectionsKeepOk(ep, p);
    SectionsKeepOk(AckSection(ep, p), p);
    DataSection(AckSection(ep, p), p)
  }

  /** Packet payloads end to end. */
  function Payloads(pkts: seq<Packet>): seq<uint8> {
    if pkts == [] then [] else pkts[0].payload + Payloads(pkts[1..])
  }

  /** Each packet is numbered by the bytes before it; the last is nonempty and at most MSS long, and each before
      it exactly so long. */
  ghost predicate InSequence(pkts: seq<Packet>, first: int) {
    forall i | 0 <= i < |pkts| ::
      && pkts[i].seqNum == first + |Payloads(pkts[..i])| && 1 <= |pkts[i].payload| <= MSS
      && (i < |pkts| - 1 ==> |pkts[i].payload| == MSS)
  }

  lemma PacketizeTiles(ep: Endpoint, first: int, data: seq<uint8>)
    ensures Payloads(Packetize(ep, first, data)) == data
    ensures InSequence(Packetize(ep, first, data), first)
  {
    TilesFrom(ep, first, data, 0);
    assert data[0..] == data;
  }

  lemma {:induction false} TilesFrom(ep: Endpoint, first: int, data: seq<uint8>, off: nat)
    requires off <= |data|
    ensures Payloads(PacketizeFrom(ep, first, data, off)) == data[off..]
    ensures InSequence(PacketizeFrom(ep, first, data, off), first + off)
    decreases |data| - off
  {
    if off < |data| {
      var n := Min(|data| - off, MSS);
      var rest := PacketizeFrom(ep, first, data, off + n);
      TilesFrom(ep, first, data, off + n);
      CutIs(data, off, n);
      assert data[off..off + n] + data[off + n..] == data[off..];
      var all := PacketizeFrom(ep, first, data, off);
      forall i | 0 <= i < |all|
        ensures all[i].seqNum == first + off + |Payloads(all[..i])| && 1 <= |all[i].payload| <= MSS
        ensures i < |all| - 1 ==> |all[i].payload| == MSS
      {
        if 0 < i {
          assert all[i] == rest[i - 1] && all[..i] == [all[0]] + rest[..i - 1];
        }
      }
    }
  }

  /** A packet that carries the slice of `data` its number names, where `data` is numbered from `first`. */
  ghost predicate Carries(p: Packet, first: int, data: seq<uint8>) {
    && first <= p.seqNum && p.seqNum + |p.payload| <= first + |data|
    && p.payload == Cut(data, p.seqNum - first, |p.payload|)
  }

  ghost predicate IsData(ep: Endpoint, p: Packet) {
    && p.ack && !p.syn && !p.fin && p.ackNum == ep.nextExp && p.window == ep.recv.MaxReceive()
    && 1 <= |p.payload| <= MSS
  }

  lemma PacketizeCarries(ep: Endpoint, first: int, data: seq<uint8>)
    ensures forall p | p in Packetize(ep, first, data) :: Carries(p, first, data) && IsData(ep, p)
  {
    CarriesFrom(ep, first, data, 0);
  }

  lemma {:induction false} CarriesFrom(ep: Endpoint, first: int, data: seq<uint8>, off: nat)
    requires off <= |data|
    ensures forall p | p in PacketizeFrom(ep, first, data, off) :: Carries(p, first, data) && IsData(ep, p)
    decreases |data| - off
  {
    if off < |data| {
      CarriesFrom(ep, first, data, off + Min(|data| - off, MSS));
    }
  }

  /** multiple_send emits exactly the next bytes of the stream, as many as are fresh and as the known window
      has room for, and leaves no more in flight than that window unless it sends nothing. */
  lemma SendFreshIs(ep: Endpoint)
    requires ep.Ok()
    ensures |Payloads(SendFresh(ep).1)| == if ep.send.Unacked() < ep.window
                                           then Min(ep.send.Fresh(), ep.window - ep.send.Unacked()) else 0
    ensures Payloads(SendFresh(ep).1) == ep.send.Bytes(ep.send.sent + 1, |Payloads(SendFresh(ep).1)|)
    ensures InSequence(SendFresh(ep).1, ep.send.sent + 1)
    ensures SendFresh(ep).0.send == ep.send.(sent := ep.send.sent + |Payloads(SendFresh(ep).1)|)
    ensures ep.send.Unacked() < ep.window ==> SendFresh(ep).0.send.Unacked() <= ep.window
    ensures ep.send.Unacked() < ep.window ==>
      SendFresh(ep).0.send.Fresh() == 0 || SendFresh(ep).0.send.Unacked() == ep.window
  {
    PacketizeTiles(ep, ep.send.sent + 1, ep.send.Bytes(ep.send.sent + 1, FreshLen(ep)));
  }

  /** resend_unacknowledged emits the first unacknowledged bytes again: as many as were sent and the known
      window allows, or a one-byte probe of a zero window. */
  lemma ResendIs(ep: Endpoint)
    requires ep.Ok() && 0 < ep.send.Unacked()
    ensures |Payloads(Resend(ep))| == if ep.window == 0 then 1 else Min(ep.send.Unacked(), ep.window)
    ensures ep.send.acked + |Payloads(Resend(ep))| <= ep.send.sent
    ensures Payloads(Resend(ep)) == ep.send.Bytes(ep.send.acked + 1, |Payloads(Resend(ep))|)
    ensures InSequence(Resend(ep), ep.send.acked + 1)
  {
    PacketizeTiles(ep, ep.send.acked + 1, ep.send.Bytes(ep.send.acked + 1, ResendLen(ep)));
  }

  /** A receive buffer after a run of packets delivered in order. */
  function TakeAll(v: RecvView, pkts: seq<Packet>): RecvView
    requires v.Ok() && forall p | p in pkts :: p.payload != []
    decreases |pkts|
  {
    if pkts == [] then v
    else
      TakeOk(v, pkts[0]);
      TakeAll(Take(v, pkts[0]), pkts[1..])
  }

  lemma {:induction false} FillsFrom(ep: Endpoint, first: int, data: seq<uint8>, off: nat, v: RecvView)
    requires off <= |data| && v.Ok() && v.read < first && first + off <= v.next
    requires first + |data| <= v.read + v.cap
    requires forall p | p in PacketizeFrom(ep, first, data, off) :: p.payload != []
    ensures TakeAll(v, PacketizeFrom(ep, first, data, off)).next >= first + |data|
    decreases |data| - off
  {
    if off < |data| {
      var n := Min(|data| - off, MSS);
      var all := PacketizeFrom(ep, first, data, off);
      var p := all[0];
      TakeOk(v, p);
      if v.Check(first + off, n) == CanReceive {
        ReceiveMoves(v, first + off, p.payload);
      }
      assert all[1..] == PacketizeFrom(ep, first, data, off + n);
      FillsFrom(ep, first, data, off + n, Take(v, p));
    }
  }

  /** One retransmission round, delivered in order and without loss to a receiver whose state the sender's
      view matches, drops nothing that is needed: the receiver then expects everything the round covered. */
  lemma ResendRoundProgress(ep: Endpoint, v: RecvView)
    requires ep.Ok() && 0 < ep.send.Unacked() && v.Ok()
    requires ep.send.acked + 1 == v.next && ep.window == v.MaxReceive() && 0 < ep.window
    ensures forall p | p in Resend(ep) :: p.payload != []
    ensures TakeAll(v, Resend(ep)).next >= ep.send.acked + Min(ep.send.Unacked(), ep.window) + 1
  {
    var data := ep.send.Bytes(ep.send.acked + 1, ResendLen(ep));
    PacketizeCarries(ep, ep.send.acked + 1, data);
    assert Resend(ep) == PacketizeFrom(ep, ep.send.acked + 1, data, 0);
    FillsFrom(ep, ep.send.acked + 1, data, 0, v);
  }
}
