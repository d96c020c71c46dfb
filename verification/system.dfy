/** Two endpoints and a network that loses, duplicates and reorders: the steps and the runs. */
module TwoParty {
  import opened Types
  import opened CmuPacket
  import opened Reassembler
  import opened SendViews
  import opened Endpoints

  datatype Role = Client | Server

  /** Where the backend thread stands between two critical sections; `toTop` says whether handle_message
      was called by the server handshake or by check_for_data. */
  datatype Pc =
    | Handshake
    | Top
    | Check(death: bool)
    | Poll
    | Acking(pkt: Packet, toTop: bool)
    | Receiving(pkt: Packet, toTop: bool)
    | Replying(toTop: bool)
    | Sending
    | Exited
    | Aborted

  /** A process, with its history: the packets it sent in order, how many of them before it was established,
      the bytes its application wrote and the bytes it read, and the numbers of the bytes it accepted. */
  datatype Party = Party(role: Role, isn: int, ep: Endpoint, pc: Pc, log: seq<Packet>, hs: nat,
                         wrote: seq<uint8>, got: seq<uint8>, accepted: set<int>) {
    predicate Alive() {
      !pc.Exited? && !pc.Aborted?
    }
  }

  datatype Action =
    | Start
    | Timeout
    | Deliver(pkt: Packet)
    | NoData
    | Tick
    | Retransmit
    | Write(buf: seq<uint8>)
    | Read(len: nat)
    | Close

  /** What may happen at a process; every packet the peer ever sent may arrive at any time. */
  predicate Enabled(p: Party, a: Action, net: seq<Packet>) {
    match a
    case Start => p.pc == Handshake && p.ep.state == Closed
    case Timeout => p.pc == Handshake && p.ep.state == SynSent
    case Deliver(pkt) => pkt in net && (p.pc == Poll || (p.pc == Handshake && p.ep.state != Closed))
    case NoData => p.pc == Poll
    case Tick => p.pc.Top? || p.pc.Check? || p.pc.Acking? || p.pc.Receiving? || p.pc.Replying? || p.pc.Sending?
    case Retransmit => p.pc == Sending && 0 < p.ep.send.Unacked()
    case Write(_) => p.Alive() && p.ep.Initialized() && !p.ep.dying
    case Read(_) => p.Alive() && p.ep.Initialized()
    case Close => p.Alive() && p.ep.Initialized()
  }

  function AfterMessage(toTop: bool): Pc {
    if toTop then Top else Sending
  }

  /** Where the message handler goes once its entry asserts hold; it ignores a FIN. */
  function Handle(pkt: Packet, toTop: bool): Pc {
    if !MessageAsserts(pkt) then Aborted
    else if pkt.fin then AfterMessage(toTop)
    else Acking(pkt, toTop)
  }

  function Emit(p: Party, pkts: seq<Packet>): Party {
    p.(log := p.log + pkts)
  }

  function StartStep(p: Party): Party {
    match p.role
    case Client => Emit(p.(ep := p.ep.(state := SynSent)), [SynPacket(p.ep)])
    case Server => p.(ep := p.ep.(state := Listen))
  }

  function DeliverStep(p: Party, pkt: Packet): Party {
    if p.pc == Poll then p.(pc := Handle(pkt, false))
    else match p.ep.state
      case SynSent =>
        if ClientAsserts(p.ep, pkt) then
          var ep := ClientEstablish(p.ep, pkt);
          Emit(p.(ep := ep, pc := Top, hs := |p.log| + 1), [FinalAckPacket(ep)])
        else p.(pc := Aborted)
      case Listen =>
        if ListenAsserts(p.ep, pkt) then
          var ep := ServerListen(p.ep, pkt);
          Emit(p.(ep := ep), [SynAckPacket(ep)])
        else p.(pc := Aborted)
      case SynRcvd =>
        if Completes(p.ep, pkt) then
          p.(ep := p.ep.(state := Established), pc := Handle(pkt, true), hs := |p.log|)
        else if pkt.syn then Emit(p, [SynAckPacket(p.ep)])
        else p.(pc := Aborted)
      case _ => p
  }

  /** first .. first + n - 1 */
  function Numbers(first: int, n: nat): (s: set<int>)
    ensures forall k :: k in s <==> first <= k < first + n
  {
    if n == 0 then {} else Numbers(first, n - 1) + {first + n - 1}
  }

  /** The byte numbers that a receive buffer takes in when it is offered a packet. */
  function Accepts(v: RecvView, p: Packet): set<int> {
    if v.Check(p.seqNum, |p.payload|) == CanReceive then Numbers(p.seqNum, |p.payload|) else {}
  }

  function TickStep(p: Party): Party
    requires p.ep.Ok()
  {
    match p.pc
    case Top => p.(pc := Check(p.ep.dying))
    case Check(death) =>
      p.(pc := if death && p.ep.send.Unacked() + p.ep.send.Fresh() == 0 then Exited else Poll)
    case Acking(pkt, toTop) =>
      if AckInRange(p.ep, pkt)
      then p.(ep := AckSection(p.ep, pkt),
              pc := if pkt.payload == [] then AfterMessage(toTop) else Receiving(pkt, toTop))
      else p.(pc := Aborted)
    case Receiving(pkt, toTop) =>
      if pkt.payload == [] then p.(pc := AfterMessage(toTop))
      else p.(ep := DataSection(p.ep, pkt), pc := Replying(toTop), accepted := p.accepted + Accepts(p.ep.recv, pkt))
    case Replying(toTop) => Emit(p.(pc := AfterMessage(toTop)), [ReplyPacket(p.ep)])
    case Sending => Emit(p.(ep := SendFresh(p.ep).0, pc := Top), SendFresh(p.ep).1)
    case _ => p
  }

  function Step(p: Party, a: Action): Party
    requires p.ep.Ok()
  {
    match a
    case Start => StartStep(p)
    case Timeout => Emit(p, [SynPacket(p.ep)])
    case Deliver(pkt) => DeliverStep(p, pkt)
    case NoData => p.(pc := Sending)
    case Tick => TickStep(p)
    case Retransmit => if 0 < p.ep.send.Unacked() then Emit(p.(pc := Top), Resend(p.ep)) else p
    case Write(buf) => p.(ep := AppWrite(p.ep, buf), wrote := p.wrote + buf[..WriteLen(p.ep, buf)])
    case Read(len) => p.(ep := AppRead(p.ep, len).0, got := p.got + AppRead(p.ep, len).1)
    case Close => p.(ep := p.ep.(dying := true))
  }

  datatype System = System(client: Party, server: Party)

  function Of(s: System, r: Role): Party {
    match r
    case Client => s.client
    case Server => s.server
  }

  function Peer(r: Role): Role {
    match r
    case Client => Server
    case Server => Client
  }

  function InitialParty(role: Role, isn: int, memory: seq<uint8>): Party {
    Party(role, isn, Initial(isn, memory), Handshake, [], 0, [], [], {})
  }

  ghost predicate Init(s: System) {
    exists ci, cm, si, sm ::
      && 0 <= ci && 0 <= si
      && MIN_CAPACITY <= |cm| <= MAX_CAPACITY && MIN_CAPACITY <= |sm| <= MAX_CAPACITY
      && s == System(InitialParty(Client, ci, cm), InitialParty(Server, si, sm))
  }

  /** Either process takes one step. */
  ghost predicate Next(s: System, s': System) {
    || (exists a :: Enabled(s.client, a, s.server.log) && s.client.ep.Ok()
                    && s' == s.(client := Step(s.client, a)))
    || (exists a :: Enabled(s.server, a, s.client.log) && s.server.ep.Ok()
                    && s' == s.(server := Step(s.server, a)))
  }

  ghost predicate NextAt(run: seq<System>, i: nat)
    requires i + 1 < |run|
  {
    Next(run[i], run[i + 1])
  }

  ghost predicate IsRun(run: seq<System>) {
    && run != [] && Init(run[0])
    && forall i {:trigger NextAt(run, i)} | 0 <= i < |run| - 1 :: NextAt(run, i)
  }

  // ---------------------------------------------------------------- the invariant

  /** The send buffer holds the tail of the written stream. */
  ghost predicate StreamOk(send: SendView, isn: int, wrote: seq<uint8>) {
    && send.Ok() && isn <= send.acked && send.Next() == isn + 1 + |wrote|
    && forall i | 0 <= i < |send.pending| :: send.pending[i] == wrote[send.acked - isn + i]
  }

  /** A packet is numbered within what was sent, and its data is the bytes of the stream its number names. */
  ghost predicate InStream(p: Packet, isn: int, wrote: seq<uint8>, sent: int) {
    && isn <= p.seqNum && p.seqNum + |p.payload| <= sent + 1
    && (p.payload != [] ==> Carries(p, isn + 1, wrote))
  }

  ghost predicate LogCarries(log: seq<Packet>, isn: int, wrote: seq<uint8>, sent: int) {
    forall p {:trigger InStream(p, isn, wrote, sent)} | p in log :: InStream(p, isn, wrote, sent)
  }

  /** Held bytes are bytes of the stream, and none that was not sent. */
  ghost predicate Agrees(v: RecvView, isn: int, wrote: seq<uint8>, sent: int) {
    && |v.ring| == v.cap
    && forall k | v.read < k && v.Holds(k) ::
      isn < k <= sent <= isn + |wrote| && k <= v.read + v.cap && v.ByteAt(k) == wrote[k - isn - 1]
  }

  ghost predicate RecvOk(v: RecvView, got: seq<uint8>, isn: int, wrote: seq<uint8>, sent: int) {
    && v.Ok() && v.read == isn + |got| && v.read <= sent && sent <= isn + |wrote|
    && got == wrote[..|got|]
    && Agrees(v, isn, wrote, sent)
  }

  /** What is held is exactly what was accepted, and everything up to the peer's initial number. */
  ghost predicate HoldsExactly(v: RecvView, isn: int, accepted: set<int>) {
    forall k {:trigger v.Holds(k)} :: v.Holds(k) <==> k <= isn || k in accepted
  }

  predicate AckOk(p: Packet, isn: int, next: int) {
    p.ack ==> isn + 1 <= p.ackNum <= next
  }

  ghost predicate AcksOk(log: seq<Packet>, isn: int, next: int) {
    forall p {:trigger AckOk(p, isn, next)} | p in log :: AckOk(p, isn, next)
  }

  predicate CarriesNoAck(p: Packet) {
    !p.ack
  }

  /** The direction from x to y. */
  ghost predicate Dir(x: Party, y: Party) {
    && StreamOk(x.ep.send, x.isn, x.wrote)
    && LogCarries(x.log, x.isn, x.wrote, x.ep.send.sent)
    && (if y.ep.Initialized() then
          && RecvOk(y.ep.recv, y.got, x.isn, x.wrote, x.ep.send.sent)
          && HoldsExactly(y.ep.recv, x.isn, y.accepted)
          && x.ep.send.acked + 1 <= y.ep.recv.next
          && AcksOk(y.log, x.isn, y.ep.recv.next)
        else
          && y.ep.recv.Ok() && y.ep.recv.read == 0 && y.ep.recv.next == 1 && y.ep.recv.segs == []
          && y.got == [] && y.accepted == {} && x.ep.send.sent == x.isn
          && forall p {:trigger CarriesNoAck(p)} | p in y.log :: CarriesNoAck(p))
  }

  predicate ShapedPacket(p: Packet) {
    && 0 <= p.window < 0x1_0000 && |p.payload| <= MSS && !p.fin
    && (p.syn || p.ack) && (p.syn ==> p.payload == []) && (p.ack || p.ackNum == 0)
  }

  ghost predicate Shaped(log: seq<Packet>) {
    forall p {:trigger ShapedPacket(p)} | p in log :: ShapedPacket(p)
  }

  /** The backend's own copies of the two numbers, and the packet it is handling. */
  ghost predicate Local(x: Party, net: seq<Packet>) {
    && 0 <= x.isn && x.ep.Ok() && Shaped(x.log)
    && (x.ep.Initialized() ==> x.ep.nextExp == x.ep.recv.next)
    && (!x.pc.Aborted? ==> (x.pc == Handshake <==> x.ep.state != Established))
    && ((x.pc.Acking? || x.pc.Receiving?) ==> x.pc.pkt in net && MessageAsserts(x.pc.pkt))
    && (!x.pc.Aborted? ==>
          if x.pc == Handshake || (x.pc.Acking? && x.pc.toTop)
          then x.ep.lastAck == x.isn && x.ep.send.acked == x.isn && x.ep.send.sent == x.isn
          else x.ep.lastAck == x.ep.send.acked + 1)
    && (x.pc.Check? && x.pc.death ==> x.ep.dying)
    && (x.pc.Exited? ==> x.ep.dying && x.ep.send.pending == [])
  }

  /** The client sends SYNs, and acknowledgements once it is established. */
  predicate FromClient(p: Packet, isn: int, established: bool) {
    if p.syn then p.seqNum == isn && !p.ack else p.ack && established
  }

  /** The server sends SYN-ACKs for the client's SYN, and plain acknowledgements once it is established. */
  predicate FromServer(p: Packet, isn: int, peerIsn: int, established: bool) {
    p.ack && if p.syn then p.seqNum == isn && p.ackNum == peerIsn + 1 else established
  }

  ghost predicate ClientLog(log: seq<Packet>, isn: int, established: bool) {
    forall p {:trigger FromClient(p, isn, established)} | p in log :: FromClient(p, isn, established)
  }

  ghost predicate ServerLog(log: seq<Packet>, isn: int, peerIsn: int, established: bool) {
    forall p {:trigger FromServer(p, isn, peerIsn, established)} | p in log ::
      FromServer(p, isn, peerIsn, established)
  }

  /** How far the handshake has come on both sides. */
  ghost predicate Hand(c: Party, s: Party) {
    && c.role == Client && s.role == Server
    && (c.ep.state == Closed || c.ep.state == SynSent || c.ep.state == Established)
    && s.ep.state != SynSent
    && ClientLog(c.log, c.isn, c.ep.state == Established)
    && ServerLog(s.log, s.isn, c.isn, s.ep.state == Established)
    && (c.ep.state == Established ==> s.ep.Initialized())
    && (s.ep.state == Established ==> c.ep.state == Established)
    && (s.ep.state == SynRcvd ==> s.ep.nextExp == c.isn + 1)
  }

  function Edge(p: Packet): int {
    p.ackNum + p.window
  }

  /** Packet i promises no more than `next` and `edge`. */
  ghost predicate Promises(log: seq<Packet>, i: int, next: int, edge: int)
    requires 0 <= i < |log|
  {
    log[i].ackNum <= next && Edge(log[i]) <= edge
  }

  /** Past the handshake, acknowledgements and right window edges never move back. */
  ghost predicate LogEdges(log: seq<Packet>, hs: int, next: int, edge: int) {
    && 0 <= hs <= |log|
    && (forall i {:trigger Promises(log, i, next, edge)} | hs <= i < |log| :: Promises(log, i, next, edge))
    && (forall i, j {:trigger Promises(log, i, log[j].ackNum, Edge(log[j]))} |
          hs <= i < j < |log| :: Promises(log, i, log[j].ackNum, Edge(log[j])))
  }

  ghost predicate Edges(x: Party) {
    x.ep.state == Established ==>
      LogEdges(x.log, x.hs, x.ep.recv.next, x.ep.recv.read + x.ep.recv.cap)
  }

  ghost predicate Inv(s: System) {
    && Local(s.client, s.server.log) && Local(s.server, s.client.log)
    && Dir(s.client, s.server) && Dir(s.server, s.client)
    && Hand(s.client, s.server)
    && Edges(s.client) && Edges(s.server)
  }
}
