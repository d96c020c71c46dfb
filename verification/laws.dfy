/** What each step of a run does, told from what can be seen: the log, the numbers sent, the bytes written,
    accepted and read. */
module Laws {
  import opened Types
  import opened CmuPacket
  import opened Reassembler
  import opened SendViews
  import opened Endpoints
  import opened TwoParty
  import opened StepProofs
  import opened HandshakeProofs
  import opened Theorems
  import opened Witnesses
  import Continuations

  /** The packets a step added to the log. */
  function Added(p: Party, p': Party): seq<Packet>
    requires p.log <= p'.log
  {
    p'.log[|p.log|..]
  }

  /** An acknowledgement of the in-order prefix, with the room behind it. */
  predicate Acknowledges(q: Packet, v: RecvView) {
    q.ack && !q.syn && !q.fin && q.ackNum == v.next && q.window == v.cap - (v.next - v.read)
  }

  /** The packets carry the written bytes numbered from + 1 .. to, end to end, in payloads of 1375 bytes and a
      last one of at most as many. */
  ghost predicate Tiles(pkts: seq<Packet>, p: Party, from: int, to: int) {
    && p.isn <= from <= to <= p.isn + |p.wrote|
    && InSequence(pkts, from + 1) && Payloads(pkts) == Cut(p.wrote, from - p.isn, to - from)
    && (forall q | q in pkts :: Acknowledges(q, p.ep.recv) && 1 <= |q.payload| <= 1375)
    && forall i | 0 <= i < |pkts| - 1 :: |pkts[i].payload| == 1375
  }

  // ---------------------------------------------------------------- the sending sections

  lemma PacketsTile(p: Party, from: int, len: int)
    requires p.ep.Ok() && StreamOk(p.ep.send, p.isn, p.wrote) && p.ep.nextExp == p.ep.recv.next
    requires p.ep.send.acked <= from && 0 <= len && from + len < p.ep.send.Next()
    ensures Tiles(Packetize(p.ep, from + 1, p.ep.send.Bytes(from + 1, len)), p, from, from + len)
  {
    var data := p.ep.send.Bytes(from + 1, len);
    PacketizeTiles(p.ep, from + 1, data);
    PacketizeCarries(p.ep, from + 1, data);
    BytesOfStream(p.ep.send, p.isn, p.wrote, from + 1, len);
  }

  /** What multiple_send makes of an endpoint, closing or not: it sends up to the end of the written bytes or of
      the known window, whichever comes first, and everything in between. */
  ghost predicate SendsAllItMay(p: Party, p': Party) {
    && p.log <= p'.log
    && p' == p.(ep := p.ep.(send := p.ep.send.(sent := p'.ep.send.sent)), pc := Top, log := p'.log)
    && p'.ep.send.sent == Max(p.ep.send.sent, Min(p.isn + |p.wrote|, p.ep.send.acked + p.ep.window))
    && (p'.ep.send.sent == p.isn + |p.wrote| || p.ep.window <= p'.ep.send.sent - p.ep.send.acked)
    && Tiles(Added(p, p'), p, p.ep.send.sent, p'.ep.send.sent)
  }

  lemma SendingTick(p: Party, net: seq<Packet>)
    requires Local(p, net) && StreamOk(p.ep.send, p.isn, p.wrote) && p.pc == Sending
    ensures SendsAllItMay(p, Step(p, Tick))
  {
    SendConservation(p.ep.send);
    PacketsTile(p, p.ep.send.sent, FreshLen(p.ep));
    assert Added(p, Step(p, Tick)) == SendFresh(p.ep).1;
  }

  /** In every run, every pass through multiple_send. */
  lemma MultipleSendLaw(run: seq<System>, i: nat, r: Role)
    requires IsRun(run) && i < |run| && Of(run[i], r).pc == Sending
    ensures Of(run[i], r).ep.Ok() && SendsAllItMay(Of(run[i], r), Step(Of(run[i], r), Tick))
  {
    RunInv(run, i);
    SendingTick(Of(run[i], r), Of(run[i], Peer(r)).log);
  }

  /** What resend_unacknowledged makes of an endpoint. */
  ghost predicate SendsAgain(p: Party, p': Party) {
    && p.log <= p'.log && p' == p.(pc := Top, log := p'.log)
    && Tiles(Added(p, p'), p, p.ep.send.acked,
             p.ep.send.acked + if p.ep.window == 0 then 1 else Min(p.ep.send.sent - p.ep.send.acked, p.ep.window))
  }

  lemma RetransmitStep(p: Party, net: seq<Packet>)
    requires Local(p, net) && StreamOk(p.ep.send, p.isn, p.wrote)
    requires p.pc == Sending && p.ep.send.acked < p.ep.send.sent
    ensures SendsAgain(p, Step(p, Retransmit))
  {
    PacketsTile(p, p.ep.send.acked, ResendLen(p.ep));
    assert Added(p, Step(p, Retransmit)) == Resend(p.ep);
  }

  /** In every run a retransmission may happen exactly where something is in flight, closing or not, and sends
      the first of it. */
  lemma RetransmitLaw(run: seq<System>, i: nat, r: Role)
    requires IsRun(run) && i < |run| && Of(run[i], r).pc == Sending
    ensures var p := Of(run[i], r);
            && p.ep.Ok()
            && (Enabled(p, Retransmit, Of(run[i], Peer(r)).log) <==> p.ep.send.acked < p.ep.send.sent)
            && (p.ep.send.acked < p.ep.send.sent ==> SendsAgain(p, Step(p, Retransmit)))
  {
    RunInv(run, i);
    if Of(run[i], r).ep.send.acked < Of(run[i], r).ep.send.sent {
      RetransmitStep(Of(run[i], r), Of(run[i], Peer(r)).log);
    }
  }

  /** In every run a backend that has seen the close request leaves its loop exactly when everything written has
      been acknowledged. */
  lemma ExitLaw(run: seq<System>, i: nat, r: Role)
    requires IsRun(run) && i < |run|
    ensures Of(run[i], r).ep.Ok()
    ensures var p, p' := Of(run[i], r), Step(Of(run[i], r), Tick);
            && (p.pc == Top ==> p' == p.(pc := Check(p.ep.dying)))
            && (p.pc.Check? ==>
                  p' == p.(pc := p'.pc)
                  && p'.pc == if p.pc.death && p.ep.send.acked == p.isn + |p.wrote| then Exited else Poll)
  {
    RunInv(run, i);
  }

  // ---------------------------------------------------------------- the application's calls

  /** What a turn of cmu_write accepts: a prefix of the buffer, all of it or as much as fills the ring. */
  ghost predicate AcceptsWhatFits(p: Party, p': Party, buf: seq<uint8>) {
    && p.wrote <= p'.wrote
    && p' == p.(ep := p.ep.(send := p.ep.send.(pending := p'.ep.send.pending)), wrote := p'.wrote)
    && var accepted := p'.wrote[|p.wrote|..];
       && accepted <= buf && p'.ep.send.pending == p.ep.send.pending + accepted
       && |accepted| == Min(|buf|, p.ep.send.cap - 1 - |p.ep.send.pending|)
       && (accepted == buf || p'.isn + |p'.wrote| + 1 == p'.ep.send.acked + p'.ep.send.cap)
  }

  lemma WriteStep(p: Party, buf: seq<uint8>)
    requires p.ep.Ok() && StreamOk(p.ep.send, p.isn, p.wrote)
    ensures AcceptsWhatFits(p, Step(p, Write(buf)), buf)
  {
    assert Step(p, Write(buf)).wrote[|p.wrote|..] == buf[..WriteLen(p.ep, buf)];
  }

  lemma WriteLaw(run: seq<System>, i: nat, r: Role, buf: seq<uint8>)
    requires IsRun(run) && i < |run|
    ensures Of(run[i], r).ep.Ok() && AcceptsWhatFits(Of(run[i], r), Step(Of(run[i], r), Write(buf)), buf)
  {
    RunInv(run, i);
    WriteStep(Of(run[i], r), buf);
  }

  /** What cmu_read hands over: the peer's next bytes, as many as were asked for or all that are ready. */
  ghost predicate HandsOver(p: Party, p': Party, peer: Party, len: nat) {
    && p.got <= p'.got
    && p' == p.(ep := p.ep.(recv := p'.ep.recv), got := p'.got)
    && p'.ep.recv == p.ep.recv.(read := p'.ep.recv.read, ring := p'.ep.recv.ring)
    && var taken := p'.got[|p.got|..];
       && |taken| == Min(len, p.ep.recv.next - p.ep.recv.read - 1)
       && p'.ep.recv.read == p.ep.recv.read + |taken| && p'.got <= peer.wrote
       && (|taken| == len || p'.ep.recv.read + 1 == p'.ep.recv.next)
  }

  lemma ReadStep(p: Party, peer: Party, len: nat)
    requires p.ep.Ok() && RecvOk(p.ep.recv, p.got, peer.isn, peer.wrote, peer.ep.send.sent)
    ensures HandsOver(p, Step(p, Read(len)), peer, len)
  {
    var v := p.ep.recv;
    ReadKeepsAgreement(v, ReadLen(p.ep, len), p.got, peer.isn, peer.wrote, peer.ep.send.sent);
    assert Step(p, Read(len)).got[|p.got|..] == v.Front(ReadLen(p.ep, len));
  }

  lemma ReadLaw(run: seq<System>, i: nat, r: Role, len: nat)
    requires IsRun(run) && i < |run| && Of(run[i], r).ep.Initialized()
    ensures Of(run[i], r).ep.Ok()
    ensures HandsOver(Of(run[i], r), Step(Of(run[i], r), Read(len)), Of(run[i], Peer(r)), len)
  {
    RunInv(run, i);
    ReadStep(Of(run[i], r), Of(run[i], Peer(r)), len);
  }

  /** In every run a close request sets its flag and touches nothing else, and a poll that finds nothing goes on
      to the sending sections. */
  lemma CloseLaw(run: seq<System>, i: nat, r: Role)
    requires IsRun(run) && i < |run|
    ensures var p := Of(run[i], r);
            && p.ep.Ok() && Step(p, Close) == p.(ep := p.ep.(dying := true))
            && (p.pc == Poll ==> Step(p, NoData) == p.(pc := Sending))
  {
    RunInv(run, i);
  }

  // ---------------------------------------------------------------- handling a packet

  /** What the acknowledgement section makes of a process, whichever caller the handler has. */
  ghost predicate HearsAcknowledgement(p: Party, p': Party, q: Packet) {
    && p' == p.(pc := p'.pc, ep := p.ep.(lastAck := p'.ep.lastAck, window := q.window, send := p'.ep.send))
    && p'.ep.send == p.ep.send.(acked := p'.ep.send.acked, pending := p'.ep.send.pending)
    && p'.ep.send.acked == Max(p.ep.send.acked, q.ackNum - 1) && p'.ep.lastAck == p'.ep.send.acked + 1
    && StreamOk(p'.ep.send, p.isn, p.wrote)
  }

  /** The packet lies within the window and reaches past the in-order prefix. */
  predicate Brings(v: RecvView, q: Packet) {
    && q.payload != [] && v.read < q.seqNum
    && v.next < q.seqNum + |q.payload| <= v.read + v.cap
  }

  /** What the payload section makes of a receive buffer, and of the numbers it accepted. */
  ghost predicate TakesIn(v: RecvView, w: RecvView, had: set<int>, has: set<int>, q: Packet) {
    var e := q.seqNum + |q.payload|;
    && w.cap == v.cap && w.read == v.read && |v.ring| == |w.ring| == v.cap && v.next <= w.next
    && (forall k :: k in has <==> k in had || (Brings(v, q) && q.seqNum <= k < e))
    && (forall k {:trigger w.Holds(k)} {:trigger v.Holds(k)} ::
          w.Holds(k) <==> v.Holds(k) || (Brings(v, q) && q.seqNum <= k < e))
    && (Brings(v, q) && q.seqNum <= v.next ==> e <= w.next)
    && forall k | v.read < k <= v.read + v.cap ::
         w.ByteAt(k) == if Brings(v, q) && q.seqNum <= k < e then q.payload[k - q.seqNum] else v.ByteAt(k)
  }

  /** The pure acknowledgement a process owes. */
  predicate IsReply(q: Packet, p: Party) {
    Acknowledges(q, p.ep.recv) && q.payload == [] && q.seqNum == p.ep.send.acked + 1
  }

  /** Where the handler returns to: the handshake runs the loop from its top. */
  function Returns(toTop: bool): Pc {
    if toTop then Top else Sending
  }

  lemma AckingTick(p: Party, peer: Party)
    requires Both(p, peer) && p.pc.Acking?
    ensures var p' := Step(p, Tick);
            && HearsAcknowledgement(p, p', p.pc.pkt)
            && p'.pc == if p.pc.pkt.payload == [] then Returns(p.pc.toTop) else Receiving(p.pc.pkt, p.pc.toTop)
  {
    var q := p.pc.pkt;
    AcksAreInRange(p, peer, q);
    AckNumbers(p.ep, p.isn, q);
    AckKeeps(p.ep.send, q.ackNum);
    AckStream(p.ep, p.isn, p.wrote, q);
  }

  /** In every run, the acknowledgement section of a packet, whoever called the handler. */
  lemma AckSectionLaw(run: seq<System>, i: nat, r: Role)
    requires IsRun(run) && i < |run| && Of(run[i], r).pc.Acking?
    ensures Of(run[i], r).ep.Ok()
    ensures var p, p' := Of(run[i], r), Step(Of(run[i], r), Tick);
            && HearsAcknowledgement(p, p', p.pc.pkt)
            && p'.pc == if p.pc.pkt.payload == [] then Returns(p.pc.toTop) else Receiving(p.pc.pkt, p.pc.toTop)
  {
    RunInv(run, i);
    AckingTick(Of(run[i], r), Of(run[i], Peer(r)));
  }

  /** A packet that is let in. */
  lemma LetIn(v: RecvView, q: Packet)
    requires v.Ok() && Brings(v, q)
    ensures v.Check(q.seqNum, |q.payload|) == CanReceive && Take(v, q) == v.Receive(q.seqNum, q.payload)
    ensures Take(v, q).cap == v.cap && Take(v, q).read == v.read && v.next <= Take(v, q).next
    ensures q.seqNum <= v.next ==> q.seqNum + |q.payload| <= Take(v, q).next
    ensures forall k :: Take(v, q).Holds(k) <==> v.Holds(k) || q.seqNum <= k < q.seqNum + |q.payload|
  {
    CheckIs(v, q.seqNum, |q.payload|);
    ReceiveOk(v, q.seqNum, q.payload);
    ReceiveMoves(v, q.seqNum, q.payload);
    forall k
      ensures v.Receive(q.seqNum, q.payload).Holds(k) <==> v.Holds(k) || q.seqNum <= k < q.seqNum + |q.payload|
    {
      ReceiveHolds(v, q.seqNum, q.payload, k);
    }
  }

  /** One that is not. */
  lemma KeptOut(v: RecvView, q: Packet)
    requires v.Ok() && q.payload != [] && !Brings(v, q)
    ensures v.Check(q.seqNum, |q.payload|) != CanReceive && Take(v, q) == v
  {
    CheckIs(v, q.seqNum, |q.payload|);
  }

  lemma TakeTakesIn(v: RecvView, had: set<int>, q: Packet)
    requires v.Ok() && q.payload != []
    ensures TakesIn(v, Take(v, q), had, had + Accepts(v, q), q)
  {
    if Brings(v, q) {
      LetIn(v, q);
      forall k | v.read < k <= v.read + v.cap
        ensures |v.Receive(q.seqNum, q.payload).ring| == v.cap
        ensures v.Receive(q.seqNum, q.payload).ByteAt(k)
                == if q.seqNum <= k < q.seqNum + |q.payload| then q.payload[k - q.seqNum] else v.ByteAt(k)
      {
        ReceiveBytes(v, q.seqNum, q.payload, k);
      }
    } else {
      KeptOut(v, q);
    }
  }

  /** In every run, the payload section. */
  lemma PayloadSectionLaw(run: seq<System>, i: nat, r: Role)
    requires IsRun(run) && i < |run| && Of(run[i], r).pc.Receiving? && Of(run[i], r).pc.pkt.payload != []
    ensures Of(run[i], r).ep.Ok()
    ensures var p, p' := Of(run[i], r), Step(Of(run[i], r), Tick);
            && p' == p.(pc := Replying(p.pc.toTop), accepted := p'.accepted,
                        ep := p.ep.(recv := p'.ep.recv, nextExp := p'.ep.recv.next))
            && TakesIn(p.ep.recv, p'.ep.recv, p.accepted, p'.accepted, p.pc.pkt)
  {
    RunInv(run, i);
    TakeTakesIn(Of(run[i], r).ep.recv, Of(run[i], r).accepted, Of(run[i], r).pc.pkt);
  }

  /** In every run, the reply. */
  lemma ReplyLaw(run: seq<System>, i: nat, r: Role) returns (reply: Packet)
    requires IsRun(run) && i < |run| && Of(run[i], r).pc.Replying?
    ensures Of(run[i], r).ep.Ok()
    ensures var p, p' := Of(run[i], r), Step(Of(run[i], r), Tick);
            p' == p.(pc := Returns(p.pc.toTop), log := p.log + [reply]) && IsReply(reply, p)
  {
    RunInv(run, i);
    reply := ReplyPacket(Of(run[i], r).ep);
  }

  /** A process that waits for a packet: at the poll of its loop, or the server for the end of the handshake. */
  predicate Awaits(p: Party) {
    p.pc == Poll || (p.pc == Handshake && p.ep.state == SynRcvd)
  }

  /** Such a process, given a packet that is no SYN, hands it to the handler whole and stays alive. */
  lemma DeliveryLaw(run: seq<System>, i: nat, r: Role, q: Packet)
    requires IsRun(run) && i < |run| && Awaits(Of(run[i], r)) && q in Of(run[i], Peer(r)).log && !q.syn
    ensures Of(run[i], r).ep.Ok()
    ensures var p := Of(run[i], r);
            Step(p, Deliver(q)) == if p.pc == Poll then p.(pc := Acking(q, false))
                                   else p.(ep := p.ep.(state := Established), pc := Acking(q, true), hs := |p.log|)
  {
    RunInv(run, i);
    assert ShapedPacket(q);
    if Of(run[i], r).pc == Handshake {
      ReachesSynRcvd(run[i], q);
    }
  }

  ghost predicate Ticks(p: Party, p': Party) {
    p.ep.Ok() && p' == Step(p, Tick)
  }

  /** The last four steps of a run are those of one process that handles `q` without a break. */
  ghost predicate Handles(run: seq<System>, r: Role, q: Packet) {
    && 4 < |run|
    && var i := |run| - 5;
       && Of(run[i], r).ep.Ok() && Of(run[i + 1], r) == Step(Of(run[i], r), Deliver(q))
       && Ticks(Of(run[i + 1], r), Of(run[i + 2], r)) && Ticks(Of(run[i + 2], r), Of(run[i + 3], r))
       && Ticks(Of(run[i + 3], r), Of(run[i + 4], r))
  }

  /** Byte number `k` is held with the value the peer wrote under it. */
  ghost predicate HoldsRight(v: RecvView, k: int, peer: Party) {
    && |v.ring| == v.cap && v.read < k <= v.read + v.cap && peer.isn < k <= peer.isn + |peer.wrote|
    && v.Holds(k) && v.ByteAt(k) == peer.wrote[k - peer.isn - 1]
  }

  /** What becomes of a process that handles a packet with data. */
  ghost predicate HandlesData(p: Party, p': Party, peer: Party, q: Packet) {
    && p'.ep.state == Established && p'.pc == Returns(p.pc == Handshake)
    && p'.wrote == p.wrote && p'.got == p.got && p'.ep.dying == p.ep.dying
    && p'.ep.send.acked == Max(p.ep.send.acked, q.ackNum - 1) && p'.ep.send.sent == p.ep.send.sent
    && p'.ep.window == q.window
    && TakesIn(p.ep.recv, p'.ep.recv, p.accepted, p'.accepted, q)
    && (Brings(p.ep.recv, q) ==>
          forall k | q.seqNum <= k < q.seqNum + |q.payload| :: HoldsRight(p'.ep.recv, k, peer))
    && |p'.log| == |p.log| + 1 && p'.log == p.log + [p'.log[|p.log|]] && IsReply(p'.log[|p.log|], p')
  }

  /** The packet is handed over, whoever asked for it. */
  ghost predicate Handed(p: Party, p1: Party, q: Packet) {
    p1 == p.(ep := p.ep.(state := Established), pc := Acking(q, p.pc == Handshake), hs := p1.hs)
  }

  lemma HandsOn(run: seq<System>, r: Role, q: Packet) returns (run': seq<System>)
    requires Stands(run) && Awaits(Of(Last(run), r)) && q in Of(Last(run), Peer(r)).log && !q.syn
    ensures Stands(run') && |run'| == |run| + 1 && run <= run' && Of(Last(run'), Peer(r)) == Of(Last(run), Peer(r))
    ensures Of(Last(run), r).ep.Ok() && Of(Last(run'), r) == Step(Of(Last(run), r), Deliver(q))
    ensures Handed(Of(Last(run), r), Of(Last(run'), r), q)
  {
    DeliveryLaw(run, |run| - 1, r, q);
    Continuations.BothOf(Last(run), r);
    run' := Continuations.Goes(run, r, Deliver(q));
  }

  lemma HearsOut(run: seq<System>, r: Role) returns (run': seq<System>)
    requires Stands(run) && Of(Last(run), r).pc.Acking?
    ensures Stands(run') && |run'| == |run| + 1 && run <= run' && Of(Last(run'), Peer(r)) == Of(Last(run), Peer(r))
    ensures Ticks(Of(Last(run), r), Of(Last(run'), r))
    ensures var p, p' := Of(Last(run), r), Of(Last(run'), r);
            && HearsAcknowledgement(p, p', p.pc.pkt)
            && p'.pc == if p.pc.pkt.payload == [] then Returns(p.pc.toTop) else Receiving(p.pc.pkt, p.pc.toTop)
  {
    AckSectionLaw(run, |run| - 1, r);
    run' := Continuations.Goes(run, r, Tick);
  }

  lemma TakesOver(run: seq<System>, r: Role) returns (run': seq<System>)
    requires Stands(run) && Of(Last(run), r).pc.Receiving? && Of(Last(run), r).pc.pkt.payload != []
    ensures Stands(run') && |run'| == |run| + 1 && run <= run' && Of(Last(run'), Peer(r)) == Of(Last(run), Peer(r))
    ensures Ticks(Of(Last(run), r), Of(Last(run'), r))
    ensures var p, p' := Of(Last(run), r), Of(Last(run'), r);
            && p' == p.(pc := Replying(p.pc.toTop), accepted := p'.accepted,
                        ep := p.ep.(recv := p'.ep.recv, nextExp := p'.ep.recv.next))
            && TakesIn(p.ep.recv, p'.ep.recv, p.accepted, p'.accepted, p.pc.pkt)
  {
    PayloadSectionLaw(run, |run| - 1, r);
    run' := Continuations.Goes(run, r, Tick);
  }

  lemma RepliesOnce(run: seq<System>, r: Role) returns (run': seq<System>, reply: Packet)
    requires Stands(run) && Of(Last(run), r).pc.Replying?
    ensures Stands(run') && |run'| == |run| + 1 && run <= run' && Of(Last(run'), Peer(r)) == Of(Last(run), Peer(r))
    ensures Ticks(Of(Last(run), r), Of(Last(run'), r))
    ensures var p, p' := Of(Last(run), r), Of(Last(run'), r);
            p' == p.(pc := Returns(p.pc.toTop), log := p.log + [reply]) && IsReply(reply, p)
  {
    reply := ReplyLaw(run, |run| - 1, r);
    run' := Continuations.Goes(run, r, Tick);
  }

  lemma BringsTheStream(v: RecvView, w: RecvView, had: set<int>, has: set<int>, q: Packet, got: seq<uint8>,
                        peer: Party)
    requires TakesIn(v, w, had, has, q) && RecvOk(w, got, peer.isn, peer.wrote, peer.ep.send.sent)
    ensures Brings(v, q) ==> forall k | q.seqNum <= k < q.seqNum + |q.payload| :: HoldsRight(w, k, peer)
  {
    forall k | Brings(v, q) && q.seqNum <= k < q.seqNum + |q.payload|
      ensures HoldsRight(w, k, peer)
    {
      assert v.read < k && w.Holds(k);
    }
  }

  /** The four steps put together. */
  lemma HandlesAll(p: Party, p1: Party, p2: Party, p3: Party, p4: Party, peer: Party, q: Packet, reply: Packet)
    requires q.payload != [] && Handed(p, p1, q) && HearsAcknowledgement(p1, p2, q)
    requires p2.pc == Receiving(q, p1.pc.toTop)
    requires p3 == p2.(pc := Replying(p2.pc.toTop), accepted := p3.accepted,
                       ep := p2.ep.(recv := p3.ep.recv, nextExp := p3.ep.recv.next))
    requires TakesIn(p2.ep.recv, p3.ep.recv, p2.accepted, p3.accepted, q)
    requires p4 == p3.(pc := Returns(p3.pc.toTop), log := p3.log + [reply]) && IsReply(reply, p3)
    requires RecvOk(p4.ep.recv, p4.got, peer.isn, peer.wrote, peer.ep.send.sent)
    ensures HandlesData(p, p4, peer, q)
  {
    BringsTheStream(p2.ep.recv, p3.ep.recv, p2.accepted, p3.accepted, q, p4.got, peer);
    assert p4.log[|p.log|] == reply && IsReply(reply, p4);
  }

  /** In every run, a process that handles a packet with data undisturbed, at the poll of its loop or as the end of
      its handshake, ends with everything that the packet may bring, under its own numbers and with the values the
      peer wrote, and with one more packet in its log, which acknowledges what it then has. */
  lemma DataLaw(run: seq<System>, i: nat, r: Role, q: Packet) returns (run': seq<System>)
    requires IsRun(run) && i < |run| && Awaits(Of(run[i], r))
    requires q in Of(run[i], Peer(r)).log && !q.syn && q.payload != []
    ensures IsRun(run') && |run'| == i + 5 && run[..i + 1] <= run' && Handles(run', r, q)
    ensures HandlesData(Of(run[i], r), Of(Last(run'), r), Of(run[i], Peer(r)), q)
    ensures Of(Last(run'), Peer(r)) == Of(run[i], Peer(r))
  {
    Continuations.RunPrefix(run, i + 1);
    RunInv(run, i);
    var run1 := HandsOn(run[..i + 1], r, q);
    var run2 := HearsOut(run1, r);
    var run3 := TakesOver(run2, r);
    var reply;
    run', reply := RepliesOnce(run3, r);
    assert run'[i] == run[i] && run'[i + 1] == Last(run1) && run'[i + 2] == Last(run2) && run'[i + 3] == Last(run3);
    assert Both(Of(Last(run'), r), Of(Last(run'), Peer(r)));
    HandlesAll(Of(run[i], r), Of(Last(run1), r), Of(Last(run2), r), Of(Last(run3), r), Of(Last(run'), r),
               Of(run[i], Peer(r)), q, reply);
  }

  /** A packet without data: only the acknowledgement, and nothing is sent. */
  lemma PureAckLaw(run: seq<System>, i: nat, r: Role, q: Packet) returns (run': seq<System>)
    requires IsRun(run) && i < |run| && Awaits(Of(run[i], r))
    requires q in Of(run[i], Peer(r)).log && !q.syn && q.payload == []
    ensures IsRun(run') && |run'| == i + 3 && run[..i + 1] <= run' && Of(run[i], r).ep.Ok()
    ensures Of(run'[i + 1], r) == Step(Of(run[i], r), Deliver(q)) && Ticks(Of(run'[i + 1], r), Of(run'[i + 2], r))
    ensures var p, p' := Of(run[i], r), Of(Last(run'), r);
            && HearsAcknowledgement(p.(ep := p.ep.(state := Established), hs := p'.hs), p', q)
            && p'.pc == Returns(p.pc == Handshake)
  {
    Continuations.RunPrefix(run, i + 1);
    RunInv(run, i);
    var run1 := HandsOn(run[..i + 1], r, q);
    run' := HearsOut(run1, r);
    assert run'[i] == run[i] && run'[i + 1] == Last(run1);
    HeardOnly(Of(run[i], r), Of(Last(run1), r), Of(Last(run'), r), q);
  }

  lemma HeardOnly(p: Party, p1: Party, p': Party, q: Packet)
    requires Handed(p, p1, q) && HearsAcknowledgement(p1, p', q)
    ensures HearsAcknowledgement(p.(ep := p.ep.(state := Established), hs := p'.hs), p', q)
  {
  }

  // ---------------------------------------------------------------- the handshake

  /** The packets of the handshake; all of them advertise the window 44000. */
  predicate IsSyn(q: Packet, isn: int) {
    q == Packet(isn, 0, true, false, false, 44000, [])
  }

  predicate IsSynAck(q: Packet, isn: int, peerIsn: int) {
    q == Packet(isn, peerIsn + 1, true, true, false, 44000, [])
  }

  predicate IsLastAck(q: Packet, isn: int, peerIsn: int) {
    q == Packet(isn + 1, peerIsn + 1, false, true, false, 44000, [])
  }

  /** The receive buffer is anchored at the peer's initial number. */
  predicate Anchored(v: RecvView, w: RecvView, peerIsn: int) {
    w == v.(read := peerIsn, next := peerIsn + 1)
  }

  /** In every run: the client's first SYN, the same SYN after a timeout, and the server's passive open. */
  lemma SynLaw(run: seq<System>, i: nat, r: Role)
    requires IsRun(run) && i < |run| && Of(run[i], r).pc == Handshake
    ensures var p := Of(run[i], r);
            && p.ep.Ok()
            && (r == Client && p.ep.state == Closed ==>
                  var p' := Step(p, Start);
                  |p'.log| == |p.log| + 1 && IsSyn(p'.log[|p.log|], p.isn)
                  && p' == p.(ep := p.ep.(state := SynSent), log := p.log + [p'.log[|p.log|]]))
            && (p.ep.state == SynSent ==>
                  var p' := Step(p, Timeout);
                  |p'.log| == |p.log| + 1 && IsSyn(p'.log[|p.log|], p.isn)
                  && p' == p.(log := p.log + [p'.log[|p.log|]]))
            && (r == Server ==> Step(p, Start) == p.(ep := p.ep.(state := Listen)))
  {
    RunInv(run, i);
  }

  /** In every run: whatever reaches a client in SYN_SENT anchors and establishes it, and is acknowledged. */
  lemma SynAckLaw(run: seq<System>, i: nat, q: Packet) returns (reply: Packet)
    requires IsRun(run) && i < |run| && run[i].client.pc == Handshake && run[i].client.ep.state == SynSent
    requires q in run[i].server.log
    ensures run[i].client.ep.Ok()
    ensures var c, c', isn := run[i].client, Step(run[i].client, Deliver(q)), run[i].server.isn;
            && IsLastAck(reply, c.isn, isn) && Anchored(c.ep.recv, c'.ep.recv, isn)
            && c' == c.(ep := c.ep.(state := Established, lastAck := c.isn + 1, nextExp := isn + 1,
                                    recv := c'.ep.recv),
                        pc := Top, hs := |c.log| + 1, log := c.log + [reply])
  {
    RunInv(run, i);
    ReachesSynSent(run[i], q);
    reply := FinalAckPacket(ClientEstablish(run[i].client.ep, q));
  }

  /** In every run: whatever reaches a server in LISTEN anchors it, and is answered. */
  lemma ListenLaw(run: seq<System>, i: nat, q: Packet) returns (reply: Packet)
    requires IsRun(run) && i < |run| && run[i].server.pc == Handshake && run[i].server.ep.state == Listen
    requires q in run[i].client.log
    ensures run[i].server.ep.Ok()
    ensures var v, v', isn := run[i].server, Step(run[i].server, Deliver(q)), run[i].client.isn;
            && IsSynAck(reply, v.isn, isn) && Anchored(v.ep.recv, v'.ep.recv, isn)
            && v' == v.(ep := v.ep.(state := SynRcvd, nextExp := isn + 1, recv := v'.ep.recv), log := v.log + [reply])
  {
    RunInv(run, i);
    ReachesListen(run[i], q);
    reply := SynAckPacket(ServerListen(run[i].server.ep, q));
  }

  /** In every run: a SYN that reaches a server in SYN_RCVD is answered as the first one was, and any other packet
      completes the handshake. */
  lemma SynRcvdLaw(run: seq<System>, i: nat, q: Packet) returns (reply: Packet)
    requires IsRun(run) && i < |run| && run[i].server.pc == Handshake && run[i].server.ep.state == SynRcvd
    requires q in run[i].client.log
    ensures run[i].server.ep.Ok()
    ensures var v, v' := run[i].server, Step(run[i].server, Deliver(q));
            && IsSynAck(reply, v.isn, run[i].client.isn)
            && v' == if q.syn then v.(log := v.log + [reply])
                     else v.(ep := v.ep.(state := Established), pc := Acking(q, true), hs := |v.log|)
  {
    RunInv(run, i);
    ReachesSynRcvd(run[i], q);
    reply := SynAckPacket(run[i].server.ep);
  }

  // ---------------------------------------------------------------- data that completes the handshake

  /** The client is established and has sent all of `data`; the server still waits in SYN_RCVD. */
  lemma SendsBeforeAccepted(ci: nat, cm: seq<uint8>, si: nat, sm: seq<uint8>, data: seq<uint8>)
    returns (run: seq<System>, q: Packet)
    requires Capacity(cm) && Capacity(sm) && 1 <= |data| <= MSS && |data| < |cm|
    ensures Stands(run) && run[0] == System(InitialParty(Client, ci, cm), InitialParty(Server, si, sm))
    ensures var c, v := Last(run).client, Last(run).server;
            && c.isn == ci && c.wrote == data && c.ep.send.sent == ci + |data|
            && q in c.log && !q.syn && q.seqNum == ci + 1 && q.payload == data
            && v.pc == Handshake && v.ep.state == SynRcvd && Fresh(v.ep.recv, |sm|, ci) && v.got == []
  {
    var synAck;
    run, synAck := SynAckOnItsWay(ci, cm, si, sm);
    ReachesSynSent(Last(run), synAck);
    run := ClientGoes(run, Deliver(synAck));
    run, q := ClientSendsAll(run, data);
  }

  /** A client with nothing pending and an open window writes and sends one packet. */
  lemma ClientSendsAll(run: seq<System>, data: seq<uint8>) returns (run': seq<System>, q: Packet)
    requires Stands(run) && Witnesses.Ready(Last(run).client) && Last(run).client.wrote == []
    requires Last(run).client.ep.send.sent == Last(run).client.ep.send.acked == Last(run).client.isn
    requires 1 <= |data| <= MSS && |data| < Last(run).client.ep.send.cap && |data| <= Last(run).client.ep.window
    ensures Stands(run') && run <= run' && Last(run').server == Last(run).server
    ensures var c, c' := Last(run).client, Last(run').client;
            && c'.isn == c.isn && c'.wrote == data && c'.ep.send.sent == c.isn + |data|
            && q in c'.log && !q.syn && q.seqNum == c.isn + 1 && q.payload == data
  {
    var run1 := ClientWrites(run, data);
    var run2 := ClientPolls(run1);
    var run3 := ClientGoes(run2, NoData);
    var ep := Last(run3).client.ep;
    SendsOne(ep, data);
    q := DataPacket(ep, ep.send.sent + 1, data);
    assert q in Last(run3).client.log + [q];
    run' := ClientGoes(run3, Tick);
  }

  lemma ClientWrites(run: seq<System>, data: seq<uint8>) returns (run': seq<System>)
    requires Stands(run) && Witnesses.Ready(Last(run).client) && Last(run).client.wrote == []
    requires |data| < Last(run).client.ep.send.cap
    ensures Stands(run') && run <= run' && Last(run').server == Last(run).server
    ensures var c := Last(run).client;
            Last(run').client == c.(ep := c.ep.(send := c.ep.send.(pending := data)), wrote := data)
  {
    WriteLaw(run, |run| - 1, Client, data);
    run' := ClientGoes(run, Write(data));
    assert [] + data == data;
  }

  lemma SendsOne(ep: Endpoint, data: seq<uint8>)
    requires ep.Ok() && ep.send.pending == data && ep.send.sent == ep.send.acked
    requires 1 <= |data| <= MSS && |data| <= ep.window
    ensures SendFresh(ep) == (ep.(send := ep.send.(sent := ep.send.sent + |data|)),
                              [DataPacket(ep, ep.send.sent + 1, data)])
  {
    CutAll(data);
    assert FreshLen(ep) == |data|;
    PacketizeOne(ep, ep.send.sent + 1, data);
  }

  /** The client's third handshake packet may be lost: the first packet with data then completes the handshake,
      and its bytes are read. */
  lemma DataCompletesHandshake(ci: nat, cm: seq<uint8>, si: nat, sm: seq<uint8>, data: seq<uint8>)
    returns (run: seq<System>, i: nat, q: Packet)
    requires Capacity(cm) && Capacity(sm) && 1 <= |data| <= MSS && |data| < |cm| && |data| < |sm|
    ensures IsRun(run) && run[0] == System(InitialParty(Client, ci, cm), InitialParty(Server, si, sm))
    ensures i + 1 < |run| && run[i].server.pc == Handshake && run[i].server.ep.state == SynRcvd
    ensures q.payload == data && Enabled(run[i].server, Deliver(q), run[i].client.log)
    ensures run[i].server.ep.Ok() && run[i + 1].server == Step(run[i].server, Deliver(q))
    ensures run[i + 1].server.ep.state == Established && Last(run).server.got == data == Last(run).client.wrote
  {
    run, q := SendsBeforeAccepted(ci, cm, si, sm, data);
    i := |run| - 1;
    var run1 := DataLaw(run, i, Server, q);
    HasItAll(run[i].server, Last(run1).server, run[i].client, q);
    DeliveryLaw(run, i, Server, q);
    assert run1[i] == run[i] && Of(run1[i + 1], Server) == run1[i + 1].server;
    run := ReadsOut(run1, data);
  }

  lemma HasItAll(p: Party, p': Party, peer: Party, q: Packet)
    requires HandlesData(p, p', peer, q) && p.pc == Handshake
    requires p.ep.recv.next == p.ep.recv.read + 1 == q.seqNum && 1 <= |q.payload| < p.ep.recv.cap
    ensures p'.ep.state == Established && p'.Alive() && p'.got == p.got && q.seqNum + |q.payload| <= p'.ep.recv.next
  {
  }

  /** The server has all of it and its application reads it. */
  lemma ReadsOut(run: seq<System>, data: seq<uint8>) returns (run': seq<System>)
    requires IsRun(run) && Last(run).client.wrote == data && Last(run).server.got == []
    requires Last(run).server.ep.state == Established && Last(run).server.Alive()
    requires Last(run).client.isn + |data| < Last(run).server.ep.recv.next
    ensures IsRun(run') && run <= run' && Last(run').server.got == data == Last(run').client.wrote
  {
    RunInv(run, |run| - 1);
    var v := Last(run).server;
    ReadLaw(run, |run| - 1, Server, |data|);
    NextIsSent(v.ep.recv, v.got, Last(run).client.isn, data, Last(run).client.ep.send.sent);
    run' := Continuations.Goes(run, Server, Read(|data|));
  }
}
