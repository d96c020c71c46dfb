/** Every step keeps the invariant: the handshake. */
module HandshakeProofs {
  import opened CmuPacket
  import opened Endpoints
  import opened TwoParty
  import opened StepProofs

  lemma InitInv(s: System)
    requires Init(s)
    ensures Inv(s)
  {
  }

  function ClientSends(c: Party): Party {
    Emit(c.(ep := c.ep.(state := SynSent)), [SynPacket(c.ep)])
  }

  lemma ClientSyn(s: System)
    requires Inv(s) && s.client.pc == Handshake
    ensures Inv(s.(client := ClientSends(s.client)))
  {
  }

  /** A packet that reaches the client before it is established is the SYN-ACK for its SYN. */
  lemma ReachesSynSent(s: System, pkt: Packet)
    requires Inv(s) && s.client.pc == Handshake && s.client.ep.state == SynSent && pkt in s.server.log
    ensures ClientAsserts(s.client.ep, pkt) && pkt.seqNum == s.server.isn && s.server.ep.Initialized()
  {
    var c, v := s.client, s.server;
    assert FromServer(pkt, v.isn, c.isn, v.ep.state == Established);
    assert CarriesNoAck(pkt) || v.ep.Initialized();
  }

  function ClientMeets(c: Party, pkt: Packet): Party {
    var ep := ClientEstablish(c.ep, pkt);
    Emit(c.(ep := ep, pc := Top, hs := |c.log| + 1), [FinalAckPacket(ep)])
  }

  lemma MeetKeepsIn(c: Party, s: Party, pkt: Packet)
    requires Dir(s, c) && !c.ep.Initialized() && pkt.seqNum == s.isn
    ensures Dir(s, ClientMeets(c, pkt))
  {
    NoAcksYet(c.log, FinalAckPacket(ClientEstablish(c.ep, pkt)), s.isn, s.isn + 1);
  }

  /** The first acknowledgement in a log. */
  lemma NoAcksYet(log: seq<Packet>, p: Packet, isn: int, next: int)
    requires forall q {:trigger CarriesNoAck(q)} | q in log :: CarriesNoAck(q)
    requires AckOk(p, isn, next)
    ensures AcksOk(log + [p], isn, next)
  {
    forall q | q in log + [p]
      ensures AckOk(q, isn, next)
    {
      assert q in log ==> CarriesNoAck(q);
    }
  }

  lemma MeetKeepsHand(c: Party, s: Party, pkt: Packet)
    requires Hand(c, s) && s.ep.Initialized()
    ensures Hand(ClientMeets(c, pkt), s)
  {
    forall p | p in ClientMeets(c, pkt).log
      ensures FromClient(p, c.isn, true)
    {
      assert p in c.log ==> FromClient(p, c.isn, c.ep.state == Established);
    }
  }

  lemma ClientEstablishes(s: System, pkt: Packet)
    requires Inv(s) && s.client.pc == Handshake && s.client.ep.state == SynSent && pkt in s.server.log
    ensures Inv(s.(client := ClientMeets(s.client, pkt))) && ClientAsserts(s.client.ep, pkt)
  {
    var c, v := s.client, s.server;
    ReachesSynSent(s, pkt);
    MeetKeepsIn(c, v, pkt);
    MeetKeepsHand(c, v, pkt);
  }

  function ServerOpens(v: Party): Party {
    v.(ep := v.ep.(state := Listen))
  }

  lemma ServerListens(s: System)
    requires Inv(s) && s.server.pc == Handshake && s.server.ep.state == Closed
    ensures Inv(s.(server := ServerOpens(s.server)))
  {
  }

  /** A packet that reaches the server in LISTEN is a SYN. */
  lemma ReachesListen(s: System, pkt: Packet)
    requires Inv(s) && s.server.pc == Handshake && s.server.ep.state == Listen && pkt in s.client.log
    ensures ListenAsserts(s.server.ep, pkt) && pkt.seqNum == s.client.isn
  {
    assert FromClient(pkt, s.client.isn, s.client.ep.state == Established) && ShapedPacket(pkt);
  }

  function ServerMeets(v: Party, pkt: Packet): Party {
    var ep := ServerListen(v.ep, pkt);
    Emit(v.(ep := ep), [SynAckPacket(ep)])
  }

  lemma ListenKeepsIn(c: Party, v: Party, pkt: Packet)
    requires Dir(c, v) && !v.ep.Initialized() && pkt.seqNum == c.isn
    ensures Dir(c, ServerMeets(v, pkt))
  {
    NoAcksYet(v.log, SynAckPacket(ServerListen(v.ep, pkt)), c.isn, c.isn + 1);
  }

  lemma ServerReceivesSyn(s: System, pkt: Packet)
    requires Inv(s) && s.server.pc == Handshake && s.server.ep.state == Listen && pkt in s.client.log
    ensures Inv(s.(server := ServerMeets(s.server, pkt))) && ListenAsserts(s.server.ep, pkt)
  {
    var c, v := s.client, s.server;
    ReachesListen(s, pkt);
    ListenKeepsIn(c, v, pkt);
  }

  /** A packet that reaches the server in SYN_RCVD either repeats the SYN or acknowledges the server's
      initial number exactly, so the assert on the other branch holds. */
  lemma ReachesSynRcvd(s: System, pkt: Packet)
    requires Inv(s) && s.server.pc == Handshake && s.server.ep.state == SynRcvd && pkt in s.client.log
    ensures pkt.syn <==> !Completes(s.server.ep, pkt)
    ensures !pkt.syn ==>
      MessageAsserts(pkt) && !pkt.fin && pkt.ackNum == s.server.isn + 1 && s.client.ep.state == Established
  {
    var c, v := s.client, s.server;
    assert FromClient(pkt, c.isn, c.ep.state == Established) && ShapedPacket(pkt);
    if !pkt.syn {
      assert AckOk(pkt, v.isn, c.ep.recv.next);
      NextIsSent(c.ep.recv, c.got, v.isn, v.wrote, v.ep.send.sent);
    }
  }

  function ServerRepeats(v: Party): Party {
    Emit(v, [SynAckPacket(v.ep)])
  }

  lemma ServerResends(s: System)
    requires Inv(s) && s.server.pc == Handshake && s.server.ep.state == SynRcvd
    ensures Inv(s.(server := ServerRepeats(s.server)))
  {
  }

  function ServerCompletes(v: Party, pkt: Packet): Party {
    v.(ep := v.ep.(state := Established), pc := Acking(pkt, true), hs := |v.log|)
  }

  lemma CompleteKeepsHand(c: Party, v: Party, pkt: Packet)
    requires Hand(c, v) && c.ep.state == Established
    ensures Hand(c, ServerCompletes(v, pkt))
  {
    forall p | p in v.log
      ensures FromServer(p, v.isn, c.isn, true)
    {
      assert FromServer(p, v.isn, c.isn, v.ep.state == Established);
    }
  }

  lemma ServerEstablishes(s: System, pkt: Packet)
    requires Inv(s) && s.server.pc == Handshake && s.server.ep.state == SynRcvd && pkt in s.client.log && !pkt.syn
    ensures Inv(s.(server := ServerCompletes(s.server, pkt)))
  {
    var c, v := s.client, s.server;
    ReachesSynRcvd(s, pkt);
    CompleteKeepsHand(c, v, pkt);
  }
}
