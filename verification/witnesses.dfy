/** Runs that exist: the bytes that arrive, and the failures that do happen. */
module Witnesses {
  import opened Types
  import opened CmuPacket
  import opened Segments
  import opened Reassembler
  import opened Endpoints
  import opened TwoParty
  import opened StepProofs
  import opened HandshakeProofs
  import opened Theorems
  import opened AsWritten
  import opened Windows

  /** A run, and the invariant where it stands. */
  ghost predicate Stands(run: seq<System>) {
    IsRun(run) && Inv(Last(run))
  }

  lemma ClientGoes(run: seq<System>, a: Action) returns (run': seq<System>)
    requires Stands(run) && Enabled(Last(run).client, a, Last(run).server.log)
    ensures Stands(run') && |run'| == |run| + 1 && run <= run' && Last(run').server == Last(run).server
    ensures Last(run).client.ep.Ok() && Last(run').client == Step(Last(run).client, a)
  {
    var s := Last(run);
    ClientStepInv(s, a);
    Extends(run, s.(client := Step(s.client, a)));
    run' := run + [s.(client := Step(s.client, a))];
  }

  lemma ServerGoes(run: seq<System>, a: Action) returns (run': seq<System>)
    requires Stands(run) && Enabled(Last(run).server, a, Last(run).client.log)
    ensures Stands(run') && |run'| == |run| + 1 && run <= run' && Last(run').client == Last(run).client
    ensures Last(run).server.ep.Ok() && Last(run').server == Step(Last(run).server, a)
  {
    var s := Last(run);
    ServerStepInv(s, a);
    Extends(run, s.(server := Step(s.server, a)));
    run' := run + [s.(server := Step(s.server, a))];
  }

  // ---------------------------------------------------------------- the handshake

  ghost predicate Capacity(memory: seq<uint8>) {
    MIN_CAPACITY <= |memory| <= MAX_CAPACITY
  }

  /** A receive buffer that is anchored and has taken nothing in. */
  ghost predicate Fresh(v: RecvView, cap: int, isn: int) {
    v.cap == cap && v.read == isn && v.next == isn + 1 && v.segs == []
  }

  /** The client in SYN_SENT, the SYN-ACK on its way. */
  lemma SynAckOnItsWay(ci: nat, cm: seq<uint8>, si: nat, sm: seq<uint8>)
    returns (run: seq<System>, synAck: Packet)
    requires Capacity(cm) && Capacity(sm)
    ensures Stands(run) && run[0] == System(InitialParty(Client, ci, cm), InitialParty(Server, si, sm))
    ensures var c, v := Last(run).client, Last(run).server;
            && synAck in v.log && synAck.syn
            && c == InitialParty(Client, ci, cm).(ep := Initial(ci, cm).(state := SynSent), log := c.log)
            && v.pc == Handshake && v.ep.state == SynRcvd && !v.ep.dying
            && Fresh(v.ep.recv, |sm|, ci) && v.ep.send == Initial(si, sm).send
            && v.wrote == [] && v.got == []
  {
    var s := System(InitialParty(Client, ci, cm), InitialParty(Server, si, sm));
    assert Init(s);
    InitInv(s);
    run := [s];
    run := ServerGoes(run, Start);
    run := ClientGoes(run, Start);
    var syn := SynPacket(Last(run).client.ep);
    ReachesListen(Last(run), syn);
    run := ServerGoes(run, Deliver(syn));
    synAck := SynAckPacket(Last(run).server.ep);
  }

  /** From the top of its loop to the poll. */
  lemma ClientPolls(run: seq<System>) returns (run': seq<System>)
    requires Stands(run) && Last(run).client.pc == Top && !Last(run).client.ep.dying
    ensures Stands(run') && |run'| == |run| + 2 && run <= run'
    ensures Last(run') == Last(run).(client := Last(run).client.(pc := Poll))
  {
    run' := ClientGoes(run, Tick);
    run' := ClientGoes(run', Tick);
  }

  lemma ServerPolls(run: seq<System>) returns (run': seq<System>)
    requires Stands(run) && Last(run).server.pc == Top && !Last(run).server.ep.dying
    ensures Stands(run') && run <= run'
    ensures Last(run') == Last(run).(server := Last(run).server.(pc := Poll))
  {
    run' := ServerGoes(run, Tick);
    run' := ServerGoes(run', Tick);
  }

  /** Such a delivery does occur: the SYN-ACK that established the client at step i arrives again, as the last
      step of the run, and aborts it. */
  lemma LateSynAbortsARun() returns (run: seq<System>, i: nat, synAck: Packet)
    ensures IsRun(run) && i + 2 < |run| && synAck.syn && synAck.ack
    ensures run[i].client.ep.Ok() && Enabled(run[i].client, Deliver(synAck), run[i].server.log)
    ensures run[i].client.ep.state == SynSent && run[i + 1].client == Step(run[i].client, Deliver(synAck))
    ensures var s := run[|run| - 2];
            && s.client.ep.Ok() && Enabled(s.client, Deliver(synAck), s.server.log)
            && s.client.ep.state == Established && !s.client.pc.Aborted?
            && Last(run) == s.(client := Step(s.client, Deliver(synAck))) && Last(run).client.pc.Aborted?
  {
    run, synAck := SynAckOnItsWay(0, [0, 0], 0, [0, 0]);
    ReachesSynSent(Last(run), synAck);
    i := |run| - 1;
    run := ClientGoes(run, Deliver(synAck));
    run := ClientPolls(run);
    run := ClientGoes(run, Deliver(synAck));
  }

  /** Established, at the top of the loop, with everything written acknowledged. */
  ghost predicate Ready(p: Party) {
    p.ep.state == Established && p.pc == Top && !p.ep.dying && p.ep.send.pending == []
  }

  /** The handshake completes. */
  lemma Connects(ci: nat, cm: seq<uint8>, si: nat, sm: seq<uint8>) returns (run: seq<System>)
    requires Capacity(cm) && Capacity(sm)
    ensures Stands(run) && run[0] == System(InitialParty(Client, ci, cm), InitialParty(Server, si, sm))
    ensures Ready(Last(run).client) && Ready(Last(run).server)
    ensures Last(run).client.ep.window == CP1_WINDOW_SIZE
    ensures Last(run).client.wrote == [] && Last(run).server.got == [] && Last(run).server.wrote == []
    ensures Last(run).client.isn == ci && Fresh(Last(run).server.ep.recv, |sm|, ci)
    ensures Last(run).client.ep.send.cap == |cm| && Last(run).client.ep.send.sent == ci
    ensures Last(run).client.ep.send.acked == ci
  {
    var synAck;
    run, synAck := SynAckOnItsWay(ci, cm, si, sm);
    ReachesSynSent(Last(run), synAck);
    run := ClientGoes(run, Deliver(synAck));
    var ack := FinalAckPacket(Last(run).client.ep);
    run := ServerCompletesOn(run, ack);
  }

  lemma ServerCompletesOn(run: seq<System>, ack: Packet) returns (run': seq<System>)
    requires Stands(run) && Last(run).server.pc == Handshake && Last(run).server.ep.state == SynRcvd
    requires ack in Last(run).client.log && !ack.syn && ack.payload == []
    ensures Stands(run') && run <= run' && Last(run').client == Last(run).client
    ensures var v, v' := Last(run).server, Last(run').server;
            && v'.pc == Top && v'.ep.state == Established && v'.ep.dying == v.ep.dying
            && v'.ep.send == v.ep.send && v'.ep.recv == v.ep.recv && v'.wrote == v.wrote && v'.got == v.got
  {
    ReachesSynRcvd(Last(run), ack);
    run' := ServerGoes(run, Deliver(ack));
    AcksAreInRange(Last(run').server, Last(run').client, ack);
    run' := ServerGoes(run', Tick);
  }

  // ---------------------------------------------------------------- one byte over and back

  lemma WritesByte(ep: Endpoint, b: uint8)
    requires ep.Ok() && ep.send.pending == []
    ensures WriteLen(ep, [b]) == 1 && AppWrite(ep, [b]) == ep.(send := ep.send.(pending := [b]))
  {
    assert [b][..1] == [b] && ep.send.pending + [b] == [b];
  }

  lemma SendsByte(ep: Endpoint, b: uint8)
    requires ep.Ok() && ep.send.pending == [b] && ep.send.sent == ep.send.acked && 0 < ep.window
    ensures SendFresh(ep) == (ep.(send := ep.send.(sent := ep.send.sent + 1)),
                              [DataPacket(ep, ep.send.sent + 1, [b])])
  {
    assert FreshLen(ep) == 1 && ep.send.Bytes(ep.send.sent + 1, 1) == [b];
    PacketizeOne(ep, ep.send.sent + 1, [b]);
  }

  lemma SendsNothing(ep: Endpoint)
    requires ep.Ok() && (ep.send.Fresh() == 0 || ep.window <= ep.send.Unacked())
    ensures SendFresh(ep) == (ep, [])
  {
    assert FreshLen(ep) == 0;
  }

  lemma ClientWritesByte(run: seq<System>, b: uint8) returns (run': seq<System>)
    requires Stands(run) && Ready(Last(run).client)
    ensures Stands(run') && run <= run' && Last(run').server == Last(run).server
    ensures var c := Last(run).client;
            Last(run').client == c.(ep := c.ep.(send := c.ep.send.(pending := [b])), wrote := c.wrote + [b])
  {
    WritesByte(Last(run).client.ep, b);
    assert [b][..1] == [b];
    run' := ClientGoes(run, Write([b]));
  }

  lemma ClientSendsPending(run: seq<System>, b: uint8) returns (run': seq<System>, pkt: Packet)
    requires Stands(run) && Last(run).client.pc == Top && !Last(run).client.ep.dying
    requires Last(run).client.ep.send.pending == [b] && Last(run).client.ep.send.sent == Last(run).client.ep.send.acked
    requires 0 < Last(run).client.ep.window
    ensures Stands(run') && run <= run' && Last(run').server == Last(run).server
    ensures pkt == DataPacket(Last(run).client.ep, Last(run).client.ep.send.sent + 1, [b])
    ensures var c := Last(run).client;
            Last(run').client == c.(ep := c.ep.(send := c.ep.send.(sent := c.ep.send.sent + 1)), log := c.log + [pkt])
  {
    var ep := Last(run).client.ep;
    run' := ClientPolls(run);
    run' := ClientGoes(run', NoData);
    SendsByte(ep, b);
    pkt := DataPacket(ep, ep.send.sent + 1, [b]);
    run' := ClientGoes(run', Tick);
  }

  /** The client writes one byte and sends it. */
  lemma ClientSendsByte(run: seq<System>, b: uint8) returns (run': seq<System>, pkt: Packet)
    requires Stands(run) && Ready(Last(run).client) && 0 < Last(run).client.ep.window
    ensures Stands(run') && run <= run' && Last(run').server == Last(run).server
    ensures pkt == DataPacket(Last(run).client.ep, Last(run).client.ep.send.sent + 1, [b])
    ensures var c := Last(run).client;
            Last(run').client == c.(ep := c.ep.(send := c.ep.send.(sent := c.ep.send.sent + 1, pending := [b])),
                                    wrote := c.wrote + [b], log := c.log + [pkt])
  {
    run' := ClientWritesByte(run, b);
    run', pkt := ClientSendsPending(run', b);
  }

  /** With nothing in flight an acknowledgement only brings a window. */
  lemma QuietAck(ep: Endpoint, pkt: Packet)
    requires ep.Ok() && ep.send.pending == [] && AckInRange(ep, pkt) && pkt.ackNum <= ep.send.sent + 1
    requires ep.lastAck == ep.send.acked + 1
    ensures AckSection(ep, pkt) == ep.(window := pkt.window)
  {
  }

  lemma TakesByte(v: RecvView, pkt: Packet)
    requires v.Ok() && |pkt.payload| == 1 && pkt.seqNum == v.next && 0 < v.MaxReceive()
    ensures v.next < Take(v, pkt).next && Take(v, pkt).read == v.read && Take(v, pkt).cap == v.cap
  {
    TakeOk(v, pkt);
    CheckIs(v, pkt.seqNum, 1);
    ReceiveMoves(v, pkt.seqNum, pkt.payload);
  }

  /** The server takes a packet in, up to the reply it owes. */
  lemma ServerTakes(run: seq<System>, pkt: Packet) returns (run': seq<System>)
    requires Stands(run) && Ready(Last(run).server) && pkt in Last(run).client.log
    requires !pkt.syn && !pkt.fin && pkt.ack && pkt.payload != []
    ensures Stands(run') && run <= run' && Last(run').client == Last(run).client
    ensures var v, v' := Last(run).server, Last(run').server;
            && v.ep.recv.Ok()
            && v'.ep == v.ep.(window := pkt.window, recv := Take(v.ep.recv, pkt), nextExp := Take(v.ep.recv, pkt).next)
            && v' == v.(ep := v'.ep, pc := Replying(false), accepted := v'.accepted)
  {
    run' := ServerPolls(run);
    run' := ServerGoes(run', Deliver(pkt));
    var v := Last(run').server;
    AcksAreInRange(v, Last(run').client, pkt);
    QuietAck(v.ep, pkt);
    run' := ServerGoes(run', Tick);
    run' := ServerGoes(run', Tick);
  }

  /** The server takes the last byte sent in. */
  lemma ServerTakesByte(run: seq<System>, pkt: Packet) returns (run': seq<System>)
    requires Stands(run) && Ready(Last(run).server) && pkt in Last(run).client.log
    requires !pkt.syn && !pkt.fin && pkt.ack && |pkt.payload| == 1
    requires pkt.seqNum == Last(run).server.ep.recv.next == Last(run).client.ep.send.sent
    requires 0 < Last(run).server.ep.recv.MaxReceive()
    ensures Stands(run') && run <= run' && Last(run').client == Last(run).client
    ensures var v, v' := Last(run).server, Last(run').server;
            && v'.ep == v.ep.(window := v'.ep.window, recv := v'.ep.recv, nextExp := v'.ep.recv.next)
            && v'.ep.recv.cap == v.ep.recv.cap && v'.ep.recv.read == v.ep.recv.read
            && v'.ep.recv.next == v.ep.recv.next + 1
            && v' == v.(ep := v'.ep, pc := Replying(false), accepted := v'.accepted)
  {
    run' := ServerTakes(run, pkt);
    TakesByte(Last(run).server.ep.recv, pkt);
    var w := Last(run').server;
    NextIsSent(w.ep.recv, w.got, Last(run').client.isn, Last(run').client.wrote, Last(run').client.ep.send.sent);
  }

  /** The server's application reads the byte. */
  lemma ServerReadsByte(run: seq<System>) returns (run': seq<System>)
    requires Stands(run) && Last(run).server.ep.state == Established && Last(run).server.pc == Replying(false)
    requires Last(run).server.ep.recv.MaxRead() == 1
    ensures Stands(run') && run <= run' && Last(run').client == Last(run).client
    ensures var v, v' := Last(run).server, Last(run').server;
            && |v'.got| == |v.got| + 1
            && v'.ep.recv.read == v.ep.recv.read + 1 && v'.ep.recv.next == v.ep.recv.next
            && v'.ep.recv.cap == v.ep.recv.cap
            && v' == v.(ep := v.ep.(recv := v'.ep.recv), got := v'.got)
  {
    run' := ServerGoes(run, Read(1));
  }

  /** The server replies and finds nothing to send. */
  lemma ServerReplies(run: seq<System>) returns (run': seq<System>, reply: Packet)
    requires Stands(run) && Last(run).server.ep.state == Established && Last(run).server.pc == Replying(false)
    requires Last(run).server.ep.send.pending == []
    ensures Stands(run') && run <= run' && Last(run').client == Last(run).client
    ensures reply == ReplyPacket(Last(run).server.ep)
    ensures var v := Last(run).server;
            Last(run').server == v.(pc := Top, log := v.log + [reply])
  {
    reply := ReplyPacket(Last(run).server.ep);
    run' := ServerGoes(run, Tick);
    SendsNothing(Last(run').server.ep);
    assert Last(run').server.log + [] == Last(run').server.log;
    run' := ServerGoes(run', Tick);
  }

  /** The client handles a pure acknowledgement. */
  lemma ClientHears(run: seq<System>, reply: Packet) returns (run': seq<System>)
    requires Stands(run) && Last(run).client.ep.state == Established && Last(run).client.pc == Top
    requires !Last(run).client.ep.dying && reply in Last(run).server.log
    requires reply.ack && !reply.syn && !reply.fin && reply.payload == []
    ensures Stands(run') && run <= run' && Last(run').server == Last(run).server
    ensures var c := Last(run).client;
            && c.ep.Ok() && AckInRange(c.ep, reply)
            && Last(run').client == c.(ep := AckSection(c.ep, reply), pc := Sending)
  {
    AcksAreInRange(Last(run).client, Last(run).server, reply);
    run' := ClientPolls(run);
    run' := ClientGoes(run', Deliver(reply));
    run' := ClientGoes(run', Tick);
  }

  lemma ClientRests(run: seq<System>) returns (run': seq<System>)
    requires Stands(run) && Last(run).client.pc == Sending && Last(run).client.ep.send.pending == []
    ensures Stands(run') && run <= run'
    ensures Last(run') == Last(run).(client := Last(run).client.(pc := Top))
  {
    SendsNothing(Last(run).client.ep);
    assert Last(run).client.log + [] == Last(run).client.log;
    run' := ClientGoes(run, Tick);
  }

  /** An acknowledgement of the one byte in flight. */
  lemma ByteAcked(ep: Endpoint, b: uint8, reply: Packet)
    requires ep.Ok() && ep.send.pending == [b] && ep.send.sent == ep.send.acked + 1 && AckInRange(ep, reply)
    requires ep.lastAck == ep.send.acked + 1 && reply.ackNum == ep.send.sent + 1
    ensures AckSection(ep, reply).send == ep.send.(acked := ep.send.sent, pending := [])
    ensures AckSection(ep, reply).window == reply.window
  {
    assert Cut([b], 1, 0) == [];
  }

  /** Everything sent has been taken in, and everything taken in has been read. */
  ghost predicate Level(c: Party, v: Party) {
    Ready(c) && Ready(v) && v.ep.recv.MaxRead() == 0 && v.ep.recv.next == c.ep.send.sent + 1
  }

  /** One byte goes over and is replied to; the server's application reads it before the reply, or not. */
  lemma ByteGoesOver(run: seq<System>, b: uint8, isRead: bool) returns (run': seq<System>, reply: Packet)
    requires Stands(run) && Level(Last(run).client, Last(run).server) && 0 < Last(run).client.ep.window
    ensures Stands(run') && run <= run'
    ensures var c, v := Last(run).client, Last(run).server;
            var c', v' := Last(run').client, Last(run').server;
            && c' == c.(ep := c.ep.(send := c.ep.send.(sent := c.ep.send.sent + 1, pending := [b])),
                        wrote := c.wrote + [b], log := c'.log)
            && Ready(v') && v.log <= v'.log && reply in v'.log && reply == ReplyPacket(v'.ep)
            && v'.ep.recv.cap == v.ep.recv.cap && v'.ep.nextExp == v'.ep.recv.next == v.ep.recv.next + 1
            && (if isRead then |v'.got| == |v.got| + 1 && v'.ep.recv.read == v.ep.recv.read + 1
                else v'.got == v.got && v'.ep.recv.read == v.ep.recv.read)
  {
    var pkt;
    run', pkt := ClientSendsByte(run, b);
    run' := ServerTakesByte(run', pkt);
    if isRead {
      run' := ServerReadsByte(run');
    }
    run', reply := ServerReplies(run');
  }

  /** The acknowledgement of that byte comes back. */
  lemma ReplyComesBack(run: seq<System>, b: uint8, reply: Packet) returns (run': seq<System>)
    requires Stands(run) && reply in Last(run).server.log && reply == ReplyPacket(Last(run).server.ep)
    requires Last(run).client.ep.state == Established && Last(run).client.pc == Top && !Last(run).client.ep.dying
    requires Last(run).client.ep.send.pending == [b]
    requires Last(run).client.ep.send.sent == Last(run).client.ep.send.acked + 1
    requires reply.ackNum == Last(run).client.ep.send.sent + 1
    ensures Stands(run') && run <= run' && Last(run').server == Last(run).server
    ensures var c, c' := Last(run).client, Last(run').client;
            && Ready(c') && c'.isn == c.isn && c'.wrote == c.wrote && c'.ep.send.cap == c.ep.send.cap
            && c'.ep.send.sent == c.ep.send.sent && c'.ep.window == reply.window
  {
    ghost var c := Last(run).client;
    run' := ClientHears(run, reply);
    ByteAcked(c.ep, b, reply);
    run' := ClientRests(run');
  }

  /** Both together. */
  lemma RoundTrip(run: seq<System>, b: uint8, isRead: bool) returns (run': seq<System>, reply: Packet)
    requires Stands(run) && Level(Last(run).client, Last(run).server) && 0 < Last(run).client.ep.window
    ensures Stands(run') && run <= run'
    ensures var c, v := Last(run).client, Last(run).server;
            var c', v' := Last(run').client, Last(run').server;
            && Ready(c') && Ready(v') && c'.isn == c.isn && c'.ep.send.cap == c.ep.send.cap
            && c'.wrote == c.wrote + [b] && c'.ep.send.sent == c.ep.send.sent + 1
            && v'.ep.recv.cap == v.ep.recv.cap && v'.ep.recv.next == c'.ep.send.sent + 1
            && (if isRead then |v'.got| == |v.got| + 1 && v'.ep.recv.read == v.ep.recv.read + 1
                else v'.got == v.got && v'.ep.recv.read == v.ep.recv.read)
            && c'.ep.window == v'.ep.recv.MaxReceive() && v.log <= v'.log
            && reply in v'.log && reply == ReplyPacket(v'.ep) && v'.ep.nextExp == v'.ep.recv.next
  {
    run', reply := ByteGoesOver(run, b, isRead);
    run' := ReplyComesBack(run', b, reply);
  }

  // ---------------------------------------------------------------- bytes arrive

  /** All of `data` has gone over, and the window is open. */
  ghost predicate Arrived(s: System, data: seq<uint8>) {
    && Level(s.client, s.server) && s.client.wrote == data && s.server.got == data
    && 0 < s.client.ep.window
  }

  lemma ByteArrives(run: seq<System>, data: seq<uint8>, b: uint8) returns (run': seq<System>)
    requires Stands(run) && Arrived(Last(run), data)
    ensures Stands(run') && run <= run' && Arrived(Last(run'), data + [b])
  {
    var reply;
    run', reply := RoundTrip(run, b, true);
    var s := Last(run');
    assert s.server.got == s.client.wrote[..|s.server.got|];
  }

  lemma {:induction false} RestArrives(run: seq<System>, data: seq<uint8>, rest: seq<uint8>)
    returns (run': seq<System>)
    requires Stands(run) && Arrived(Last(run), data)
    ensures Stands(run') && run <= run' && Arrived(Last(run'), data + rest)
    decreases |rest|
  {
    if rest == [] {
      assert data + rest == data;
      run' := run;
    } else {
      run' := ByteArrives(run, data, rest[0]);
      assert data + [rest[0]] + rest[1..] == data + rest;
      run' := RestArrives(run', data + [rest[0]], rest[1..]);
    }
  }

  lemma ClientCloses(run: seq<System>) returns (run': seq<System>)
    requires Stands(run) && Ready(Last(run).client)
    ensures Stands(run') && run <= run' && Last(run').server == Last(run).server
    ensures Last(run').client.pc.Exited? && Last(run').client.wrote == Last(run).client.wrote
  {
    run' := ClientGoes(run, Close);
    run' := ClientGoes(run', Tick);
    run' := ClientGoes(run', Tick);
  }

  /** Any stream can be delivered whole and the connection closed, whatever the capacities and the initial
      numbers. The copies out of the send ring are right as the source writes them exactly when the stream is
      shorter than the client's capacity. */
  lemma EveryStreamCanArrive(ci: nat, cm: seq<uint8>, si: nat, sm: seq<uint8>, data: seq<uint8>)
    returns (run: seq<System>)
    requires Capacity(cm) && Capacity(sm)
    ensures IsRun(run) && run[0] == System(InitialParty(Client, ci, cm), InitialParty(Server, si, sm))
    ensures Last(run).client.wrote == data && Last(run).server.got == data && Last(run).client.pc.Exited?
    ensures StraightUpTo(run, Client, |run| - 1) <==> |data| < |cm|
  {
    run := Connects(ci, cm, si, sm);
    run := RestArrives(run, [], data);
    assert [] + data == data;
    run := ClientCloses(run);
    WholeStreamStraightIff(run, Client, |run| - 1);
    HistoriesGrow(run, 0, |run| - 1);
  }

  // ---------------------------------------------------------------- delivery may stall

  /** Between two sections that wait for nothing but the loop itself. */
  ghost predicate Idle(p: Party) {
    p.pc.Top? || p.pc.Check? || p.pc.Poll? || p.pc.Sending? || p.pc.Exited?
  }

  /** The client has bytes to send, a zero window and nothing in flight; the server has nothing to send. */
  ghost predicate Stalled(s: System) {
    && s.client.ep.state == Established && Idle(s.client) && s.client.ep.send.Ok()
    && s.client.ep.window == 0 && s.client.ep.send.Unacked() == 0 && 0 < s.client.ep.send.Fresh()
    && s.server.ep.state == Established && Idle(s.server) && s.server.ep.send.Ok() && s.server.ep.send.pending == []
  }

  /** A step that delivers nothing, and in which the server's application writes nothing. */
  ghost predicate QuietNext(s: System, s': System) {
    || (exists a :: Enabled(s.client, a, s.server.log) && s.client.ep.Ok() && !a.Deliver?
                    && s' == s.(client := Step(s.client, a)))
    || (exists a :: Enabled(s.server, a, s.client.log) && s.server.ep.Ok() && !a.Deliver? && !a.Write?
                    && s' == s.(server := Step(s.server, a)))
  }

  /** With nothing in flight and something to send, sending waits exactly on the window. */
  lemma SendsIffOpen(ep: Endpoint)
    requires ep.Ok() && ep.send.Unacked() == 0 && 0 < ep.send.Fresh()
    ensures SendFresh(ep).1 != [] <==> 0 < ep.window
  {
    if ep.window == 0 {
      SendsNothing(ep);
    }
  }

  /** A sender with pending bytes can emit data, by a retransmission or a fresh send, exactly when something is
      in flight or the window is open. */
  lemma EmitsIff(ep: Endpoint)
    requires ep.Ok() && ep.send.pending != []
    ensures (0 < ep.send.Unacked() && Payloads(Resend(ep)) != []) || Payloads(SendFresh(ep).1) != []
       <==> 0 < ep.send.Unacked() || 0 < ep.window
  {
    SendFreshIs(ep);
    if 0 < ep.send.Unacked() {
      ResendIs(ep);
    }
  }

  /** What a step other than a delivery does to a process that has nothing in flight and may not send. */
  lemma QuietStep(p: Party, a: Action, net: seq<Packet>)
    requires p.ep.state == Established && p.ep.Ok() && Idle(p) && Enabled(p, a, net) && !a.Deliver?
    requires p.ep.send.Unacked() == 0 && (p.ep.window == 0 || p.ep.send.Fresh() == 0)
    ensures var p' := Step(p, a);
            && Idle(p') && p'.log == p.log && p'.ep.state == Established && p'.ep.window == p.ep.window
            && p'.ep.send.Ok() && p'.ep.send.acked == p.ep.send.acked && p'.ep.send.sent == p.ep.send.sent
            && p.ep.send.pending <= p'.ep.send.pending && (!a.Write? ==> p'.ep.send == p.ep.send)
  {
    if a.Tick? && p.pc.Sending? {
      SendsNothing(p.ep);
    }
  }

  ghost predicate QuietAt(run: seq<System>, i: nat)
    requires i + 1 < |run|
  {
    QuietNext(run[i], run[i + 1])
  }

  lemma StalledOnce(s: System, s': System)
    requires Stalled(s) && QuietNext(s, s')
    ensures Stalled(s') && s'.client.log == s.client.log && s'.server.log == s.server.log
  {
    if a :| Enabled(s.client, a, s.server.log) && s.client.ep.Ok() && !a.Deliver?
            && s' == s.(client := Step(s.client, a)) {
      QuietStep(s.client, a, s.server.log);
    } else {
      var a :| Enabled(s.server, a, s.client.log) && s.server.ep.Ok() && !a.Deliver? && !a.Write?
               && s' == s.(server := Step(s.server, a));
      QuietStep(s.server, a, s.client.log);
    }
  }

  /** Once stalled, nobody sends anything again, even if the receiver's application reads its buffer empty:
      only a packet sent earlier could still change that. */
  lemma {:induction false} StalledStays(run: seq<System>, i: nat, j: nat)
    requires i <= j < |run| && Stalled(run[i])
    requires forall m {:trigger QuietAt(run, m)} | i <= m < j :: QuietAt(run, m)
    ensures Stalled(run[j])
    ensures run[j].client.log == run[i].client.log && run[j].server.log == run[i].server.log
    decreases j - i
  {
    if i < j {
      StalledStays(run, i, j - 1);
      assert QuietAt(run, j - 1);
      StalledOnce(run[j - 1], run[j]);
    }
  }

  /** A run that stalls: one byte fills a receiver of capacity two, and the application is slow to read. */
  lemma DeliveryStalls() returns (run: seq<System>)
    ensures IsRun(run) && Stalled(Last(run))
  {
    run := Connects(0, [0, 0], 0, [0, 0]);
    var reply;
    run, reply := RoundTrip(run, 7, false);
    run := ClientWritesByte(run, 8);
  }

  // ---------------------------------------------------------------- more in flight than fits

  lemma ClientSendsTwo(run: seq<System>, data: seq<uint8>) returns (run': seq<System>)
    requires Stands(run) && Last(run).client.ep.state == Established && Last(run).client.pc == Sending
    requires !Last(run).client.ep.dying && Last(run).client.ep.send.pending == [] && |data| == 2
    requires 2 <= Last(run).client.ep.window && 2 < Last(run).client.ep.send.cap
    ensures Stands(run') && run <= run' && Last(run').server == Last(run).server
    ensures Last(run').client.ep.send.sent == Last(run).client.ep.send.sent + 2
    ensures Last(run').client.ep.window == Last(run).client.ep.window
  {
    run' := ClientGoes(run, Write(data));
    run' := ClientGoes(run', Tick);
  }

  /** A run in which more is in flight than the receiver has room for: an old reply, repeated by the network,
      brings back the window of a moment when more had been read. */
  lemma StaleWindowOverruns() returns (run: seq<System>)
    ensures IsRun(run)
    ensures var c, v := Last(run).client, Last(run).server;
            v.ep.Initialized() && v.ep.recv.read + v.ep.recv.cap - 1 < c.ep.send.sent
  {
    run := Connects(0, [0, 0, 0], 0, [0, 0, 0]);
    var stale, reply;
    run, stale := RoundTrip(run, 7, true);
    run, reply := RoundTrip(run, 8, false);
    run := ClientHears(run, stale);
    run := ClientSendsTwo(run, [9, 10]);
  }

  /** Nothing stale is needed: the constant of the handshake alone overreaches every receiver of no more than
      that capacity. */
  lemma HandshakeWindowOverruns() returns (run: seq<System>)
    ensures IsRun(run) && Last(run).client.ep.window == CP1_WINDOW_SIZE
    ensures var c, v := Last(run).client, Last(run).server;
            v.ep.Initialized() && Room(v) <= c.ep.send.sent
  {
    run := Connects(0, [0, 0, 0], 0, [0, 0]);
    run := ClientPolls(run);
    run := ClientGoes(run, NoData);
    run := ClientSendsTwo(run, [7, 8]);
  }

  /** Right after the handshake the client overreaches exactly a receiver of at most that capacity. */
  lemma HandshakeOverreachesIff(ci: nat, cm: seq<uint8>, si: nat, sm: seq<uint8>) returns (run: seq<System>)
    requires Capacity(cm) && Capacity(sm)
    ensures IsRun(run) && run[0] == System(InitialParty(Client, ci, cm), InitialParty(Server, si, sm))
    ensures Last(run).client.ep.state == Established && Last(run).server.ep.state == Established
    ensures Overreaches(Last(run).client, Last(run).server) <==> |sm| <= CP1_WINDOW_SIZE
  {
    run := Connects(ci, cm, si, sm);
  }

  // ---------------------------------------------------------------- acknowledgements that lag

  lemma SendsNextByte(ep: Endpoint, a: uint8, b: uint8)
    requires ep.Ok() && ep.send.pending == [a, b] && ep.send.sent == ep.send.acked + 1 && 1 < ep.window
    ensures SendFresh(ep) == (ep.(send := ep.send.(sent := ep.send.sent + 1)),
                              [DataPacket(ep, ep.send.sent + 1, [b])])
  {
    assert FreshLen(ep) == 1 && ep.send.Bytes(ep.send.sent + 1, 1) == [b];
    PacketizeOne(ep, ep.send.sent + 1, [b]);
  }

  /** The client sends a second byte while the first is in flight. */
  lemma ClientSendsSecond(run: seq<System>, a: uint8, b: uint8) returns (run': seq<System>, pkt: Packet)
    requires Stands(run) && Last(run).client.ep.state == Established && Last(run).client.pc == Top
    requires !Last(run).client.ep.dying && Last(run).client.ep.send.pending == [a]
    requires Last(run).client.ep.send.sent == Last(run).client.ep.send.acked + 1
    requires 1 < Last(run).client.ep.window && 3 < Last(run).client.ep.send.cap
    ensures Stands(run') && run <= run' && Last(run').server == Last(run).server
    ensures pkt == DataPacket(Last(run).client.ep, Last(run).client.ep.send.sent + 1, [b])
    ensures pkt in Last(run').client.log && Last(run).client.log <= Last(run').client.log
    ensures Last(run').client.ep.send.sent == Last(run).client.ep.send.sent + 1
  {
    var ep := Last(run).client.ep;
    assert [b][..1] == [b] && ep.send.pending + [b] == [a, b];
    run' := ClientGoes(run, Write([b]));
    var ep' := Last(run').client.ep;
    assert ep' == ep.(send := ep.send.(pending := [a, b]));
    run' := ClientPolls(run');
    run' := ClientGoes(run', NoData);
    SendsNextByte(ep', a, b);
    pkt := DataPacket(ep', ep'.send.sent + 1, [b]);
    run' := ClientGoes(run', Tick);
  }

  /** Two adjacent bytes that swap places leave the later one held but not acknowledged. */
  lemma SwapLeavesNoGap(v: RecvView, first: Packet, second: Packet)
    requires v.Ok() && v.segs == [] && 2 <= v.MaxReceive()
    requires |first.payload| == 1 && first.seqNum == v.next
    requires |second.payload| == 1 && second.seqNum == v.next + 1
    ensures Take(v, second).Ok()
    ensures var w := Take(Take(v, second), first);
            w.read == v.read && w.next == v.next + 1 && w.Holds(w.next)
  {
    TakeOk(v, second);
    var u := Take(v, second);
    assert u == v.Receive(v.next + 1, second.payload) && u.segs == [Seg(v.next + 1, v.next + 1)];
    TakeOk(u, first);
    var w := Take(u, first);
    assert w == u.Receive(v.next, first.payload);
    assert u.segs[0].hi >= v.next && v.next < u.segs[0].lo;
    assert w.segs == u.segs;
    assert w.segs[0].lo <= w.next <= w.segs[0].hi;
  }

  /** Both bytes are on their way. */
  lemma TwoBytesOnTheirWay() returns (run: seq<System>, first: Packet, second: Packet)
    ensures Stands(run) && Last(run).client.ep.send.sent == 2
    ensures Ready(Last(run).server) && Fresh(Last(run).server.ep.recv, 4, 0)
    ensures first in Last(run).client.log && second in Last(run).client.log
    ensures |first.payload| == 1 && first.seqNum == 1 && first.ack && !first.syn && !first.fin
    ensures |second.payload| == 1 && second.seqNum == 2 && second.ack && !second.syn && !second.fin
  {
    run := Connects(0, [0, 0, 0, 0], 0, [0, 0, 0, 0]);
    run, first := ClientSendsByte(run, 7);
    ghost var log := Last(run).client.log;
    assert log[|log| - 1] == first;
    run, second := ClientSendsSecond(run, 7, 8);
    assert Last(run).client.log[|log| - 1] == first;
  }

  /** A run that does this: everything the client sent has been received, but only half of it is acknowledged
      and can be read. */
  lemma SwapLosesMaximality() returns (run: seq<System>)
    ensures IsRun(run)
    ensures var c, v := Last(run).client, Last(run).server;
            && v.ep.state == Established && !Maximal(v.ep.recv) && v.ep.recv.Holds(c.ep.send.sent)
            && v.ep.recv.next == c.ep.send.sent && v.ep.recv.MaxRead() == 1
  {
    var first, second, reply;
    run, first, second := TwoBytesOnTheirWay();
    SwapLeavesNoGap(Last(run).server.ep.recv, first, second);
    run := ServerTakes(run, second);
    run, reply := ServerReplies(run);
    run := ServerTakes(run, first);
  }
}
