/** No state is a dead end: whatever happened so far, everything written can still be delivered. */
module Continuations {
  import opened Types
  import opened CmuPacket
  import opened Reassembler
  import opened SendViews
  import opened Endpoints
  import opened TwoParty
  import opened StepProofs
  import opened HandshakeProofs
  import opened Theorems
  import opened Witnesses

  // ---------------------------------------------------------------- the final acknowledgement

  /** The client's third handshake packet, which may always arrive again. */
  ghost predicate OpensWindow(p: Packet) {
    p.ack && !p.syn && !p.fin && p.payload == [] && p.window == CP1_WINDOW_SIZE
  }

  ghost predicate HasOpener(c: Party) {
    c.ep.state == Established ==> exists p :: p in c.log && OpensWindow(p)
  }

  lemma OpenerStays(c: Party, c': Party)
    requires HasOpener(c) && c.log <= c'.log && c'.ep.state == c.ep.state
    ensures HasOpener(c')
  {
    if c.ep.state == Established {
      var p :| p in c.log && OpensWindow(p);
      assert p in c'.log;
    }
  }

  lemma ClientStepOpens(s: System, a: Action)
    requires Inv(s) && HasOpener(s.client) && Enabled(s.client, a, s.server.log)
    ensures HasOpener(Step(s.client, a))
  {
    var c := s.client;
    if c.pc == Handshake && c.ep.state == SynSent && a.Deliver? {
      ClientEstablishes(s, a.pkt);
      var p := FinalAckPacket(ClientEstablish(c.ep, a.pkt));
      assert Step(c, a) == ClientMeets(c, a.pkt) && p in Step(c, a).log && OpensWindow(p);
    } else {
      StepGrows(c, a, s.server.log);
      StateStays(c, a, s.server.log);
      if Step(c, a).ep.state == Established {
        OpenerStays(c, Step(c, a));
      }
    }
  }

  lemma StateStays(c: Party, a: Action, net: seq<Packet>)
    requires c.ep.Ok() && Enabled(c, a, net) && c.role == Client && c.ep.state != Listen && c.ep.state != SynRcvd
    requires !(c.pc == Handshake && c.ep.state == SynSent && a.Deliver?)
    ensures Step(c, a).ep.state == c.ep.state || Step(c, a).ep.state == SynSent
  {
  }

  lemma {:induction false} OpenerSent(run: seq<System>, i: nat)
    requires IsRun(run) && i < |run|
    ensures HasOpener(run[i].client)
  {
    if i > 0 {
      OpenerSent(run, i - 1);
      RunInv(run, i - 1);
      assert NextAt(run, i - 1);
      var s, s' := run[i - 1], run[i];
      if a :| Enabled(s.client, a, s.server.log) && s.client.ep.Ok() && s' == s.(client := Step(s.client, a)) {
        ClientStepOpens(s, a);
      }
    }
  }

  // ---------------------------------------------------------------- steps of either process

  lemma Goes(run: seq<System>, r: Role, a: Action) returns (run': seq<System>)
    requires Stands(run) && Enabled(Of(Last(run), r), a, Of(Last(run), Peer(r)).log)
    ensures Stands(run') && run <= run' && |run'| == |run| + 1 && Of(Last(run), r).ep.Ok()
    ensures Of(Last(run'), r) == Step(Of(Last(run), r), a) && Of(Last(run'), Peer(r)) == Of(Last(run), Peer(r))
  {
    if r == Client {
      run' := ClientGoes(run, a);
    } else {
      run' := ServerGoes(run, a);
    }
  }

  lemma BothOf(s: System, r: Role)
    requires Inv(s)
    ensures Both(Of(s, r), Of(s, Peer(r)))
  {
  }

  /** Established and running; it may be closing. */
  ghost predicate Running(p: Party) {
    p.ep.state == Established && p.Alive()
  }

  /** What all the steps below leave alone. */
  ghost predicate RunsOn(p: Party, p': Party) {
    && Running(p') && p'.ep.dying == p.ep.dying && p'.wrote == p.wrote && p'.isn == p.isn && p.log <= p'.log
    && p.ep.send.acked <= p'.ep.send.acked
  }

  /** Nothing that was written is still to be acknowledged. */
  ghost predicate Delivered(x: Party) {
    x.ep.send.pending == []
  }

  /** The test at the top of the loop lets it go on. */
  ghost predicate Passes(p: Party) {
    p.ep.dying ==> !Delivered(p)
  }

  /** It is not right before the step that ends the loop. */
  ghost predicate Stays(p: Party) {
    p.pc.Check? && p.pc.death ==> !Delivered(p)
  }

  /** How far a running process is from the top of its loop. */
  function Rank(pc: Pc): nat {
    match pc
    case Acking(_, _) => 6
    case Receiving(_, _) => 5
    case Replying(_) => 4
    case Check(_) => 3
    case Poll => 2
    case Sending => 1
    case _ => 0
  }

  lemma TickDescends(p: Party, net: seq<Packet>)
    requires Running(p) && Stays(p) && Local(p, net) && 0 < Rank(p.pc) && p.pc != Poll
    requires p.pc.Acking? ==> AckInRange(p.ep, p.pc.pkt) && p.pc.pkt.ackNum <= p.ep.send.sent + 1
    ensures RunsOn(p, TickStep(p)) && Rank(TickStep(p).pc) < Rank(p.pc) && Stays(TickStep(p))
  {
    if p.pc.Acking? {
      AckKeeps(p.ep.send, p.pc.pkt.ackNum);
    }
  }

  lemma AckingIsInRange(s: System, r: Role)
    requires Inv(s) && Of(s, r).pc.Acking?
    ensures AckInRange(Of(s, r).ep, Of(s, r).pc.pkt) && Of(s, r).pc.pkt.ackNum <= Of(s, r).ep.send.sent + 1
  {
    AcksAreInRange(Of(s, r), Of(s, Peer(r)), Of(s, r).pc.pkt);
  }

  lemma StepsDown(run: seq<System>, r: Role) returns (run': seq<System>)
    requires Stands(run) && Running(Of(Last(run), r)) && Stays(Of(Last(run), r)) && Of(Last(run), r).pc != Top
    ensures Stands(run') && run <= run' && Of(Last(run'), Peer(r)) == Of(Last(run), Peer(r))
    ensures RunsOn(Of(Last(run), r), Of(Last(run'), r)) && Stays(Of(Last(run'), r))
    ensures Rank(Of(Last(run'), r).pc) < Rank(Of(Last(run), r).pc)
  {
    var p := Of(Last(run), r);
    BothOf(Last(run), r);
    if p.pc == Poll {
      run' := Goes(run, r, NoData);
    } else {
      if p.pc.Acking? {
        AckingIsInRange(Last(run), r);
      }
      TickDescends(p, Of(Last(run), Peer(r)).log);
      run' := Goes(run, r, Tick);
    }
  }

  lemma RunsOnJoins(p: Party, q: Party, t: Party)
    requires RunsOn(p, q) && RunsOn(q, t)
    ensures RunsOn(p, t)
  {
  }

  /** A running process can always come back to the top of its loop by itself. */
  lemma {:induction false} Settles(run: seq<System>, r: Role) returns (run': seq<System>)
    requires Stands(run) && Running(Of(Last(run), r)) && Stays(Of(Last(run), r))
    ensures Stands(run') && run <= run' && Of(Last(run'), Peer(r)) == Of(Last(run), Peer(r))
    ensures RunsOn(Of(Last(run), r), Of(Last(run'), r)) && Of(Last(run'), r).pc == Top
    decreases Rank(Of(Last(run), r).pc)
  {
    if Of(Last(run), r).pc == Top {
      run' := run;
    } else {
      var run1 := StepsDown(run, r);
      run' := Settles(run1, r);
      RunsOnJoins(Of(Last(run), r), Of(Last(run1), r), Of(Last(run'), r));
    }
  }

  /** The application reads everything that is ready. */
  lemma ReadsAll(run: seq<System>, r: Role) returns (run': seq<System>)
    requires Stands(run) && Running(Of(Last(run), r))
    ensures Stands(run') && run <= run' && Of(Last(run'), Peer(r)) == Of(Last(run), Peer(r))
    ensures var p, p' := Of(Last(run), r), Of(Last(run'), r);
            && p' == p.(ep := p.ep.(recv := p'.ep.recv), got := p'.got)
            && p'.ep.recv.next == p.ep.recv.next && p'.ep.recv.MaxRead() == 0 && 0 < p'.ep.recv.MaxReceive()
  {
    var p := Of(Last(run), r);
    BothOf(Last(run), r);
    ReadKeeps(p.ep.recv, p.ep.recv.MaxRead());
    run' := Goes(run, r, Read(p.ep.recv.MaxRead()));
  }

  /** From the top of the loop to the poll, and on to sending when nothing is there. */
  lemma Polls(run: seq<System>, r: Role) returns (run': seq<System>)
    requires Stands(run) && Running(Of(Last(run), r)) && Of(Last(run), r).pc == Top && Passes(Of(Last(run), r))
    ensures Stands(run') && run <= run' && Of(Last(run'), Peer(r)) == Of(Last(run), Peer(r))
    ensures Of(Last(run'), r) == Of(Last(run), r).(pc := Poll)
  {
    run' := Goes(run, r, Tick);
    run' := Goes(run', r, Tick);
  }

  // ---------------------------------------------------------------- a packet out

  /** The first packet of a sending loop. */
  lemma FirstPacket(ep: Endpoint, first: int, data: seq<uint8>)
    requires data != []
    ensures Packetize(ep, first, data) != []
    ensures var q := Packetize(ep, first, data)[0];
            && IsData(ep, q) && q.seqNum == first && |q.payload| <= |data|
  {
    PacketizeCarries(ep, first, data);
    assert Packetize(ep, first, data)[0] in Packetize(ep, first, data);
  }

  /** A process that can send emits the bytes right after its acked one. */
  ghost predicate Emits(p: Party, p': Party, q: Packet) {
    && RunsOn(p, p') && p'.pc == Top && q in p'.log && IsData(p.ep, q) && q.seqNum == p.ep.send.acked + 1
    && |q.payload| <= Max(1, p.ep.window)
    && p'.ep == p.ep.(send := p.ep.send.(sent := p'.ep.send.sent)) && p'.got == p.got
  }

  lemma Retransmits(run: seq<System>, r: Role) returns (run': seq<System>, q: Packet)
    requires Stands(run) && Running(Of(Last(run), r)) && Of(Last(run), r).pc == Sending
    requires 0 < Of(Last(run), r).ep.send.Unacked()
    ensures Stands(run') && run <= run' && Of(Last(run'), Peer(r)) == Of(Last(run), Peer(r))
    ensures Emits(Of(Last(run), r), Of(Last(run'), r), q)
  {
    var p := Of(Last(run), r);
    BothOf(Last(run), r);
    FirstPacket(p.ep, p.ep.send.acked + 1, p.ep.send.Bytes(p.ep.send.acked + 1, ResendLen(p.ep)));
    q := Resend(p.ep)[0];
    assert q in p.log + Resend(p.ep);
    run' := Goes(run, r, Retransmit);
  }

  lemma SendsFirst(run: seq<System>, r: Role) returns (run': seq<System>, q: Packet)
    requires Stands(run) && Running(Of(Last(run), r)) && Of(Last(run), r).pc == Sending
    requires Of(Last(run), r).ep.send.Unacked() == 0 && Of(Last(run), r).ep.send.pending != []
    requires 0 < Of(Last(run), r).ep.window
    ensures Stands(run') && run <= run' && Of(Last(run'), Peer(r)) == Of(Last(run), Peer(r))
    ensures Emits(Of(Last(run), r), Of(Last(run'), r), q)
  {
    var p := Of(Last(run), r);
    BothOf(Last(run), r);
    FirstPacket(p.ep, p.ep.send.sent + 1, p.ep.send.Bytes(p.ep.send.sent + 1, FreshLen(p.ep)));
    q := SendFresh(p.ep).1[0];
    assert q in p.log + SendFresh(p.ep).1;
    run' := Goes(run, r, Tick);
  }

  lemma ComesToSend(run: seq<System>, r: Role) returns (run': seq<System>)
    requires Stands(run) && Running(Of(Last(run), r)) && Of(Last(run), r).pc == Top && Passes(Of(Last(run), r))
    ensures Stands(run') && run <= run' && Of(Last(run'), Peer(r)) == Of(Last(run), Peer(r))
    ensures Of(Last(run'), r) == Of(Last(run), r).(pc := Sending)
  {
    run' := Polls(run, r);
    run' := Goes(run', r, NoData);
  }

  lemma SendsSomething(run: seq<System>, r: Role) returns (run': seq<System>, q: Packet)
    requires Stands(run) && Running(Of(Last(run), r)) && Of(Last(run), r).pc == Top
    requires Of(Last(run), r).ep.send.pending != []
    requires 0 < Of(Last(run), r).ep.send.Unacked() || 0 < Of(Last(run), r).ep.window
    ensures Stands(run') && run <= run' && Of(Last(run'), Peer(r)) == Of(Last(run), Peer(r))
    ensures Emits(Of(Last(run), r), Of(Last(run'), r), q)
  {
    UnackedNotNegative(Last(run), r);
    run' := ComesToSend(run, r);
    if 0 < Of(Last(run), r).ep.send.Unacked() {
      run', q := Retransmits(run', r);
    } else {
      run', q := SendsFirst(run', r);
    }
  }

  lemma UnackedNotNegative(s: System, r: Role)
    requires Inv(s)
    ensures 0 <= Of(s, r).ep.send.Unacked()
  {
  }

  // ---------------------------------------------------------------- a packet in

  /** What hearing an acknowledgement leaves: the acked cursor and the window of the packet. */
  ghost predicate Heard(p: Party, p': Party, q: Packet) {
    && p'.ep.send.acked == Max(p.ep.send.acked, q.ackNum - 1)
    && p'.ep.window == q.window
  }

  /** The acknowledgement section. */
  lemma TakesAck(run: seq<System>, r: Role) returns (run': seq<System>)
    requires Stands(run) && Running(Of(Last(run), r)) && Of(Last(run), r).pc.Acking? && !Of(Last(run), r).pc.toTop
    ensures Stands(run') && run <= run' && Of(Last(run'), Peer(r)) == Of(Last(run), Peer(r))
    ensures var p, p', q := Of(Last(run), r), Of(Last(run'), r), Of(Last(run), r).pc.pkt;
            && RunsOn(p, p') && Heard(p, p', q) && p'.ep.recv == p.ep.recv && p'.got == p.got && p'.log == p.log
            && p'.pc == if q.payload == [] then Sending else Receiving(q, false)
  {
    BothOf(Last(run), r);
    AckStep(Of(Last(run), r), Of(Last(run), Peer(r)));
    run' := Goes(run, r, Tick);
  }

  lemma AckStep(p: Party, peer: Party)
    requires Both(p, peer) && Running(p) && p.pc.Acking? && !p.pc.toTop
    ensures var p', q := Step(p, Tick), p.pc.pkt;
            && RunsOn(p, p') && Heard(p, p', q) && p'.ep.recv == p.ep.recv && p'.got == p.got && p'.log == p.log
            && p'.pc == if q.payload == [] then Sending else Receiving(q, false)
  {
    AcksAreInRange(p, peer, p.pc.pkt);
    AckKeeps(p.ep.send, p.pc.pkt.ackNum);
    AckNumbers(p.ep, p.isn, p.pc.pkt);
  }

  /** A delivery at the top of the loop, up to what the acknowledgement changes. */
  lemma Hears(run: seq<System>, r: Role, q: Packet) returns (run': seq<System>)
    requires Stands(run) && Running(Of(Last(run), r)) && Of(Last(run), r).pc == Top && Passes(Of(Last(run), r))
    requires q in Of(Last(run), Peer(r)).log && q.ack && !q.syn && !q.fin
    ensures Stands(run') && run <= run' && Of(Last(run'), Peer(r)) == Of(Last(run), Peer(r))
    ensures var p, p' := Of(Last(run), r), Of(Last(run'), r);
            && RunsOn(p, p') && Heard(p, p', q) && p'.ep.recv == p.ep.recv && p'.got == p.got && p'.log == p.log
            && p'.pc == if q.payload == [] then Sending else Receiving(q, false)
  {
    run' := Polls(run, r);
    run' := Goes(run', r, Deliver(q));
    run' := TakesAck(run', r);
  }

  /** A pass through multiple_send, whatever it sends. */
  lemma PassesSending(run: seq<System>, r: Role) returns (run': seq<System>)
    requires Stands(run) && Running(Of(Last(run), r)) && Of(Last(run), r).pc == Sending
    ensures Stands(run') && run <= run' && Of(Last(run'), Peer(r)) == Of(Last(run), Peer(r))
    ensures var p, p' := Of(Last(run), r), Of(Last(run'), r);
            && RunsOn(p, p') && p'.pc == Top && p'.ep.recv == p.ep.recv && p'.got == p.got
            && p'.ep.send.acked == p.ep.send.acked && p'.ep.window == p.ep.window
  {
    run' := Goes(run, r, Tick);
  }

  /** A pure acknowledgement comes in. */
  lemma HearsAck(run: seq<System>, r: Role, q: Packet) returns (run': seq<System>)
    requires Stands(run) && Running(Of(Last(run), r)) && Of(Last(run), r).pc == Top && Passes(Of(Last(run), r))
    requires q in Of(Last(run), Peer(r)).log && q.ack && !q.syn && !q.fin && q.payload == []
    ensures Stands(run') && run <= run' && Of(Last(run'), Peer(r)) == Of(Last(run), Peer(r))
    ensures var p, p' := Of(Last(run), r), Of(Last(run'), r);
            && RunsOn(p, p') && p'.pc == Top && Heard(p, p', q) && p'.ep.recv == p.ep.recv && p'.got == p.got
  {
    run' := Hears(run, r, q);
    run' := PassesSending(run', r);
  }

  /** The payload section. */
  lemma TakesData(run: seq<System>, r: Role) returns (run': seq<System>)
    requires Stands(run) && Running(Of(Last(run), r)) && Of(Last(run), r).pc.Receiving?
    requires !Of(Last(run), r).pc.toTop && Of(Last(run), r).pc.pkt.payload != []
    ensures Stands(run') && run <= run' && Of(Last(run'), Peer(r)) == Of(Last(run), Peer(r))
    ensures var p, p', q := Of(Last(run), r), Of(Last(run'), r), Of(Last(run), r).pc.pkt;
            && p.ep.recv.Ok() && RunsOn(p, p') && p'.pc == Replying(false) && p'.ep.recv == Take(p.ep.recv, q)
            && p'.ep.send == p.ep.send && p'.ep.window == p.ep.window && p'.log == p.log
  {
    run' := Goes(run, r, Tick);
  }

  /** The reply. */
  lemma Replies(run: seq<System>, r: Role) returns (run': seq<System>, reply: Packet)
    requires Stands(run) && Running(Of(Last(run), r)) && Of(Last(run), r).pc == Replying(false)
    ensures Stands(run') && run <= run' && Of(Last(run'), Peer(r)) == Of(Last(run), Peer(r))
    ensures var p, p' := Of(Last(run), r), Of(Last(run'), r);
            && p' == p.(pc := Sending, log := p.log + [reply]) && reply == ReplyPacket(p.ep)
            && reply.ackNum == p.ep.recv.next && reply.window == p.ep.recv.MaxReceive()
  {
    BothOf(Last(run), r);
    reply := ReplyPacket(Of(Last(run), r).ep);
    run' := Goes(run, r, Tick);
  }

  /** The reply, and back to the top of the loop. */
  lemma RepliesAndPasses(run: seq<System>, r: Role) returns (run': seq<System>, reply: Packet)
    requires Stands(run) && Running(Of(Last(run), r)) && Of(Last(run), r).pc == Replying(false)
    ensures Stands(run') && run <= run' && Of(Last(run'), Peer(r)) == Of(Last(run), Peer(r))
    ensures var p, p' := Of(Last(run), r), Of(Last(run'), r);
            && RunsOn(p, p') && p'.pc == Top && p'.ep.recv == p.ep.recv
            && p'.ep.send.acked == p.ep.send.acked && p'.ep.window == p.ep.window
            && reply in p'.log && reply.ack && !reply.syn && !reply.fin && reply.payload == []
            && reply.ackNum == p.ep.recv.next && reply.window == p.ep.recv.MaxReceive()
  {
    run', reply := Replies(run, r);
    ghost var log := Of(Last(run'), r).log;
    assert log[|log| - 1] == reply;
    run' := PassesSending(run', r);
    assert Of(Last(run'), r).log[|log| - 1] == reply;
  }

  /** A data packet comes in: it is taken, everything ready is read, and the reply goes out. */
  lemma HearsData(run: seq<System>, r: Role, q: Packet) returns (run': seq<System>, reply: Packet)
    requires Stands(run) && Running(Of(Last(run), r)) && Of(Last(run), r).pc == Top && Passes(Of(Last(run), r))
    requires q in Of(Last(run), Peer(r)).log && q.ack && !q.syn && !q.fin && q.payload != []
    ensures Stands(run') && run <= run' && Of(Last(run'), Peer(r)) == Of(Last(run), Peer(r))
    ensures var p, p' := Of(Last(run), r), Of(Last(run'), r);
            && p.ep.recv.Ok() && RunsOn(p, p') && p'.pc == Top && Heard(p, p', q)
            && p'.ep.recv.next == Take(p.ep.recv, q).next && p'.ep.recv.MaxRead() == 0
            && 0 < p'.ep.recv.MaxReceive() && reply in p'.log && reply.ack && !reply.syn && !reply.fin
            && reply.payload == [] && reply.ackNum == p'.ep.recv.next && reply.window == p'.ep.recv.MaxReceive()
  {
    run' := Hears(run, r, q);
    run' := TakesData(run', r);
    run' := ReadsAll(run', r);
    run', reply := RepliesAndPasses(run', r);
  }

  // ---------------------------------------------------------------- in step

  /** x knows exactly what y has and has room for, and y's application has read everything. */
  ghost predicate InStep(x: Party, y: Party) {
    && x.ep.send.acked + 1 == y.ep.recv.next && x.ep.window == y.ep.recv.MaxReceive()
    && 0 < x.ep.window && y.ep.recv.MaxRead() == 0
  }

  /** Both are at the top of their loops, and r is in step with its peer, which is not closing. */
  ghost predicate Leads(s: System, r: Role) {
    && Running(Of(s, r)) && Running(Of(s, Peer(r))) && Of(s, r).pc == Top && Of(s, Peer(r)).pc == Top
    && InStep(Of(s, r), Of(s, Peer(r))) && !Of(s, Peer(r)).ep.dying
  }

  /** Each is in step with the other. */
  ghost predicate Tuned(s: System) {
    Leads(s, Client) && Leads(s, Server)
  }

  lemma TakesFirst(v: RecvView, q: Packet)
    requires v.Ok() && q.payload != [] && q.seqNum == v.next && |q.payload| <= v.MaxReceive()
    ensures v.next < Take(v, q).next
  {
    CheckIs(v, q.seqNum, |q.payload|);
    ReceiveMoves(v, q.seqNum, q.payload);
  }

  /** r's bytes go over; the peer has read them and owes nothing but what is in flight. */
  lemma GoesOver(run: seq<System>, r: Role) returns (run': seq<System>, reply: Packet)
    requires Stands(run) && Leads(Last(run), r) && !Delivered(Of(Last(run), r))
    ensures Stands(run') && run <= run' && Of(Last(run), r).ep.Ok()
    ensures var x, x', y, y' := Of(Last(run), r), Of(Last(run'), r), Of(Last(run), Peer(r)), Of(Last(run'), Peer(r));
            && RunsOn(x, x') && RunsOn(y, y') && x'.pc == Top && y'.pc == Top && !Delivered(x')
            && x'.ep.recv == x.ep.recv && x'.ep.send.acked == x.ep.send.acked
            && (InStep(y, x) ==> InStep(y', x')) && y.ep.recv.next < y'.ep.recv.next
            && y'.ep.recv.MaxRead() == 0 && 0 < y'.ep.recv.MaxReceive() && reply in y'.log
            && reply.ack && !reply.syn && !reply.fin && reply.payload == []
            && reply.ackNum == y'.ep.recv.next && reply.window == y'.ep.recv.MaxReceive()
  {
    var q;
    BothOf(Last(run), r);
    BothOf(Last(run), Peer(r));
    run', q := SendsSomething(run, r);
    TakesFirst(Of(Last(run), Peer(r)).ep.recv, q);
    run', reply := HearsData(run', Peer(r), q);
  }

  /** One exchange: bytes of r go over, and it stays in step. */
  lemma Exchanges(run: seq<System>, r: Role) returns (run': seq<System>)
    requires Stands(run) && Leads(Last(run), r) && !Delivered(Of(Last(run), r))
    ensures Stands(run') && run <= run' && Leads(Last(run'), r)
    ensures RunsOn(Of(Last(run), r), Of(Last(run'), r)) && RunsOn(Of(Last(run), Peer(r)), Of(Last(run'), Peer(r)))
    ensures Of(Last(run), r).ep.send.acked < Of(Last(run'), r).ep.send.acked
    ensures Tuned(Last(run)) ==> Tuned(Last(run'))
  {
    var reply;
    run', reply := GoesOver(run, r);
    run' := HearsAck(run', r, reply);
  }

  lemma PendingIs(s: System, r: Role)
    requires Inv(s)
    ensures var x := Of(s, r);
            |x.ep.send.pending| == x.isn + |x.wrote| - x.ep.send.acked
  {
  }

  lemma StaysDelivered(s: System, s': System, r: Role)
    requires Inv(s) && Inv(s') && Delivered(Of(s, r)) && RunsOn(Of(s, r), Of(s', r))
    ensures Delivered(Of(s', r))
  {
    PendingIs(s, r);
    PendingIs(s', r);
  }

  /** In step, all of r's bytes go over. */
  lemma {:induction false} DeliversAll(run: seq<System>, r: Role) returns (run': seq<System>)
    requires Stands(run) && Leads(Last(run), r)
    ensures Stands(run') && run <= run' && Leads(Last(run'), r) && Delivered(Of(Last(run'), r))
    ensures RunsOn(Of(Last(run), r), Of(Last(run'), r)) && RunsOn(Of(Last(run), Peer(r)), Of(Last(run'), Peer(r)))
    ensures Tuned(Last(run)) ==> Tuned(Last(run'))
    decreases |Of(Last(run), r).ep.send.pending|
  {
    if Delivered(Of(Last(run), r)) {
      run' := run;
    } else {
      var run1 := Exchanges(run, r);
      PendingIs(Last(run), r);
      PendingIs(Last(run1), r);
      run' := DeliversAll(run1, r);
      RunsOnJoins(Of(Last(run), r), Of(Last(run1), r), Of(Last(run'), r));
      RunsOnJoins(Of(Last(run), Peer(r)), Of(Last(run1), Peer(r)), Of(Last(run'), Peer(r)));
    }
  }

  /** Then the other side's. */
  lemma DeliversBoth(run: seq<System>) returns (run': seq<System>)
    requires Stands(run) && Tuned(Last(run))
    ensures Stands(run') && run <= run' && Tuned(Last(run'))
    ensures Delivered(Last(run').client) && Delivered(Last(run').server)
  {
    var run1 := DeliversAll(run, Client);
    run' := DeliversAll(run1, Server);
    StaysDelivered(Last(run1), Last(run'), Client);
  }

  // ---------------------------------------------------------------- getting in step

  /** Both at the top of their loops with everything read. */
  ghost predicate Rested(s: System) {
    && Running(s.client) && Running(s.server) && s.client.pc == Top && s.server.pc == Top
    && s.client.ep.recv.MaxRead() == 0 && s.server.ep.recv.MaxRead() == 0
  }

  /** Both go on with what they had written and whether they were closing. */
  ghost predicate BothRunOn(s: System, s': System) {
    RunsOn(s.client, s'.client) && RunsOn(s.server, s'.server)
  }

  lemma ComesToRest(run: seq<System>) returns (run': seq<System>)
    requires Stands(run) && Running(Last(run).client) && Running(Last(run).server)
    requires Stays(Last(run).client) && Stays(Last(run).server)
    ensures Stands(run') && run <= run' && Rested(Last(run')) && BothRunOn(Last(run), Last(run'))
  {
    run' := Settles(run, Client);
    run' := Settles(run', Server);
    run' := ReadsAll(run', Client);
    run' := ReadsAll(run', Server);
  }

  /** The server has something pending: its application writes a byte if need be and if it may. */
  lemma HasPending(run: seq<System>) returns (run': seq<System>)
    requires Stands(run) && Rested(Last(run)) && Passes(Last(run).server)
    ensures Stands(run') && run <= run' && Rested(Last(run')) && !Delivered(Last(run').server)
    ensures Last(run').client == Last(run).client && Last(run').server.ep.dying == Last(run).server.ep.dying
    ensures Last(run).server.wrote <= Last(run').server.wrote
    ensures Last(run).server.ep.dying ==> run' == run
  {
    run' := run;
    if Delivered(Last(run).server) {
      BothOf(Last(run), Server);
      Witnesses.WritesByte(Last(run).server.ep, 0);
      run' := Goes(run, Server, Write([0]));
    }
  }

  /** With a zero window and nothing in flight, the client's third handshake packet arrives again. */
  lemma MaySend(run: seq<System>) returns (run': seq<System>)
    requires Stands(run) && Rested(Last(run)) && !Delivered(Last(run).server)
    ensures Stands(run') && run <= run' && Rested(Last(run')) && !Delivered(Last(run').server)
    ensures Last(run').client == Last(run).client && RunsOn(Last(run).server, Last(run').server)
    ensures 0 < Last(run').server.ep.send.Unacked() || 0 < Last(run').server.ep.window
  {
    run' := run;
    UnackedNotNegative(Last(run), Server);
    if Last(run).server.ep.send.Unacked() == 0 && Last(run).server.ep.window <= 0 {
      OpenerSent(run, |run| - 1);
      var p :| p in Last(run).client.log && OpensWindow(p);
      run' := HearsOpener(run, p);
    }
  }

  lemma HearsOpener(run: seq<System>, p: Packet) returns (run': seq<System>)
    requires Stands(run) && Rested(Last(run)) && !Delivered(Last(run).server)
    requires Last(run).server.ep.send.Unacked() == 0 && p in Last(run).client.log && OpensWindow(p)
    ensures Stands(run') && run <= run' && Rested(Last(run')) && !Delivered(Last(run').server)
    ensures Last(run').client == Last(run).client && RunsOn(Last(run).server, Last(run').server)
    ensures 0 < Last(run').server.ep.window
  {
    run' := HearsAck(run, Server, p);
    BothOf(Last(run), Server);
    AcksAreInRange(Last(run).server, Last(run).client, p);
    PendingIs(Last(run), Server);
    PendingIs(Last(run'), Server);
  }

  /** The server sends, and the client knows what the server has; its reply is on the way. */
  lemma ServerSpeaks(run: seq<System>) returns (run': seq<System>, reply: Packet)
    requires Stands(run) && Rested(Last(run)) && !Delivered(Last(run).server) && Passes(Last(run).client)
    requires 0 < Last(run).server.ep.send.Unacked() || 0 < Last(run).server.ep.window
    ensures Stands(run') && run <= run' && BothRunOn(Last(run), Last(run')) && !Delivered(Last(run').server)
    ensures var c, v := Last(run').client, Last(run').server;
            && c.pc == Top && v.pc == Top && InStep(c, v)
            && c.ep.recv.MaxRead() == 0 && 0 < c.ep.recv.MaxReceive() && reply in c.log
            && reply.ack && !reply.syn && !reply.fin && reply.payload == []
            && reply.ackNum == c.ep.recv.next && reply.window == c.ep.recv.MaxReceive()
  {
    var q;
    BothOf(Last(run), Server);
    run', q := SendsSomething(run, Server);
    run', reply := HearsData(run', Client, q);
    BothOf(Last(run'), Client);
  }

  /** And the server hears the reply. */
  lemma ServerHearsBack(run: seq<System>, reply: Packet) returns (run': seq<System>)
    requires Stands(run) && Running(Last(run).client) && Running(Last(run).server) && !Delivered(Last(run).server)
    requires Last(run).client.pc == Top && Last(run).server.pc == Top && InStep(Last(run).client, Last(run).server)
    requires Last(run).client.ep.recv.MaxRead() == 0 && 0 < Last(run).client.ep.recv.MaxReceive()
    requires reply in Last(run).client.log && reply.ack && !reply.syn && !reply.fin && reply.payload == []
    requires reply.ackNum == Last(run).client.ep.recv.next
    requires reply.window == Last(run).client.ep.recv.MaxReceive()
    ensures Stands(run') && run <= run' && BothRunOn(Last(run), Last(run')) && Last(run').server.pc == Top
    ensures Last(run').client == Last(run).client
    ensures InStep(Last(run').client, Last(run').server) && InStep(Last(run').server, Last(run').client)
  {
    BothOf(Last(run), Server);
    run' := HearsAck(run, Server, reply);
  }

  /** From anywhere the two sides can get in step: the server sends, and the client replies. The server's
      application may have to write a byte for it. */
  lemma GetsInStep(run: seq<System>) returns (run': seq<System>)
    requires Stands(run) && Rested(Last(run)) && Passes(Last(run).client) && Passes(Last(run).server)
    ensures Stands(run') && run <= run'
    ensures var s, s' := Last(run), Last(run');
            && RunsOn(s.client, s'.client) && Running(s'.server)
            && s'.server.ep.dying == s.server.ep.dying && s'.server.isn == s.server.isn
            && s.server.wrote <= s'.server.wrote && (s.server.ep.dying ==> s'.server.wrote == s.server.wrote)
            && s'.client.pc == Top && s'.server.pc == Top
            && InStep(s'.client, s'.server) && InStep(s'.server, s'.client)
  {
    var run1 := HasPending(run);
    var run2 := MaySend(run1);
    var run3, reply := ServerSpeaks(run2);
    run' := ServerHearsBack(run3, reply);
    RunsOnJoins(Last(run1).server, Last(run2).server, Last(run3).server);
    RunsOnJoins(Last(run1).server, Last(run3).server, Last(run').server);
  }

  /** While neither side is closing, every run can go on until everything written on either side, so far and on
      the way, has been acknowledged and read. */
  lemma FromRunning(run: seq<System>) returns (run': seq<System>)
    requires Stands(run) && Running(Last(run).client) && Running(Last(run).server)
    requires !Last(run).client.ep.dying && !Last(run).server.ep.dying
    ensures Stands(run') && run <= run' && Tuned(Last(run'))
    ensures Delivered(Last(run').client) && Delivered(Last(run').server)
  {
    BothOf(Last(run), Client);
    BothOf(Last(run), Server);
    run' := ComesToRest(run);
    run' := GetsInStep(run');
    run' := DeliversBoth(run');
  }

  /** No state is a dead end: from any state in which both backends are alive, in the handshake or after it, and
      neither is closing, the run can go on until everything written either way is acknowledged and read. */
  lemma NoDeadEnd(run: seq<System>, i: nat) returns (run': seq<System>)
    requires IsRun(run) && i < |run| && run[i].client.Alive() && run[i].server.Alive()
    requires !run[i].client.ep.dying && !run[i].server.ep.dying
    ensures IsRun(run') && run[..i + 1] <= run'
    ensures run[i].client.wrote <= Last(run').client.wrote == Last(run').server.got
    ensures run[i].server.wrote <= Last(run').server.wrote == Last(run').client.got
    ensures Delivered(Last(run').client) && Delivered(Last(run').server)
  {
    var start := run[..i + 1];
    RunPrefix(run, i + 1);
    RunInv(start, i);
    run' := Opens(start);
    run' := FromRunning(run');
    HistoriesGrow(run', i, |run'| - 1);
    AllRead(Last(run'), Client);
    AllRead(Last(run'), Server);
  }

  lemma RunPrefix(run: seq<System>, n: nat)
    requires IsRun(run) && 0 < n <= |run|
    ensures IsRun(run[..n])
  {
    forall i | 0 <= i < n - 1
      ensures NextAt(run[..n], i)
    {
      assert NextAt(run, i);
    }
  }

  /** In step with everything acknowledged, the peer has read what was written. */
  lemma AllRead(s: System, r: Role)
    requires Inv(s) && Leads(s, r) && Delivered(Of(s, r))
    ensures Of(s, Peer(r)).got == Of(s, r).wrote
  {
    PendingIs(s, r);
    BothOf(s, r);
    ReadAllIsAll(Of(s, r), Of(s, Peer(r)));
  }

  lemma ReadAllIsAll(x: Party, y: Party)
    requires Both(x, y) && Delivered(x) && y.ep.Initialized() && y.ep.recv.MaxRead() == 0
    ensures y.got == x.wrote
  {
    NextIsSent(y.ep.recv, y.got, x.isn, x.wrote, x.ep.send.sent);
    assert |y.got| == |x.wrote|;
  }

  // ---------------------------------------------------------------- through the handshake

  /** What getting through the handshake leaves alone. */
  ghost predicate Same(p: Party, p': Party) {
    p'.ep.dying == p.ep.dying && p'.wrote == p.wrote && p'.isn == p.isn && p.Alive() && p'.Alive()
  }

  ghost predicate BothSame(s: System, s': System) {
    Same(s.client, s'.client) && Same(s.server, s'.server)
  }

  /** Neither is still in CLOSED. */
  lemma BothStart(run: seq<System>) returns (run': seq<System>)
    requires Stands(run) && Last(run).client.Alive() && Last(run).server.Alive()
    ensures Stands(run') && run <= run' && BothSame(Last(run), Last(run'))
    ensures Last(run').client.ep.state != Closed && Last(run').server.ep.state != Closed
  {
    run' := run;
    if Last(run').client.ep.state == Closed {
      run' := ClientGoes(run', Start);
    }
    if Last(run').server.ep.state == Closed {
      run' := ServerGoes(run', Start);
    }
  }

  /** The client's SYN, sent again, gets an answer. */
  lemma SynIsAnswered(run: seq<System>) returns (run': seq<System>, synAck: Packet)
    requires Stands(run) && Last(run).client.Alive() && Last(run).server.Alive()
    requires Last(run).client.ep.state == SynSent && Last(run).server.ep.state != Closed
    ensures Stands(run') && run <= run' && BothSame(Last(run), Last(run'))
    ensures Last(run').client.ep.state == SynSent && synAck in Last(run').server.log
  {
    run' := ClientGoes(run, Timeout);
    var syn := SynPacket(Last(run).client.ep);
    assert syn in Last(run').client.log;
    if Last(run').server.ep.state == Listen {
      ReachesListen(Last(run'), syn);
      synAck := SynAckPacket(ServerListen(Last(run').server.ep, syn));
    } else {
      ReachesSynRcvd(Last(run'), syn);
      synAck := SynAckPacket(Last(run').server.ep);
    }
    run' := ServerGoes(run', Deliver(syn));
  }

  lemma ClientOpens(run: seq<System>) returns (run': seq<System>)
    requires Stands(run) && Last(run).client.Alive() && Last(run).server.Alive()
    requires Last(run).client.ep.state != Closed && Last(run).server.ep.state != Closed
    ensures Stands(run') && run <= run' && BothSame(Last(run), Last(run'))
    ensures Last(run').client.ep.state == Established
  {
    run' := run;
    if Last(run).client.ep.state != Established {
      var synAck;
      run', synAck := SynIsAnswered(run);
      ReachesSynSent(Last(run'), synAck);
      run' := ClientGoes(run', Deliver(synAck));
    }
  }

  /** The handshake can always be completed. */
  lemma Opens(run: seq<System>) returns (run': seq<System>)
    requires Stands(run) && Last(run).client.Alive() && Last(run).server.Alive()
    ensures Stands(run') && run <= run' && BothSame(Last(run), Last(run'))
    ensures Running(Last(run').client) && Running(Last(run').server)
  {
    run' := BothStart(run);
    run' := ClientOpens(run');
    if Last(run').server.ep.state != Established {
      OpenerSent(run', |run'| - 1);
      var p :| p in Last(run').client.log && OpensWindow(p);
      run' := ServerCompletesOn(run', p);
    }
  }

  // ---------------------------------------------------------------- closing

  /** A closing process with nothing pending leaves its loop. */
  lemma Exits(run: seq<System>, r: Role) returns (run': seq<System>)
    requires Stands(run) && Running(Of(Last(run), r)) && Of(Last(run), r).ep.dying && Delivered(Of(Last(run), r))
    ensures Stands(run') && run <= run' && Of(Last(run'), Peer(r)) == Of(Last(run), Peer(r))
    ensures var p, p' := Of(Last(run), r), Of(Last(run'), r);
            p'.pc.Exited? && p'.wrote == p.wrote && Delivered(p')
  {
    if Of(Last(run), r).pc == Check(true) {
      run' := PassesTest(run, r);
    } else {
      var run1 := Settles(run, r);
      StaysDelivered(Last(run), Last(run1), r);
      var run2 := Goes(run1, r, Tick);
      assert Of(Last(run2), r) == Of(Last(run1), r).(pc := Check(true));
      run' := PassesTest(run2, r);
    }
  }

  lemma PassesTest(run: seq<System>, r: Role) returns (run': seq<System>)
    requires Stands(run) && Of(Last(run), r).pc == Check(true) && Delivered(Of(Last(run), r))
    ensures Stands(run') && run <= run' && Of(Last(run'), Peer(r)) == Of(Last(run), Peer(r))
    ensures Of(Last(run'), r) == Of(Last(run), r).(pc := Exited)
  {
    BothOf(Last(run), r);
    run' := Goes(run, r, Tick);
  }

  /** It exits and the peer reads the rest. */
  lemma ExitsAndIsRead(run: seq<System>, r: Role) returns (run': seq<System>)
    requires Stands(run) && Running(Of(Last(run), r)) && Of(Last(run), r).ep.dying && Delivered(Of(Last(run), r))
    requires Running(Of(Last(run), Peer(r)))
    ensures Stands(run') && run <= run'
    ensures var p, p' := Of(Last(run), r), Of(Last(run'), r);
            && p'.pc.Exited? && p'.wrote == p.wrote && Delivered(p')
            && Of(Last(run'), Peer(r)).got == p'.wrote
  {
    var run1 := Exits(run, r);
    run' := ReadsAll(run1, Peer(r));
    BothOf(Last(run'), r);
    ReadAllIsAll(Of(Last(run'), r), Of(Last(run'), Peer(r)));
  }

  /** Everything the closing side has written goes over. */
  lemma ClosingDelivers(run: seq<System>, r: Role) returns (run': seq<System>)
    requires Stands(run) && Running(Of(Last(run), r)) && Running(Of(Last(run), Peer(r)))
    requires Of(Last(run), r).ep.dying && !Of(Last(run), Peer(r)).ep.dying
    ensures Stands(run') && run <= run'
    ensures var p, p' := Of(Last(run), r), Of(Last(run'), r);
            Running(p') && Running(Of(Last(run'), Peer(r))) && Delivered(p') && p'.ep.dying && p'.wrote == p.wrote
  {
    run' := run;
    if !Delivered(Of(Last(run), r)) {
      BothOf(Last(run), r);
      BothOf(Last(run), Peer(r));
      run' := ComesToRest(run);
      if !Delivered(Of(Last(run'), r)) {
        run' := GetsInStep(run');
        run' := DeliversAll(run', r);
      }
    }
  }

  /** From any state in which one side is alive and closing, and the other is alive and is not, the run can go on
      until all that the closing side has written is acknowledged and read and its backend has left its loop. */
  lemma ClosingCompletes(run: seq<System>, i: nat, r: Role) returns (run': seq<System>)
    requires IsRun(run) && i < |run| && Of(run[i], r).Alive() && Of(run[i], Peer(r)).Alive()
    requires Of(run[i], r).ep.dying && !Of(run[i], Peer(r)).ep.dying
    ensures IsRun(run') && run[..i + 1] <= run'
    ensures Of(Last(run'), r).pc.Exited? && Of(Last(run'), r).wrote == Of(run[i], r).wrote
    ensures Delivered(Of(Last(run'), r)) && Of(Last(run'), Peer(r)).got == Of(run[i], r).wrote
  {
    RunPrefix(run, i + 1);
    RunInv(run, i);
    run' := Opens(run[..i + 1]);
    run' := ClosingDelivers(run', r);
    run' := ExitsAndIsRead(run', r);
  }
}
