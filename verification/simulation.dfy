/** The classes follow the runs: any step of a run can be performed on real sockets. */
module Simulation {
  import opened Types
  import opened CmuPacket
  import opened Segments
  import opened Endpoints
  import opened Backend
  import opened TwoParty
  import opened Theorems

  /** The socket and the place its thread has come to are those of `p`. */
  ghost predicate Follows(sock: CmuSocket, pc: Pc, p: Party)
    reads sock, sock.sendBuf, sock.sendBuf.buffer, sock.recvBuf, sock.recvBuf.buffer, sock.recvBuf.nodes
  {
    sock.Valid() && sock.View() == p.ep && pc == p.pc
  }

  /** What a step leaves: the socket follows on, and the packets sent are those of the step. */
  ghost predicate Followed(sock: CmuSocket, pc: Pc, out: seq<Packet>, p: Party, p': Party)
    reads sock, sock.sendBuf, sock.sendBuf.buffer, sock.recvBuf, sock.recvBuf.buffer, sock.recvBuf.nodes
  {
    Follows(sock, pc, p') && p'.log == p.log + out
  }

  /** Nothing has been sent. */
  lemma SentNothing(p: Party)
    ensures p.log + [] == p.log
  {
  }

  /** A packet for a process that waits in the handshake. */
  method PerformHandshake(sock: CmuSocket, pc: Pc, pkt: Packet, ghost p: Party, ghost net: seq<Packet>)
    returns (pc': Pc, out: seq<Packet>)
    requires Follows(sock, pc, p) && Local(p, net) && pc == Handshake && p.ep.state != Closed
    requires HandshakeCallable(p, pkt)
    modifies sock, sock.recvBuf
    ensures p.ep.Ok() && Followed(sock, pc', out, p, Step(p, Deliver(pkt)))
    ensures sock.recvBuf.nodes == old(sock.recvBuf.nodes) || sock.recvBuf.nodes == []
  {
    SentNothing(p);
    if sock.state == SynSent {
      var ack := sock.ClientOnSynAck(pkt);
      pc', out := Top, [ack];
    } else if sock.state == Listen {
      var synAck := sock.ServerOnSyn(pkt);
      pc', out := pc, [synAck];
    } else {
      var completes := pkt.ack && pkt.ackNum as uint32 == sock.lastAckReceived + 1;
      out := sock.ServerOnSynRcvd(pkt);
      pc' := if completes then Handle(pkt, true) else pc;
    }
  }

  /** A process starts, or its SYN times out. */
  method PerformStart(sock: CmuSocket, role: Role, pc: Pc, a: Action, ghost p: Party, ghost net: seq<Packet>)
    returns (pc': Pc, out: seq<Packet>)
    requires Follows(sock, pc, p) && role == p.role && Enabled(p, a, net) && (a == Start || a == Timeout)
    modifies sock`state
    ensures p.ep.Ok() && Followed(sock, pc', out, p, Step(p, a))
  {
    SentNothing(p);
    pc' := pc;
    if a == Timeout {
      var syn := sock.ClientTimeout();
      out := [syn];
    } else if role == Client {
      var syn := sock.ClientStart();
      out := [syn];
    } else {
      sock.ServerStart();
      out := [];
    }
  }

  /** The packet that the message handler has before it. */
  method PerformMessage(sock: CmuSocket, pc: Pc, ghost p: Party, ghost net: seq<Packet>)
    returns (pc': Pc, out: seq<Packet>)
    requires Follows(sock, pc, p) && Local(p, net) && SectionsCallable(p)
    requires pc.Acking? || pc.Receiving? || pc.Replying?
    modifies sock`lastAckReceived, sock`rcvdAdvertisedWindow, sock`nextSeqExpected
    modifies sock.sendBuf, sock.recvBuf, sock.recvBuf.buffer, sock.recvBuf.nodes
    ensures p.ep.Ok() && Followed(sock, pc', out, p, Step(p, Tick))
    ensures forall i | 0 <= i < |sock.recvBuf.nodes| ::
      sock.recvBuf.nodes[i] in old(sock.recvBuf.nodes) || fresh(sock.recvBuf.nodes[i])
  {
    SentNothing(p);
    out := [];
    match pc
    case Acking(pkt, toTop) =>
      sock.HandleAck(pkt);
      pc' := if pkt.payload == [] then AfterMessage(toTop) else Receiving(pkt, toTop);
    case Receiving(pkt, toTop) =>
      if pkt.payload == [] {
        pc' := AfterMessage(toTop);
      } else {
        sock.HandleData(pkt);
        pc' := Replying(toTop);
      }
    case Replying(toTop) =>
      var reply := sock.Reply();
      out := [reply];
      pc' := AfterMessage(toTop);
  }

  /** The other sections of the main loop. */
  method PerformLoop(sock: CmuSocket, pc: Pc, a: Action, ghost p: Party, ghost net: seq<Packet>)
    returns (pc': Pc, out: seq<Packet>)
    requires Follows(sock, pc, p) && Local(p, net) && Enabled(p, a, net)
    requires a == Tick || a == Retransmit || a == NoData || (a.Deliver? && pc == Poll)
    requires pc.Top? || pc.Check? || pc.Poll? || pc.Sending?
    modifies sock.sendBuf`lastByteSentIndex
    ensures p.ep.Ok() && Followed(sock, pc', out, p, Step(p, a))
  {
    SentNothing(p);
    out := [];
    if a.Deliver? {
      pc' := Handle(a.pkt, false);
    } else if a == NoData {
      pc' := Sending;
    } else if a == Retransmit {
      out := sock.ResendUnacknowledged();
      pc' := Top;
    } else {
      match pc
      case Top => pc' := Check(sock.dying);
      case Check(death) =>
        var exit := sock.MayExit(death);
        pc' := if exit then Exited else Poll;
      case Sending =>
        out := sock.MultipleSend();
        pc' := Top;
    }
  }

  /** An application call, with what it accepted or handed over. */
  method PerformCall(sock: CmuSocket, pc: Pc, a: Action, ghost p: Party, ghost net: seq<Packet>)
    returns (written: seq<uint8>, read: seq<uint8>)
    requires Follows(sock, pc, p) && Local(p, net) && Enabled(p, a, net) && SectionsCallable(p)
    requires a.Write? || a.Read? || a.Close?
    requires (a.Write? ==> |a.buf| < TWO_31) && (a.Read? ==> a.len < TWO_31)
    modifies sock`dying, sock.sendBuf, sock.sendBuf.buffer
    modifies sock.recvBuf`lastByteReadSeqnum, sock.recvBuf`lastByteReadIndex
    ensures p.ep.Ok() && Follows(sock, pc, Step(p, a)) && Step(p, a).log == p.log
    ensures Step(p, a).wrote == p.wrote + written && Step(p, a).got == p.got + read
  {
    written, read := [], [];
    match a
    case Write(buf) =>
      var n := sock.CmuWriteTurn(buf);
      written := buf[..n];
    case Read(len) =>
      var data := sock.CmuRead(len as int);
      read := data.value;
    case Close =>
      sock.CmuClose();
  }

  /** Any enabled step of a process, on its socket. */
  method Perform(sock: CmuSocket, role: Role, pc: Pc, a: Action, ghost p: Party, ghost net: seq<Packet>)
    returns (pc': Pc, out: seq<Packet>, written: seq<uint8>, read: seq<uint8>)
    requires Follows(sock, pc, p) && role == p.role && Local(p, net) && Enabled(p, a, net) && SectionsCallable(p)
    requires a.Deliver? && pc == Handshake ==> HandshakeCallable(p, a.pkt)
    requires (a.Write? ==> |a.buf| < TWO_31) && (a.Read? ==> a.len < TWO_31)
    modifies sock, sock.sendBuf, sock.sendBuf.buffer, sock.recvBuf, sock.recvBuf.buffer, sock.recvBuf.nodes
    ensures p.ep.Ok() && Followed(sock, pc', out, p, Step(p, a))
    ensures Step(p, a).wrote == p.wrote + written && Step(p, a).got == p.got + read
    ensures forall i | 0 <= i < |sock.recvBuf.nodes| ::
      sock.recvBuf.nodes[i] in old(sock.recvBuf.nodes) || fresh(sock.recvBuf.nodes[i])
  {
    KeepsHistories(p, a);
    SentNothing(p);
    pc', out, written, read := pc, [], [], [];
    if a.Write? || a.Read? || a.Close? {
      written, read := PerformCall(sock, pc, a, p, net);
    } else if a == Start || a == Timeout {
      pc', out := PerformStart(sock, role, pc, a, p, net);
    } else if pc == Handshake {
      pc', out := PerformHandshake(sock, pc, a.pkt, p, net);
    } else if pc.Acking? || pc.Receiving? || pc.Replying? {
      pc', out := PerformMessage(sock, pc, p, net);
    } else {
      pc', out := PerformLoop(sock, pc, a, p, net);
    }
  }

  lemma KeepsHistories(p: Party, a: Action)
    requires p.ep.Ok()
    ensures !a.Write? ==> Step(p, a).wrote == p.wrote + []
    ensures !a.Read? ==> Step(p, a).got == p.got + []
  {
  }

  /** Two sockets share nothing. */
  ghost predicate Apart(c: CmuSocket, v: CmuSocket)
    reads c.recvBuf, v.recvBuf
  {
    && c != v && c.sendBuf != v.sendBuf && c.recvBuf != v.recvBuf
    && c.sendBuf.buffer != v.sendBuf.buffer && c.sendBuf.buffer != v.recvBuf.buffer
    && c.recvBuf.buffer != v.sendBuf.buffer && c.recvBuf.buffer != v.recvBuf.buffer
    && ApartNodes(c.recvBuf.nodes, v.recvBuf.nodes)
  }

  ghost predicate ApartNodes(s: seq<Segment>, t: seq<Segment>) {
    forall i, j | 0 <= i < |s| && 0 <= j < |t| :: s[i] != t[j]
  }

  /** What Perform asks of a process, a bounded run gives. */
  lemma Ready(run: seq<System>, r: Role, a: Action)
    requires IsRun(run)
    requires Bounded(Last(run).client, Last(run).server) && Bounded(Last(run).server, Last(run).client)
    requires Enabled(Of(Last(run), r), a, Of(Last(run), Peer(r)).log)
    ensures var p, q := Of(Last(run), r), Of(Last(run), Peer(r));
            && p.role == r && p.ep.Ok() && Local(p, q.log) && SectionsCallable(p)
            && (a.Deliver? && p.pc == Handshake ==> HandshakeCallable(p, a.pkt))
  {
    RunInv(run, |run| - 1);
    SectionsAreCallable(run, |run| - 1);
    if a.Deliver? {
      HandshakeIsCallable(run, |run| - 1, a.pkt);
    }
  }

  lemma Goes(run: seq<System>, r: Role, a: Action) returns (run': seq<System>)
    requires IsRun(run) && Of(Last(run), r).ep.Ok()
    requires Enabled(Of(Last(run), r), a, Of(Last(run), Peer(r)).log)
    ensures IsRun(run') && |run'| == |run| + 1 && run <= run'
    ensures Of(Last(run'), r) == Step(Of(Last(run), r), a) && Of(Last(run'), Peer(r)) == Of(Last(run), Peer(r))
  {
    var s := Last(run);
    var s' := match r case Client => s.(client := Step(s.client, a)) case Server => s.(server := Step(s.server, a));
    Extends(run, s');
    run' := run + [s'];
  }

  lemma ApartBack(c: CmuSocket, v: CmuSocket)
    requires Apart(c, v)
    ensures Apart(v, c)
  {
  }

  /** A socket none of whose parts changes means what it meant. */
  twostate lemma LeftAlone(v: CmuSocket)
    requires old(v.Valid())
    requires unchanged(v) && unchanged(v.sendBuf) && unchanged(v.sendBuf.buffer)
    requires unchanged(v.recvBuf) && unchanged(v.recvBuf.buffer)
    requires forall i {:trigger v.recvBuf.nodes[i]} | 0 <= i < |v.recvBuf.nodes| :: unchanged(v.recvBuf.nodes[i])
    ensures v.Valid() && v.View() == old(v.View())
  {
  }

  /** A step on one socket touches no part of the other. */
  method PerformBeside(sock: CmuSocket, role: Role, pc: Pc, a: Action, ghost p: Party, ghost net: seq<Packet>,
                       ghost other: CmuSocket)
    returns (pc': Pc, out: seq<Packet>)
    requires Follows(sock, pc, p) && role == p.role && Local(p, net) && Enabled(p, a, net) && SectionsCallable(p)
    requires a.Deliver? && pc == Handshake ==> HandshakeCallable(p, a.pkt)
    requires (a.Write? ==> |a.buf| < TWO_31) && (a.Read? ==> a.len < TWO_31)
    requires Apart(sock, other)
    modifies sock, sock.sendBuf, sock.sendBuf.buffer, sock.recvBuf, sock.recvBuf.buffer, sock.recvBuf.nodes
    ensures p.ep.Ok() && Followed(sock, pc', out, p, Step(p, a))
    ensures unchanged(other) && unchanged(other.sendBuf) && unchanged(other.sendBuf.buffer)
    ensures unchanged(other.recvBuf) && unchanged(other.recvBuf.buffer)
    ensures forall i {:trigger other.recvBuf.nodes[i]} | 0 <= i < |other.recvBuf.nodes| ::
      unchanged(other.recvBuf.nodes[i])
    ensures forall i | 0 <= i < |sock.recvBuf.nodes| ::
      sock.recvBuf.nodes[i] in old(sock.recvBuf.nodes) || fresh(sock.recvBuf.nodes[i])
  {
    var written, read;
    pc', out, written, read := Perform(sock, role, pc, a, p, net);
  }

  /** So it leaves the other as it is, and apart. */
  method PerformApart(sock: CmuSocket, role: Role, pc: Pc, a: Action, ghost p: Party, ghost net: seq<Packet>,
                      ghost other: CmuSocket)
    returns (pc': Pc, out: seq<Packet>)
    requires Follows(sock, pc, p) && role == p.role && Local(p, net) && Enabled(p, a, net) && SectionsCallable(p)
    requires a.Deliver? && pc == Handshake ==> HandshakeCallable(p, a.pkt)
    requires (a.Write? ==> |a.buf| < TWO_31) && (a.Read? ==> a.len < TWO_31)
    requires Apart(sock, other) && other.Valid()
    modifies sock, sock.sendBuf, sock.sendBuf.buffer, sock.recvBuf, sock.recvBuf.buffer, sock.recvBuf.nodes
    ensures p.ep.Ok() && Followed(sock, pc', out, p, Step(p, a))
    ensures Apart(sock, other) && other.Valid() && other.View() == old(other.View())
  {
    pc', out := PerformBeside(sock, role, pc, a, p, net, other);
    LeftAlone(other);
  }

  /** Any step that can follow a bounded run, on the two sockets that have followed it: they follow on. */
  method StepEither(c: CmuSocket, v: CmuSocket, cpc: Pc, vpc: Pc, r: Role, a: Action, ghost run: seq<System>)
    returns (cpc': Pc, vpc': Pc, out: seq<Packet>, ghost run': seq<System>)
    requires IsRun(run) && Apart(c, v)
    requires Follows(c, cpc, Last(run).client) && Follows(v, vpc, Last(run).server)
    requires Bounded(Last(run).client, Last(run).server) && Bounded(Last(run).server, Last(run).client)
    requires Enabled(Of(Last(run), r), a, Of(Last(run), Peer(r)).log)
    requires (a.Write? ==> |a.buf| < TWO_31) && (a.Read? ==> a.len < TWO_31)
    modifies c, c.sendBuf, c.sendBuf.buffer, c.recvBuf, c.recvBuf.buffer, c.recvBuf.nodes
    modifies v, v.sendBuf, v.sendBuf.buffer, v.recvBuf, v.recvBuf.buffer, v.recvBuf.nodes
    ensures IsRun(run') && |run'| == |run| + 1 && run <= run' && Apart(c, v)
    ensures Follows(c, cpc', Last(run').client) && Follows(v, vpc', Last(run').server)
    ensures Of(Last(run), r).ep.Ok() && Of(Last(run'), r) == Step(Of(Last(run), r), a)
    ensures Of(Last(run'), Peer(r)) == Of(Last(run), Peer(r))
    ensures Of(Last(run'), r).log == Of(Last(run), r).log + out
  {
    Ready(run, r, a);
    run' := Goes(run, r, a);
    cpc', vpc' := cpc, vpc;
    if r == Client {
      cpc', out := PerformApart(c, Client, cpc, a, Last(run).client, Last(run).server.log, v);
    } else {
      ApartBack(c, v);
      vpc', out := PerformApart(v, Server, vpc, a, Last(run).server, Last(run).client.log, c);
      ApartBack(v, c);
    }
  }

  /** Two new sockets follow a run that has just begun. */
  method Open(ccap: uint32, cisn: uint32, vcap: uint32, visn: uint32)
    returns (c: CmuSocket, v: CmuSocket, ghost run: seq<System>)
    requires MIN_CAPACITY <= ccap as int <= MAX_CAPACITY && cisn as int + ccap as int < TWO_32
    requires MIN_CAPACITY <= vcap as int <= MAX_CAPACITY && visn as int + vcap as int < TWO_32
    ensures IsRun(run) && |run| == 1 && Apart(c, v)
    ensures Follows(c, Handshake, run[0].client) && Follows(v, Handshake, run[0].server)
    ensures run[0].client.isn == cisn as int && run[0].server.isn == visn as int
  {
    c := new CmuSocket(ccap, cisn);
    ghost var cm :| |cm| == ccap as int && c.View() == Initial(cisn as int, cm);
    v := new CmuSocket(vcap, visn);
    ghost var vm :| |vm| == vcap as int && v.View() == Initial(visn as int, vm);
    run := [System(InitialParty(Client, cisn as int, cm), InitialParty(Server, visn as int, vm))];
    assert Init(run[0]);
  }
}
