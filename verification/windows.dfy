/** When the window a sender knows promises more than its peer has room for. */
module Windows {
  import opened CmuPacket
  import opened Endpoints
  import opened TwoParty
  import opened StepProofs
  import opened Theorems

  /** One past the last number y's buffer can hold. */
  function Room(y: Party): int {
    y.ep.recv.read + y.ep.recv.cap
  }

  /** x knows of more room than there is: it would send numbers that y cannot hold. */
  ghost predicate Overreaches(x: Party, y: Party) {
    x.ep.state == Established && y.ep.Initialized() && Room(y) < x.ep.send.acked + 1 + x.ep.window
  }

  /** A packet of y's from after the handshake. */
  ghost predicate PastHandshake(y: Party, pkt: Packet) {
    y.ep.state == Established && 0 <= y.hs <= |y.log| && pkt in y.log[y.hs..]
  }

  /** No packet y sent after the handshake promises more room than y has now. */
  lemma PromisesRoom(y: Party, pkt: Packet)
    requires Edges(y) && PastHandshake(y, pkt)
    ensures Edge(pkt) <= Room(y)
  {
    var j :| 0 <= j < |y.log[y.hs..]| && y.log[y.hs..][j] == pkt;
    assert Promises(y.log, y.hs + j, y.ep.recv.next, Room(y));
  }

  /** Handling such a packet leaves x overreaching exactly when its acknowledgement is behind x's own acked
      number by more than its promise is behind y's room; so never when it acknowledges something new. */
  lemma HandledWindow(x: Party, y: Party)
    requires Both(x, y) && Edges(y) && x.ep.state == Established && x.pc.Acking? && PastHandshake(y, x.pc.pkt)
    ensures var pkt, x' := x.pc.pkt, TickStep(x);
            && (Overreaches(x', y) <==> Room(y) - Edge(pkt) < x.ep.send.acked + 1 - pkt.ackNum)
            && (x.ep.send.acked < pkt.ackNum ==> !Overreaches(x', y))
  {
    var pkt := x.pc.pkt;
    AcksAreInRange(x, y, pkt);
    PromisesRoom(y, pkt);
    AckNumbers(x.ep, x.isn, pkt);
  }

  /** Only handling an acknowledgement changes what an established endpoint knows. */
  lemma KnowledgeMoves(p: Party, a: Action, net: seq<Packet>)
    requires p.ep.Ok() && Enabled(p, a, net) && p.ep.state == Established && p.pc != Handshake
    requires Step(p, a).ep.send.acked != p.ep.send.acked || Step(p, a).ep.window != p.ep.window
    ensures a == Tick && p.pc.Acking?
  {
  }

  /** The packet that x handles is stale, or comes from the handshake, whose packets advertise a constant. */
  ghost predicate HandlesOldWindow(x: Party, y: Party) {
    x.pc.Acking? && (x.pc.pkt.ackNum <= x.ep.send.acked || !PastHandshake(y, x.pc.pkt))
  }

  lemma MoverOverreaches(x: Party, y: Party, a: Action)
    requires Both(x, y) && Edges(y) && Enabled(x, a, y.log) && x.ep.state == Established && !x.pc.Aborted?
    requires !Overreaches(x, y) && Overreaches(Step(x, a), y)
    ensures HandlesOldWindow(x, y)
  {
    KnowledgeMoves(x, a, y.log);
    if PastHandshake(y, x.pc.pkt) {
      HandledWindow(x, y);
    }
  }

  lemma PeerMakesRoom(x: Party, y: Party, a: Action, net: seq<Packet>)
    requires y.ep.Ok() && Enabled(y, a, net) && y.ep.Initialized() && !Overreaches(x, y)
    ensures !Overreaches(x, Step(y, a))
  {
    StepGrows(y, a, net);
  }

  /** In every run, an established endpoint comes to overreach only by handling an old window: one that
      acknowledges no more than it knows, or one from the handshake. */
  lemma OverreachArises(run: seq<System>, r: Role, i: nat)
    requires IsRun(run) && i + 1 < |run|
    requires var x, y := Of(run[i], r), Of(run[i], Peer(r));
             x.ep.state == Established && y.ep.Initialized() && !Overreaches(x, y)
    requires Overreaches(Of(run[i + 1], r), Of(run[i + 1], Peer(r)))
    ensures HandlesOldWindow(Of(run[i], r), Of(run[i], Peer(r)))
  {
    RunInv(run, i);
    assert NextAt(run, i);
    var s, s' := run[i], run[i + 1];
    if a :| Enabled(s.client, a, s.server.log) && s.client.ep.Ok() && s' == s.(client := Step(s.client, a)) {
      if r == Client {
        MoverOverreaches(s.client, s.server, a);
      } else {
        PeerMakesRoom(s.server, s.client, a, s.server.log);
      }
    } else {
      var a :| Enabled(s.server, a, s.client.log) && s.server.ep.Ok() && s' == s.(server := Step(s.server, a));
      if r == Server {
        MoverOverreaches(s.server, s.client, a);
      } else {
        PeerMakesRoom(s.client, s.server, a, s.client.log);
      }
    }
  }

  /** And handling a window from after the handshake makes it overreach exactly as HandledWindow says. */
  lemma OverreachIff(run: seq<System>, r: Role, i: nat)
    requires IsRun(run) && i < |run|
    requires var x, y := Of(run[i], r), Of(run[i], Peer(r));
             x.ep.state == Established && x.pc.Acking? && PastHandshake(y, x.pc.pkt)
    ensures var x, y := Of(run[i], r), Of(run[i], Peer(r));
            && x.ep.Ok()
            && (Overreaches(TickStep(x), y)
                <==> Room(y) - Edge(x.pc.pkt) < x.ep.send.acked + 1 - x.pc.pkt.ackNum)
            && (x.ep.send.acked < x.pc.pkt.ackNum ==> !Overreaches(TickStep(x), y))
  {
    RunInv(run, i);
    HandledWindow(Of(run[i], r), Of(run[i], Peer(r)));
  }

  /** multiple_send passes what the peer can hold exactly when the bytes are there and the window it knows,
      from its own acked number, reaches further. */
  lemma PassesEdgeIff(ep: Endpoint, edge: int)
    requires ep.Ok() && ep.send.sent <= edge
    ensures edge < SendFresh(ep).0.send.sent <==> edge < ep.send.acked + ep.window && edge < ep.send.Next() - 1
  {
  }

  /** From within its peer's room, an endpoint sends beyond it exactly when it overreaches and has the bytes. */
  lemma PassesRoomIff(x: Party, y: Party)
    requires x.ep.Ok() && x.ep.state == Established && y.ep.Initialized() && x.ep.send.sent < Room(y)
    ensures Room(y) <= SendFresh(x.ep).0.send.sent <==> Overreaches(x, y) && Room(y) < x.ep.send.Next()
  {
    PassesEdgeIff(x.ep, Room(y) - 1);
  }
}
