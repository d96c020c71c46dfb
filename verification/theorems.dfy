/** What holds in every state of every run. */
module Theorems {
  import opened Types
  import opened CmuPacket
  import opened Reassembler
  import opened SendViews
  import opened Endpoints
  import opened TwoParty
  import opened StepProofs
  import opened HandshakeProofs

  /** The one delivery that aborts a process: a SYN-bearing packet in the main loop. */
  predicate LateSyn(p: Party, a: Action) {
    a.Deliver? && p.pc == Poll && a.pkt.syn
  }

  lemma LoopInv(x: Party, x': Party, y: Party)
    requires Kept(x, x', y) && Local(y, x.log) && Edges(y)
    ensures Local(y, x'.log)
  {
  }

  lemma ClientHand(c: Party, c': Party, s: Party)
    requires Hand(c, s) && SameHand(c, c')
    ensures Hand(c', s)
  {
    assert c'.log == c.log + c'.log[|c.log|..];
  }

  lemma ServerHand(c: Party, s: Party, s': Party)
    requires Hand(c, s) && SameHand(s, s')
    ensures Hand(c, s')
  {
    assert s'.log == s.log + s'.log[|s.log|..];
  }

  lemma ClientLoopInv(s: System, c': Party)
    requires Inv(s) && Kept(s.client, c', s.server)
    ensures Inv(s.(client := c'))
  {
    LoopInv(s.client, c', s.server);
    ClientHand(s.client, c', s.server);
  }

  lemma ServerLoopInv(s: System, s': Party)
    requires Inv(s) && Kept(s.server, s', s.client)
    ensures Inv(s.(server := s'))
  {
    LoopInv(s.server, s', s.client);
    ServerHand(s.client, s.server, s');
  }

  lemma ClientStepInv(s: System, a: Action)
    requires Inv(s) && Enabled(s.client, a, s.server.log)
    ensures Inv(s.(client := Step(s.client, a)))
    ensures Step(s.client, a).pc.Aborted? <==> LateSyn(s.client, a)
  {
    var c := s.client;
    if IsLoop(c, a) {
      LoopKeeps(c, s.server, a);
      ClientLoopInv(s, Step(c, a));
    } else if a.Deliver? {
      ClientEstablishes(s, a.pkt);
      assert Step(c, a) == ClientMeets(c, a.pkt);
    } else {
      ClientSyn(s);
      assert a == Timeout ==> c.ep.(state := SynSent) == c.ep;
      assert Step(c, a) == ClientSends(c);
    }
  }

  lemma ServerStepInv(s: System, a: Action)
    requires Inv(s) && Enabled(s.server, a, s.client.log)
    ensures Inv(s.(server := Step(s.server, a)))
    ensures Step(s.server, a).pc.Aborted? <==> LateSyn(s.server, a)
  {
    var v := s.server;
    if IsLoop(v, a) {
      LoopKeeps(v, s.client, a);
      ServerLoopInv(s, Step(v, a));
    } else if !a.Deliver? {
      ServerListens(s);
      assert Step(v, a) == ServerOpens(v);
    } else if v.ep.state == Listen {
      ServerReceivesSyn(s, a.pkt);
      assert Step(v, a) == ServerMeets(v, a.pkt);
    } else {
      ReachesSynRcvd(s, a.pkt);
      if a.pkt.syn {
        ServerResends(s);
        assert Step(v, a) == ServerRepeats(v);
      } else {
        ServerEstablishes(s, a.pkt);
        assert Step(v, a) == ServerCompletes(v, a.pkt);
      }
    }
  }

  /** The invariant is inductive. */
  lemma NextInv(s: System, s': System)
    requires Inv(s) && Next(s, s')
    ensures Inv(s')
  {
    if a :| Enabled(s.client, a, s.server.log) && s' == s.(client := Step(s.client, a)) {
      ClientStepInv(s, a);
    } else {
      var a :| Enabled(s.server, a, s.client.log) && s' == s.(server := Step(s.server, a));
      ServerStepInv(s, a);
    }
  }

  lemma {:induction false} RunInv(run: seq<System>, i: nat)
    requires IsRun(run) && i < |run|
    ensures Inv(run[i])
  {
    if i == 0 {
      InitInv(run[0]);
    } else {
      RunInv(run, i - 1);
      assert NextAt(run, i - 1);
      NextInv(run[i - 1], run[i]);
    }
  }

  // ---------------------------------------------------------------- histories

  /** Histories and cursors only move forward, and a process that has left its loop changes no more. */
  ghost predicate Grows(p: Party, p': Party) {
    && p'.role == p.role && p'.isn == p.isn
    && p'.ep.send.cap == p.ep.send.cap && p'.ep.recv.cap == p.ep.recv.cap
    && p.log <= p'.log && p.wrote <= p'.wrote && p.got <= p'.got && p.accepted <= p'.accepted
    && p.ep.send.acked <= p'.ep.send.acked && p.ep.send.sent <= p'.ep.send.sent
    && (p.ep.Initialized() ==>
          p'.ep.Initialized() && p.ep.recv.next <= p'.ep.recv.next && p.ep.recv.read <= p'.ep.recv.read)
    && (!p.Alive() ==> p' == p)
  }

  lemma TickGrows(p: Party, net: seq<Packet>)
    requires p.ep.Ok() && Enabled(p, Tick, net)
    ensures Grows(p, TickStep(p))
  {
    match p.pc
    case Acking(pkt, _) =>
    case Receiving(pkt, _) =>
      if pkt.payload != [] {
        TakeOk(p.ep.recv, pkt);
      }
    case Sending => SendConservation(p.ep.send);
    case _ =>
  }

  lemma StepGrows(p: Party, a: Action, net: seq<Packet>)
    requires p.ep.Ok() && Enabled(p, a, net)
    ensures Grows(p, Step(p, a))
  {
    match a
    case Tick => TickGrows(p, net);
    case Read(len) => ReadKeeps(p.ep.recv, ReadLen(p.ep, len));
    case _ =>
  }

  ghost predicate BothGrow(s: System, s': System) {
    Grows(s.client, s'.client) && Grows(s.server, s'.server)
  }

  lemma NextGrows(s: System, s': System)
    requires Next(s, s')
    ensures BothGrow(s, s')
  {
    if a :| Enabled(s.client, a, s.server.log) && s.client.ep.Ok() && s' == s.(client := Step(s.client, a)) {
      StepGrows(s.client, a, s.server.log);
    } else {
      var a :| Enabled(s.server, a, s.client.log) && s.server.ep.Ok() && s' == s.(server := Step(s.server, a));
      StepGrows(s.server, a, s.client.log);
    }
  }

  lemma GrowsJoins(p: Party, q: Party, r: Party)
    requires Grows(p, q) && Grows(q, r)
    ensures Grows(p, r)
  {
  }

  lemma BothGrowJoins(r: System, s: System, t: System)
    requires BothGrow(r, s) && BothGrow(s, t)
    ensures BothGrow(r, t)
  {
    GrowsJoins(r.client, s.client, t.client);
    GrowsJoins(r.server, s.server, t.server);
  }

  lemma RunGrowsOnce(run: seq<System>, j: nat)
    requires IsRun(run) && 0 < j < |run|
    ensures BothGrow(run[j - 1], run[j])
  {
    assert NextAt(run, j - 1);
    NextGrows(run[j - 1], run[j]);
  }

  /** Along a run nothing is taken back: bytes written, bytes read, packets sent, and both ends' cursors. */
  lemma {:induction false} HistoriesGrow(run: seq<System>, i: nat, j: nat)
    requires IsRun(run) && i <= j < |run|
    ensures BothGrow(run[i], run[j])
    decreases j - i
  {
    if i < j {
      HistoriesGrow(run, i, j - 1);
      RunGrowsOnce(run, j);
      BothGrowJoins(run[i], run[j - 1], run[j]);
    }
  }

  // ---------------------------------------------------------------- delivery

  ghost predicate Delivers(x: Party, y: Party) {
    y.got <= x.wrote
  }

  /** Reliable in-order delivery, both ways: in every state of every run the bytes read so far are a prefix
      of the bytes written at the other end. */
  lemma ReliableDelivery(run: seq<System>, i: nat)
    requires IsRun(run) && i < |run|
    ensures Delivers(run[i].client, run[i].server) && Delivers(run[i].server, run[i].client)
  {
    RunInv(run, i);
    var s := run[i];
    assert s.server.got == s.client.wrote[..|s.server.got|];
    assert s.client.got == s.server.wrote[..|s.client.got|];
  }

  /** What a receiver holds of the peer's stream: exactly the byte numbers it ever accepted, nothing that was
      not sent, and every unread byte equal to the one written under its number. */
  lemma ReassemblyIsExact(run: seq<System>, i: nat)
    requires IsRun(run) && i < |run|
    ensures var c, v := run[i].client, run[i].server;
            && (v.ep.Initialized() ==>
                  HoldsExactly(v.ep.recv, c.isn, v.accepted)
                  && RecvOk(v.ep.recv, v.got, c.isn, c.wrote, c.ep.send.sent))
            && (c.ep.Initialized() ==>
                  HoldsExactly(c.ep.recv, v.isn, c.accepted)
                  && RecvOk(c.ep.recv, c.got, v.isn, v.wrote, v.ep.send.sent))
  {
    RunInv(run, i);
  }

  ghost predicate StillHolds(p: Party, p': Party, k: int) {
    p.ep.Initialized() && p.ep.recv.Holds(k) ==> p'.ep.recv.Holds(k)
  }

  /** What is held stays held. */
  lemma HeldStaysHeld(run: seq<System>, i: nat, j: nat, k: int)
    requires IsRun(run) && i <= j < |run|
    ensures StillHolds(run[i].client, run[j].client, k) && StillHolds(run[i].server, run[j].server, k)
  {
    ReassemblyIsExact(run, i);
    ReassemblyIsExact(run, j);
    HistoriesGrow(run, i, j);
    HoldsMore(run[i].client, run[j].client, run[i].server.isn, k);
    HoldsMore(run[i].server, run[j].server, run[i].client.isn, k);
  }

  lemma HoldsMore(p: Party, p': Party, isn: int, k: int)
    requires Grows(p, p')
    requires p.ep.Initialized() ==> HoldsExactly(p.ep.recv, isn, p.accepted)
    requires p'.ep.Initialized() ==> HoldsExactly(p'.ep.recv, isn, p'.accepted)
    ensures StillHolds(p, p', k)
  {
    if p.ep.Initialized() && p.ep.recv.Holds(k) {
      assert p'.ep.recv.Holds(k) <==> k <= isn || k in p'.accepted;
    }
  }

  // ---------------------------------------------------------------- cursors and acknowledgements

  /** The five cursors of a direction are in order, and no acknowledgement runs ahead of the receiver. */
  ghost predicate CursorChain(x: Party, y: Party) {
    && x.ep.send.acked + 1 <= y.ep.recv.next <= x.ep.send.sent + 1 <= x.ep.send.Next()
    && x.ep.send.Next() <= x.ep.send.acked + x.ep.send.cap
    && x.ep.send.Next() == x.isn + 1 + |x.wrote|
    && forall p {:trigger AckOk(p, x.isn, y.ep.recv.next)} | p in y.log :: AckOk(p, x.isn, y.ep.recv.next)
  }

  lemma CursorsInOrder(run: seq<System>, i: nat)
    requires IsRun(run) && i < |run|
    ensures run[i].server.ep.Initialized() ==> CursorChain(run[i].client, run[i].server)
    ensures run[i].client.ep.Initialized() ==> CursorChain(run[i].server, run[i].client)
  {
    RunInv(run, i);
    var c, v := run[i].client, run[i].server;
    if v.ep.Initialized() {
      NextIsSent(v.ep.recv, v.got, c.isn, c.wrote, c.ep.send.sent);
    }
    if c.ep.Initialized() {
      NextIsSent(c.ep.recv, c.got, v.isn, v.wrote, v.ep.send.sent);
    }
  }

  /** The window_t copies equal the numbers decoded from the buffers; handling the packet that completes the
      handshake is the one moment the server's copy still lags. */
  ghost predicate InSync(x: Party) {
    x.ep.state == Established && !x.pc.Aborted? ==>
      && x.ep.nextExp == x.ep.recv.next
      && (x.ep.lastAck == x.ep.send.acked + 1 || (x.pc.Acking? && x.pc.toTop && x.ep.lastAck == x.ep.send.acked))
  }

  lemma WindowStateInSync(run: seq<System>, i: nat)
    requires IsRun(run) && i < |run|
    ensures InSync(run[i].client) && InSync(run[i].server)
  {
    RunInv(run, i);
  }

  // ---------------------------------------------------------------- close

  /** Everything written reached the other end in order: it was read there or is ready to be. */
  ghost predicate AllReceived(x: Party, y: Party) {
    && y.ep.Initialized() && x.ep.send.pending == []
    && x.ep.send.acked == x.isn + |x.wrote| == y.ep.recv.next - 1
    && 0 <= y.ep.recv.MaxRead() <= |y.ep.recv.ring|
    && y.got + y.ep.recv.Front(y.ep.recv.MaxRead()) == x.wrote
  }

  lemma CloseIsGracefulAt(s: System, x: Party, y: Party)
    requires Inv(s) && (x, y) in {(s.client, s.server), (s.server, s.client)} && x.pc.Exited?
    ensures AllReceived(x, y)
  {
    NextIsSent(y.ep.recv, y.got, x.isn, x.wrote, x.ep.send.sent);
    var all := y.got + y.ep.recv.Front(y.ep.recv.MaxRead());
    forall i | 0 <= i < |all|
      ensures all[i] == x.wrote[i]
    {
      if |y.got| <= i {
        var k := x.isn + 1 + i;
        assert y.ep.recv.Holds(k) && y.ep.recv.ByteAt(k) == all[i];
      }
    }
  }

  /** Graceful close: once a backend has left its loop, every byte its application wrote has been acknowledged
      and lies in the in-order prefix of the peer, whatever was lost, duplicated or reordered. */
  lemma CloseIsGraceful(run: seq<System>, i: nat)
    requires IsRun(run) && i < |run|
    ensures run[i].client.pc.Exited? ==> AllReceived(run[i].client, run[i].server)
    ensures run[i].server.pc.Exited? ==> AllReceived(run[i].server, run[i].client)
  {
    RunInv(run, i);
    if run[i].client.pc.Exited? {
      CloseIsGracefulAt(run[i], run[i].client, run[i].server);
    }
    if run[i].server.pc.Exited? {
      CloseIsGracefulAt(run[i], run[i].server, run[i].client);
    }
  }

  // ---------------------------------------------------------------- handshake and aborts

  /** Handshake agreement: an established server has an established client, and each anchored receive buffer
      starts at the peer's initial number. */
  lemma HandshakeAgrees(run: seq<System>, i: nat)
    requires IsRun(run) && i < |run|
    ensures run[i].server.ep.state == Established ==> run[i].client.ep.state == Established
    ensures run[i].client.ep.state == Established ==> run[i].server.ep.Initialized()
    ensures run[i].server.ep.Initialized() ==>
      run[i].server.ep.recv.read == run[i].client.isn + |run[i].server.got|
    ensures run[i].client.ep.Initialized() ==>
      run[i].client.ep.recv.read == run[i].server.isn + |run[i].client.got|
  {
    RunInv(run, i);
  }

  ghost predicate AbortsOnLateSyn(p: Party, a: Action, net: seq<Packet>) {
    Enabled(p, a, net) ==> p.ep.Ok() && (Step(p, a).pc.Aborted? <==> LateSyn(p, a))
  }

  /** Of all the asserts on packets and cursors only one can fail in a run, and exactly then: the main loop
      is handed a packet with the SYN flag. */
  lemma AbortsExactlyOnLateSyn(run: seq<System>, i: nat, a: Action)
    requires IsRun(run) && i < |run|
    ensures AbortsOnLateSyn(run[i].client, a, run[i].server.log)
    ensures AbortsOnLateSyn(run[i].server, a, run[i].client.log)
  {
    RunInv(run, i);
    if Enabled(run[i].client, a, run[i].server.log) {
      ClientStepInv(run[i], a);
    }
    if Enabled(run[i].server, a, run[i].client.log) {
      ServerStepInv(run[i], a);
    }
  }

  function Last(run: seq<System>): System
    requires run != []
  {
    run[|run| - 1]
  }

  lemma Extends(run: seq<System>, s: System)
    requires IsRun(run) && Next(Last(run), s)
    ensures IsRun(run + [s]) && Last(run + [s]) == s
  {
    var all := run + [s];
    forall i | 0 <= i < |all| - 1
      ensures NextAt(all, i)
    {
      assert i < |run| - 1 ==> NextAt(run, i);
    }
  }

  // ---------------------------------------------------------------- window edges

  /** What x has sent since it was `x`: acknowledgements of exactly its in-order prefix, with the right
      window edge its buffer could hold at that moment. */
  ghost predicate CarriesEdge(x: Party, x': Party) {
    && x.log <= x'.log
    && forall p | p in x'.log[|x.log|..] ::
      !p.syn && p.ackNum == x.ep.recv.next && Edge(p) == x.ep.recv.read + x.ep.recv.cap
  }

  lemma EmitCarriesEdge(x: Party, x': Party, pkts: seq<Packet>)
    requires x'.log == x.log + pkts
    requires forall p | p in pkts :: !p.syn && p.ackNum == x.ep.recv.next && p.window == x.ep.recv.MaxReceive()
    ensures CarriesEdge(x, x')
  {
    assert x'.log[|x.log|..] == pkts;
  }

  lemma FreshCarriesEdge(x: Party)
    requires x.ep.Ok() && x.pc == Sending && x.ep.nextExp == x.ep.recv.next
    ensures CarriesEdge(x, TickStep(x))
  {
    var first := x.ep.send.sent + 1;
    PacketizeCarries(x.ep, first, x.ep.send.Bytes(first, FreshLen(x.ep)));
    EmitCarriesEdge(x, TickStep(x), SendFresh(x.ep).1);
  }

  lemma ResendCarriesEdge(x: Party)
    requires x.ep.Ok() && x.ep.nextExp == x.ep.recv.next && 0 < x.ep.send.Unacked()
    ensures CarriesEdge(x, Step(x, Retransmit))
  {
    var first := x.ep.send.acked + 1;
    PacketizeCarries(x.ep, first, x.ep.send.Bytes(first, ResendLen(x.ep)));
    EmitCarriesEdge(x, Step(x, Retransmit), Resend(x.ep));
  }

  lemma ReplyCarriesEdge(x: Party)
    requires x.ep.Ok() && x.pc.Replying? && x.ep.nextExp == x.ep.recv.next
    ensures CarriesEdge(x, TickStep(x))
  {
    EmitCarriesEdge(x, TickStep(x), [ReplyPacket(x.ep)]);
  }

  lemma QuietCarriesEdge(x: Party, a: Action)
    requires x.ep.Ok() && IsLoop(x, a) && !a.Retransmit?
    requires a.Tick? ==> !x.pc.Sending? && !x.pc.Replying?
    ensures CarriesEdge(x, Step(x, a))
  {
    assert Step(x, a).log == x.log;
  }

  /** Whatever an established endpoint sends acknowledges exactly its in-order prefix, and its right window
      edge is the number its buffer can hold at that moment. */
  lemma EmissionsCarryEdge(x: Party, y: Party, a: Action)
    requires Local(x, y.log) && Enabled(x, a, y.log) && IsLoop(x, a) && x.ep.state == Established
    ensures CarriesEdge(x, Step(x, a))
  {
    if a.Retransmit? {
      ResendCarriesEdge(x);
    } else if a.Tick? && x.pc.Sending? {
      FreshCarriesEdge(x);
    } else if a.Tick? && x.pc.Replying? {
      ReplyCarriesEdge(x);
    } else {
      QuietCarriesEdge(x, a);
    }
  }

  /** Along a run, every packet an established endpoint adds to the network carries that edge. */
  lemma EverySentEdge(run: seq<System>, i: nat)
    requires IsRun(run) && i + 1 < |run|
    ensures run[i].client.ep.state == Established ==> CarriesEdge(run[i].client, run[i + 1].client)
    ensures run[i].server.ep.state == Established ==> CarriesEdge(run[i].server, run[i + 1].server)
  {
    RunInv(run, i);
    var s, s' := run[i], run[i + 1];
    assert NextAt(run, i);
    if a :| Enabled(s.client, a, s.server.log) && s.client.ep.Ok() && s' == s.(client := Step(s.client, a)) {
      if s.client.ep.state == Established {
        EmissionsCarryEdge(s.client, s.server, a);
      }
    } else {
      var a :| Enabled(s.server, a, s.client.log) && s.server.ep.Ok() && s' == s.(server := Step(s.server, a));
      if s.server.ep.state == Established {
        EmissionsCarryEdge(s.server, s.client, a);
      }
    }
  }

  /** Packets j and k of x, in the order they were sent once established. */
  ghost predicate EdgesOrdered(x: Party, j: nat, k: nat) {
    x.ep.state == Established && x.hs <= j <= k < |x.log| ==>
      && x.log[j].ackNum <= x.log[k].ackNum <= x.ep.recv.next
      && Edge(x.log[j]) <= Edge(x.log[k]) <= x.ep.recv.read + x.ep.recv.cap
  }

  /** The advertised right edge never shrinks, and the acknowledgement never goes back. */
  lemma RightEdgeNeverShrinks(run: seq<System>, i: nat, j: nat, k: nat)
    requires IsRun(run) && i < |run|
    ensures EdgesOrdered(run[i].client, j, k) && EdgesOrdered(run[i].server, j, k)
  {
    RunInv(run, i);
    EdgesAt(run[i].client, j, k);
    EdgesAt(run[i].server, j, k);
  }

  lemma EdgesAt(x: Party, j: nat, k: nat)
    requires Edges(x)
    ensures EdgesOrdered(x, j, k)
  {
    if x.ep.state == Established && x.hs <= j <= k < |x.log| {
      assert Promises(x.log, k, x.ep.recv.next, x.ep.recv.read + x.ep.recv.cap);
      assert j < k ==> Promises(x.log, j, x.log[k].ackNum, Edge(x.log[k]));
    }
  }

  // ---------------------------------------------------------------- 32 bits

  /** The stream of x and a window beyond it stay below 2^32. */
  ghost predicate Bounded(x: Party, y: Party) {
    x.isn + |x.wrote| + Max(x.ep.send.cap, y.ep.recv.cap) < TWO_32
  }

  /** Every number of the direction from x to y fits the 32-bit fields and computations of both buffers. */
  ghost predicate Fits32(x: Party, y: Party) {
    && 0 <= x.ep.send.acked && x.ep.send.sent + x.ep.send.cap < TWO_32
    && (y.ep.Initialized() ==> 0 <= y.ep.recv.read && y.ep.recv.next - 1 + y.ep.recv.cap < TWO_32)
    && forall p | p in x.log :: p.seqNum + |p.payload| < TWO_32
  }

  lemma LogFits(log: seq<Packet>, isn: int, wrote: seq<uint8>, sent: int, peer: int, next: int)
    requires Shaped(log) && LogCarries(log, isn, wrote, sent) && 0 <= isn && sent + 1 < TWO_32
    requires AcksOk(log, peer, next) && 0 <= peer && next < TWO_32
    ensures forall p | p in log :: p.Fits() && p.seqNum + |p.payload| < TWO_32
  {
    forall p | p in log
      ensures p.Fits() && p.seqNum + |p.payload| < TWO_32
    {
      assert InStream(p, isn, wrote, sent) && ShapedPacket(p) && AckOk(p, peer, next);
    }
  }

  lemma LogOfDirectionFits(x: Party, y: Party)
    requires 0 <= x.isn && 0 <= y.isn && Shaped(x.log) && Dir(x, y) && Dir(y, x)
    requires Bounded(x, y) && Bounded(y, x)
    ensures forall p | p in x.log :: p.Fits() && p.seqNum + |p.payload| < TWO_32
  {
    if x.ep.Initialized() {
      NextIsSent(x.ep.recv, x.got, y.isn, y.wrote, y.ep.send.sent);
      LogFits(x.log, x.isn, x.wrote, x.ep.send.sent, y.isn, x.ep.recv.next);
    } else {
      assert forall p | p in x.log :: CarriesNoAck(p) && AckOk(p, 0, 0);
      LogFits(x.log, x.isn, x.wrote, x.ep.send.sent, 0, 0);
    }
  }

  lemma DirectionFits(x: Party, y: Party)
    requires 0 <= x.isn && 0 <= y.isn && Shaped(x.log) && Dir(x, y) && Dir(y, x)
    requires Bounded(x, y) && Bounded(y, x)
    ensures Fits32(x, y)
  {
    LogOfDirectionFits(x, y);
    if y.ep.Initialized() {
      NextIsSent(y.ep.recv, y.got, x.isn, x.wrote, x.ep.send.sent);
    }
  }

  /** In a run that ends within the bound, every packet fits its wire fields and no sequence number of
      either buffer wraps, in every state. */
  lemma BoundedRunsFit(run: seq<System>, i: nat)
    requires IsRun(run) && i < |run|
    requires Bounded(Last(run).client, Last(run).server) && Bounded(Last(run).server, Last(run).client)
    ensures Fits32(run[i].client, run[i].server) && Fits32(run[i].server, run[i].client)
    ensures forall p | p in run[i].client.log || p in run[i].server.log :: p.Fits()
  {
    RunInv(run, i);
    HistoriesGrow(run, i, |run| - 1);
    var c, v := run[i].client, run[i].server;
    LogOfDirectionFits(c, v);
    LogOfDirectionFits(v, c);
    DirectionFits(c, v);
    DirectionFits(v, c);
  }

  /** What the socket methods for the sections of handle_message and for cmu_read ask of their callers. */
  ghost predicate SectionsCallable(x: Party) {
    && (x.pc.Acking? ==>
          && x.pc.pkt.Fits() && AckInRange(x.ep, x.pc.pkt)
          && x.ep.send.sent + x.ep.send.cap < TWO_32)
    && (x.pc.Receiving? ==> x.pc.pkt.Fits() && x.pc.pkt.seqNum + |x.pc.pkt.payload| < TWO_32)
    && (x.ep.Initialized() ==> x.ep.recv.next - 1 + x.ep.recv.cap < TWO_32)
  }

  /** Wherever a bounded run stands, the 32-bit methods may be called. */
  lemma SectionsAreCallable(run: seq<System>, i: nat)
    requires IsRun(run) && i < |run|
    requires Bounded(Last(run).client, Last(run).server) && Bounded(Last(run).server, Last(run).client)
    ensures SectionsCallable(run[i].client) && SectionsCallable(run[i].server)
  {
    RunInv(run, i);
    BoundedRunsFit(run, i);
    var c, v := run[i].client, run[i].server;
    if c.pc.Acking? {
      AcksAreInRange(c, v, c.pc.pkt);
    }
    if v.pc.Acking? {
      AcksAreInRange(v, c, v.pc.pkt);
    }
  }

  /** What the socket methods for the handshake ask of the packet they are given. */
  ghost predicate HandshakeCallable(x: Party, pkt: Packet) {
    && pkt.Fits()
    && (x.ep.state == SynSent ==> ClientAsserts(x.ep, pkt) && pkt.seqNum + x.ep.recv.cap < TWO_32)
    && (x.ep.state == Listen ==> ListenAsserts(x.ep, pkt) && pkt.seqNum + x.ep.recv.cap < TWO_32)
    && (x.ep.state == SynRcvd ==> (Completes(x.ep, pkt) || pkt.syn) && x.ep.lastAck + 1 < TWO_32)
  }

  /** Whatever the network of a bounded run delivers during the handshake, they may be called. */
  lemma HandshakeIsCallable(run: seq<System>, i: nat, pkt: Packet)
    requires IsRun(run) && i < |run|
    requires Bounded(Last(run).client, Last(run).server) && Bounded(Last(run).server, Last(run).client)
    ensures var c, v := run[i].client, run[i].server;
            && (c.pc == Handshake && c.ep.state != Closed && pkt in v.log ==> HandshakeCallable(c, pkt))
            && (v.pc == Handshake && v.ep.state != Closed && pkt in c.log ==> HandshakeCallable(v, pkt))
  {
    RunInv(run, i);
    BoundedRunsFit(run, i);
    HistoriesGrow(run, i, |run| - 1);
    var s := run[i];
    if s.client.pc == Handshake && s.client.ep.state == SynSent && pkt in s.server.log {
      ReachesSynSent(s, pkt);
    }
    if s.server.pc == Handshake && s.server.ep.state == Listen && pkt in s.client.log {
      ReachesListen(s, pkt);
    }
    if s.server.pc == Handshake && s.server.ep.state == SynRcvd && pkt in s.client.log {
      ReachesSynRcvd(s, pkt);
    }
  }
}
