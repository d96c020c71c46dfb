/** How far a run of the model is a run of the code as written, whose two copies out of the send ring do not
    wrap as they should. */
module AsWritten {
  import opened Types
  import opened CmuPacket
  import opened SendViews
  import opened Endpoints
  import opened TwoParty
  import opened Theorems

  // ---------------------------------------------------------------- one call

  /** Every copy of multiple_send, one a packet, is right as the source writes it. */
  ghost predicate FreshStraight(ep: Endpoint, isn: int)
    requires ep.Ok()
  {
    forall q | q in SendFresh(ep).1 :: Straight(ep.send, isn, q.seqNum, |q.payload|)
  }

  /** Every copy of resend_unacknowledged is. */
  ghost predicate ResendStraight(ep: Endpoint, isn: int)
    requires ep.Ok() && 0 < ep.send.Unacked()
  {
    forall q | q in Resend(ep) :: Place(isn, ep.send.cap, q.seqNum) + |q.payload| <= ep.send.cap
  }

  /** A run of bytes is straight exactly when the packets it is cut into are. */
  lemma {:induction false} PacketsStraightIff(ep: Endpoint, isn: int, first: int, data: seq<uint8>, off: nat)
    requires off < |data| < ep.send.cap && isn <= first
    ensures (forall q | q in PacketizeFrom(ep, first, data, off) :: Straight(ep.send, isn, q.seqNum, |q.payload|))
       <==> Straight(ep.send, isn, first + off, |data| - off)
    decreases |data| - off
  {
    var n := Min(|data| - off, MSS);
    var all := PacketizeFrom(ep, first, data, off);
    var rest := PacketizeFrom(ep, first, data, off + n);
    var q := DataPacket(ep, first + off, Cut(data, off, n));
    assert all == [q] + rest && q in all;
    assert forall r | r in rest :: r in all;
    if off + n < |data| {
      StraightSplits(ep.send, isn, first + off, n, |data| - off);
      PacketsStraightIff(ep, isn, first, data, off + n);
    } else {
      assert rest == [];
    }
  }

  /** A fresh send that starts before number isn + capacity is right exactly when it ends before it. */
  lemma FreshStraightIff(ep: Endpoint, isn: int)
    requires ep.Ok() && isn <= ep.send.acked && ep.send.sent < isn + ep.send.cap && 0 < FreshLen(ep)
    ensures FreshStraight(ep, isn) <==> ep.send.sent + FreshLen(ep) < isn + ep.send.cap
  {
    var first, n := ep.send.sent + 1, FreshLen(ep);
    SendConservation(ep.send);
    StraightIff(ep.send, isn, n);
    PacketsStraightIff(ep, isn, first, ep.send.Bytes(first, n), 0);
  }

  lemma ResendIsStraight(ep: Endpoint, isn: int)
    requires ep.Ok() && isn <= ep.send.acked && ep.send.sent < isn + ep.send.cap && 0 < ep.send.Unacked()
    ensures ResendStraight(ep, isn)
  {
    var first, n := ep.send.acked + 1, ResendLen(ep);
    var data := ep.send.Bytes(first, n);
    PacketizeCarries(ep, first, data);
    forall q | q in Resend(ep)
      ensures Place(isn, ep.send.cap, q.seqNum) + |q.payload| <= ep.send.cap
    {
      assert Carries(q, first, data) && IsData(ep, q);
      PlaceOfNear(isn, ep.send.cap, q.seqNum);
    }
  }

  // ---------------------------------------------------------------- a run

  /** Only multiple_send moves the sent cursor. */
  lemma SentMoves(p: Party, a: Action, net: seq<Packet>)
    requires p.ep.Ok() && Enabled(p, a, net) && Step(p, a).ep.send.sent != p.ep.send.sent
    ensures p.pc == Sending && Step(p, a).ep.send.sent == p.ep.send.sent + FreshLen(p.ep)
  {
    if a.Tick? && p.pc.Acking? && AckInRange(p.ep, p.pc.pkt) {
      AckKeepsSent(p.ep.send, p.pc.pkt.ackNum);
    }
  }

  lemma AckKeepsSent(v: SendView, ack: int)
    requires ack <= v.Next()
    ensures v.Ack(ack).sent == v.sent
  {
  }

  /** The copies of r's step from state m, if it sends fresh bytes, are right as written. */
  ghost predicate StraightAt(run: seq<System>, r: Role, m: nat)
    requires m + 1 < |run|
  {
    var p, p' := Of(run[m], r), Of(run[m + 1], r);
    p'.ep.send.sent == p.ep.send.sent || (p.ep.Ok() && FreshStraight(p.ep, p.isn))
  }

  ghost predicate StraightUpTo(run: seq<System>, r: Role, j: nat)
    requires j < |run|
  {
    forall m {:trigger StraightAt(run, r, m)} | 0 <= m < j :: StraightAt(run, r, m)
  }

  /** The sent cursor has not come to the number whose place is the front of the array again. */
  ghost predicate FirstTurn(p: Party) {
    p.ep.send.sent < p.isn + p.ep.send.cap
  }

  lemma StepStraight(p: Party, a: Action, net: seq<Packet>)
    requires p.ep.Ok() && p.isn <= p.ep.send.acked && Enabled(p, a, net) && FirstTurn(p)
    ensures Step(p, a).ep.send.sent == p.ep.send.sent || FreshStraight(p.ep, p.isn) <==> FirstTurn(Step(p, a))
  {
    StepGrows(p, a, net);
    if Step(p, a).ep.send.sent != p.ep.send.sent {
      SentMoves(p, a, net);
      SendConservation(p.ep.send);
      FreshStraightIff(p.ep, p.isn);
    }
  }

  lemma NextStraight(run: seq<System>, r: Role, m: nat)
    requires IsRun(run) && m + 1 < |run| && Inv(run[m]) && FirstTurn(Of(run[m], r))
    ensures StraightAt(run, r, m) <==> FirstTurn(Of(run[m + 1], r))
  {
    assert NextAt(run, m);
    var s, s' := run[m], run[m + 1];
    if a :| Enabled(s.client, a, s.server.log) && s.client.ep.Ok() && s' == s.(client := Step(s.client, a)) {
      if r == Client {
        StepStraight(s.client, a, s.server.log);
      }
    } else {
      var a :| Enabled(s.server, a, s.client.log) && s.server.ep.Ok() && s' == s.(server := Step(s.server, a));
      if r == Server {
        StepStraight(s.server, a, s.client.log);
      }
    }
  }

  lemma UpToSplits(run: seq<System>, r: Role, j: nat)
    requires 0 < j < |run|
    ensures StraightUpTo(run, r, j) <==> StraightUpTo(run, r, j - 1) && StraightAt(run, r, j - 1)
  {
    if StraightUpTo(run, r, j) {
      assert StraightAt(run, r, j - 1);
    }
  }

  /** The sent cursor never comes back to the first turn. */
  lemma TurnIsOver(run: seq<System>, r: Role, m: nat)
    requires IsRun(run) && m + 1 < |run| && !FirstTurn(Of(run[m], r))
    ensures !FirstTurn(Of(run[m + 1], r))
  {
    HistoriesGrow(run, m, m + 1);
  }

  /** In every run, every fresh send so far was copied right as written exactly while fewer than a capacity of
      bytes have been sent. */
  lemma {:induction false} StraightExactlyOnFirstTurn(run: seq<System>, r: Role, j: nat)
    requires IsRun(run) && j < |run|
    ensures StraightUpTo(run, r, j) <==> FirstTurn(Of(run[j], r))
  {
    if j == 0 {
      RunInv(run, 0);
    } else {
      StraightExactlyOnFirstTurn(run, r, j - 1);
      UpToSplits(run, r, j);
      if FirstTurn(Of(run[j - 1], r)) {
        RunInv(run, j - 1);
        NextStraight(run, r, j - 1);
      } else {
        TurnIsOver(run, r, j - 1);
      }
    }
  }

  /** Until then every retransmission is copied right as written too, in every state. */
  lemma ResendsStraight(run: seq<System>, r: Role, i: nat, j: nat)
    requires IsRun(run) && i <= j < |run| && StraightUpTo(run, r, j)
    ensures Of(run[i], r).ep.Ok()
    ensures 0 < Of(run[i], r).ep.send.Unacked() ==> ResendStraight(Of(run[i], r).ep, Of(run[i], r).isn)
  {
    RunInv(run, i);
    StraightExactlyOnFirstTurn(run, r, j);
    HistoriesGrow(run, i, j);
    var p := Of(run[i], r);
    if 0 < p.ep.send.Unacked() {
      ResendIsStraight(p.ep, p.isn);
    }
  }

  /** So the code as written never hands over a capacity of bytes in one direction: a run in which it would
      have is one in which it copies wrongly first. */
  lemma CarriesLessThanCapacity(run: seq<System>, r: Role, j: nat)
    requires IsRun(run) && j < |run| && StraightUpTo(run, r, j)
    ensures |Of(run[j], Peer(r)).got| < Of(run[j], r).ep.send.cap
  {
    RunInv(run, j);
    StraightExactlyOnFirstTurn(run, r, j);
  }

  /** Where everything written has been read, the copies were right as written exactly when it was less than a
      capacity of bytes. */
  lemma WholeStreamStraightIff(run: seq<System>, r: Role, j: nat)
    requires IsRun(run) && j < |run| && Of(run[j], Peer(r)).got == Of(run[j], r).wrote
    ensures StraightUpTo(run, r, j) <==> |Of(run[j], r).wrote| < Of(run[j], r).ep.send.cap
  {
    RunInv(run, j);
    StraightExactlyOnFirstTurn(run, r, j);
  }
}
