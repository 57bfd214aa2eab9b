/** The two announce scenarios of the tracker's test suite, replayed against
    the model.  Each incoming message goes through `ProcessMessage`; what the
    suite observes — the swarms and their peer maps, and the messages each
    peer's `sendMessage` received since its calls were last reset — is read
    off the tracker's state and the part of its outbox one announce added.
    Peer `i` of a scenario is connection `Handle(i)`. */
module AnnounceScenarios {
  import opened Messages
  import opened Swarms
  import opened Tracker

  /** The announce message a test peer sends. */
  function AnnounceMessage(event: Option<string>, infoHash: string, peerId: string,
                           offers: seq<Offer>, numwant: int): (m: Message)
    ensures Decode(m).Ok? <==> ParseEvent(event).Ok?
    ensures Decode(m).Ok? ==>
      Decode(m).value == Announce(infoHash, peerId, ParseEvent(event).value, offers,
                                  if numwant > 0 then numwant else 0)
  {
    Message(AnnounceAction, event, Some(infoHash), Some(peerId), Some(offers), Some(numwant))
  }

  // ----- should add peers to swarms on announce -----

  /** The registries the first scenario passes through. */
  const OnePeer: Registry := map["swarm1" := SwarmState(map["0" := Handle(0)], {})]
  const TwoPeers: Registry := map["swarm1" := SwarmState(map["0" := Handle(0), "1" := Handle(1)], {})]
  const TwoSwarms: Registry := TwoPeers["swarm2" := SwarmState(map["2_0" := Handle(2)], {"2_0"})]
  const FourPeers: Registry :=
    TwoPeers["swarm2" := SwarmState(map["2_0" := Handle(2), "2_1" := Handle(3)], {"2_0", "2_1"})]

  function JoinStarted(): (m: Message)
    ensures Decode(m) == Ok(Announce("swarm1", "0", Started, [], 100))
  {
    AnnounceMessage(Some(StartedName), "swarm1", "0", [], 100)
  }

  function JoinNoEvent(): (m: Message)
    ensures Decode(m) == Ok(Announce("swarm1", "1", Update, [], 100))
  {
    AnnounceMessage(None, "swarm1", "1", [], 100)
  }

  function RejoinStarted(): (m: Message)
    ensures Decode(m) == Ok(Announce("swarm1", "1", Started, [], 100))
  {
    AnnounceMessage(Some(StartedName), "swarm1", "1", [], 100)
  }

  function CompleteFirst(): (m: Message)
    ensures Decode(m) == Ok(Announce("swarm2", "2_0", Completed, [], 100))
  {
    AnnounceMessage(Some(CompletedName), "swarm2", "2_0", [], 100)
  }

  function CompleteSecond(): (m: Message)
    ensures Decode(m) == Ok(Announce("swarm2", "2_1", Completed, [], 100))
  {
    AnnounceMessage(Some(CompletedName), "swarm2", "2_1", [], 100)
  }

  /** The registry after each announce of the first scenario: peer 0 opens
      swarm1; peer 1 joins it; peer 1's second announce changes nothing;
      peers 2_0 and 2_1 open and join swarm2 and leave swarm1 alone. */
  lemma FirstPeerRegistry()
    ensures ApplyAnnounce(map[], Decode(JoinStarted()).value, Handle(0)) == OnePeer
  {
  }

  lemma SecondPeerRegistry()
    ensures ApplyAnnounce(OnePeer, Decode(JoinNoEvent()).value, Handle(1)) == TwoPeers
    ensures ApplyAnnounce(TwoPeers, Decode(RejoinStarted()).value, Handle(1)) == TwoPeers
  {
  }

  lemma OtherSwarmRegistry()
    ensures ApplyAnnounce(TwoPeers, Decode(CompleteFirst()).value, Handle(2)) == TwoSwarms
    ensures TwoSwarms.Keys == {"swarm1", "swarm2"}
  {
    assert "swarm2" !in TwoPeers;
    assert Admit(Empty, "2_0", Completed, Handle(2)) == TwoSwarms["swarm2"];
  }

  lemma FourPeersRegistry()
    ensures ApplyAnnounce(TwoSwarms, Decode(CompleteSecond()).value, Handle(3)) == FourPeers
    ensures FourPeers.Keys == {"swarm1", "swarm2"}
  {
    assert Admit(TwoSwarms["swarm2"], "2_1", Completed, Handle(3)) == FourPeers["swarm2"];
  }

  /** Peer 0 starts swarm1 on an empty tracker: the tracker has swarm1
      alone, holding peer 0 under its connection. */
  method FirstPeerStarts(t: FastTracker)
    requires t.Valid() && t.registry == map[]
    modifies t, t.swarms.Values
    ensures fresh(t.swarms.Values - old(t.swarms.Values))
    ensures t.Valid() && t.registry == OnePeer
    ensures t.swarms.Keys == {"swarm1"}
    ensures t.swarms["swarm1"].peers == map["0" := Handle(0)]
  {
    FirstPeerRegistry();
    var err, targets := t.ProcessMessage(JoinStarted(), Handle(0));
  }

  /** Peer 1 announces into swarm1 without an event: it is added beside
      peer 0, who keeps its connection. */
  method SecondPeerJoins(t: FastTracker)
    requires t.Valid() && t.registry == OnePeer
    modifies t, t.swarms.Values
    ensures fresh(t.swarms.Values - old(t.swarms.Values))
    ensures t.Valid() && t.registry == TwoPeers
    ensures t.swarms.Keys == {"swarm1"}
    ensures t.swarms["swarm1"].peers == map["0" := Handle(0), "1" := Handle(1)]
  {
    SecondPeerRegistry();
    var err, targets := t.ProcessMessage(JoinNoEvent(), Handle(1));
  }

  /** Peer 1 announces `started` again: nothing changes. */
  method SecondPeerRestarts(t: FastTracker)
    requires t.Valid() && t.registry == TwoPeers
    modifies t, t.swarms.Values
    ensures fresh(t.swarms.Values - old(t.swarms.Values))
    ensures t.Valid() && t.registry == TwoPeers
    ensures t.swarms.Keys == {"swarm1"}
    ensures t.swarms["swarm1"].peers == map["0" := Handle(0), "1" := Handle(1)]
  {
    SecondPeerRegistry();
    var err, targets := t.ProcessMessage(RejoinStarted(), Handle(1));
  }

  /** Peer 2_0 completes into swarm2: a second swarm appears, holding just
      it, and swarm1 is untouched. */
  method OtherSwarmOpens(t: FastTracker)
    requires t.Valid() && t.registry == TwoPeers
    modifies t, t.swarms.Values
    ensures fresh(t.swarms.Values - old(t.swarms.Values))
    ensures t.Valid() && t.registry == TwoSwarms
    ensures t.swarms.Keys == {"swarm1", "swarm2"}
    ensures t.swarms["swarm1"].peers == map["0" := Handle(0), "1" := Handle(1)]
    ensures t.swarms["swarm2"].peers == map["2_0" := Handle(2)]
  {
    OtherSwarmRegistry();
    var err, targets := t.ProcessMessage(CompleteFirst(), Handle(2));
  }

  /** Peer 2_1 completes into swarm2: it joins peer 2_0 there, and swarm1
      is untouched. */
  method OtherSwarmGrows(t: FastTracker)
    requires t.Valid() && t.registry == TwoSwarms
    modifies t, t.swarms.Values
    ensures fresh(t.swarms.Values - old(t.swarms.Values))
    ensures t.Valid() && t.registry == FourPeers
    ensures t.swarms.Keys == {"swarm1", "swarm2"}
    ensures t.swarms["swarm1"].peers == map["0" := Handle(0), "1" := Handle(1)]
    ensures t.swarms["swarm2"].peers == map["2_0" := Handle(2), "2_1" := Handle(3)]
  {
    FourPeersRegistry();
    var err, targets := t.ProcessMessage(CompleteSecond(), Handle(3));
  }

  /** The whole first scenario, from a new tracker: swarm1 ends with peers 0
      and 1, and swarm2 with peers 2_0 and 2_1, each under its connection. */
  method AddPeersToSwarms() returns (t: FastTracker)
    ensures t.Valid() && t.registry == FourPeers
    ensures t.swarms.Keys == {"swarm1", "swarm2"}
    ensures t.swarms["swarm1"].peers == map["0" := Handle(0), "1" := Handle(1)]
    ensures t.swarms["swarm2"].peers == map["2_0" := Handle(2), "2_1" := Handle(3)]
  {
    t := new FastTracker();
    FirstPeerStarts(t);
    SecondPeerJoins(t);
    SecondPeerRestarts(t);
    OtherSwarmFills(t);
  }

  /** The last two steps of the first scenario: peers 2_0 and 2_1 open and
      join swarm2, and swarm1 is untouched. */
  method OtherSwarmFills(t: FastTracker)
    requires t.Valid() && t.registry == TwoPeers
    modifies t, t.swarms.Values
    ensures fresh(t.swarms.Values - old(t.swarms.Values))
    ensures t.Valid() && t.registry == FourPeers
    ensures t.swarms.Keys == {"swarm1", "swarm2"}
    ensures t.swarms["swarm1"].peers == map["0" := Handle(0), "1" := Handle(1)]
    ensures t.swarms["swarm2"].peers == map["2_0" := Handle(2), "2_1" := Handle(3)]
  {
    ghost var before := t.swarms.Values;
    OtherSwarmOpens(t);
    ghost var between := t.swarms.Values;
    OtherSwarmGrows(t);
    assert t.swarms.Values - before <= (t.swarms.Values - between) + (between - before);
  }

  // ----- should send offers to peers in the swarm -----

  /** Ten identical offers, as every announce of the second scenario
      carries. */
  function TenOffers(): (r: seq<Offer>)
    ensures |r| == 10 && forall i :: 0 <= i < |r| ==> r[i] == Offer("x", "y")
  {
    seq(10, _ => Offer("x", "y"))
  }

  /** The relay of one of those offers from `peerId` in `infoHash`, as the
      suite expects it: action `announce`, the announcer's `peer_id`,
      `offer_id` "y" and an `offer` of type `offer` with sdp "x". */
  function ExpectedRelay(infoHash: InfoHash, peerId: PeerId): Outgoing
  {
    OfferRelay(AnnounceAction, infoHash, peerId, "y", SessionDescription(OfferType, "x"))
  }

  function OffererStarts(): (m: Message)
    ensures Decode(m) == Ok(Announce("swarm1", "0", Started, TenOffers(), 10))
  {
    AnnounceMessage(Some(StartedName), "swarm1", "0", TenOffers(), 10)
  }

  function SeederCompletes(): (m: Message)
    ensures Decode(m) == Ok(Announce("swarm1", "1", Completed, TenOffers(), 10))
  {
    AnnounceMessage(Some(CompletedName), "swarm1", "1", TenOffers(), 10)
  }

  function LoneStarts(): (m: Message)
    ensures Decode(m) == Ok(Announce("swarm2", "2", Started, TenOffers(), 10))
  {
    AnnounceMessage(Some(StartedName), "swarm2", "2", TenOffers(), 10)
  }

  function PartnerCompletes(): (m: Message)
    ensures Decode(m) == Ok(Announce("swarm2", "3", Completed, TenOffers(), 10))
  {
    AnnounceMessage(Some(CompletedName), "swarm2", "3", TenOffers(), 10)
  }

  function LastWantsOne(): (m: Message)
    ensures Decode(m) == Ok(Announce("swarm2", "4", Completed, TenOffers(), 1))
  {
    AnnounceMessage(Some(CompletedName), "swarm2", "4", TenOffers(), 1)
  }

  /** The registries the second scenario passes through. */
  const Seeded: Registry := map["swarm1" := SwarmState(map["0" := Handle(0), "1" := Handle(1)], {"1"})]
  const LoneSwarm: Registry := Seeded["swarm2" := SwarmState(map["2" := Handle(2)], {})]
  const PairSwarm: Registry := Seeded["swarm2" := SwarmState(map["2" := Handle(2), "3" := Handle(3)], {"3"})]
  const TrioSwarm: Registry :=
    Seeded["swarm2" := SwarmState(map["2" := Handle(2), "3" := Handle(3), "4" := Handle(4)], {"3", "4"})]

  /** In every swarm of the second scenario each peer has its own
      connection, and the peers of swarm2 are not peers 0 and 1. */
  lemma SeededHandles()
    ensures DistinctHandles(Seeded["swarm1"].peers)
  {
  }

  lemma LoneHandles()
    ensures DistinctHandles(LoneSwarm["swarm2"].peers)
    ensures forall p :: p in LoneSwarm["swarm2"].peers ==>
      LoneSwarm["swarm2"].peers[p] != Handle(0) && LoneSwarm["swarm2"].peers[p] != Handle(1)
  {
  }

  lemma PairHandles()
    ensures DistinctHandles(PairSwarm["swarm2"].peers)
    ensures forall p :: p in PairSwarm["swarm2"].peers ==>
      PairSwarm["swarm2"].peers[p] != Handle(0) && PairSwarm["swarm2"].peers[p] != Handle(1)
  {
  }

  lemma TrioHandles()
    ensures DistinctHandles(TrioSwarm["swarm2"].peers)
    ensures forall p :: p in TrioSwarm["swarm2"].peers ==>
      TrioSwarm["swarm2"].peers[p] != Handle(0) && TrioSwarm["swarm2"].peers[p] != Handle(1)
  {
  }

  /** The registry after each announce of the second scenario: peer 0
      opens swarm1, peer 1 completes into it, peer 2 opens swarm2, and peers
      3 and 4 complete into swarm2. */
  lemma OffererRegistry()
    ensures ApplyAnnounce(map[], Decode(OffererStarts()).value, Handle(0)) == OnePeer
  {
  }

  lemma SeederRegistry()
    ensures ApplyAnnounce(OnePeer, Decode(SeederCompletes()).value, Handle(1)) == Seeded
  {
    assert Admit(OnePeer["swarm1"], "1", Completed, Handle(1)) == Seeded["swarm1"];
  }

  lemma LoneRegistry()
    ensures ApplyAnnounce(Seeded, Decode(LoneStarts()).value, Handle(2)) == LoneSwarm
  {
    assert "swarm2" !in Seeded;
  }

  lemma PartnerRegistry()
    ensures ApplyAnnounce(LoneSwarm, Decode(PartnerCompletes()).value, Handle(3)) == PairSwarm
  {
    assert Admit(LoneSwarm["swarm2"], "3", Completed, Handle(3)) == PairSwarm["swarm2"];
  }

  lemma LastRegistry()
    ensures ApplyAnnounce(PairSwarm, Decode(LastWantsOne()).value, Handle(4)) == TrioSwarm
  {
    assert Admit(PairSwarm["swarm2"], "4", Completed, Handle(4)) == TrioSwarm["swarm2"];
  }

  /** Peer 0 opens swarm1 with ten offers and nobody to relay them to: it
      is told the swarm has no complete and one incomplete peer, and that is
      the only message sent. */
  lemma OffererResponse(targets: seq<PeerId>)
    requires FanOut(targets, OnePeer["swarm1"].peers, Decode(OffererStarts()).value)
    ensures Inbox(Response(Decode(OffererStarts()).value, Handle(0), OnePeer["swarm1"], targets), Handle(0))
         == [AnnounceReply(AnnounceAction, "swarm1", 0, 1)]
    ensures |Response(Decode(OffererStarts()).value, Handle(0), OnePeer["swarm1"], targets)| == 1
  {
    AnnouncerInbox(Decode(OffererStarts()).value, Handle(0), OnePeer["swarm1"], targets);
  }

  /** Step 1: `processMessage` on peer 0's announce; only peer 0 hears back. */
  method OffererFirst(t: FastTracker)
    requires t.Valid() && t.registry == map[]
    modifies t, t.swarms.Values
    ensures fresh(t.swarms.Values - old(t.swarms.Values))
    ensures t.Valid() && t.registry == OnePeer
    ensures |old(t.outbox)| <= |t.outbox|
    ensures Inbox(t.outbox[|old(t.outbox)|..], Handle(0)) == [AnnounceReply(AnnounceAction, "swarm1", 0, 1)]
  {
    OffererRegistry();
    var err, targets := t.ProcessMessage(OffererStarts(), Handle(0));
    OffererResponse(targets);
    assert t.outbox[|old(t.outbox)|..]
        == Response(Decode(OffererStarts()).value, Handle(0), OnePeer["swarm1"], targets);
  }

  /** Peer 1 completes into swarm1: it is told of one complete peer (itself)
      and one incomplete (peer 0), and peer 0, its only other peer, gets
      exactly one of its offers. */
  lemma SeederResponse(targets: seq<PeerId>)
    requires FanOut(targets, Seeded["swarm1"].peers, Decode(SeederCompletes()).value)
    ensures Inbox(Response(Decode(SeederCompletes()).value, Handle(1), Seeded["swarm1"], targets), Handle(1))
         == [AnnounceReply(AnnounceAction, "swarm1", 1, 1)]
    ensures Inbox(Response(Decode(SeederCompletes()).value, Handle(1), Seeded["swarm1"], targets), Handle(0))
         == [ExpectedRelay("swarm1", "1")]
  {
    var a, s := Decode(SeederCompletes()).value, Seeded["swarm1"];
    assert s.peers.Keys - {a.peerId} == {"0"};
    assert targets == ["0"];
    SeededHandles();
    AnnouncerInbox(a, Handle(1), s, targets);
    TargetInbox(a, Handle(1), s, targets, 0);
  }

  /** Step 2: peer 1's announce; peer 1 gets its reply, peer 0 one relay. */
  method SeederSecond(t: FastTracker)
    requires t.Valid() && t.registry == OnePeer
    modifies t, t.swarms.Values
    ensures fresh(t.swarms.Values - old(t.swarms.Values))
    ensures t.Valid() && t.registry == Seeded
    ensures |old(t.outbox)| <= |t.outbox|
    ensures Inbox(t.outbox[|old(t.outbox)|..], Handle(1)) == [AnnounceReply(AnnounceAction, "swarm1", 1, 1)]
    ensures Inbox(t.outbox[|old(t.outbox)|..], Handle(0)) == [ExpectedRelay("swarm1", "1")]
  {
    SeederRegistry();
    var err, targets := t.ProcessMessage(SeederCompletes(), Handle(1));
    SeederResponse(targets);
    assert t.outbox[|old(t.outbox)|..]
        == Response(Decode(SeederCompletes()).value, Handle(1), Seeded["swarm1"], targets);
  }

  /** Peer 2 opens swarm2: it is told it is alone and incomplete, and the
      peers of swarm1 receive nothing. */
  lemma LoneResponse(targets: seq<PeerId>)
    requires FanOut(targets, LoneSwarm["swarm2"].peers, Decode(LoneStarts()).value)
    ensures Inbox(Response(Decode(LoneStarts()).value, Handle(2), LoneSwarm["swarm2"], targets), Handle(2))
         == [AnnounceReply(AnnounceAction, "swarm2", 0, 1)]
    ensures Inbox(Response(Decode(LoneStarts()).value, Handle(2), LoneSwarm["swarm2"], targets), Handle(0)) == []
    ensures Inbox(Response(Decode(LoneStarts()).value, Handle(2), LoneSwarm["swarm2"], targets), Handle(1)) == []
  {
    var a, s := Decode(LoneStarts()).value, LoneSwarm["swarm2"];
    LoneHandles();
    AnnouncerInbox(a, Handle(2), s, targets);
    OutsiderInbox(a, Handle(2), s, targets, Handle(0));
    OutsiderInbox(a, Handle(2), s, targets, Handle(1));
  }

  /** Step 3: peer 2's announce opens swarm2; swarm1's peers hear nothing. */
  method LoneThird(t: FastTracker)
    requires t.Valid() && t.registry == Seeded
    modifies t, t.swarms.Values
    ensures fresh(t.swarms.Values - old(t.swarms.Values))
    ensures t.Valid() && t.registry == LoneSwarm
    ensures |old(t.outbox)| <= |t.outbox|
    ensures Inbox(t.outbox[|old(t.outbox)|..], Handle(2)) == [AnnounceReply(AnnounceAction, "swarm2", 0, 1)]
    ensures Inbox(t.outbox[|old(t.outbox)|..], Handle(0)) == []
    ensures Inbox(t.outbox[|old(t.outbox)|..], Handle(1)) == []
  {
    LoneRegistry();
    var err, targets := t.ProcessMessage(LoneStarts(), Handle(2));
    LoneResponse(targets);
    assert t.outbox[|old(t.outbox)|..]
        == Response(Decode(LoneStarts()).value, Handle(2), LoneSwarm["swarm2"], targets);
  }

  /** Peer 3 completes into swarm2: it is told of one complete peer and one
      incomplete, peer 2 gets exactly one of its offers, and the peers of
      swarm1 receive nothing. */
  lemma PartnerResponse(targets: seq<PeerId>)
    requires FanOut(targets, PairSwarm["swarm2"].peers, Decode(PartnerCompletes()).value)
    ensures Inbox(Response(Decode(PartnerCompletes()).value, Handle(3), PairSwarm["swarm2"], targets), Handle(3))
         == [AnnounceReply(AnnounceAction, "swarm2", 1, 1)]
    ensures Inbox(Response(Decode(PartnerCompletes()).value, Handle(3), PairSwarm["swarm2"], targets), Handle(2))
         == [ExpectedRelay("swarm2", "3")]
    ensures Inbox(Response(Decode(PartnerCompletes()).value, Handle(3), PairSwarm["swarm2"], targets), Handle(0)) == []
    ensures Inbox(Response(Decode(PartnerCompletes()).value, Handle(3), PairSwarm["swarm2"], targets), Handle(1)) == []
  {
    var a, s := Decode(PartnerCompletes()).value, PairSwarm["swarm2"];
    assert s.peers.Keys - {a.peerId} == {"2"};
    assert targets == ["2"];
    PairHandles();
    AnnouncerInbox(a, Handle(3), s, targets);
    TargetInbox(a, Handle(3), s, targets, 0);
    OutsiderInbox(a, Handle(3), s, targets, Handle(0));
    OutsiderInbox(a, Handle(3), s, targets, Handle(1));
  }

  /** Step 4: peer 3's announce; peer 2 gets one relay, swarm1's peers nothing. */
  method PartnerFourth(t: FastTracker)
    requires t.Valid() && t.registry == LoneSwarm
    modifies t, t.swarms.Values
    ensures fresh(t.swarms.Values - old(t.swarms.Values))
    ensures t.Valid() && t.registry == PairSwarm
    ensures |old(t.outbox)| <= |t.outbox|
    ensures Inbox(t.outbox[|old(t.outbox)|..], Handle(3)) == [AnnounceReply(AnnounceAction, "swarm2", 1, 1)]
    ensures Inbox(t.outbox[|old(t.outbox)|..], Handle(2)) == [ExpectedRelay("swarm2", "3")]
    ensures Inbox(t.outbox[|old(t.outbox)|..], Handle(0)) == []
    ensures Inbox(t.outbox[|old(t.outbox)|..], Handle(1)) == []
  {
    PartnerRegistry();
    var err, targets := t.ProcessMessage(PartnerCompletes(), Handle(3));
    PartnerResponse(targets);
    assert t.outbox[|old(t.outbox)|..]
        == Response(Decode(PartnerCompletes()).value, Handle(3), PairSwarm["swarm2"], targets);
  }

  /** The reply to peer 4: swarm2 then holds three peers, two complete. */
  lemma TrioReply()
    ensures ReplyFor("swarm2", TrioSwarm["swarm2"]) == AnnounceReply(AnnounceAction, "swarm2", 2, 1)
  {
  }

  /** Peer 4 completes into swarm2 wanting a single peer: it is told of two
      complete peers and one incomplete; exactly one of peers 2 and 3 gets
      exactly one of its offers and the other nothing; the peers of swarm1
      receive nothing. */
  lemma LastResponse(targets: seq<PeerId>)
    requires FanOut(targets, TrioSwarm["swarm2"].peers, Decode(LastWantsOne()).value)
    ensures Inbox(Response(Decode(LastWantsOne()).value, Handle(4), TrioSwarm["swarm2"], targets), Handle(4))
         == [AnnounceReply(AnnounceAction, "swarm2", 2, 1)]
    ensures Inbox(Response(Decode(LastWantsOne()).value, Handle(4), TrioSwarm["swarm2"], targets), Handle(0)) == []
    ensures Inbox(Response(Decode(LastWantsOne()).value, Handle(4), TrioSwarm["swarm2"], targets), Handle(1)) == []
    ensures
      || (&& Inbox(Response(Decode(LastWantsOne()).value, Handle(4), TrioSwarm["swarm2"], targets), Handle(2))
              == [ExpectedRelay("swarm2", "4")]
          && Inbox(Response(Decode(LastWantsOne()).value, Handle(4), TrioSwarm["swarm2"], targets), Handle(3)) == [])
      || (&& Inbox(Response(Decode(LastWantsOne()).value, Handle(4), TrioSwarm["swarm2"], targets), Handle(3))
              == [ExpectedRelay("swarm2", "4")]
          && Inbox(Response(Decode(LastWantsOne()).value, Handle(4), TrioSwarm["swarm2"], targets), Handle(2)) == [])
  {
    var a, s := Decode(LastWantsOne()).value, TrioSwarm["swarm2"];
    LastTargets(targets);
    TrioReply();
    TrioHandles();
    AnnouncerInbox(a, Handle(4), s, targets);
    TargetInbox(a, Handle(4), s, targets, 0);
    OutsiderInbox(a, Handle(4), s, targets, Handle(0));
    OutsiderInbox(a, Handle(4), s, targets, Handle(1));
    if targets == ["2"] {
      BystanderInbox(a, Handle(4), s, targets, "3");
    } else {
      BystanderInbox(a, Handle(4), s, targets, "2");
    }
  }

  /** Wanting one peer among peers 2 and 3, peer 4's offer goes to exactly
      one of them. */
  lemma LastTargets(targets: seq<PeerId>)
    requires FanOut(targets, TrioSwarm["swarm2"].peers, Decode(LastWantsOne()).value)
    ensures targets == ["2"] || targets == ["3"]
  {
    var a, s := Decode(LastWantsOne()).value, TrioSwarm["swarm2"];
    assert s.peers.Keys - {a.peerId} == {"2", "3"};
    assert targets[0] in s.peers.Keys - {a.peerId};
  }

  /** Step 5: peer 4's announce wanting one peer; one of peers 2 and 3 gets the relay. */
  method LastFifth(t: FastTracker)
    requires t.Valid() && t.registry == PairSwarm
    modifies t, t.swarms.Values
    ensures fresh(t.swarms.Values - old(t.swarms.Values))
    ensures t.Valid() && t.registry == TrioSwarm
    ensures |old(t.outbox)| <= |t.outbox|
    ensures Inbox(t.outbox[|old(t.outbox)|..], Handle(4)) == [AnnounceReply(AnnounceAction, "swarm2", 2, 1)]
    ensures Inbox(t.outbox[|old(t.outbox)|..], Handle(0)) == []
    ensures Inbox(t.outbox[|old(t.outbox)|..], Handle(1)) == []
    ensures
      || (Inbox(t.outbox[|old(t.outbox)|..], Handle(2)) == [ExpectedRelay("swarm2", "4")]
          && Inbox(t.outbox[|old(t.outbox)|..], Handle(3)) == [])
      || (Inbox(t.outbox[|old(t.outbox)|..], Handle(3)) == [ExpectedRelay("swarm2", "4")]
          && Inbox(t.outbox[|old(t.outbox)|..], Handle(2)) == [])
  {
    LastRegistry();
    var err, targets := t.ProcessMessage(LastWantsOne(), Handle(4));
    LastResponse(targets);
    assert t.outbox[|old(t.outbox)|..]
        == Response(Decode(LastWantsOne()).value, Handle(4), TrioSwarm["swarm2"], targets);
  }

  /** The whole second scenario, from a new tracker; each step's messages
      are stated by the step itself. */
  method SendOffersToPeers() returns (t: FastTracker)
    ensures t.Valid() && t.registry == TrioSwarm
  {
    t := new FastTracker();
    OffererFirst(t);
    SeederSecond(t);
    SwarmTwoFills(t);
  }

  /** The last three steps of the second scenario: peers 2, 3 and 4 fill
      swarm2, two of them complete, and swarm1 is untouched. */
  method SwarmTwoFills(t: FastTracker)
    requires t.Valid() && t.registry == Seeded
    modifies t, t.swarms.Values
    ensures fresh(t.swarms.Values - old(t.swarms.Values))
    ensures t.Valid() && t.registry == TrioSwarm
  {
    ghost var before := t.swarms.Values;
    LoneThird(t);
    ghost var between := t.swarms.Values;
    SwarmTwoCompletes(t);
    assert t.swarms.Values - before <= (t.swarms.Values - between) + (between - before);
  }

  /** The last two steps of the second scenario: peers 3 and 4 complete
      into swarm2 beside peer 2, and swarm1 is untouched. */
  method SwarmTwoCompletes(t: FastTracker)
    requires t.Valid() && t.registry == LoneSwarm
    modifies t, t.swarms.Values
    ensures fresh(t.swarms.Values - old(t.swarms.Values))
    ensures t.Valid() && t.registry == TrioSwarm
  {
    ghost var before := t.swarms.Values;
    PartnerFourth(t);
    ghost var between := t.swarms.Values;
    LastFifth(t);
    assert t.swarms.Values - before <= (t.swarms.Values - between) + (between - before);
  }
}
