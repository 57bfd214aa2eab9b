/** One swarm: the peers announced under one `info_hash`, keyed by `peer_id`,
    and which of them have announced `completed`. */
module Swarms {
  import opened Messages

  /** The abstract value of a swarm. */
  datatype SwarmState = SwarmState(peers: map<PeerId, Handle>, completed: set<PeerId>)

  /** Only peers of the swarm can be counted as completed, and a swarm that
      the tracker keeps has at least one peer. */
  ghost predicate Consistent(s: SwarmState)
  {
    s.completed <= s.peers.Keys && s.peers != map[]
  }

  const Empty := SwarmState(map[], {})

  /** The swarm after `peerId` announces `event` over handle `h`: the
      announcer is a member afterwards, and no peer or completion is lost. */
  function Admit(s: SwarmState, peerId: PeerId, event: Event, h: Handle): (r: SwarmState)
    ensures peerId in r.peers && s.peers.Keys <= r.peers.Keys
    ensures s.completed <= r.completed && (event == Completed ==> peerId in r.completed)
  {
    var peers := if peerId in s.peers then s.peers else s.peers[peerId := h];
    var completed := if event == Completed then s.completed + {peerId} else s.completed;
    SwarmState(peers, completed)
  }

  /** Admitting makes `peerId` a member: a new peer is bound to the handle
      it announced over, every peer already present keeps its handle (the
      announcer included), and `completed` adds exactly the announcer to the
      completed peers. */
  lemma AdmitMembership(s: SwarmState, peerId: PeerId, event: Event, h: Handle)
    ensures Admit(s, peerId, event, h).peers.Keys == s.peers.Keys + {peerId}
    ensures forall p :: p in s.peers ==> Admit(s, peerId, event, h).peers[p] == s.peers[p]
    ensures peerId !in s.peers ==> Admit(s, peerId, event, h).peers[peerId] == h
    ensures Admit(s, peerId, event, h).completed ==
      if event == Completed then s.completed + {peerId} else s.completed
  {
  }

  /** A new peer grows the swarm by one; a known peer leaves its size alone. */
  lemma AdmitSize(s: SwarmState, peerId: PeerId, event: Event, h: Handle)
    ensures |Admit(s, peerId, event, h).peers| ==
      if peerId in s.peers then |s.peers| else |s.peers| + 1
  {
  }

  /** `completed` is counted once per peer: the first time it adds one to the
      completed count, afterwards nothing; other events never change it. */
  lemma AdmitCountsCompletedOnce(s: SwarmState, peerId: PeerId, event: Event, h: Handle)
    ensures |Admit(s, peerId, event, h).completed| ==
      if event == Completed && peerId !in s.completed then |s.completed| + 1 else |s.completed|
  {
    if event == Completed && peerId !in s.completed {
      assert |s.completed + {peerId}| == |s.completed| + |{peerId}|;
    }
  }

  /** Admitting a peer keeps a swarm consistent, and makes an empty one
      consistent. */
  lemma AdmitConsistent(s: SwarmState, peerId: PeerId, event: Event, h: Handle)
    requires s.completed <= s.peers.Keys
    ensures Consistent(Admit(s, peerId, event, h))
  {
    assert peerId in Admit(s, peerId, event, h).peers;
  }

  lemma {:induction false} SubsetSize(a: set<PeerId>, b: set<PeerId>)
    requires a <= b
    ensures |a| <= |b|
  {
    if a != {} {
      var x :| x in a;
      SubsetSize(a - {x}, b - {x});
    }
  }

  /** The reply to an announce: `complete` counts the completed peers and
      `incomplete` the others, so that together they count the swarm. */
  function ReplyFor(infoHash: InfoHash, s: SwarmState): (r: Outgoing)
    requires s.completed <= s.peers.Keys
    ensures r.AnnounceReply? && r.action == AnnounceAction && r.infoHash == infoHash
    ensures r.complete == |s.completed|
    ensures r.complete + r.incomplete == |s.peers|
  {
    SubsetSize(s.completed, s.peers.Keys);
    AnnounceReply(AnnounceAction, infoHash, |s.completed|, |s.peers| - |s.completed|)
  }

  /** A swarm as the tracker holds it: its peer map and completed set are
      updated in place, and `completedCount` is kept beside the set. */
  class Swarm {
    const infoHash: InfoHash
    var peers: map<PeerId, Handle>
    var completedPeers: set<PeerId>
    var completedCount: nat

    ghost predicate Valid()
      reads this
    {
      completedPeers <= peers.Keys && completedCount == |completedPeers|
    }

    ghost function State(): SwarmState
      reads this
    {
      SwarmState(peers, completedPeers)
    }

    constructor (infoHash: InfoHash)
      ensures Valid() && State() == Empty && this.infoHash == infoHash
    {
      this.infoHash := infoHash;
      peers := map[];
      completedPeers := {};
      completedCount := 0;
    }

    /** Adds `peerId` if it is new and counts a first `completed`. */
    method Join(peerId: PeerId, event: Event, h: Handle)
      requires Valid()
      modifies this
      ensures Valid() && State() == Admit(old(State()), peerId, event, h)
    {
      if peerId !in peers {
        peers := peers[peerId := h];
      }
      if event == Completed && peerId !in completedPeers {
        completedPeers := completedPeers + {peerId};
        completedCount := completedCount + 1;
      }
    }

    /** The reply, read off the counter and the peer map. */
    method Reply() returns (r: Outgoing)
      requires Valid()
      ensures r == ReplyFor(infoHash, State())
    {
      SubsetSize(completedPeers, peers.Keys);
      r := AnnounceReply(AnnounceAction, infoHash, completedCount, |peers| - completedCount);
    }
  }
}
