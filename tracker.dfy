/** The tracker: a registry from `info_hash` to swarm, and the processing of
    one `announce` — join the swarm, reply to the announcer, relay offers to
    other peers of the same swarm. */
module Tracker {
  import opened Messages
  import opened Swarms

  /** The abstract value of the tracker's `swarms` map. */
  type Registry = map<InfoHash, SwarmState>

  ghost predicate RegistryOk(reg: Registry)
  {
    forall k :: k in reg ==> Consistent(reg[k])
  }

  /** The registry after announce `a` arrives over handle `h`: the swarm of
      `a.infoHash` is created when missing and admits the announcer; no other
      swarm changes. */
  function ApplyAnnounce(reg: Registry, a: Announce, h: Handle): (r: Registry)
    ensures r.Keys == reg.Keys + {a.infoHash}
    ensures a.peerId in r[a.infoHash].peers
  {
    reg[a.infoHash := Admit(SwarmOf(reg, a.infoHash), a.peerId, a.event, h)]
  }

  /** The swarm of `a.infoHash` is there afterwards, holding just the
      announcer when it is new and admitting it otherwise; every other swarm
      is left as it was. */
  lemma ApplyAnnounceEffect(reg: Registry, a: Announce, h: Handle)
    ensures ApplyAnnounce(reg, a, h).Keys == reg.Keys + {a.infoHash}
    ensures forall k :: k in reg && k != a.infoHash ==> ApplyAnnounce(reg, a, h)[k] == reg[k]
    ensures a.infoHash !in reg ==> ApplyAnnounce(reg, a, h)[a.infoHash].peers == map[a.peerId := h]
    ensures a.infoHash !in reg ==>
      ApplyAnnounce(reg, a, h)[a.infoHash].completed ==
        if a.event == Completed then {a.peerId} else {}
    ensures a.infoHash in reg ==>
      ApplyAnnounce(reg, a, h)[a.infoHash] == Admit(reg[a.infoHash], a.peerId, a.event, h)
  {
  }

  /** The swarm of `k`, or an empty one when the tracker has none yet. */
  function SwarmOf(reg: Registry, k: InfoHash): SwarmState
  {
    if k in reg then reg[k] else Empty
  }

  /** An announce keeps every swarm consistent, the one it creates included. */
  lemma ApplyAnnounceConsistent(reg: Registry, a: Announce, h: Handle)
    requires RegistryOk(reg)
    ensures RegistryOk(ApplyAnnounce(reg, a, h))
  {
    var r := ApplyAnnounce(reg, a, h);
    forall k | k in r
      ensures Consistent(r[k])
    {
      if k != a.infoHash {
        assert r[k] == reg[k];
      }
    }
  }

  /** Announcing the same thing again, over any handle, changes nothing. */
  lemma ReannounceIdempotent(reg: Registry, a: Announce, h: Handle, h': Handle)
    ensures ApplyAnnounce(ApplyAnnounce(reg, a, h), a, h') == ApplyAnnounce(reg, a, h)
  {
    var once := ApplyAnnounce(reg, a, h);
    var s := once[a.infoHash];
    var s' := Admit(s, a.peerId, a.event, h');
    assert s'.peers == s.peers;
    assert s'.completed == s.completed;
    assert once[a.infoHash := s'] == once;
  }

  /** Announces to different swarms do not interfere: in either order they
      leave the same registry. */
  lemma DistinctSwarmsCommute(reg: Registry, a: Announce, h: Handle, b: Announce, g: Handle)
    requires a.infoHash != b.infoHash
    ensures ApplyAnnounce(ApplyAnnounce(reg, a, h), b, g) ==
            ApplyAnnounce(ApplyAnnounce(reg, b, g), a, h)
  {
    var sa := Admit(SwarmOf(reg, a.infoHash), a.peerId, a.event, h);
    var sb := Admit(SwarmOf(reg, b.infoHash), b.peerId, b.event, g);
    var ra, rb := reg[a.infoHash := sa], reg[b.infoHash := sb];
    assert SwarmOf(ra, b.infoHash) == SwarmOf(reg, b.infoHash);
    assert SwarmOf(rb, a.infoHash) == SwarmOf(reg, a.infoHash);
    assert ra[b.infoHash := sb] == rb[a.infoHash := sa];
  }

  /** Nothing is forgotten by an announce: every swarm keeps its peers, their
      handles and their completion. */
  lemma AnnounceOnlyGrows(reg: Registry, a: Announce, h: Handle, k: InfoHash)
    requires k in reg
    ensures k in ApplyAnnounce(reg, a, h)
    ensures reg[k].completed <= ApplyAnnounce(reg, a, h)[k].completed
    ensures forall p :: p in reg[k].peers ==>
      p in ApplyAnnounce(reg, a, h)[k].peers &&
      ApplyAnnounce(reg, a, h)[k].peers[p] == reg[k].peers[p]
  {
  }

  /** How many offers one announce relays. */
  function RelayCount(numwant: nat, offers: nat, others: nat): (n: nat)
    ensures n <= numwant && n <= offers && n <= others
    ensures n == numwant || n == offers || n == others
  {
    if numwant <= offers && numwant <= others then numwant
    else if offers <= others then offers
    else others
  }

  /** `targets` is a valid choice of relay recipients for announce `a` in a
      swarm with `peers`: as many as the announcer wants, has offers for, and
      has other peers for; each another member of the swarm; none twice. */
  ghost predicate FanOut(targets: seq<PeerId>, peers: map<PeerId, Handle>, a: Announce)
  {
    && |targets| == RelayCount(a.numwant, |a.offers|, |peers.Keys - {a.peerId}|)
    && (forall i :: 0 <= i < |targets| ==> targets[i] in peers && targets[i] != a.peerId)
    && (forall i, j :: 0 <= i < j < |targets| ==> targets[i] != targets[j])
  }

  /** The relays sent to `targets`: the i-th chosen peer gets the i-th offer. */
  function Relays(targets: seq<PeerId>, peers: map<PeerId, Handle>, a: Announce): (r: seq<Delivery>)
    requires |targets| <= |a.offers|
    requires forall i :: 0 <= i < |targets| ==> targets[i] in peers
    ensures |r| == |targets|
  {
    seq(|targets|, i requires 0 <= i < |targets| =>
      Delivery(peers[targets[i]], RelayOf(a, a.offers[i])))
  }

  /** Picks the recipients of `a`'s offers among the other peers of the
      swarm and builds the relays.  Which peers are picked is left open. */
  method ChooseRecipients(peers: map<PeerId, Handle>, a: Announce)
    returns (targets: seq<PeerId>, relays: seq<Delivery>)
    ensures FanOut(targets, peers, a)
    ensures relays == Relays(targets, peers, a)
  {
    var others := peers.Keys - {a.peerId};
    var n := RelayCount(a.numwant, |a.offers|, |others|);
    var candidates := others;
    targets, relays := [], [];
    while |targets| < n
      invariant |targets| <= n
      invariant candidates <= others
      invariant |candidates| + |targets| == |others|
      invariant forall i :: 0 <= i < |targets| ==> targets[i] in others && targets[i] !in candidates
      invariant forall i, j :: 0 <= i < j < |targets| ==> targets[i] != targets[j]
      invariant |relays| == |targets|
      invariant forall i :: 0 <= i < |targets| ==>
        relays[i] == Delivery(peers[targets[i]], RelayOf(a, a.offers[i]))
      decreases n - |targets|
    {
      var p :| p in candidates;
      relays := relays + [Delivery(peers[p], RelayOf(a, a.offers[|targets|]))];
      targets := targets + [p];
      candidates := candidates - {p};
    }
  }

  /** Over a swarm whose peers have distinct handles, each chosen peer
      receives exactly its one offer, and every other peer — the announcer
      among them — receives none. */
  lemma RelayInbox(targets: seq<PeerId>, peers: map<PeerId, Handle>, a: Announce, p: PeerId)
    requires FanOut(targets, peers, a)
    requires DistinctHandles(peers)
    requires p in peers
    ensures forall i :: 0 <= i < |targets| && targets[i] == p ==>
      Inbox(Relays(targets, peers, a), peers[p]) == [RelayOf(a, a.offers[i])]
    ensures p !in targets ==> Inbox(Relays(targets, peers, a), peers[p]) == []
  {
    var log := Relays(targets, peers, a);
    forall i | 0 <= i < |targets| && targets[i] == p
      ensures Inbox(log, peers[p]) == [RelayOf(a, a.offers[i])]
    {
      InboxSingle(log, peers[p], i);
    }
    if p !in targets {
      NotInInbox(log, peers[p]);
    }
  }

  /** Everything one announce sends, in order: the reply to the announcer
      over `h`, then the relays to the chosen `targets`. */
  ghost function Response(a: Announce, h: Handle, s: SwarmState, targets: seq<PeerId>): (r: seq<Delivery>)
    requires s.completed <= s.peers.Keys && FanOut(targets, s.peers, a)
    ensures |r| == 1 + |targets|
  {
    [Delivery(h, ReplyFor(a.infoHash, s))] + Relays(targets, s.peers, a)
  }

  /** Handles are one per peer: no connection is shared by two peers of the
      swarm. */
  ghost predicate DistinctHandles(peers: map<PeerId, Handle>)
  {
    forall q, q' :: q in peers && q' in peers && q != q' ==> peers[q] != peers[q']
  }

  /** The announcer, a member of the swarm under `h`, receives exactly its
      reply and none of its own offers. */
  lemma AnnouncerInbox(a: Announce, h: Handle, s: SwarmState, targets: seq<PeerId>)
    requires s.completed <= s.peers.Keys && FanOut(targets, s.peers, a)
    requires DistinctHandles(s.peers) && a.peerId in s.peers && s.peers[a.peerId] == h
    ensures Inbox(Response(a, h, s, targets), h) == [ReplyFor(a.infoHash, s)]
  {
    var reply, relays := [Delivery(h, ReplyFor(a.infoHash, s))], Relays(targets, s.peers, a);
    assert Response(a, h, s, targets) == reply + relays;
    InboxAppend(reply, relays, h);
    RelayInbox(targets, s.peers, a, a.peerId);
  }

  /** The `i`-th chosen peer receives exactly the `i`-th offer. */
  lemma TargetInbox(a: Announce, h: Handle, s: SwarmState, targets: seq<PeerId>, i: nat)
    requires s.completed <= s.peers.Keys && FanOut(targets, s.peers, a)
    requires DistinctHandles(s.peers) && a.peerId in s.peers && s.peers[a.peerId] == h
    requires i < |targets|
    ensures Inbox(Response(a, h, s, targets), s.peers[targets[i]]) == [RelayOf(a, a.offers[i])]
  {
    var reply, relays := [Delivery(h, ReplyFor(a.infoHash, s))], Relays(targets, s.peers, a);
    assert Response(a, h, s, targets) == reply + relays;
    InboxAppend(reply, relays, s.peers[targets[i]]);
    RelayInbox(targets, s.peers, a, targets[i]);
  }

  /** A peer of the swarm that is neither the announcer nor chosen receives
      nothing. */
  lemma BystanderInbox(a: Announce, h: Handle, s: SwarmState, targets: seq<PeerId>, p: PeerId)
    requires s.completed <= s.peers.Keys && FanOut(targets, s.peers, a)
    requires DistinctHandles(s.peers) && a.peerId in s.peers && s.peers[a.peerId] == h
    requires p in s.peers && p != a.peerId && p !in targets
    ensures Inbox(Response(a, h, s, targets), s.peers[p]) == []
  {
    var reply, relays := [Delivery(h, ReplyFor(a.infoHash, s))], Relays(targets, s.peers, a);
    assert Response(a, h, s, targets) == reply + relays;
    InboxAppend(reply, relays, s.peers[p]);
    RelayInbox(targets, s.peers, a, p);
  }

  /** A connection that is neither the announcer's nor any peer's of the
      swarm — a peer of another swarm — receives nothing. */
  lemma OutsiderInbox(a: Announce, h: Handle, s: SwarmState, targets: seq<PeerId>, g: Handle)
    requires s.completed <= s.peers.Keys && FanOut(targets, s.peers, a)
    requires g != h && forall p :: p in s.peers ==> s.peers[p] != g
    ensures Inbox(Response(a, h, s, targets), g) == []
  {
    var reply, relays := [Delivery(h, ReplyFor(a.infoHash, s))], Relays(targets, s.peers, a);
    assert Response(a, h, s, targets) == reply + relays;
    InboxAppend(reply, relays, g);
    NotInInbox(relays, g);
  }

  /** The tracker.  `swarms` and each swarm's peer map are updated in place;
      `outbox` records, in order, every `sendMessage` the tracker makes;
      `registry` is the abstract value of `swarms`. */
  class FastTracker {
    var swarms: map<InfoHash, Swarm>
    var outbox: seq<Delivery>
    ghost var registry: Registry

    /** Each swarm is filed under its own `info_hash` (so no swarm object is
        shared between two keys), keeps its counter, and is what `registry`
        says it is; every swarm is consistent and has a peer. */
    ghost predicate Valid()
      reads this`swarms, this`registry, swarms.Values
    {
      && swarms.Keys == registry.Keys
      && (forall k :: k in swarms ==>
            swarms[k].Valid() && swarms[k].infoHash == k && swarms[k].State() == registry[k])
      && RegistryOk(registry)
    }

    constructor ()
      ensures Valid() && swarms == map[] && registry == map[] && outbox == []
    {
      swarms := map[];
      outbox := [];
      registry := map[];
    }

    /** Handles one incoming message.  A message that does not decode to an
        announce is reported and changes nothing. */
    method ProcessMessage(m: Message, h: Handle)
      returns (err: Option<MessageError>, ghost targets: seq<PeerId>)
      requires Valid()
      modifies this, swarms.Values
      ensures Valid()
      ensures fresh(swarms.Values - old(swarms.Values))
      ensures Decode(m).Err? ==>
        && err == Some(Decode(m).error)
        && swarms == old(swarms) && registry == old(registry) && outbox == old(outbox)
      ensures Decode(m).Ok? ==> err == None
      ensures Decode(m).Ok? ==>
        Announced(old(swarms), old(registry), old(outbox), Decode(m).value, h, targets)
    {
      match Decode(m)
      case Err(e) =>
        err := Some(e);
        targets := [];
      case Ok(a) =>
        err := None;
        targets := ProcessAnnounce(a, h);
    }

    /** What one announce does to the tracker: the swarm objects stay in
        place, the registry moves by `ApplyAnnounce`, the announcer gets its
        reply, and then the chosen `targets` get one relay each. */
    ghost predicate Announced(swarms0: map<InfoHash, Swarm>, registry0: Registry,
                              outbox0: seq<Delivery>, a: Announce, h: Handle,
                              targets: seq<PeerId>)
      reads this
    {
      && swarms.Keys == swarms0.Keys + {a.infoHash}
      && (forall k :: k in swarms0 ==> swarms[k] == swarms0[k])
      && registry == ApplyAnnounce(registry0, a, h)
      && registry[a.infoHash].completed <= registry[a.infoHash].peers.Keys
      && FanOut(targets, registry[a.infoHash].peers, a)
      && outbox == outbox0 + Response(a, h, registry[a.infoHash], targets)
    }

    /** `processMessage` on a decoded announce: join, then respond. */
    method ProcessAnnounce(a: Announce, h: Handle) returns (ghost targets: seq<PeerId>)
      requires Valid()
      modifies this, swarms.Values
      ensures Valid()
      ensures fresh(swarms.Values - old(swarms.Values))
      ensures Announced(old(swarms), old(registry), old(outbox), a, h, targets)
    {
      var swarm := Register(a, h);
      targets := Respond(swarm, a, h);
    }

    /** Replies to the announcer with the counts of its swarm, then relays
        the offers to the chosen other peers. */
    method Respond(swarm: Swarm, a: Announce, h: Handle) returns (ghost targets: seq<PeerId>)
      requires swarm.Valid() && swarm.infoHash == a.infoHash
      modifies this`outbox
      ensures FanOut(targets, swarm.peers, a)
      ensures outbox == old(outbox) + Response(a, h, swarm.State(), targets)
    {
      var reply := swarm.Reply();
      var chosen, relays := ChooseRecipients(swarm.peers, a);
      Send([Delivery(h, reply)] + relays);
      targets := chosen;
    }

    /** Hands each delivery, in order, to its handle's `sendMessage`. */
    method Send(deliveries: seq<Delivery>)
      modifies this`outbox
      ensures outbox == old(outbox) + deliveries
    {
      outbox := outbox + deliveries;
    }

    /** Admits the announcer to the swarm of `a.infoHash`, creating it when
        missing; every other swarm keeps its state. */
    method Register(a: Announce, h: Handle) returns (swarm: Swarm)
      requires Valid()
      modifies this`swarms, this`registry, swarms.Values
      ensures Valid()
      ensures fresh(swarms.Values - old(swarms.Values))
      ensures swarms.Keys == old(swarms).Keys + {a.infoHash}
      ensures forall k :: k in old(swarms) ==> swarms[k] == old(swarms)[k]
      ensures swarms[a.infoHash] == swarm
      ensures registry == ApplyAnnounce(old(registry), a, h)
      ensures swarm.State() == registry[a.infoHash]
    {
      ghost var swarms0, registry0 := swarms, registry;
      swarm := Locate(a.infoHash);
      swarm.Join(a.peerId, a.event, h);
      registry := ApplyAnnounce(registry0, a, h);
      ApplyAnnounceConsistent(registry0, a, h);
      forall k | k in swarms && k != a.infoHash
        ensures swarms[k] == swarms0[k] && swarms[k].State() == registry[k]
        ensures swarms[k].Valid() && swarms[k].infoHash == k
      {
        assert swarms[k] == swarms0[k] && registry[k] == registry0[k];
      }
    }

    /** The swarm filed under `infoHash`, or a new empty one filed there. */
    method Locate(infoHash: InfoHash) returns (swarm: Swarm)
      requires Valid()
      modifies this`swarms
      ensures swarms.Keys == old(swarms).Keys + {infoHash}
      ensures forall k :: k in old(swarms) ==> swarms[k] == old(swarms)[k]
      ensures swarms[infoHash] == swarm
      ensures infoHash !in old(swarms) ==> fresh(swarm)
      ensures fresh(swarms.Values - old(swarms.Values))
      ensures swarm.Valid() && swarm.infoHash == infoHash
      ensures swarm.State() == SwarmOf(registry, infoHash)
      ensures forall k :: k in old(swarms) && k != infoHash ==> swarms[k] != swarm
    {
      if infoHash in swarms {
        swarm := swarms[infoHash];
        assert swarms == swarms[infoHash := swarm];
      } else {
        swarm := new Swarm(infoHash);
        swarms := swarms[infoHash := swarm];
      }
    }
  }
}
