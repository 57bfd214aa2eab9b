/** Shapes of the messages a WebRTC tracker receives and sends on an
    `announce`, the decoding of the loosely typed incoming fields, and the
    log through which the tracker's sends are observed. */
module Messages {

  datatype Option<+T> = None | Some(value: T)

  datatype Result<+T, +E> = Ok(value: T) | Err(error: E)

  /** The `info_hash` that names a swarm. */
  type InfoHash = string

  /** The `peer_id` a peer announces under; unique within one swarm. */
  type PeerId = string

  /** A connected peer as the transport hands it to the tracker (a
      `PeerContext`).  The tracker stores it and sends to it; two handles are
      the same peer connection exactly when they are equal. */
  datatype Handle = Handle(connection: nat)

  /** The lifecycle `event` of an announce; `Update` stands for an announce
      that carries no `event` field. */
  datatype Event = Started | Completed | Update

  /** One entry of an announce's `offers` array: the opaque session
      description (`offer.sdp`) and its `offer_id`. */
  datatype Offer = Offer(sdp: string, offerId: string)

  /** A well-formed announce. */
  datatype Announce = Announce(
    infoHash: InfoHash,
    peerId: PeerId,
    event: Event,
    offers: seq<Offer>,
    numwant: nat)

  /** An incoming message as the decoder sees it: a bag of optional fields. */
  datatype Message = Message(
    action: string,
    event: Option<string>,
    infoHash: Option<string>,
    peerId: Option<string>,
    offers: Option<seq<Offer>>,
    numwant: Option<int>)

  datatype MessageError =
    | UnknownAction(action: string)
    | MissingInfoHash
    | MissingPeerId
    | UnsupportedEvent(name: string)

  const AnnounceAction := "announce"
  const OfferType := "offer"
  const StartedName := "started"
  const CompletedName := "completed"

  /** The session description a relay carries: `{ type, sdp }`. */
  datatype SessionDescription = SessionDescription(kind: string, sdp: string)

  /** What the tracker sends: the reply to the announcer, or an offer relayed
      to another peer of the swarm. */
  datatype Outgoing =
    | AnnounceReply(action: string, infoHash: InfoHash, complete: nat, incomplete: nat)
    | OfferRelay(action: string, infoHash: InfoHash, peerId: PeerId, offerId: string,
                 offer: SessionDescription)

  /** One call of a handle's `sendMessage`. */
  datatype Delivery = Delivery(to: Handle, msg: Outgoing)

  function EventName(e: Event): Option<string>
  {
    match e
    case Started => Some(StartedName)
    case Completed => Some(CompletedName)
    case Update => None
  }

  function ParseEvent(name: Option<string>): (r: Result<Event, MessageError>)
    ensures r.Ok? ==> EventName(r.value) == name
    ensures r.Err? ==> name.Some? && name.value != StartedName && name.value != CompletedName
  {
    match name
    case None => Ok(Update)
    case Some(n) =>
      if n == StartedName then Ok(Started)
      else if n == CompletedName then Ok(Completed)
      else Err(UnsupportedEvent(n))
  }

  /** Turns the fields of an incoming message into an announce.  Absent
      `offers` mean none; an absent or non-positive `numwant` means zero. */
  function Decode(m: Message): (r: Result<Announce, MessageError>)
    ensures r.Ok? <==>
      m.action == AnnounceAction && m.infoHash.Some? && m.peerId.Some? && ParseEvent(m.event).Ok?
    ensures r.Ok? ==>
      && r.value.infoHash == m.infoHash.value
      && r.value.peerId == m.peerId.value
      && EventName(r.value.event) == m.event
      && (m.offers.Some? ==> r.value.offers == m.offers.value)
      && (m.offers.None? ==> r.value.offers == [])
      && (m.numwant.Some? && m.numwant.value > 0 ==> r.value.numwant == m.numwant.value)
      && (m.numwant.None? || m.numwant.value <= 0 ==> r.value.numwant == 0)
    ensures m.action != AnnounceAction ==> r == Err(UnknownAction(m.action))
    ensures m.action == AnnounceAction && m.infoHash.None? ==> r == Err(MissingInfoHash)
    ensures m.action == AnnounceAction && m.infoHash.Some? && m.peerId.None? ==> r == Err(MissingPeerId)
    ensures m.action == AnnounceAction && m.infoHash.Some? && m.peerId.Some? && m.event.Some?
            && m.event.value != StartedName && m.event.value != CompletedName ==>
      r == Err(UnsupportedEvent(m.event.value))
  {
    if m.action != AnnounceAction then Err(UnknownAction(m.action))
    else if m.infoHash.None? then Err(MissingInfoHash)
    else if m.peerId.None? then Err(MissingPeerId)
    else match ParseEvent(m.event)
      case Err(e) => Err(e)
      case Ok(event) =>
        var numwant := if m.numwant.Some? && m.numwant.value > 0 then m.numwant.value else 0;
        var offers := if m.offers.Some? then m.offers.value else [];
        Ok(Announce(m.infoHash.value, m.peerId.value, event, offers, numwant))
  }

  /** The message a client sends for an announce. */
  function Encode(a: Announce): Message
  {
    Message(AnnounceAction, EventName(a.event), Some(a.infoHash), Some(a.peerId),
            Some(a.offers), Some(a.numwant))
  }

  lemma DecodeEncode(a: Announce)
    ensures Decode(Encode(a)) == Ok(a)
  {
    match a.event
    case Started =>
    case Completed =>
    case Update =>
  }

  /** The relay of offer `o` from announce `a`: tagged with the announcer's
      `peer_id` and the offer's `offer_id`, its description marked `offer`. */
  function RelayOf(a: Announce, o: Offer): (r: Outgoing)
    ensures r.OfferRelay? && r.action == AnnounceAction && r.infoHash == a.infoHash
    ensures r.peerId == a.peerId && r.offerId == o.offerId
    ensures r.offer.kind == OfferType && r.offer.sdp == o.sdp
  {
    OfferRelay(AnnounceAction, a.infoHash, a.peerId, o.offerId, SessionDescription(OfferType, o.sdp))
  }

  /** The messages `h` received, in order, in a log of sends. */
  function Inbox(log: seq<Delivery>, h: Handle): (r: seq<Outgoing>)
    ensures |r| <= |log|
    ensures forall m :: m in r ==> Delivery(h, m) in log
    ensures forall i :: 0 <= i < |log| && log[i].to == h ==> log[i].msg in r
  {
    if log == [] then []
    else (if log[0].to == h then [log[0].msg] else []) + Inbox(log[1..], h)
  }

  /** What a handle receives from two logs in a row is what it receives
      from the first, then from the second. */
  lemma {:induction false} InboxAppend(x: seq<Delivery>, y: seq<Delivery>, h: Handle)
    ensures Inbox(x + y, h) == Inbox(x, h) + Inbox(y, h)
  {
    if x == [] {
      assert x + y == y;
    } else {
      assert (x + y)[1..] == x[1..] + y;
      InboxAppend(x[1..], y, h);
    }
  }

  /** A handle that is the recipient of exactly one entry of the log
      receives exactly that entry's message. */
  lemma {:induction false} InboxSingle(log: seq<Delivery>, h: Handle, i: nat)
    requires i < |log| && log[i].to == h
    requires forall j :: 0 <= j < |log| && j != i ==> log[j].to != h
    ensures Inbox(log, h) == [log[i].msg]
  {
    if i == 0 {
      NotInInbox(log[1..], h);
    } else {
      InboxSingle(log[1..], h, i - 1);
    }
  }

  lemma {:induction false} NotInInbox(log: seq<Delivery>, h: Handle)
    requires forall j :: 0 <= j < |log| ==> log[j].to != h
    ensures Inbox(log, h) == []
  {
    if log != [] {
      NotInInbox(log[1..], h);
    }
  }
}
