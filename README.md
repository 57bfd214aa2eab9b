# wt-tracker announce processing, modelled in Dafny

wt-tracker is a WebTorrent tracker. Peers connect over WebSockets and send
`announce` messages. Each message names a swarm (`info_hash`), the peer
(`peer_id`), an optional lifecycle `event`, a list of WebRTC `offers` and
`numwant`. `FastTracker.processMessage` handles one such message. It does
these things:

- It files the peer in the swarm of its `info_hash`. The swarm is created
  when it is missing. The peer is kept under the connection (`PeerContext`)
  it announced over.
- It counts the peer as complete on a `completed` event.
- It replies to the announcer with the swarm's `complete` and `incomplete`
  counts.
- It relays up to `numwant` of the offers to other peers of the same swarm.
  Each peer gets at most one offer. Each relay is tagged with the
  announcer's `peer_id` and the offer's `offer_id`.

The model has four modules:

- `Messages` (`messages.dfy`): the incoming message and its decoding into an
  `Announce`; the outgoing reply and relay; and `Inbox`, the messages one
  connection received out of a log of sends.
- `Swarms` (`swarm.dfy`): the abstract swarm value `SwarmState`, the
  admission of a peer (`Admit`) and the reply counts (`ReplyFor`). The class
  `Swarm` updates its peer map, completed set and completed counter in place.
- `Tracker` (`tracker.dfy`): the abstract registry and `ApplyAnnounce`; the
  fan-out rule (`RelayCount`, `FanOut`) and the loop that picks the
  recipients (`ChooseRecipients`); what one announce sends (`Response`) and
  who receives what. The class `FastTracker` has a map `swarms` of `Swarm`
  objects, an `outbox` and a ghost `registry`, which `Valid()` ties to the
  swarm objects.
- `AnnounceScenarios` (`scenarios.dfy`): the two scenarios of
  `test/announce.test.ts`, replayed one `processMessage` call at a time.
  Each step states what the suite expects. Two driver methods chain the
  steps of each scenario from `new FastTracker()`.

Modelling choices:

- A connection is a `Handle`. Two handles are the same connection exactly
  when they are equal.
- Every `sendMessage` call is appended to `outbox` as a `Delivery`. "Peer
  `i` received exactly these messages since its calls were reset" is
  `Inbox` over the part of `outbox` that one announce added.
- Where the suite is silent, the model makes these choices of its own:
  - a `completed` event is counted once per peer;
  - the number of relays is the least of `numwant`, the number of offers
    and the number of other peers, and offers are paired with recipients
    in order;
  - the reply is sent before the relays;
  - a known peer keeps its first connection when it re-announces over
    another one;
  - a message with an unknown action or event, or a missing `info_hash` or
    `peer_id`, is rejected and changes nothing.
- At line 243 the suite checks the earlier capture `json` rather than
  `json3`, so it never checks the `action` of peer 3's reply.
  `PartnerResponse` states that action anyway: `AnnounceReply` always
  carries `announce`.

## Model

| member | source | states |
|---|---|---|
| Messages.ParseEvent | test/announce.test.ts:41-48 | an accepted `event` name maps back to itself (absent means an update), and only names other than `started` and `completed` are refused |
| Messages.Decode | test/announce.test.ts:59-65 | a message decodes exactly when its action is `announce`, it has `info_hash` and `peer_id`, and its event is accepted; the fields carry over, absent offers mean none and a non-positive `numwant` means zero; otherwise the error names the first problem, in order: an unknown action, a missing `info_hash`, a missing `peer_id`, an unsupported event |
| Messages.DecodeEncode | test/announce.test.ts:41-48 | every announce, written as the message a client sends, decodes back to itself |
| Messages.RelayOf | test/announce.test.ts:186-194 | a relay has action `announce` and the announcer's `info_hash` and `peer_id`; it has the offer's `offer_id`; its `offer` has type `offer` and the offer's sdp |
| Messages.Inbox | test/announce.test.ts:157-158 | a connection receives no more messages than were sent; it receives only messages sent to it, and every message sent to it |
| Messages.InboxAppend | test/announce.test.ts:186-187 | what a connection receives from two batches of sends is what it receives from the first, then from the second |
| Messages.InboxSingle | test/announce.test.ts:186-187 | a connection addressed by exactly one send receives exactly that one message |
| Messages.NotInInbox | test/announce.test.ts:220-221 | a connection addressed by no send receives nothing |
| Swarms.Admit | test/announce.test.ts:67-86 | the announcer is a member of the swarm afterwards; no peer and no completion is lost; a `completed` event leaves the announcer complete |
| Swarms.AdmitMembership | test/announce.test.ts:67-71 | after admission the swarm holds the old peers plus the announcer; every old peer keeps its connection; a new peer is bound to the connection it announced over; only the announcer can become complete |
| Swarms.AdmitSize | test/announce.test.ts:82-86 | a new peer grows the swarm by one; a known peer leaves its size unchanged |
| Swarms.AdmitCountsCompletedOnce | test/announce.test.ts:177-184 | a first `completed` adds one to the completed count; a repeated one and any other event add nothing |
| Swarms.AdmitConsistent | test/announce.test.ts:50-53 | a swarm with a peer admitted has that peer, and only its own peers are counted complete |
| Swarms.ReplyFor | test/announce.test.ts:155-161 | the reply has action `announce` and the swarm's `info_hash`; `complete` counts the completed peers; `complete + incomplete` counts all peers |
| Swarms.Swarm.constructor | test/announce.test.ts:50-51 | a new swarm has its `info_hash`, no peers and a zero counter |
| Swarms.Swarm.Join | test/announce.test.ts:67-71 | the swarm's new state is the admission of the announcer, and the counter still equals the number of completed peers |
| Swarms.Swarm.Reply | test/announce.test.ts:179-184 | the reply computed from the counter equals `ReplyFor` of the swarm's state |
| Tracker.ApplyAnnounce | test/announce.test.ts:92-107 | the registry afterwards has the old swarms plus the announced one, and the announcer is a peer of that swarm |
| Tracker.ApplyAnnounceEffect | test/announce.test.ts:92-107 | an announce adds its `info_hash` to the registry and changes no other swarm; a new swarm holds just the announcer under its connection, complete exactly on `completed`; an existing swarm admits it |
| Tracker.ApplyAnnounceConsistent | test/announce.test.ts:101-107 | an announce keeps every swarm non-empty, with only its own peers counted complete |
| Tracker.ReannounceIdempotent | test/announce.test.ts:73-86 | announcing the same thing again, over any connection, leaves the registry as it was |
| Tracker.DistinctSwarmsCommute | test/announce.test.ts:92-129 | announces to different swarms give the same registry in either order |
| Tracker.AnnounceOnlyGrows | test/announce.test.ts:122-129 | no announce removes a swarm or a peer, changes a peer's connection, or un-completes a peer |
| Tracker.RelayCount | test/announce.test.ts:268-283 | the number of relays is at most `numwant`, at most the number of offers and at most the number of other peers, and equals one of them |
| Tracker.ChooseRecipients | test/announce.test.ts:186-194 | the chosen recipients are as many as `RelayCount` allows; they are distinct members of the swarm other than the announcer; the i-th of them is sent the i-th offer |
| Tracker.Relays | test/announce.test.ts:186-194 | there is one relay per chosen recipient |
| Tracker.RelayInbox | test/announce.test.ts:285-296 | when connections are one per peer, a chosen peer receives exactly its one offer, and a peer not chosen receives none |
| Tracker.Response | test/announce.test.ts:177-194 | one announce sends one reply plus one relay per chosen recipient |
| Tracker.AnnouncerInbox | test/announce.test.ts:157-161 | when no two peers of the swarm share a connection, the announcer receives exactly one message, its reply, and none of its own offers |
| Tracker.TargetInbox | test/announce.test.ts:250-258 | when no two peers of the swarm share a connection, the i-th chosen peer receives exactly one message, the relay of the i-th offer |
| Tracker.BystanderInbox | test/announce.test.ts:288-296 | when no two peers of the swarm share a connection, a peer of the swarm that is neither the announcer nor chosen receives nothing |
| Tracker.OutsiderInbox | test/announce.test.ts:220-221 | a connection that is not in the swarm receives nothing |
| Tracker.FastTracker.constructor | test/announce.test.ts:34 | a new tracker has no swarms and has sent nothing |
| Tracker.FastTracker.ProcessMessage | test/announce.test.ts:50-53 | a message that does not decode is reported and changes nothing; an announce leaves the tracker valid and satisfies `Announced`: the registry moves by `ApplyAnnounce`, existing swarm objects stay in place, and exactly the `Response` is appended to the outbox |
| Tracker.FastTracker.ProcessAnnounce | test/announce.test.ts:155-161 | a decoded announce satisfies `Announced` and keeps the tracker valid |
| Tracker.FastTracker.Respond | test/announce.test.ts:177-194 | the outbox grows by the reply for the swarm's current state and then by the relays to a valid choice of recipients |
| Tracker.FastTracker.Send | test/announce.test.ts:28 | each delivery is appended to the outbox, in order |
| Tracker.FastTracker.Register | test/announce.test.ts:92-107 | the announcer joins the swarm of its `info_hash`; the registry moves by `ApplyAnnounce`; every other swarm object keeps its key and its state |
| Tracker.FastTracker.Locate | test/announce.test.ts:101-102 | the result is the swarm filed under `info_hash`, or a new empty one filed there; no other swarm is touched |
| AnnounceScenarios.AnnounceMessage | test/announce.test.ts:41-48 | a test message decodes exactly when its event is accepted, to the announce with the given fields |
| AnnounceScenarios.JoinStarted | test/announce.test.ts:41-48 | peer 0's message decodes to a `started` announce into swarm1 |
| AnnounceScenarios.JoinNoEvent | test/announce.test.ts:59-65 | peer 1's message, which has no event, decodes to an update |
| AnnounceScenarios.RejoinStarted | test/announce.test.ts:73-80 | peer 1's second message decodes to a `started` announce |
| AnnounceScenarios.CompleteFirst | test/announce.test.ts:92-99 | peer 2_0's message decodes to a `completed` announce into swarm2 |
| AnnounceScenarios.CompleteSecond | test/announce.test.ts:113-120 | peer 2_1's message decodes to a `completed` announce into swarm2 |
| AnnounceScenarios.FirstPeerRegistry | test/announce.test.ts:50-53 | the first announce gives swarm1 holding just peer 0 |
| AnnounceScenarios.SecondPeerRegistry | test/announce.test.ts:67-86 | peer 1 joins swarm1, and its repeated announce changes nothing |
| AnnounceScenarios.OtherSwarmRegistry | test/announce.test.ts:101-107 | peer 2_0 opens swarm2 beside swarm1 |
| AnnounceScenarios.FourPeersRegistry | test/announce.test.ts:122-129 | peer 2_1 joins swarm2 and swarm1 is unchanged |
| AnnounceScenarios.FirstPeerStarts | test/announce.test.ts:50-53 | the tracker then has exactly swarm1, which holds peer 0 under its connection |
| AnnounceScenarios.SecondPeerJoins | test/announce.test.ts:67-71 | swarm1 then holds peers 0 and 1, each under its own connection |
| AnnounceScenarios.SecondPeerRestarts | test/announce.test.ts:82-86 | the re-announce leaves swarm1 with peers 0 and 1 |
| AnnounceScenarios.OtherSwarmOpens | test/announce.test.ts:101-107 | the tracker then has swarm1 and swarm2; swarm1 is unchanged and swarm2 holds peer 2_0 |
| AnnounceScenarios.OtherSwarmGrows | test/announce.test.ts:122-129 | swarm2 then holds peers 2_0 and 2_1 and swarm1 is unchanged |
| AnnounceScenarios.OtherSwarmFills | test/announce.test.ts:101-129 | after steps four and five, swarm2 holds peers 2_0 and 2_1 and swarm1 is unchanged |
| AnnounceScenarios.AddPeersToSwarms | test/announce.test.ts:32-130 | the whole first scenario, from a new tracker, ends with swarm1 holding peers 0 and 1 and swarm2 holding 2_0 and 2_1, each under its own connection |
| AnnounceScenarios.TenOffers | test/announce.test.ts:135-141 | ten offers, each with sdp "x" and `offer_id` "y" |
| AnnounceScenarios.OffererStarts | test/announce.test.ts:146-153 | peer 0's message decodes to a `started` announce with ten offers |
| AnnounceScenarios.SeederCompletes | test/announce.test.ts:168-175 | peer 1's message decodes to a `completed` announce with ten offers |
| AnnounceScenarios.LoneStarts | test/announce.test.ts:202-209 | peer 2's message decodes to a `started` announce into swarm2 |
| AnnounceScenarios.PartnerCompletes | test/announce.test.ts:230-237 | peer 3's message decodes to a `completed` announce into swarm2 |
| AnnounceScenarios.LastWantsOne | test/announce.test.ts:268-275 | peer 4's message decodes to a `completed` announce with `numwant` 1 |
| AnnounceScenarios.OffererRegistry | test/announce.test.ts:155 | the first announce gives swarm1 holding just peer 0 |
| AnnounceScenarios.SeederRegistry | test/announce.test.ts:177 | peer 1 joins swarm1 and is its one complete peer |
| AnnounceScenarios.LoneRegistry | test/announce.test.ts:211 | peer 2 opens swarm2 beside swarm1 |
| AnnounceScenarios.PartnerRegistry | test/announce.test.ts:239 | peer 3 joins swarm2 as complete |
| AnnounceScenarios.LastRegistry | test/announce.test.ts:277 | peer 4 joins swarm2 as complete |
| AnnounceScenarios.SeededHandles | test/announce.test.ts:143-167 | the peers of swarm1 have distinct connections |
| AnnounceScenarios.LoneHandles | test/announce.test.ts:199-201 | peer 2 has its own connection, which is not peer 0's or peer 1's |
| AnnounceScenarios.PairHandles | test/announce.test.ts:227-229 | the peers of swarm2 have distinct connections, none of them peer 0's or peer 1's |
| AnnounceScenarios.TrioHandles | test/announce.test.ts:265-267 | the same holds after peer 4 joins |
| AnnounceScenarios.OffererResponse | test/announce.test.ts:157-161 | peer 0 receives exactly the reply 0 complete / 1 incomplete for swarm1, and nothing else is sent |
| AnnounceScenarios.OffererFirst | test/announce.test.ts:155-161 | the tracker ends with swarm1 holding peer 0, and peer 0 receives exactly that reply |
| AnnounceScenarios.SeederResponse | test/announce.test.ts:179-194 | peer 1 receives exactly the reply 1/1; peer 0 receives exactly one relay of peer 1's offer |
| AnnounceScenarios.SeederSecond | test/announce.test.ts:177-194 | the same, for the outbox after `processMessage` |
| AnnounceScenarios.LoneResponse | test/announce.test.ts:213-221 | peer 2 receives exactly the reply 0/1 for swarm2; peers 0 and 1 receive nothing |
| AnnounceScenarios.LoneThird | test/announce.test.ts:211-221 | the same, for the outbox after `processMessage` |
| AnnounceScenarios.PartnerResponse | test/announce.test.ts:241-258 | peer 3 receives exactly the reply 1/1; peer 2 receives exactly one relay of peer 3's offer; peers 0 and 1 receive nothing |
| AnnounceScenarios.PartnerFourth | test/announce.test.ts:239-258 | the same, for the outbox after `processMessage` |
| AnnounceScenarios.TrioReply | test/announce.test.ts:279-283 | peer 4's reply counts 2 complete and 1 incomplete |
| AnnounceScenarios.LastTargets | test/announce.test.ts:288-296 | with `numwant` 1, the single recipient is peer 2 or peer 3 |
| AnnounceScenarios.LastResponse | test/announce.test.ts:279-303 | peer 4 receives exactly the reply 2/1; peers 0 and 1 receive nothing; one of peers 2 and 3 receives exactly one relay of peer 4's offer, and the other receives nothing |
| AnnounceScenarios.LastFifth | test/announce.test.ts:277-303 | the same, for the outbox after `processMessage` |
| AnnounceScenarios.SwarmTwoFills | test/announce.test.ts:211-303 | after steps three to five, swarm2 holds peers 2, 3 and 4 with 3 and 4 complete, and swarm1 is unchanged |
| AnnounceScenarios.SwarmTwoCompletes | test/announce.test.ts:239-303 | after steps four and five, swarm2 holds peers 2, 3 and 4 with 3 and 4 complete, and swarm1 is unchanged |
| AnnounceScenarios.SendOffersToPeers | test/announce.test.ts:132-304 | the whole second scenario, from a new tracker, ends with those swarms |

## Left out

- `lib/fast-tracker.ts` and `lib/tracker.ts` are not part of this model. Its behaviour is stated as `test/announce.test.ts` observes it.
- The `stopped` event, peer removal, swarm deletion and disconnection are left out, because the suite does not exercise them. `Decode` rejects a `stopped` event as unsupported.
- `Messages.Decode`: decoding of any other event name, and of wrong field types, is the model's own choice, because the suite sends only well-formed announces.
- Relaying of `answer` messages back to the offerer is left out, because the suite does not exercise it. So is `peer.id` bookkeeping on the connection, which the suite only resets to `undefined`.
- Reply fields the suite does not read (such as `interval`) are left out.
- JSON, WebSockets and the ts-mockito capture mechanics are left out. Each `sendMessage` call is a `Delivery` appended to `outbox`.
- Concurrency is left out. Each `processMessage` call runs to completion before the next one starts.
- `Tracker.ChooseRecipients`: which peers receive the offers is left open, because the suite accepts either peer at lines 288-296. The contract fixes only how many there are and that they are distinct, other peers of the same swarm.
- `Tracker.RelayInbox`: the exact per-peer delivery is stated only when no two peers of a swarm share a connection, which is the case in every scenario.
- `Tracker.AnnouncerInbox`: stated only when no two peers of the swarm share a connection. The model lets one connection announce several `peer_id`s into a swarm, because the `peer.id` bookkeeping that would forbid it is left out. In that case the announcer's connection can receive its own offer.
- `Tracker.TargetInbox`: stated only when no two peers of the swarm share a connection. Otherwise a chosen peer's connection can also receive the reply or another peer's relay.
- `Tracker.BystanderInbox`: stated only when no two peers of the swarm share a connection. Otherwise a peer that was not chosen can share a connection with one that was.
- The suite resets the mocks' call records between steps. The model states each step's messages over the part of `outbox` that step added. The chained drivers `AddPeersToSwarms` and `SendOffersToPeers` therefore state only the final swarms.
