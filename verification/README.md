# gdiroh: a model and its proofs

gdiroh carries Godot's multiplayer, and protocols of a game's own, over iroh connections. This
project models two parts of it in Dafny and proves what they promise.

**The session protocol.** One host and its clients form a star. The host hands out peer ids, keeps
the table of links and streams membership messages to each client over a reserved reliable channel.
Every reliable channel is one stream of length-prefixed frames, written by one task and read by
another. Unreliable packets are datagrams with a wrapping counter and a half-range test.

**The pipelines around it.** The buffered byte stream and the two tasks that carry it, the raw
connection's event queue, the multiplayer peer's packet queue, the registry that routes inbound
connections by protocol name, and the listeners an endpoint queues while it binds.

Each object the source updates in place is a class whose methods are proved against functions on its
state; the theorems are about those functions and about every run of the systems built from them.

| files | contents |
|---|---|
| `bytes.dfy`, `protocol.dfy`, `channels.dfy` | integers on the wire, shared names, the channel between tasks |
| `control.dfy`, `framing.dfy` | membership messages as a prefix code, frames on a stream, the two stream tasks |
| `sequence.dfy`, `links.dfy` | the datagram counter and its test, and all that is sent to one peer |
| `views.dfy`, `session.dfy`, `runs.dfy`, `link_runs.dfy`, `notices.dfy` | the session task: specification, the object and loop, what every run keeps |
| `star.dfy`, `star_invariant.dfy`, `membership.dfy`, `forgery.dfy` | host, clients and streams as one system, its invariant, its theorems, and what breaks them |
| `peer.dfy`, `delivery.dfy` | the packet queue Godot reads, and reliable delivery end to end |
| `carry.dfy`, `stream.dfy` | the halves of a raw stream, and the buffer read as one flat run of bytes |
| `connection.dfy`, `dispatch.dfy`, `endpoint.dfy` | the raw connection, the registry, the listeners |

## Assumptions

- Streams are reliable and ordered and may be cut at any byte (section 2.2 of RFC 9000). Bytes arrive
  in any amounts, at any time; a failed writer just never sends more.
- Datagrams may be lost and reordered (section 5 of RFC 9221). Duplicates are allowed wherever a
  statement does not say otherwise: a duplicate of the newest datagram is delivered again.
- A raw stream ends cleanly for its reader only if its writer finished it and every byte came before
  that; a stream that was reset, or whose connection failed, does not.
- A hash map lists its keys in any order. The order is a ghost argument of the specification and every
  theorem holds for all orders.
- In the delivery theorems packets are shorter than 2^32 bytes, as Godot's 32-bit sizes make them; what
  happens to a longer one is `Framing.FramingIff`.
- The limit on a datagram can differ at every send and for every peer.
- The task that accepts, reads and applies is one interleaving of steps; a blocking receive is given
  everything its channel will ever carry, and `ready` says how much of it has already arrived.

## Conditions on a run, and why

The membership theorems hold for every run in which three conditions, each checkable before the step,
are met. The lemmas named below say what goes wrong without each.

- A packet a game sends on the channel `i32::MIN` that goes out on that channel's stream to some peer,
  because it is reliable or too large for a datagram, does not decode as a membership message and is
  shorter than 2^32 bytes. Nothing in the code keeps a game off that channel, or a packet below that
  length. `StarInvariant.HarmlessAdds` and `Framing.ForgedMessageIff` say such a packet goes unnoticed
  exactly when it does not decode, `Runs.MirrorIff` what one that does decode does to a host,
  `Forgery.ForgedDeparture` and `Forgery.ForgedExample` what it does to a client, and
  `Framing.FramingIff` is about the length.
- The id an accept hands out is free. It is for the first 2^31 - 2 accepts, so that with no more of them
  the other two conditions are enough (`Membership.BudgetSuffices`); otherwise
  `Membership.ShowsItselfIff` says exactly what goes wrong.
- An accept finds at most 2^30 - 3 links. Beyond that the Welcome is a frame of 2^32 bytes or more,
  whose length is cut (`StarInvariant.WelcomeShortIff`, `Framing.FramingIff`).

## Where the code and its comments differ

The model follows the code.

- `gdiroh/src/session.rs` says stale datagrams are dropped rather than delivered out of order. That
  holds for at most 2^31 - 1 ordered sends on a channel and no more (`Sequence.InOrderIff`).
- `gdiroh/src/raw.rs` says nothing follows `Closed`. Three tasks send into that channel and nothing keeps
  the other two silent after the one that sends the end; whether a connection still gives them anything
  is not part of this model. `Connection.DrainPastEndIff` says exactly when a drain then tells of
  something after the end, `Connection.ToldAfterClosed` is a case, and a blocking read never does
  (`Connection.WaitStopsAtEnd`).
- `gdiroh/src/endpoint.rs` says listening answers no when the endpoint is unbound. While a bind is in
  flight the name is queued and the answer is yes (`Endpoint.AnswersDecide`, `Endpoint.IdleTakesNothing`).
- `gdiroh/src/dispatch.rs` publishes outside the lock, so that two changes at once can leave the endpoint
  with the names of the earlier one (`Dispatch.OverlapExample`, `Dispatch.PublishedIff`).

## Model

| member | source | states |
|---|---|---|
| Membership.ViewsArePast | gdiroh/src/session.rs:423-502 | In every run, whatever is lost, delayed or interleaved, a client that has applied its Welcome shows exactly the peers the host had at some past moment, less itself (and the host too, until it loses the host); it never shows or reports its own id. |
| Membership.OneMessagePerChange | gdiroh/src/session.rs:423-478 | What a client was sent is its own accept and then one message for each later change of the host's links, in order; its announced set is the host's links at the point its applied messages reach. |
| Membership.HistoryInOrder | gdiroh/src/session.rs:423-478 | Along a run a client goes forward through the host's history and never back, and the host's past is never rewritten. |
| Membership.HistoryIsPast | gdiroh/src/session.rs:293-299 | Every entry of that history is the set of links the host really had at some state so far. |
| Membership.StepMovesOn | gdiroh/src/session.rs:349-374 | No step moves a client by more than one message. |
| Membership.InFlight | gdiroh/src/session.rs:423-478 | For every connection the host still holds, what the client shows plus everything sent and not yet applied comes to who the host holds now, so once drained the two agree. |
| Membership.OwnIdTold | gdiroh/src/session.rs:423-457 | In every run a client's game is told once that it is ready, when it has applied its Welcome, under the very id its accept handed out; the host's game once, under the host's id. |
| Membership.HostShownIff | gdiroh/src/session.rs:443-478 | A client that has applied its Welcome shows its host exactly while it holds the link to it; except that one which lost its host before its Welcome shows it from then on. |
| Membership.HostAgrees | gdiroh/src/session.rs:399-478 | On the host, links, announced peers and the shared connections map have equal keys at every state, the next id follows the count of accepts, and no membership message from a client is ever heard. |
| Membership.FreshWithinBudget | gdiroh/src/session.rs:347-367 | Through the first 2^31 - 2 accepts of a run the id about to be handed out is always free. |
| Membership.BudgetSuffices | gdiroh/src/session.rs:347-367 | With at most 2^31 - 2 accepts, clean packets and Welcomes that fit, every sequence of steps is a run to which the membership theorems apply. |
| Membership.ShowsItselfIff | gdiroh/src/session.rs:423-451 | A newcomer is told of itself, and would show itself, exactly when its id was still taken at its accept. |
| Forgery.ForgedExample | gdiroh/src/session.rs:545-557 | A run in which two clients join and the first shows the second, peer 3; one packet from the host's game on the reserved channel then makes it drop peer 3, which the host still holds. |
| Forgery.ForgedDeparture | gdiroh/src/session.rs:545-557 | The same for any client the host holds that has caught up and any peer the host holds: the host keeps that peer, the client no longer shows it, and no such send meets the conditions on a run. |
| Forgery.CatchUp | gdiroh/src/session.rs:693-722 | From every state a run can come to, whatever is in flight, bytes arriving and messages being acted on bring any client to act on all it was sent. |
| Membership.Converges | gdiroh/src/session.rs:423-478 | The same as InFlight at one state that satisfies the invariant. |
| Membership.RunKeeps | gdiroh/src/session.rs:349-374 | The invariant of host, clients and streams holds at every state of every run. |
| StarInvariant.StepKeeps | gdiroh/src/session.rs:349-374 | Every kind of step keeps that invariant: a game's packet, an accept, a loss, bytes arriving either way, a message being applied, a client losing its host. |
| StarInvariant.Advance | gdiroh/src/session.rs:443-457 | Applying the next message takes an announced set from one point of the host's history to the next one. |
| StarInvariant.HeardIsPrefix | gdiroh/src/session.rs:693-722 | The messages read off a control stream cut at any byte are a prefix of those the host wrote, and all of them once every byte is in. |
| StarInvariant.HeardMore | gdiroh/src/session.rs:705-722 | More bytes only ever add messages to those already read. |
| StarInvariant.HarmlessAdds | gdiroh/src/session.rs:545-597 | A game's packet shorter than 2^32 bytes leaves the membership messages on a control stream as they were exactly when it does not go out there, or goes out and does not decode. |
| StarInvariant.WelcomeShortIff | gdiroh/src/session.rs:108-115 | A Welcome survives the 32-bit frame length exactly when it lists at most 2^30 - 3 peers. |
| StarInvariant.GreetEffect | gdiroh/src/session.rs:423-440 | On each stream: everyone present hears of the newcomer, the newcomer alone gets the Welcome, no other link changes. |
| StarInvariant.LoseEffect | gdiroh/src/session.rs:459-474 | On each remaining stream exactly one departure message is added, and only the lost link goes. |
| StarInvariant.HostHearsNothing | gdiroh/src/session.rs:717-722 | With clean packets, nothing a client sends decodes on the host as a membership message. |
| StarInvariant.ApplyAnnounced | gdiroh/src/session.rs:443-457 | A message changes the announced set as the protocol means it to, touches no link, and reports only the peers it names. |
| Runs.EventsReplay | gdiroh/src/session.rs:491-502 | In every run of a host or client and for every peer, connects and disconnects reported take turns starting with a connect, and replaying the reports gives the announced set. |
| Runs.TurnFaithful | gdiroh/src/session.rs:349-374 | Each turn of the loop keeps that. |
| Runs.MirrorIff | gdiroh/src/session.rs:443-502 | A host applies membership messages unguarded: one breaks the agreement of its three sets exactly when it is news. |
| Runs.MirrorTurn | gdiroh/src/session.rs:399-478 | Every other turn keeps links, announced peers and connections equal on a host. |
| Notices.NoticesTold | gdiroh/src/session.rs:443-478 | In every run the game is told that its session is ready, under which id, and that its host is gone, in order and once each time: a host at its start, a client at each Welcome with the id in it, and when it loses its host. |
| Notices.TurnShows | gdiroh/src/session.rs:349-374 | Who is shown after each turn: everyone a Welcome lists and the host, a joiner, not one who left, not a peer whose link went, a newcomer accepted; nothing else changes it. |
| Notices.ConnectionsShared | gdiroh/src/session.rs:399-474 | In every run of a host or a client the shared map holds exactly each link's own connection. |
| Runs.IdsInTurn | gdiroh/src/session.rs:347-367 | In every run the k-th accept, from 0, gets the id 2 + k mod (2^31 - 2). |
| Runs.NextIdAt | gdiroh/src/session.rs:366-366 | The wrapping increment realises that formula. |
| Runs.IdsRepeatIff | gdiroh/src/session.rs:366-366 | Two accepts share an id exactly when a multiple of 2^31 - 2 accepts lies between them. |
| LinkRuns.LinksConserve | gdiroh/src/session.rs:399-598 | In every run and for every peer: it has a link exactly when its last accept was not followed by its loss, and the link is in the state that the packets the run meant for it since then, each sent once and in order, bring it to. What each turn means for each peer is read off the run: its accept, every send whose target takes it in, every other peer's accept or departure. |
| LinkRuns.LinkAccount | gdiroh/src/session.rs:510-598 | For any link of any run and any channel: its stream and its datagrams hold those packets, each on one of the two, its counter has counted every ordered one, and it has warned exactly if one was oversized. |
| LinkRuns.WarningsCounted | gdiroh/src/session.rs:579-592 | In every run and for every channel, the number of oversize warnings reported is the number of links, past or present, that the run meant an oversized packet on it. |
| LinkRuns.WarningsBounded | gdiroh/src/session.rs:579-592 | So never more than the links made: the one a client starts with, and one at each accept. |
| Views.SendReaches | gdiroh/src/session.rs:510-598 | A send changes exactly the links the target selects, whatever order the map lists them in; each of them carries the game's own packet once: as its channel's next frame if it is reliable or its datagram would exceed the link's limit, else as the next datagram, under the bumped counter if ordered and zero if not. |
| Views.SendWarns | gdiroh/src/session.rs:579-592 | A send tells the game exactly of the links it reaches on which that is the first packet too large for a datagram on its channel, with its size and the room there was. |
| Links.SendCarries | gdiroh/src/session.rs:535-598 | What one packet does to a link on the wire, and that it does nothing to any other channel. |
| Views.Targets | gdiroh/src/session.rs:508-533 | The selection case by case: everyone, everyone but one, the one peer, or the host when it is not linked; the least target is everyone. |
| Views.TellEffect | gdiroh/src/session.rs:435-437 | Telling several peers adds one message to each named link, whatever the order, and nothing else. |
| Views.SendEachEffect | gdiroh/src/session.rs:511-523 | The same for packets; the only events are warnings. |
| Views.AnnounceAllEffect | gdiroh/src/session.rs:445-451 | A Welcome's peers end up announced, and nothing but their connects is reported. |
| Links.PacketsConserved | gdiroh/src/session.rs:535-598 | Over a link's life each packet is carried once: as the next frame of its channel's stream when reliable or oversized, else as the next datagram. |
| Links.CounterTracks | gdiroh/src/session.rs:564-571 | A channel's counter counts every ordered send, whichever path the packet took. |
| Links.WarnsOnce | gdiroh/src/session.rs:579-592 | Over a link's life a channel warns once if any of its packets was oversized, otherwise never. |
| Links.SenderNumbers | gdiroh/src/session.rs:559-577 | A link's ordered datagrams on a channel are its ordered packets, each under the number of its place among all of them, less those that went by the stream. |
| Links.UndisturbedDelivery | gdiroh/src/session.rs:559-669 | From a link's sends to the far game over a network that keeps order: every packet sent as a datagram arrives, across wraps and fallbacks, while no gap exceeds 2^31 sends. |
| Links.DrawnArrive | gdiroh/src/session.rs:559-669 | Whatever a network loses, reorders or repeats of a link's datagrams, the ordered ones it delivers on a channel are that channel's ordered packets that fitted, each under the number of its place among them all. |
| Links.OrderedOverNetwork | gdiroh/src/session.rs:559-669 | So with at most 2^31 - 1 ordered sends the receiver gives the running maxima of what arrived, in the order of the link's sends when nothing is repeated. |
| Links.WrappedOverNetwork | gdiroh/src/session.rs:559-669 | And for any number of sends all of what arrived, when it came in send order with no gap above 2^31 sends. |
| Links.UnorderedOverNetwork | gdiroh/src/session.rs:559-669 | Whatever a network loses, reorders or repeats: each of a link's unordered packets that fitted a datagram comes out as often as it arrives, as it was sent. |
| Sequence.OrderedDelivery | gdiroh/src/session.rs:634-669 | With at most 2^31 - 1 ordered sends, any loss and reordering and any other traffic, a channel delivers exactly the running maxima of its arrivals, strictly in send order when nothing is duplicated. |
| Sequence.WrappedDelivery | gdiroh/src/session.rs:634-669 | For any number of sends, what arrives in send order with no gap above 2^31 is all delivered. |
| Sequence.InOrderIff | gdiroh/src/session.rs:649-654 | Delivery is in send order for every loss and reordering exactly when at most 2^31 - 1 ordered sends are made. |
| Sequence.WrapToleranceIff | gdiroh/src/session.rs:649-654 | Nothing arriving in send order is ever dropped exactly when no gap exceeds 2^31 sends. |
| Sequence.StaleIff | gdiroh/src/session.rs:649-653 | For any two sends, in either order and across any number of wraps: right after the i-th was seen, the j-th counts as old exactly when counting on from the i-th to the j-th passes the wrap and takes more than 2^31. |
| Sequence.OldRejectedIff | gdiroh/src/session.rs:649-653 | A datagram older by less than one turn of the counter is rejected exactly when the counter has not wrapped since it was sent and it is less than 2^31 - 1 sends behind. |
| Sequence.StaleWithinHalf | gdiroh/src/session.rs:649-653 | Within one half range the test is exactly: sent before the newest seen. |
| Sequence.CounterValue | gdiroh/src/session.rs:564-571 | The i-th counter value is ((i - 1) mod (2^32 - 1)) + 1, never zero. |
| Sequence.CounterGap | gdiroh/src/session.rs:564-571 | How far one send's counter lies ahead of another's, around the wrap, whichever came first. |
| Sequence.ChannelsAreIndependent | gdiroh/src/session.rs:635-654 | A channel's ordered packets depend on its own ordered datagrams alone. |
| Sequence.ReaderKeeps | gdiroh/src/session.rs:637-668 | The reader, on framed datagrams, keeps exactly the positions the counter rule keeps. |
| Sequence.UnorderedDelivery | gdiroh/src/session.rs:634-669 | Whatever else arrives, the unordered packets read are those of exactly the datagrams numbered zero, in order and each time one comes, with their own channel and payload. |
| Sequence.ReadAllGrows | gdiroh/src/session.rs:634-669 | Packets come out in the order their datagrams came in: more arrivals only ever add to them. |
| Sequence.KeptAreMaxima | gdiroh/src/session.rs:649-654 | Over one half range, what is kept is the running maxima. |
| Sequence.OldOneSlipsThrough | gdiroh/src/session.rs:649-653 | The concrete pair of sends, 2^31 - 1 apart, that is delivered out of order. |
| Sequence.NewOneDropped | gdiroh/src/session.rs:649-653 | The concrete pair, 2^31 + 1 apart across the wrap, whose newer packet is dropped. |
| Sequence.ReadDatagrams | gdiroh/src/session.rs:634-669 | The reader task's loop delivers what the specification of its arrivals gives, up to the moment the session is gone; what that is, `Sequence.UnorderedDelivery`, `Sequence.OrderedDelivery` and `Sequence.WrappedDelivery` say. |
| Control.DecodeIffPrefix | gdiroh/src/session.rs:104-150 | On any bytes, decoding gives a message exactly when that message fits and its encoding opens the frame; so at most one message does. |
| Control.RoundTripIff | gdiroh/src/session.rs:104-150 | A message decodes from its own encoding exactly when its peer list is shorter than 2^32. |
| Control.PrefixFree | gdiroh/src/session.rs:104-126 | No message's encoding begins another's. |
| Control.OnTheWire | gdiroh/src/session.rs:104-126 | One message of each kind, byte for byte. |
| Control.EncodeToBuffer | gdiroh/src/session.rs:105-126 | Appending field by field gives that encoding. |
| Control.DecodeFrame | gdiroh/src/session.rs:128-150 | Reading through a cursor gives that decoding and never reads past the frame, whatever the bytes. |
| Framing.StreamPrefix | gdiroh/src/session.rs:602-735 | Cut at any byte, a channel's stream yields its own channel id and exactly the frames wholly before the cut. |
| Framing.ParsePrefix | gdiroh/src/session.rs:705-714 | The same for the bytes after the channel id. |
| Framing.FramingIff | gdiroh/src/session.rs:602-735 | A whole stream gives back its frames exactly when every one is shorter than 2^32 bytes. |
| Framing.OnTheWire | gdiroh/src/session.rs:602-622 | A stream of two frames, byte for byte. |
| Bytes.FirstByteDecides | gdiroh/src/session.rs:109-118 | Integers go most significant byte first: the first byte that differs decides which is larger. |
| Framing.ParseGrows | gdiroh/src/session.rs:705-714 | On any bytes at all, more of them only adds frames. |
| Framing.ForgedMessageIff | gdiroh/src/session.rs:717-722 | With a game's packet among the host's messages, the receiver acts on the host's alone exactly when the packet does not decode. |
| Framing.WriteStream | gdiroh/src/session.rs:602-622 | However early the connection fails, the writer task has sent the stream's bytes up to that point. |
| Framing.ReadStream | gdiroh/src/session.rs:693-735 | The reader task passes on each frame once and in order, to the session or to the game by channel, until the stream or the session ends. |
| Session.Run | gdiroh/src/session.rs:313-384 | The task's loop makes one turn per input, hands ids out in turn, stops at the first close and then reports it. |
| Session.State.Welcome | gdiroh/src/session.rs:423-440 | Greets a newcomer and tells everyone who was there. |
| Session.State.Apply | gdiroh/src/session.rs:443-457 | Acts on a membership message as the specification says. |
| Session.State.Lost | gdiroh/src/session.rs:459-478 | Removes a link once, and tells the others when this is the host. |
| Session.State.Send | gdiroh/src/session.rs:510-533 | Goes to each peer of the route once, in the map's order. |
| Session.State.SendOne | gdiroh/src/session.rs:535-542 | Takes the reliable or the datagram path by mode. |
| Session.State.WriteDatagram | gdiroh/src/session.rs:559-598 | Numbers an ordered packet, then sends it, or warns once and falls back. |
| Session.State.WriteReliable | gdiroh/src/session.rs:545-557 | Adds one frame to one channel of one link. |
| Session.State.AddLink | gdiroh/src/session.rs:399-420 | Makes a fresh link and mirrors it. |
| Session.State.Announce | gdiroh/src/session.rs:491-495 | Reports a peer only when it was not announced. |
| Session.State.Forget | gdiroh/src/session.rs:498-502 | Reports a departure only of a peer that was announced. |
| Delivery.DeliveryConserved | gdiroh/src/session.rs:545-735 | At every state of every run and on every channel a game may use: until the game closes its peer or a poll takes an end, what the game has got, what its peer and session queue and the frames not yet read come to exactly what the sender put on the reliable path, in order; and what the game has got is always a beginning of that. |
| Delivery.AllDelivered | gdiroh/src/session.rs:545-735 | Once every byte is read and every queue empty, the game has got all of it. |
| Delivery.StepKeeps | gdiroh/src/session.rs:602-735 | Each step of writers, network, readers and the game's peer keeps the account of every channel. |
| Delivery.DatagramsConserved | gdiroh/src/session.rs:634-669 | In every such run, and until the same moment, the datagrams the game has got and those queued for it come to exactly what the reader made of the arrivals, in order. |
| Delivery.OrderedToGame | gdiroh/src/session.rs:559-669 | With at most 2^31 - 1 ordered sends on a channel, whatever the network loses, reorders or repeats of the sender's own datagrams, what the far game has got at any moment is a beginning of the running maxima of those that arrived, in the order they were sent, and all of them once nothing is queued. |
| Delivery.UnorderedToGame | gdiroh/src/session.rs:559-669 | Likewise for unordered packets: what the far game has got is a beginning of those that arrived, each as it was sent, and all of them once nothing is queued. |
| Peer.PacketsInOrder | gdiroh/src/peer.rs:356-381 | For every interleaving of reports, polls, fetches and a close: packets handed out and queued are those of the events taken, in order and each once; the peer stops taking events only when it has taken an end or is closed, and closing drops the queue. |
| Peer.NothingLost | gdiroh/src/peer.rs:356-381 | Until the game closes it: packets handed out, queued and waiting are those reported up to the session's first end, and, once that was taken, those the same poll took from behind it. |
| Peer.StandingFollows | gdiroh/src/peer.rs:458-488 | Over every such life: Godot is told of the membership changes and warnings taken, in order and each once; the id and status are those of the last ready or end taken, or none once the game closed it; the current packet is the last handed out. |
| Peer.IrohPeer.Poll | gdiroh/src/peer.rs:356-369 | Takes all that is waiting and handles it in order, even what follows an end. |
| Peer.IrohPeer.Handle | gdiroh/src/peer.rs:458-488 | What one event does to the peer. |
| Peer.IrohPeer.GetPacket | gdiroh/src/peer.rs:262-318 | Hands out the packet at the front and keeps it as current. |
| Peer.IrohPeer.PeekPacket | gdiroh/src/peer.rs:238-255 | Describes the packet the next fetch will hand out, or the defaults. |
| Peer.IrohPeer.Close | gdiroh/src/peer.rs:371-381 | Forgets the session and everything queued. |
| Stream.State.GetData | gdiroh/src/stream.rs:192-221 | An exact read gives the next n bytes when that many are still to come, else nothing with nothing consumed; chunk boundaries and arrival times make no difference. |
| Stream.State.GetPartialData | gdiroh/src/stream.rs:224-248 | A partial read gives the next bytes of those already here, up to n. |
| Stream.State.GetAvailableBytes | gdiroh/src/stream.rs:295-297 | The count of bytes already here, capped at the largest i32. |
| Stream.State.Drain | gdiroh/src/stream.rs:107-132 | Buffers all that is here without losing, adding or reordering a byte, nor changing how the stream ends. |
| Stream.State.Fill | gdiroh/src/stream.rs:140-156 | Waits until enough is buffered or the end is known: it succeeds exactly when enough bytes are still to come. |
| Stream.State.TakeInto | gdiroh/src/stream.rs:159-178 | Copies the front of the buffer into the caller's, across chunks and empty chunks, and always terminates. |
| Stream.State.Close | gdiroh/src/stream.rs:379-384 | Discards the stream and what it buffered. |
| Stream.Drive | gdiroh/src/stream.rs:107-248 | For every interleaving of arrivals, exact and partial reads and counts, bytes handed out followed by bytes still readable are the bytes there were. |
| Stream.ReadExactly | gdiroh/src/stream.rs:140-221 | Exact reads answer as if all bytes had come in one piece at once. |
| Stream.ReadFramed | gdiroh/src/stream.rs:185-221 | A reader of lengths and payloads gets exactly the messages that lie wholly before the point a sender stopped, however the network cut them, up to the first too long to ask for; all of a whole stream exactly when none is longer than 2^31 - 1 bytes. |
| Stream.ReadMessages | gdiroh/src/stream.rs:185-221 | On any bytes, such a reader splits them just as the framing does, and stops at the first message longer than 2^31 - 1 bytes. |
| Stream.FarSideReads | gdiroh/src/raw.rs:244-309 | Whatever both sides queue and however early either fails: what the far buffer is fed is a beginning of the data queued before the first finish or abort, and it ends cleanly only if no abort stands there and all of it is in. |
| Stream.DriveFarSide | gdiroh/src/raw.rs:244-309 | So every run of calls on that buffer hands out a beginning of those bytes, and with what is still to be read all of them when it ends cleanly. |
| Carry.RunWriter | gdiroh/src/raw.rs:290-308 | The bytes given to the send half are those queued before the first finish or abort, as far as the connection took them; how it is left is what `Carry.StopDecides` says, or failed. |
| Carry.StopDecides | gdiroh/src/raw.rs:290-308 | For every queue: if the first chunk that is not data is an abort, the send half is reset with its code; if it is a finish or there is none, it is finished; what is written is the data before it. |
| Carry.NothingAfter | gdiroh/src/raw.rs:290-308 | Nothing queued after a finish or an abort changes what is written or how it ends. |
| Carry.RunReader | gdiroh/src/raw.rs:254-288 | The reader loop reports what the specification of its inputs gives, which `Carry.FirstStop` says, and stops the stream with an abort's code. |
| Carry.FirstStop | gdiroh/src/raw.rs:254-288 | What first stops the reader decides: the end of the stream, reported as clean; an error, with its reason; or an abort, with its code and no report, unless the writer was gone before it. All that was read until then is reported, and nothing after. |
| Carry.AbortHeeded | gdiroh/src/raw.rs:248-270 | An abort of its own side that reaches the reader before an end stops it there, whatever comes after. |
| Carry.ReaderEndsOnce | gdiroh/src/raw.rs:271-285 | An end is reported at most once, and last. |
| Carry.ReaderReportsAll | gdiroh/src/raw.rs:254-288 | Unless this side aborts, everything delivered is reported in order and then how it ended; finishing our own half takes nothing away. |
| Carry.AbortOnlyCuts | gdiroh/src/raw.rs:260-270 | An abort leaves a prefix of what would have been reported. |
| Carry.HalvesCompose | gdiroh/src/raw.rs:244-309 | For every queue on either side, every point at which either connection fails and every cutting: the far side reports a beginning of the data queued before the first finish or abort; a clean end only if no abort stands there and all of it got through; an end once and last. It stops the stream only with the code of its own abort, and without one reports all that came and how it ended. |
| Connection.DatagramsInOrder | gdiroh/src/connection.rs:127-307 | For every interleaving of arrivals, frame drains, counts, blocking reads and a close: datagrams handed out and queued are those of the events taken, in order and each once; everything else taken is told once and in order, that it opened, each stream, an end as failed when no connection was held; the connection held is the last that opened; and unless closed it listens exactly until it has taken an end. |
| Connection.NothingLost | gdiroh/src/connection.rs:210-307 | Until script closes it: datagrams handed out, queued and still in the channel are those that arrive up to the first end, and, once that was taken, those the same drain took from behind it. |
| Connection.ToldPastEndIff | gdiroh/src/connection.rs:127-224 | Over a whole life, something is told after an end exactly when an event from behind an end was taken. |
| Connection.DrainPastEndIff | gdiroh/src/connection.rs:210-224 | One drain tells of something after an end exactly when, among the events that are here, one lies behind the first end. |
| Connection.WaitStopsAtEnd | gdiroh/src/connection.rs:290-307 | A call that waits for a datagram never tells of anything after an end. |
| Connection.WaitGives | gdiroh/src/connection.rs:290-307 | With nothing queued, a call for a datagram gives the first still to come and takes all up to it, if it comes before an end; nothing, if an end comes first or neither does. |
| Connection.DrainTellsEach | gdiroh/src/connection.rs:127-224 | A drain tells of every event that is here, datagrams too, in order and each once. |
| Connection.ToldAfterClosed | gdiroh/src/connection.rs:210-224 | The concrete case: a datagram right behind an end, both here at the same drain. |
| Connection.FirstEnd | gdiroh/src/connection.rs:144-154 | The first end is told as failed exactly when no connection was held from the outset or opened before it. |
| Connection.IrohConnection.GetDatagram | gdiroh/src/connection.rs:290-307 | The queue first, then a wait that handles other events and stops at an end. |
| Connection.IrohConnection.DrainPending | gdiroh/src/connection.rs:210-224 | Takes all that is here, then handles it in order, even after an end. |
| Connection.IrohConnection.Handle | gdiroh/src/connection.rs:127-156 | What one event does to the connection. |
| Connection.IrohConnection.GetAvailableDatagramCount | gdiroh/src/connection.rs:277-280 | Drains, then counts the queue, capped at the largest i32. |
| Connection.IrohConnection.Close | gdiroh/src/connection.rs:381-391 | Drops connection and events, tells nothing, keeps the queue. |
| Dispatch.RunTidy | gdiroh/src/dispatch.rs:66-94 | For every interleaving of claims, releases, refusals, lookups and publishing, the registry's names are exactly those of the claims held, one each. |
| Dispatch.PublishedIff | gdiroh/src/dispatch.rs:66-101 | However changes and the publishing that follows each outside the lock overlap: the endpoint negotiates exactly the registry's names if and only if every name was added or taken away an even number of times since the names it was last given were listed. |
| Dispatch.PublishedInTurn | gdiroh/src/dispatch.rs:98-101 | When no change is made while another's names are on their way, the endpoint has the registry's names whenever all is set. |
| Dispatch.OverlapExample | gdiroh/src/dispatch.rs:84-101 | Two claims that overlap: all names are set, and one that is held is not among those published. |
| Dispatch.ReleaseTakesOwn | gdiroh/src/dispatch.rs:152-157 | A release removes its own entry and no other, though it goes by name. |
| Dispatch.HandedRightly | gdiroh/src/dispatch.rs:190-228 | A connection is only handed to a registration that, at its lookup, already existed, held its negotiated name and was not refusing. |
| Dispatch.HandedOnce | gdiroh/src/dispatch.rs:225-228 | Once handed over it stays there; no other registration ever gets it. |
| Dispatch.DeliveredIff | gdiroh/src/dispatch.rs:190-228 | In every run a registration has a connection exactly when the connection's lookup found it holding the negotiated name and not refusing, and it was then put in its inbox while that was still read. |
| Dispatch.LookUpDecides | gdiroh/src/dispatch.rs:207-223 | After its lookup a connection is on its way to a registration exactly when that held its name and was not refusing. |
| Dispatch.LookDecides | gdiroh/src/dispatch.rs:184-223 | The route: to the one holder of the name that does not refuse; refused exactly when the holder does; nobody listens exactly when no claim has the name. |
| Dispatch.HeldIff | gdiroh/src/dispatch.rs:66-94 | In every run a claim is held exactly since a step that claimed a name nothing held, until it is released. |
| Dispatch.RefusesIff | gdiroh/src/dispatch.rs:133-138 | A registration refuses exactly when its flag was last put up. |
| Dispatch.Dispatcher.Register | gdiroh/src/dispatch.rs:66-94 | Claims a free name under a new registration and publishes, else changes nothing. |
| Dispatch.Dispatcher.Release | gdiroh/src/dispatch.rs:152-157 | Gives the name up and publishes what is left. |
| Dispatch.Dispatcher.Dispatch | gdiroh/src/dispatch.rs:207-223 | Routes to the holder of the name unless that refuses, is refused exactly when it does, and finds no listener exactly when no claim has the name. |
| Dispatch.Dispatcher.Wanted | gdiroh/src/dispatch.rs:184-188 | Whether a claim that has the name is held by a registration that does not refuse. |
| Endpoint.QueueCommutesWithBind | gdiroh/src/endpoint.rs:193-271 | Listening and stopping during a bind comes to the same listeners, registry and answers as making the same calls right after it on a fresh dispatcher. |
| Endpoint.CallsDecide | gdiroh/src/endpoint.rs:826-863 | After any calls on an endpoint that is bound or binding, a name is listened to, or queued, exactly when the last call about it was a listen and the name was to be had, neither empty nor reserved nor another's; or when there was none and it was before. What others hold stays theirs. |
| Endpoint.AnswersDecide | gdiroh/src/endpoint.rs:826-854 | Every listen is answered by whether the name was to be had, whatever calls came before it. |
| Endpoint.IdleTakesNothing | gdiroh/src/endpoint.rs:826-863 | An endpoint neither bound nor binding answers no to every listen and takes nothing on. |
| Endpoint.LandingKeeps | gdiroh/src/endpoint.rs:193-225 | A bind that comes back leaves exactly what was queued listened to. |
| Endpoint.IrohEndpoint.DrainBind | gdiroh/src/endpoint.rs:193-225 | A finished bind claims everything queued, in turn; a failed one leaves the queue. |
| Endpoint.IrohEndpoint.Claim | gdiroh/src/endpoint.rs:254-271 | Claims a name unless it is ours already, unbound or held by another. |
| Endpoint.IrohEndpoint.Listen | gdiroh/src/endpoint.rs:826-854 | Rejects empty and reserved names, queues during a bind, else claims. |
| Endpoint.IrohEndpoint.StopListening | gdiroh/src/endpoint.rs:858-863 | Unqueues the name and releases its claim. |
| Endpoint.IrohEndpoint.Bind | gdiroh/src/endpoint.rs:702-758 | Starts a bind unless bound, binding or without a runtime to take it on. |
| Endpoint.IrohEndpoint.Teardown | gdiroh/src/endpoint.rs:1322-1343 | Gives up the bind, the queue and every listener; exactly our names are freed for whoever shares the dispatcher. |

## Left out

- Godot's side: signals, `Gd`, `Variant`, raw pointers, frame ticking, and the plain setters and getters of `IrohPeer`; `put_packet` only checks that the peer is connected before handing a packet on.
- The mapping of Godot's transfer modes to the session's: three values to three values, and anything unknown to reliable.
- `blobs.rs`, `docs.rs`, `gossip.rs`, `topic.rs`, `document.rs`, `transfer.rs`, `stats.rs`, `puppy.rs`, `log.rs`, `error.rs`: thin wrappers over libraries that are not part of this model.
- `runtime.rs`: counting leases would only add an easy member.
- QUIC, dialling, relays, tickets, hashing and closing codes; connections are numbers.
- Relaying between clients: Godot does that, and a client's session only forwards to the host.
- `Session::host` and `Session::join`: claiming the protocol name and dialling. A run starts once the task listens or holds its first link.
- A client's part of the system starts at its accept; what it does before is not modelled.
- `is_open` and `get_error` of a stream.
- Shared references to a link: it is a value in the session's map, as the source owns it there, so nothing is said of aliasing.
- What `drop_link` does besides asking the connection to close; the loss it leads to is a step of its own.
- Session.State.Send: negating the least target wraps, as a release build does; a debug build stops instead.
- Control.DecodeFrame: lengths are unbounded integers, so the product of a peer count and 4 overflowing a 32-bit `usize` is not modelled.
- Stream.State.Fill: a wait that never ends, on a channel whose sender stays and sends nothing more, is not modelled; every channel is given what it will carry before its senders go.
- Stream.ReadMessages: Godot's own helpers read the length; here it is four bytes, most significant first.
- Writing to a stream from script (`put_data`), which hands a copy of the bytes to the writer's queue and reports whether the queue still exists.
- The ten fields of an endpoint that have nothing to do with listening.
- Order between a packet that fell back to the stream and datagrams sent after it: they travel separately.
- Order between packets and membership or ready events, which come from different tasks; and that nothing follows `Closed` on a client that lost its host, whose loop runs on.
