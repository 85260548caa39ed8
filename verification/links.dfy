/** One connected peer, as the session task sees it: what is sent to it and by which path. */
module Links {
  import opened Bytes
  import opened Protocol
  import opened Sequence

  /**
    `reliable` holds, for each channel with a writer task, every frame handed to that task;
    `datagrams` is every datagram handed to the connection.
   */
  datatype Link = Link(
    conn: nat,
    reliable: map<I32, seq<Bytes>>,
    sequences: map<I32, U32>,
    warned: set<I32>,
    datagrams: seq<Bytes>)

  function NewLink(conn: nat): Link {
    Link(conn, map[], map[], {}, [])
  }

  function Frames(link: Link, channel: I32): seq<Bytes> {
    if channel in link.reliable then link.reliable[channel] else []
  }

  function Last(link: Link, channel: I32): U32 {
    if channel in link.sequences then link.sequences[channel] else 0
  }

  /** One packet for one peer. The limit is the connection's datagram limit at that moment. */
  datatype Op = Op(channel: I32, mode: Mode, data: Bytes, limit: nat)

  predicate Oversized(op: Op) {
    op.mode != Reliable && DATAGRAM_HEADER + |op.data| > op.limit
  }

  function Queue(link: Link, channel: I32, data: Bytes): Link {
    link.(reliable := link.reliable[channel := Frames(link, channel) + [data]])
  }

  function Count(link: Link, op: Op): Link {
    if op.mode != UnreliableOrdered then link
    else link.(sequences := link.sequences[op.channel := Bump(Last(link, op.channel))])
  }

  function Send(link: Link, op: Op): Link {
    if op.mode == Reliable then Queue(link, op.channel, op.data)
    else
      var counted := Count(link, op);
      if Oversized(op) then Queue(counted.(warned := link.warned + {op.channel}), op.channel, op.data)
      else
        var sequence := if op.mode == UnreliableOrdered then Last(counted, op.channel) else 0;
        counted.(datagrams := link.datagrams + [Datagram(op.channel, sequence, op.data)])
  }

  function Warnings(link: Link, op: Op): seq<Event> {
    if Oversized(op) && op.channel !in link.warned then
      [Warning(|op.data|, if op.limit < DATAGRAM_HEADER then 0 else op.limit - DATAGRAM_HEADER, op.channel)]
    else []
  }

  // ---------- A link's whole life ----------

  function SendAll(link: Link, ops: seq<Op>): Link {
    if ops == [] then link else Send(SendAll(link, ops[..|ops| - 1]), ops[|ops| - 1])
  }

  function AllWarnings(link: Link, ops: seq<Op>): seq<Event> {
    if ops == [] then []
    else
      var n := |ops| - 1;
      AllWarnings(link, ops[..n]) + Warnings(SendAll(link, ops[..n]), ops[n])
  }

  /** The payloads that ops put on a channel's reliable stream. */
  function Streamed(ops: seq<Op>, channel: I32): seq<Bytes> {
    if ops == [] then []
    else
      var op := ops[|ops| - 1];
      Streamed(ops[..|ops| - 1], channel)
      + (if op.channel == channel && (op.mode == Reliable || Oversized(op)) then [op.data] else [])
  }

  function OrderedCount(ops: seq<Op>, channel: I32): nat {
    if ops == [] then 0
    else
      var op := ops[|ops| - 1];
      OrderedCount(ops[..|ops| - 1], channel)
      + (if op.channel == channel && op.mode == UnreliableOrdered then 1 else 0)
  }

  /** The datagrams that ops make, each numbered by its place among its channel's ordered ops. */
  function Datagrams(ops: seq<Op>): seq<Bytes> {
    if ops == [] then []
    else
      var op := ops[|ops| - 1];
      var sequence := if op.mode == UnreliableOrdered then Counter(OrderedCount(ops, op.channel)) else 0;
      Datagrams(ops[..|ops| - 1])
      + (if op.mode == Reliable || Oversized(op) then [] else [Datagram(op.channel, sequence, op.data)])
  }

  function WarningsOn(events: seq<Event>, channel: I32): nat {
    if events == [] then 0
    else
      var e := events[|events| - 1];
      WarningsOn(events[..|events| - 1], channel) + (if e.Warning? && e.channel == channel then 1 else 0)
  }

  /**
    What one packet does to a link, on the wire: it is its channel's next frame when it is reliable or
    its datagram would exceed the limit, and otherwise the next datagram, numbered when it is ordered.
   */
  ghost predicate Carries(before: Link, after: Link, channel: I32, mode: Mode, data: Bytes, limit: nat) {
    var large := mode != Reliable && 8 + |data| > limit;
    var number := if mode == UnreliableOrdered then Bump(Last(before, channel)) else 0;
    && after.conn == before.conn
    && (if mode == Reliable || large
        then Frames(after, channel) == Frames(before, channel) + [data] && after.datagrams == before.datagrams
        else && Frames(after, channel) == Frames(before, channel)
             && after.datagrams == before.datagrams + [PutI32(channel) + PutU32(number) + data])
    && Last(after, channel) == (if mode == UnreliableOrdered then number else Last(before, channel))
    && after.warned == (if large then before.warned + {channel} else before.warned)
    && forall other: I32 :: other != channel ==>
         Frames(after, other) == Frames(before, other) && Last(after, other) == Last(before, other)
  }

  lemma SendCarries(link: Link, channel: I32, mode: Mode, data: Bytes, limit: nat)
    ensures Carries(link, Send(link, Op(channel, mode, data, limit)), channel, mode, data, limit)
  {
  }

  lemma CountValue(link: Link, op: Op, channel: I32)
    ensures Last(Send(link, op), channel)
            == if op.channel == channel && op.mode == UnreliableOrdered then Bump(Last(link, channel))
               else Last(link, channel)
  {
  }

  /** The counter follows every ordered send, whichever path the packet took. */
  lemma {:induction false} CounterTracks(conn: nat, ops: seq<Op>, channel: I32)
    ensures Last(SendAll(NewLink(conn), ops), channel) == Counter(OrderedCount(ops, channel))
  {
    if ops != [] {
      var n := |ops| - 1;
      CounterTracks(conn, ops[..n], channel);
      CountValue(SendAll(NewLink(conn), ops[..n]), ops[n], channel);
    }
  }

  lemma {:induction false} FramesTrack(conn: nat, ops: seq<Op>, channel: I32)
    ensures Frames(SendAll(NewLink(conn), ops), channel) == Streamed(ops, channel)
  {
    if ops != [] {
      FramesTrack(conn, ops[..|ops| - 1], channel);
    }
  }

  lemma {:induction false} DatagramsTrack(conn: nat, ops: seq<Op>)
    ensures SendAll(NewLink(conn), ops).conn == conn
    ensures SendAll(NewLink(conn), ops).datagrams == Datagrams(ops)
  {
    if ops != [] {
      var n := |ops| - 1;
      DatagramsTrack(conn, ops[..n]);
      CounterTracks(conn, ops[..n], ops[n].channel);
      CounterTracks(conn, ops, ops[n].channel);
    }
  }

  /**
    Every packet for a peer is carried once: a reliable or oversized one as the next frame of its
    channel's stream, any other as the next datagram, numbered when it is ordered.
   */
  lemma PacketsConserved(conn: nat, ops: seq<Op>)
    ensures var link := SendAll(NewLink(conn), ops);
            && link.conn == conn
            && link.datagrams == Datagrams(ops)
            && forall channel: I32 :: Frames(link, channel) == Streamed(ops, channel)
  {
    DatagramsTrack(conn, ops);
    forall channel: I32
      ensures Frames(SendAll(NewLink(conn), ops), channel) == Streamed(ops, channel)
    {
      FramesTrack(conn, ops, channel);
    }
  }

  ghost predicate HasOversized(ops: seq<Op>, channel: I32) {
    exists i :: 0 <= i < |ops| && ops[i].channel == channel && Oversized(ops[i])
  }

  lemma HasOversizedSnoc(ops: seq<Op>, op: Op, channel: I32)
    ensures HasOversized(ops + [op], channel)
            <==> HasOversized(ops, channel) || (op.channel == channel && Oversized(op))
  {
    var all := ops + [op];
    assert all[|ops|] == op;
    assert forall i :: 0 <= i < |ops| ==> all[i] == ops[i];
  }

  /** One warning if the channel has had an oversized packet, else none. */
  ghost predicate WarnedOnce(link: Link, events: seq<Event>, ops: seq<Op>, channel: I32) {
    && (channel in link.warned <==> HasOversized(ops, channel))
    && WarningsOn(events, channel) == if HasOversized(ops, channel) then 1 else 0
  }

  lemma SendWarned(link: Link, op: Op, channel: I32)
    ensures channel in Send(link, op).warned
            <==> channel in link.warned || (op.channel == channel && Oversized(op))
  {
  }

  lemma WarningsSnoc(events: seq<Event>, link: Link, op: Op, channel: I32)
    ensures WarningsOn(events + Warnings(link, op), channel)
            == WarningsOn(events, channel)
               + (if op.channel == channel && Oversized(op) && channel !in link.warned then 1 else 0)
  {
    var more := Warnings(link, op);
    if more == [] {
      NoMore(events);
    } else {
      assert (events + more)[..|events|] == events;
    }
  }

  lemma WarnStep(link: Link, events: seq<Event>, ops: seq<Op>, op: Op, channel: I32)
    requires WarnedOnce(link, events, ops, channel)
    ensures WarnedOnce(Send(link, op), events + Warnings(link, op), ops + [op], channel)
  {
    HasOversizedSnoc(ops, op, channel);
    SendWarned(link, op, channel);
    WarningsSnoc(events, link, op, channel);
  }

  /** Over a link's whole life a channel warns once if any of its packets was oversized, else never. */
  lemma {:induction false} WarnsOnce(conn: nat, ops: seq<Op>, channel: I32)
    ensures WarnedOnce(SendAll(NewLink(conn), ops), AllWarnings(NewLink(conn), ops), ops, channel)
  {
    if ops != [] {
      var before, op := ops[..|ops| - 1], ops[|ops| - 1];
      assert ops == before + [op];
      WarnsOnce(conn, before, channel);
      WarnStep(SendAll(NewLink(conn), before), AllWarnings(NewLink(conn), before), before, op, channel);
    }
  }

  lemma SendAllSnoc(link: Link, ops: seq<Op>, op: Op)
    ensures SendAll(link, ops + [op]) == Send(SendAll(link, ops), op)
    ensures Send(link, op).conn == link.conn
  {
    assert (ops + [op])[..|ops|] == ops;
  }

  // ---------- From ordered sends to numbered datagrams ----------

  function OrderedPayloads(ops: seq<Op>, channel: I32): (payloads: seq<Bytes>)
    ensures |payloads| == OrderedCount(ops, channel)
  {
    if ops == [] then []
    else
      var op := ops[|ops| - 1];
      OrderedPayloads(ops[..|ops| - 1], channel)
      + (if op.channel == channel && op.mode == UnreliableOrdered then [op.data] else [])
  }

  /** The places, among a channel's ordered packets, of those that went out as datagrams. */
  function Fitting(ops: seq<Op>, channel: I32): seq<nat> {
    if ops == [] then []
    else
      var op := ops[|ops| - 1];
      var before := ops[..|ops| - 1];
      Fitting(before, channel)
      + (if op.channel == channel && op.mode == UnreliableOrdered && !Oversized(op) then [OrderedCount(before, channel)]
         else [])
  }

  lemma {:induction false} FittingAmong(ops: seq<Op>, channel: I32)
    ensures Among(Fitting(ops, channel), OrderedCount(ops, channel)) && Increasing(Fitting(ops, channel))
  {
    if ops != [] {
      FittingAmong(ops[..|ops| - 1], channel);
    }
  }

  lemma OnlySnoc(channel: I32, ds: seq<Bytes>, d: Bytes)
    ensures Only(channel, ds + [d]) == Only(channel, ds) + (if OrderedOn(channel, d) then [d] else [])
  {
    assert (ds + [d])[..|ds|] == ds;
  }

  lemma DatagramOrderedOn(channel: I32, other: I32, sequence: U32, payload: Bytes)
    ensures OrderedOn(channel, Datagram(other, sequence, payload)) <==> other == channel && sequence != 0
  {
    var d := Datagram(other, sequence, payload);
    I32RoundTrip(other);
    U32RoundTrip(sequence);
    assert d[..4] == PutI32(other) && d[4..8] == PutU32(sequence);
  }

  lemma ArrivingGrows(channel: I32, payloads: seq<Bytes>, more: seq<Bytes>, at: seq<nat>, next: seq<nat>)
    requires Among(at, |payloads|) && |next| <= 1 && Among(next, |payloads + more|)
    ensures Arriving(channel, payloads + more, at + next)
            == Arriving(channel, payloads, at)
               + (if next == [] then [] else [SentAt(channel, payloads + more, next[0])])
  {
  }

  /**
    What a link sends as ordered datagrams on a channel are its ordered packets there, each under
    the number of its place among all of them, less those that went by the stream.
   */
  lemma {:induction false} SenderNumbers(ops: seq<Op>, channel: I32)
    ensures Among(Fitting(ops, channel), |OrderedPayloads(ops, channel)|)
    ensures Only(channel, Datagrams(ops)) == Arriving(channel, OrderedPayloads(ops, channel), Fitting(ops, channel))
  {
    FittingAmong(ops, channel);
    if ops != [] {
      var before, op := ops[..|ops| - 1], ops[|ops| - 1];
      SenderNumbers(before, channel);
      FittingAmong(before, channel);
      var payloads := OrderedPayloads(before, channel);
      var more := if op.channel == channel && op.mode == UnreliableOrdered then [op.data] else [];
      var next := if more != [] && !Oversized(op) then [OrderedCount(before, channel)] else [];
      ArrivingGrows(channel, payloads, more, Fitting(before, channel), next);
      NoMore(payloads);
      NoMore(Fitting(before, channel));
      NoMore(Datagrams(before));
      NoMore(Only(channel, Datagrams(before)));
      assert OrderedPayloads(ops, channel) == payloads + more;
      assert Fitting(ops, channel) == Fitting(before, channel) + next;
      if op.mode != Reliable && !Oversized(op) {
        var sequence := if op.mode == UnreliableOrdered then Counter(OrderedCount(ops, op.channel)) else 0;
        if op.mode == UnreliableOrdered {
          CounterValue(OrderedCount(ops, op.channel));
        }
        DatagramOrderedOn(channel, op.channel, sequence, op.data);
        OnlySnoc(channel, Datagrams(before), Datagram(op.channel, sequence, op.data));
      }
    }
  }

  /** From a link's sends to the receiving game, when the network loses nothing and keeps the order. */
  lemma UndisturbedDelivery(conn: nat, ops: seq<Op>, peer: I32, channel: I32)
    requires GapsWithin(Fitting(ops, channel), REACH)
    ensures var link := SendAll(NewLink(conn), ops);
            && Among(Fitting(ops, channel), |OrderedPayloads(ops, channel)|)
            && PayloadsOn(channel, ReadAll(peer, link.datagrams).packets)
               == Pick(OrderedPayloads(ops, channel), Fitting(ops, channel))
  {
    DatagramsTrack(conn, ops);
    SenderNumbers(ops, channel);
    WrappedDelivery(peer, channel, OrderedPayloads(ops, channel), Fitting(ops, channel), Datagrams(ops));
  }
  // ---------- Over a network that loses, reorders and repeats ----------

  /** For each datagram some ops make, the place of the channel's ordered packet in it, if it holds one. */
  function Places(ops: seq<Op>, channel: I32): (places: seq<Option<nat>>)
    ensures |places| == |Datagrams(ops)|
  {
    if ops == [] then []
    else
      var before, op := ops[..|ops| - 1], ops[|ops| - 1];
      Places(before, channel)
      + (if op.mode == Reliable || Oversized(op) then []
         else if op.channel == channel && op.mode == UnreliableOrdered then [Some(OrderedCount(before, channel))]
         else [None])
  }

  ghost predicate Holds(ops: seq<Op>, channel: I32, d: Bytes, place: Option<nat>) {
    && (OrderedOn(channel, d) <==> place.Some?)
    && (place.Some? ==>
          && place.value < OrderedCount(ops, channel)
          && place.value in Fitting(ops, channel)
          && d == SentAt(channel, OrderedPayloads(ops, channel), place.value))
  }

  lemma {:induction false} PlaceHolds(ops: seq<Op>, channel: I32, k: nat)
    requires k < |Datagrams(ops)|
    ensures Holds(ops, channel, Datagrams(ops)[k], Places(ops, channel)[k])
  {
    var before, op := ops[..|ops| - 1], ops[|ops| - 1];
    if k < |Datagrams(before)| {
      PlaceHolds(before, channel, k);
    } else {
      var sequence := if op.mode == UnreliableOrdered then Counter(OrderedCount(ops, op.channel)) else 0;
      if op.mode == UnreliableOrdered {
        CounterValue(OrderedCount(ops, op.channel));
      }
      DatagramOrderedOn(channel, op.channel, sequence, op.data);
    }
  }

  lemma {:induction false} PlacesRise(ops: seq<Op>, channel: I32, j: nat, k: nat)
    requires j < k < |Datagrams(ops)| && Places(ops, channel)[j].Some? && Places(ops, channel)[k].Some?
    ensures Places(ops, channel)[j].value < Places(ops, channel)[k].value
  {
    var before := ops[..|ops| - 1];
    if k < |Datagrams(before)| {
      PlacesRise(before, channel, j, k);
    } else {
      PlaceHolds(before, channel, j);
    }
  }

  /** The packet that each datagram carries. */
  function Sources(ops: seq<Op>): (sources: seq<Op>)
    ensures |sources| == |Datagrams(ops)|
  {
    if ops == [] then []
    else
      var op := ops[|ops| - 1];
      Sources(ops[..|ops| - 1]) + (if op.mode != Reliable && 8 + |op.data| <= op.limit then [op] else [])
  }

  lemma {:induction false} SourceIn(ops: seq<Op>, peer: I32, k: nat)
    requires k < |Datagrams(ops)|
    ensures var op := Sources(ops)[k];
            && op in ops
            && UnorderedIn(peer)(Datagrams(ops)[k])
               == if op.mode == Unreliable then Some(Packet(peer, op.channel, Unreliable, op.data)) else None
  {
    var before, op := ops[..|ops| - 1], ops[|ops| - 1];
    if k < |Datagrams(before)| {
      SourceIn(before, peer, k);
    } else {
      var sequence := if op.mode == UnreliableOrdered then Counter(OrderedCount(ops, op.channel)) else 0;
      if op.mode == UnreliableOrdered {
        CounterValue(OrderedCount(ops, op.channel));
      }
      I32RoundTrip(op.channel);
      U32RoundTrip(sequence);
      var d := Datagram(op.channel, sequence, op.data);
      NumberedZero(d[4..8]);
      assert d[..4] == PutI32(op.channel) && d[4..8] == PutU32(sequence) && d[8..] == op.data;
    }
  }

  /** What a network delivers of a link's datagrams: some of them, in any order, any of them repeated. */
  function Drawn(ops: seq<Op>, at: seq<nat>): (ds: seq<Bytes>)
    requires Among(at, |Datagrams(ops)|)
    ensures |ds| == |at|
  {
    seq(|at|, k requires 0 <= k < |at| => Datagrams(ops)[at[k]])
  }

  /** The places, among a channel's ordered packets, of those that the network delivers. */
  function Positions(ops: seq<Op>, channel: I32, at: seq<nat>): seq<nat>
    requires Among(at, |Datagrams(ops)|)
  {
    if at == [] then []
    else
      var place := Places(ops, channel)[at[|at| - 1]];
      Positions(ops, channel, at[..|at| - 1]) + (if place.Some? then [place.value] else [])
  }

  lemma {:induction false} PositionFrom(ops: seq<Op>, channel: I32, at: seq<nat>, p: nat) returns (k: nat)
    requires Among(at, |Datagrams(ops)|) && p in Positions(ops, channel, at)
    ensures k < |at| && Places(ops, channel)[at[k]] == Some(p)
  {
    var n := |at| - 1;
    if Places(ops, channel)[at[n]] == Some(p) {
      k := n;
    } else {
      k := PositionFrom(ops, channel, at[..n], p);
    }
  }

  lemma {:induction false} PositionsDistinct(ops: seq<Op>, channel: I32, at: seq<nat>)
    requires Among(at, |Datagrams(ops)|) && Distinct(at)
    ensures Distinct(Positions(ops, channel, at))
  {
    if at != [] {
      var n := |at| - 1;
      PositionsDistinct(ops, channel, at[..n]);
      var place := Places(ops, channel)[at[n]];
      if place.Some? && place.value in Positions(ops, channel, at[..n]) {
        var k := PositionFrom(ops, channel, at[..n], place.value);
        if at[k] < at[n] {
          PlacesRise(ops, channel, at[k], at[n]);
        } else {
          PlacesRise(ops, channel, at[n], at[k]);
        }
      }
    }
  }

  lemma ArrivingSnoc(channel: I32, payloads: seq<Bytes>, at: seq<nat>, p: nat)
    requires Among(at, |payloads|) && p < |payloads|
    ensures Arriving(channel, payloads, at + [p]) == Arriving(channel, payloads, at) + [SentAt(channel, payloads, p)]
  {
  }

  lemma OnlyDrawn(ops: seq<Op>, channel: I32, at: seq<nat>)
    requires at != [] && Among(at, |Datagrams(ops)|)
    ensures var n := |at| - 1;
            var d := Datagrams(ops)[at[n]];
            Only(channel, Drawn(ops, at))
            == Only(channel, Drawn(ops, at[..n])) + (if OrderedOn(channel, d) then [d] else [])
  {
    var n := |at| - 1;
    assert Drawn(ops, at) == Drawn(ops, at[..n]) + [Datagrams(ops)[at[n]]];
    OnlySnoc(channel, Drawn(ops, at[..n]), Datagrams(ops)[at[n]]);
  }

  /**
    Whatever a network makes of a link's datagrams, the ordered ones it delivers on a channel are
    ordered packets of that channel that fitted, each under the number of its place among them all.
   */
  lemma {:induction false} DrawnArrive(ops: seq<Op>, channel: I32, at: seq<nat>)
    requires Among(at, |Datagrams(ops)|)
    ensures var positions := Positions(ops, channel, at);
            && (forall p :: p in positions ==> p in Fitting(ops, channel))
            && Among(positions, |OrderedPayloads(ops, channel)|)
            && Only(channel, Drawn(ops, at)) == Arriving(channel, OrderedPayloads(ops, channel), positions)
  {
    if at != [] {
      var n := |at| - 1;
      DrawnArrive(ops, channel, at[..n]);
      var place := Places(ops, channel)[at[n]];
      OnlyDrawn(ops, channel, at);
      PlaceHolds(ops, channel, at[n]);
      if place.Some? {
        ArrivingSnoc(channel, OrderedPayloads(ops, channel), Positions(ops, channel, at[..n]), place.value);
      } else {
        NoMore(Only(channel, Drawn(ops, at[..n])));
      }
    }
  }

  /**
    From a link's sends to the receiver, over any loss, reordering and repetition: with at most
    2^31 - 1 ordered sends on the channel, what comes out are the running maxima of what went in, in
    the order the link's packets were sent.
   */
  lemma OrderedOverNetwork(ops: seq<Op>, peer: I32, channel: I32, at: seq<nat>)
    requires Among(at, |Datagrams(ops)|) && OrderedCount(ops, channel) <= HALF
    ensures var kept := RunningMaxima(Positions(ops, channel, at));
            && Among(kept, |OrderedPayloads(ops, channel)|)
            && PayloadsOn(channel, ReadAll(peer, Drawn(ops, at)).packets) == Pick(OrderedPayloads(ops, channel), kept)
            && (Distinct(at) ==> Increasing(kept))
  {
    DrawnArrive(ops, channel, at);
    OrderedDelivery(peer, channel, OrderedPayloads(ops, channel), Positions(ops, channel, at), Drawn(ops, at));
    if Distinct(at) {
      PositionsDistinct(ops, channel, at);
    }
  }

  /** And for any number of sends, all of it, if it comes in send order with no gap above 2^31 of them. */
  lemma WrappedOverNetwork(ops: seq<Op>, peer: I32, channel: I32, at: seq<nat>)
    requires Among(at, |Datagrams(ops)|) && GapsWithin(Positions(ops, channel, at), REACH)
    ensures var positions := Positions(ops, channel, at);
            && Among(positions, |OrderedPayloads(ops, channel)|)
            && PayloadsOn(channel, ReadAll(peer, Drawn(ops, at)).packets)
               == Pick(OrderedPayloads(ops, channel), positions)
  {
    DrawnArrive(ops, channel, at);
    WrappedDelivery(peer, channel, OrderedPayloads(ops, channel), Positions(ops, channel, at), Drawn(ops, at));
  }
  /** The packets, in the order they arrive, of a link's unordered sends that fitted a datagram. */
  function Unordered(ops: seq<Op>, peer: I32, at: seq<nat>): seq<Packet>
    requires Among(at, |Datagrams(ops)|)
  {
    if at == [] then []
    else
      var op := Sources(ops)[at[|at| - 1]];
      Unordered(ops, peer, at[..|at| - 1])
      + (if op.mode == Unreliable then [Packet(peer, op.channel, Unreliable, op.data)] else [])
  }

  lemma {:induction false} UnorderedDrawn(ops: seq<Op>, peer: I32, at: seq<nat>)
    requires Among(at, |Datagrams(ops)|)
    ensures MapSome(UnorderedIn(peer), Drawn(ops, at)) == Unordered(ops, peer, at)
  {
    if at != [] {
      var n := |at| - 1;
      var d := Datagrams(ops)[at[n]];
      UnorderedDrawn(ops, peer, at[..n]);
      assert Drawn(ops, at) == Drawn(ops, at[..n]) + [d];
      SourceIn(ops, peer, at[n]);
      MapSomeConcat(UnorderedIn(peer), Drawn(ops, at[..n]), [d]);
      MapSomeOne(UnorderedIn(peer), d);
    }
  }

  /** From a link's unordered sends to the receiver: each that fitted, as often as it arrives, as it was sent. */
  lemma UnorderedOverNetwork(ops: seq<Op>, peer: I32, at: seq<nat>)
    requires Among(at, |Datagrams(ops)|)
    ensures MapSome(UnorderedOnly, ReadAll(peer, Drawn(ops, at)).packets) == Unordered(ops, peer, at)
  {
    UnorderedDelivery(peer, Drawn(ops, at));
    UnorderedDrawn(ops, peer, at);
  }
}
