/** Packets end to end: from one peer's sends, over a link, to what the other's game gets. */
module Delivery {
  import opened Bytes
  import opened Protocol
  import opened Framing
  import opened Links
  import Peer
  import S = Sequence

  /**
    One channel's stream. Of its bytes, `sent` are with the connection and `got` with the reader,
    which has reported `read` frames. A writer that fails just never sends more.
   */
  datatype Pipe = Pipe(sent: nat, got: nat, read: nat)

  /**
    One direction of a link from peer `from`: what was sent, the datagrams that arrived, whatever
    they are, and the receiving game's peer.
   */
  datatype Line = Line(from: I32, ops: seq<Op>, pipes: map<I32, Pipe>, arrivals: seq<Bytes>, life: Peer.Life)

  datatype Step =
    | Send(op: Op)
    | Write(channel: I32, n: nat)
    | Carry(channel: I32, n: nat)
    | ReadFrame(channel: I32)
    | ReadDatagram(datagram: Bytes)
    | Other(event: Event)
    | Poll
    | Get
    | Close

  function Begin(from: I32, uniqueId: I32): Line {
    Line(from, [], map[], [], Peer.Begin(uniqueId))
  }

  function PipeAt(l: Line, channel: I32): Pipe {
    if channel in l.pipes then l.pipes[channel] else Pipe(0, 0, 0)
  }

  /** The frames the sender's link has handed to the channel's writer. */
  function Handed(l: Line, channel: I32): seq<Bytes> {
    Frames(SendAll(NewLink(0), l.ops), channel)
  }

  function Stream(l: Line, channel: I32): Bytes {
    StreamBytes(channel, Handed(l, channel))
  }

  /** The frames that are wholly within the bytes the reader has. */
  function Parsed(l: Line, channel: I32): seq<Bytes> {
    FramesIn(Take(Stream(l, channel), PipeAt(l, channel).got))
  }

  /** When a step can happen. Frames are shorter than 2^32 bytes, as Godot's packet sizes are. */
  predicate Enabled(l: Line, step: Step) {
    match step
    case Send(op) => Short(op.data)
    case Write(channel, n) => PipeAt(l, channel).sent <= n <= |Stream(l, channel)|
    case Carry(channel, n) => PipeAt(l, channel).got <= n <= PipeAt(l, channel).sent
    case ReadFrame(channel) => channel != CONTROL_CHANNEL && PipeAt(l, channel).read < |Parsed(l, channel)|
    case ReadDatagram(_) => true
    case Other(e) => e.Arrived? ==> e.packet.peer != l.from
    case Poll => true
    case Get => true
    case Close => true
  }

  /** What the datagram reader makes of the arrivals so far. */
  function Unreliable(l: Line): seq<Packet> {
    S.ReadAll(l.from, l.arrivals).packets
  }

  function Reported(l: Line, e: Event): Line {
    l.(life := Peer.After(l.life, Peer.Report(e)))
  }

  function After(l: Line, step: Step): Line
    requires Enabled(l, step)
  {
    match step
    case Send(op) => l.(ops := l.ops + [op])
    case Write(channel, n) => l.(pipes := l.pipes[channel := PipeAt(l, channel).(sent := n)])
    case Carry(channel, n) => l.(pipes := l.pipes[channel := PipeAt(l, channel).(got := n)])
    case ReadFrame(channel) =>
      var pipe := PipeAt(l, channel);
      Reported(l.(pipes := l.pipes[channel := pipe.(read := pipe.read + 1)]),
               Arrived(Packet(l.from, channel, Reliable, Parsed(l, channel)[pipe.read])))
    case ReadDatagram(d) =>
      var next := l.(arrivals := l.arrivals + [d]);
      if |Unreliable(next)| > |Unreliable(l)| then
        Reported(next, Arrived(Unreliable(next)[|Unreliable(next)| - 1]))
      else next
    case Other(e) => Reported(l, e)
    case Poll => l.(life := Peer.After(l.life, Peer.Poll))
    case Get => l.(life := Peer.After(l.life, Peer.Get))
    case Close => l.(life := Peer.After(l.life, Peer.Close))
  }

  ghost predicate IsRun(trace: seq<Line>, steps: seq<Step>, from: I32, uniqueId: I32) {
    && |trace| == |steps| + 1
    && trace[0] == Begin(from, uniqueId)
    && forall i {:trigger steps[i]} :: 0 <= i < |steps| ==>
         Enabled(trace[i], steps[i]) && trace[i + 1] == After(trace[i], steps[i])
  }

  // ---------- One channel's reliable packets ----------

  function Chosen(from: I32, channel: I32): Packet -> Option<Bytes> {
    (p: Packet) => if p.peer == from && p.channel == channel && p.mode == Reliable then Some(p.data) else None
  }

  /** The payloads of the reliable packets from one peer on one channel. */
  function ReliableOn(from: I32, channel: I32, packets: seq<Packet>): seq<Bytes> {
    MapSome(Chosen(from, channel), packets)
  }

  ghost predicate InFlight(l: Line, channel: I32) {
    var pipe := PipeAt(l, channel);
    && AllShort(Handed(l, channel))
    && pipe.got <= pipe.sent <= |Stream(l, channel)|
    && pipe.read <= |Parsed(l, channel)| <= |Handed(l, channel)|
    && ReliableOn(l.from, channel, Peer.PacketsIn(l.life.reported)) == Handed(l, channel)[..pipe.read]
  }

  function Loose(from: I32): Packet -> Option<Packet> {
    (p: Packet) => if p.peer == from && p.mode != Reliable then Some(p) else None
  }

  /** The packets from one peer that came as datagrams. */
  function LooseIn(from: I32, packets: seq<Packet>): seq<Packet> {
    MapSome(Loose(from), packets)
  }

  ghost predicate Inv(l: Line) {
    && Peer.InOrder(l.life)
    && (forall channel: I32 :: channel != CONTROL_CHANNEL ==> InFlight(l, channel))
    && LooseIn(l.from, Peer.PacketsIn(l.life.reported)) == Unreliable(l)
  }

  lemma ParsedIsPrefix(l: Line, channel: I32)
    requires AllShort(Handed(l, channel)) && PipeAt(l, channel).got <= |Stream(l, channel)|
    ensures Parsed(l, channel) <= Handed(l, channel)
    ensures PipeAt(l, channel).got == |Stream(l, channel)| ==> Parsed(l, channel) == Handed(l, channel)
  {
    var frames, n := Handed(l, channel), PipeAt(l, channel).got;
    StreamPrefix(channel, frames, n);
    if n == |Stream(l, channel)| {
      assert Stream(l, channel)[..n] == Stream(l, channel);
      FramingIff(channel, frames);
    }
  }

  lemma ReportOther(from: I32, channel: I32, reported: seq<Event>, e: Event)
    requires e.Arrived? ==> Chosen(from, channel)(e.packet).None?
    ensures ReliableOn(from, channel, Peer.PacketsIn(reported + [e]))
            == ReliableOn(from, channel, Peer.PacketsIn(reported))
  {
    var packets := Peer.PacketsIn(reported);
    MapSomeConcat(Peer.PacketOf, reported, [e]);
    MapSomeOne(Peer.PacketOf, e);
    assert packets + [] == packets;
    assert ReliableOn(from, channel, packets) + [] == ReliableOn(from, channel, packets);
    if e.Arrived? {
      MapSomeConcat(Chosen(from, channel), Peer.PacketsIn(reported), [e.packet]);
      MapSomeOne(Chosen(from, channel), e.packet);
    }
  }

  lemma ReportFrame(from: I32, channel: I32, reported: seq<Event>, frame: Bytes)
    ensures ReliableOn(from, channel, Peer.PacketsIn(reported + [Arrived(Packet(from, channel, Reliable, frame))]))
            == ReliableOn(from, channel, Peer.PacketsIn(reported)) + [frame]
  {
    var p := Packet(from, channel, Reliable, frame);
    MapSomeConcat(Peer.PacketOf, reported, [Arrived(p)]);
    MapSomeOne(Peer.PacketOf, Arrived(p));
    MapSomeConcat(Chosen(from, channel), Peer.PacketsIn(reported), [p]);
    MapSomeOne(Chosen(from, channel), p);
  }

  lemma ReportLoose(from: I32, reported: seq<Event>, e: Event)
    ensures LooseIn(from, Peer.PacketsIn(reported + [e]))
            == LooseIn(from, Peer.PacketsIn(reported))
               + (if e.Arrived? && Loose(from)(e.packet).Some? then [e.packet] else [])
  {
    var packets := Peer.PacketsIn(reported);
    MapSomeConcat(Peer.PacketOf, reported, [e]);
    MapSomeOne(Peer.PacketOf, e);
    NoMore(packets);
    NoMore(LooseIn(from, packets));
    if e.Arrived? {
      MapSomeConcat(Loose(from), packets, [e.packet]);
      MapSomeOne(Loose(from), e.packet);
    }
  }

  /** A datagram makes at most one packet, from that peer and not a reliable one. */
  lemma DatagramMakes(from: I32, arrivals: seq<Bytes>, d: Bytes)
    ensures var before, after := S.ReadAll(from, arrivals).packets, S.ReadAll(from, arrivals + [d]).packets;
            || after == before
            || (|after| == |before| + 1 && after[..|before|] == before
                && Loose(from)(after[|before|]).Some? && after == before + [after[|before|]])
  {
    assert (arrivals + [d])[..|arrivals|] == arrivals;
  }

  lemma StreamGrows(l: Line, op: Op, channel: I32)
    ensures var m := l.(ops := l.ops + [op]);
            && (Handed(m, channel) == Handed(l, channel) || Handed(m, channel) == Handed(l, channel) + [op.data])
            && Stream(l, channel) <= Stream(m, channel)
  {
    assert (l.ops + [op])[..|l.ops|] == l.ops;
    BodyConcat(Handed(l, channel), [op.data]);
  }

  /** The bytes already moved along are not changed by frames queued behind them. */
  lemma SendKeeps(l: Line, op: Op, channel: I32)
    requires InFlight(l, channel) && Short(op.data)
    ensures InFlight(l.(ops := l.ops + [op]), channel)
  {
    var m := l.(ops := l.ops + [op]);
    var frames, pipe := Handed(l, channel), PipeAt(l, channel);
    StreamGrows(l, op, channel);
    TakeSame(Stream(l, channel), Stream(m, channel), pipe.got);
    ParsedIsPrefix(m, channel);
    assert Handed(m, channel)[..pipe.read] == frames[..pipe.read];
  }

  lemma CarryKeeps(l: Line, channel: I32, pipe: Pipe)
    requires InFlight(l, channel)
    requires pipe.read == PipeAt(l, channel).read
    requires PipeAt(l, channel).got <= pipe.got <= pipe.sent <= |Stream(l, channel)|
    ensures InFlight(l.(pipes := l.pipes[channel := pipe]), channel)
  {
    var m := l.(pipes := l.pipes[channel := pipe]);
    var b, n := Stream(l, channel), PipeAt(l, channel).got;
    ParsedIsPrefix(m, channel);
    if n >= 4 {
      assert b[..pipe.got][4..] == b[..n][4..] + b[n..pipe.got];
      ParseGrows(b[..n][4..], b[n..pipe.got]);
    }
  }

  lemma ReadMovesOn(l: Line, channel: I32)
    requires Enabled(l, ReadFrame(channel)) && InFlight(l, channel)
    ensures InFlight(After(l, ReadFrame(channel)), channel)
  {
    var read := PipeAt(l, channel).read;
    var frame := Parsed(l, channel)[read];
    ReportFrame(l.from, channel, l.life.reported, frame);
    ParsedIsPrefix(l, channel);
    assert Handed(l, channel)[..read + 1] == Handed(l, channel)[..read] + [frame];
  }

  lemma ReadKeeps(l: Line, channel: I32, other: I32)
    requires Enabled(l, ReadFrame(channel)) && InFlight(l, other) && other != channel
    ensures InFlight(After(l, ReadFrame(channel)), other)
  {
    var frame := Parsed(l, channel)[PipeAt(l, channel).read];
    ReportOther(l.from, other, l.life.reported, Arrived(Packet(l.from, channel, Reliable, frame)));
  }

  /** A datagram is never reported as a reliable packet. */
  lemma DatagramKeeps(l: Line, d: Bytes, other: I32)
    requires InFlight(l, other)
    ensures InFlight(After(l, ReadDatagram(d)), other)
  {
    DatagramMakes(l.from, l.arrivals, d);
    var next := l.(arrivals := l.arrivals + [d]);
    assert InFlight(next, other);
    if |Unreliable(next)| > |Unreliable(l)| {
      ReportedKeeps(next, Unreliable(next)[|Unreliable(next)| - 1], other);
    }
  }

  lemma ReportedKeeps(l: Line, p: Packet, other: I32)
    requires InFlight(l, other) && Loose(l.from)(p).Some?
    ensures InFlight(Reported(l, Arrived(p)), other)
  {
    ReportOther(l.from, other, l.life.reported, Arrived(p));
  }

  lemma DatagramLoose(l: Line, d: Bytes)
    requires LooseIn(l.from, Peer.PacketsIn(l.life.reported)) == Unreliable(l)
    ensures var m := After(l, ReadDatagram(d));
            LooseIn(m.from, Peer.PacketsIn(m.life.reported)) == Unreliable(m)
  {
    DatagramMakes(l.from, l.arrivals, d);
    var packets := S.ReadAll(l.from, l.arrivals + [d]).packets;
    if |packets| > |Unreliable(l)| {
      ReportLoose(l.from, l.life.reported, Arrived(packets[|packets| - 1]));
    }
  }

  lemma LooseKeeps(l: Line, step: Step)
    requires Enabled(l, step) && LooseIn(l.from, Peer.PacketsIn(l.life.reported)) == Unreliable(l)
    ensures var m := After(l, step);
            LooseIn(m.from, Peer.PacketsIn(m.life.reported)) == Unreliable(m)
  {
    match step
    case ReadFrame(c) =>
      NoMore(Unreliable(l));
      ReportLoose(l.from, l.life.reported, Arrived(Packet(l.from, c, Reliable, Parsed(l, c)[PipeAt(l, c).read])));
    case ReadDatagram(d) => DatagramLoose(l, d);
    case Other(e) =>
      NoMore(Unreliable(l));
      ReportLoose(l.from, l.life.reported, e);
    case _ =>
  }

  lemma ChannelKeeps(l: Line, step: Step, channel: I32)
    requires Enabled(l, step) && (forall c: I32 :: c != CONTROL_CHANNEL ==> InFlight(l, c))
    requires channel != CONTROL_CHANNEL
    ensures InFlight(After(l, step), channel)
  {
    assert InFlight(l, channel);
    match step
    case Send(op) => SendKeeps(l, op, channel);
    case Write(c, n) =>
      if c == channel { CarryKeeps(l, channel, PipeAt(l, c).(sent := n)); }
    case Carry(c, n) =>
      if c == channel { CarryKeeps(l, channel, PipeAt(l, c).(got := n)); }
    case ReadFrame(c) =>
      if c == channel { ReadMovesOn(l, c); } else { ReadKeeps(l, c, channel); }
    case ReadDatagram(d) => DatagramKeeps(l, d, channel);
    case Other(e) => ReportOther(l.from, channel, l.life.reported, e);
    case _ =>
  }

  lemma LifeKeeps(l: Line, step: Step)
    requires Enabled(l, step) && Peer.InOrder(l.life)
    ensures Peer.InOrder(After(l, step).life)
  {
    forall s: Peer.Step {
      Peer.StepInOrder(l.life, s);
    }
  }

  lemma StepKeeps(l: Line, step: Step)
    requires Inv(l) && Enabled(l, step)
    ensures Inv(After(l, step))
  {
    LifeKeeps(l, step);
    LooseKeeps(l, step);
    forall channel: I32 | channel != CONTROL_CHANNEL
      ensures InFlight(After(l, step), channel)
    {
      ChannelKeeps(l, step, channel);
    }
  }

  lemma {:induction false} RunKeeps(trace: seq<Line>, steps: seq<Step>, from: I32, uniqueId: I32, i: nat)
    requires IsRun(trace, steps, from, uniqueId) && i < |trace|
    ensures Inv(trace[i])
  {
    if i == 0 {
      assert forall channel: I32 :: Handed(trace[0], channel) == [];
    } else {
      RunKeeps(trace, steps, from, uniqueId, i - 1);
      StepKeeps(trace[i - 1], steps[i - 1]);
    }
  }

  // ---------- End to end ----------

  /** The game has not closed its peer, and no poll has taken an end of the session. */
  predicate Listening(l: Line) {
    !l.life.closed && l.life.taken <= |l.life.reported| && Peer.NoEnd(l.life.reported[..l.life.taken])
  }

  /** Picking some packets out of a peer's life keeps the account of what is where. */
  lemma FilterSplits<T>(f: Packet -> Option<T>, life: Peer.Life)
    requires Peer.InOrder(life)
    ensures MapSome(f, life.handed) <= MapSome(f, Peer.PacketsIn(life.reported))
    ensures life.view.open ==>
              MapSome(f, Peer.PacketsIn(life.reported))
              == MapSome(f, life.handed) + MapSome(f, life.view.incoming)
                 + MapSome(f, Peer.PacketsIn(life.view.waiting))
  {
    var past, rest := life.reported[..life.taken], life.reported[life.taken..];
    assert life.reported == past + rest;
    MapSomeConcat(Peer.PacketOf, past, rest);
    MapSomeConcat(f, Peer.PacketsIn(past), Peer.PacketsIn(rest));
    var queued := Peer.PacketsIn(past)[|life.handed|..];
    assert Peer.PacketsIn(past) == life.handed + queued;
    MapSomeConcat(f, life.handed, queued);
  }

  /**
    At every state of every run and on every channel a game may use: what the receiving game has
    got, what its peer and its session still queue, and the frames not yet read come to exactly
    the payloads the sender's sends put on that channel's reliable path, in order.
   */
  lemma DeliveryConserved(trace: seq<Line>, steps: seq<Step>, from: I32, uniqueId: I32, i: nat, channel: I32)
    requires IsRun(trace, steps, from, uniqueId) && i < |trace| && channel != CONTROL_CHANNEL
    ensures var l := trace[i];
            && PipeAt(l, channel).read <= |Streamed(l.ops, channel)|
            && ReliableOn(from, channel, l.life.handed) <= Streamed(l.ops, channel)
            && (l.life.view.open <==> Listening(l))
            && (l.life.view.open ==>
                  ReliableOn(from, channel, l.life.handed)
                  + ReliableOn(from, channel, l.life.view.incoming)
                  + ReliableOn(from, channel, Peer.PacketsIn(l.life.view.waiting))
                  + Streamed(l.ops, channel)[PipeAt(l, channel).read..]
                  == Streamed(l.ops, channel))
  {
    RunKeeps(trace, steps, from, uniqueId, i);
    SameFrom(trace, steps, from, uniqueId, i);
    ReportedIsRead(trace[i], channel);
    FilterSplits(Chosen(from, channel), trace[i].life);
  }

  lemma ReportedIsRead(l: Line, channel: I32)
    requires Inv(l) && channel != CONTROL_CHANNEL
    ensures var sent, read := Streamed(l.ops, channel), PipeAt(l, channel).read;
            && read <= |sent|
            && ReliableOn(l.from, channel, Peer.PacketsIn(l.life.reported)) == sent[..read]
            && sent[..read] + sent[read..] == sent
  {
    assert InFlight(l, channel);
    FramesTrack(0, l.ops, channel);
  }

  lemma {:induction false} SameFrom(trace: seq<Line>, steps: seq<Step>, from: I32, uniqueId: I32, i: nat)
    requires IsRun(trace, steps, from, uniqueId) && i < |trace|
    ensures trace[i].from == from
  {
    if i > 0 {
      SameFrom(trace, steps, from, uniqueId, i - 1);
      assert trace[i] == After(trace[i - 1], steps[i - 1]);
    }
  }

  /** Once every byte has arrived and been read, and every queue is empty, the game has got it all. */
  lemma AllDelivered(trace: seq<Line>, steps: seq<Step>, from: I32, uniqueId: I32, i: nat, channel: I32)
    requires IsRun(trace, steps, from, uniqueId) && i < |trace| && channel != CONTROL_CHANNEL
    requires var l := trace[i];
             && l.life.view.open && l.life.view.incoming == [] && l.life.view.waiting == []
             && PipeAt(l, channel).got == |Stream(l, channel)|
             && PipeAt(l, channel).read == |Parsed(l, channel)|
    ensures ReliableOn(from, channel, trace[i].life.handed) == Streamed(trace[i].ops, channel)
  {
    DeliveryConserved(trace, steps, from, uniqueId, i, channel);
    RunKeeps(trace, steps, from, uniqueId, i);
    assert InFlight(trace[i], channel);
    ParsedIsPrefix(trace[i], channel);
    FramesTrack(0, trace[i].ops, channel);
  }

  /** Datagrams too: what the game has got and what is queued for it are what the reader made of the arrivals. */
  lemma DatagramsConserved(trace: seq<Line>, steps: seq<Step>, from: I32, uniqueId: I32, i: nat)
    requires IsRun(trace, steps, from, uniqueId) && i < |trace|
    ensures var l := trace[i];
            && LooseIn(from, l.life.handed) <= S.ReadAll(from, l.arrivals).packets
            && (l.life.view.open <==> Listening(l))
            && (l.life.view.open ==>
                  LooseIn(from, l.life.handed) + LooseIn(from, l.life.view.incoming)
                  + LooseIn(from, Peer.PacketsIn(l.life.view.waiting))
                  == S.ReadAll(from, l.arrivals).packets)
  {
    RunKeeps(trace, steps, from, uniqueId, i);
    SameFrom(trace, steps, from, uniqueId, i);
    FilterSplits(Loose(from), trace[i].life);
  }

  lemma {:induction false} PayloadsPrefix(channel: I32, a: seq<Packet>, b: seq<Packet>)
    requires a <= b
    ensures S.PayloadsOn(channel, a) <= S.PayloadsOn(channel, b)
    decreases |b|
  {
    if |a| < |b| {
      PayloadsPrefix(channel, a, b[..|b| - 1]);
    } else {
      assert a == b;
    }
  }

  /**
    Ordered packets from one game to the other: with at most 2^31 - 1 of them sent on a channel, and
    whatever the network loses, reorders or repeats of the line's own datagrams, what the game has got
    at any moment is, in send order, a beginning of the running maxima of those that arrived; and all
    of them once nothing is queued.
   */
  lemma OrderedToGame(trace: seq<Line>, steps: seq<Step>, from: I32, uniqueId: I32, i: nat, channel: I32, at: seq<nat>)
    requires IsRun(trace, steps, from, uniqueId) && i < |trace|
    requires S.Among(at, |Datagrams(trace[i].ops)|) && trace[i].arrivals == Drawn(trace[i].ops, at)
    requires OrderedCount(trace[i].ops, channel) <= S.HALF
    ensures var l := trace[i];
            var kept := S.RunningMaxima(Positions(l.ops, channel, at));
            var got := S.PayloadsOn(channel, LooseIn(from, l.life.handed));
            && S.Among(kept, |OrderedPayloads(l.ops, channel)|)
            && (Distinct(at) ==> S.Increasing(kept))
            && got <= S.Pick(OrderedPayloads(l.ops, channel), kept)
            && (l.life.view.open && l.life.view.incoming == [] && l.life.view.waiting == [] ==>
                  got == S.Pick(OrderedPayloads(l.ops, channel), kept))
  {
    var l := trace[i];
    DatagramsConserved(trace, steps, from, uniqueId, i);
    OrderedOverNetwork(l.ops, from, channel, at);
    PayloadsPrefix(channel, LooseIn(from, l.life.handed), S.ReadAll(from, l.arrivals).packets);
    NoMore(LooseIn(from, l.life.handed));
  }
  /**
    Unordered packets from one game to the other: what the game has got is a beginning of those that
    arrived, each as it was sent and as often as it came; and all of them once nothing is queued.
   */
  lemma UnorderedToGame(trace: seq<Line>, steps: seq<Step>, from: I32, uniqueId: I32, i: nat, at: seq<nat>)
    requires IsRun(trace, steps, from, uniqueId) && i < |trace|
    requires S.Among(at, |Datagrams(trace[i].ops)|) && trace[i].arrivals == Drawn(trace[i].ops, at)
    ensures var l := trace[i];
            var got := MapSome(S.UnorderedOnly, LooseIn(from, l.life.handed));
            && got <= Unordered(l.ops, from, at)
            && (l.life.view.open && l.life.view.incoming == [] && l.life.view.waiting == [] ==>
                  got == Unordered(l.ops, from, at))
  {
    var l := trace[i];
    DatagramsConserved(trace, steps, from, uniqueId, i);
    UnorderedOverNetwork(l.ops, from, at);
    var got, all := LooseIn(from, l.life.handed), S.ReadAll(from, l.arrivals).packets;
    assert all == got + all[|got|..];
    MapSomeConcat(S.UnorderedOnly, got, all[|got|..]);
    NoMore(got);
  }
}
