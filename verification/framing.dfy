/** Length-prefixed frames on one reliable stream, from the writer task to the reader task. */
module Framing {
  import opened Bytes
  import opened Protocol
  import opened Control

  predicate Short(frame: Bytes) {
    |frame| < U32_SPAN
  }

  ghost predicate AllShort(frames: seq<Bytes>) {
    forall f :: f in frames ==> Short(f)
  }

  function FrameBytes(frame: Bytes): (b: Bytes)
    ensures |b| == 4 + |frame|
  {
    PutU32(AsU32(|frame|)) + frame
  }

  /** Everything after the channel id. */
  function Body(frames: seq<Bytes>): Bytes {
    if frames == [] then [] else FrameBytes(frames[0]) + Body(frames[1..])
  }

  /** What the writer puts on a stream for these frames. */
  function StreamBytes(channel: I32, frames: seq<Bytes>): Bytes {
    PutI32(channel) + Body(frames)
  }

  /** What the reader makes of the bytes after the channel id. */
  function Parse(b: Bytes): seq<Bytes>
    decreases |b|
  {
    if |b| < 4 then []
    else
      var length: int := GetU32(b[..4]);
      if |b| < 4 + length then [] else [b[4..4 + length]] + Parse(b[4 + length..])
  }

  /** The frames read off a stream whose first bytes are b. */
  function FramesIn(b: Bytes): seq<Bytes> {
    if |b| < 4 then [] else Parse(b[4..])
  }

  /** The messages among some frames. Frames that do not decode are skipped. */
  function ControlsOf(frames: seq<Bytes>): seq<Control> {
    MapSome(Decode, frames)
  }

  function PacketsOf(peer: I32, channel: I32, frames: seq<Bytes>): (packets: seq<Packet>)
    ensures |packets| == |frames|
    ensures forall i :: 0 <= i < |frames| ==> packets[i] == Packet(peer, channel, Reliable, frames[i])
  {
    seq(|frames|, i requires 0 <= i < |frames| => Packet(peer, channel, Reliable, frames[i]))
  }

  /** How many of the frames lie wholly within the first n bytes of their body. */
  function Whole(frames: seq<Bytes>, n: nat): (k: nat)
    ensures k <= |frames|
    ensures |Body(frames[..k])| <= n
    ensures k < |frames| ==> n < |Body(frames[..k + 1])|
  {
    if frames == [] then 0
    else
      var first := |FrameBytes(frames[0])|;
      assert frames[..1] == [frames[0]] && Body(frames[..1]) == FrameBytes(frames[0]) + Body([]);
      if n < first then 0
      else
        var k := Whole(frames[1..], n - first);
        assert frames[..k + 1][1..] == frames[1..][..k];
        assert k < |frames[1..]| ==> frames[..k + 2][1..] == frames[1..][..k + 1];
        k + 1
  }

  /** A stream of two frames, byte for byte. */
  lemma OnTheWire()
    ensures StreamBytes(-2, [[7], []]) == [0xff, 0xff, 0xff, 0xfe, 0, 0, 0, 1, 7, 0, 0, 0, 0]
  {
    var frames: seq<Bytes> := [[7], []];
    assert frames[1..] == [[]] && frames[1..][1..] == [];
    assert PutU32(1) == [0, 0, 0, 1] && PutU32(0) == [0, 0, 0, 0] && PutI32(-2) == [0xff, 0xff, 0xff, 0xfe];
    assert Body(frames) == FrameBytes([7]) + (FrameBytes([]) + []);
  }

  // ---------- Framing inverts on every prefix ----------

  lemma {:induction false} BodyConcat(a: seq<Bytes>, b: seq<Bytes>)
    ensures Body(a + b) == Body(a) + Body(b)
  {
    if a == [] {
      assert a + b == b;
    } else {
      assert (a + b)[1..] == a[1..] + b;
      BodyConcat(a[1..], b);
      Assoc(FrameBytes(a[0]), Body(a[1..]), Body(b));
    }
  }

  lemma ParseFront(frame: Bytes, rest: Bytes)
    requires Short(frame)
    ensures Parse(FrameBytes(frame) + rest) == [frame] + Parse(rest)
  {
    var b := FrameBytes(frame) + rest;
    U32RoundTrip(|frame|);
    assert b[..4] == PutU32(|frame|);
    assert b[4..4 + |frame|] == frame;
    assert b[4 + |frame|..] == rest;
  }

  /** Cut anywhere, a body yields exactly the frames that lie wholly before the cut. */
  lemma {:induction false} ParsePrefix(frames: seq<Bytes>, n: nat)
    requires AllShort(frames) && n <= |Body(frames)|
    ensures Parse(Body(frames)[..n]) == frames[..Whole(frames, n)]
  {
    if frames != [] {
      var first, rest := FrameBytes(frames[0]), frames[1..];
      assert Short(frames[0]);
      if n < |first| {
        var cut := Body(frames)[..n];
        if n >= 4 {
          assert cut[..4] == PutU32(|frames[0]|);
          U32RoundTrip(|frames[0]|);
        }
      } else {
        assert Body(frames)[..n] == first + Body(rest)[..n - |first|];
        ParseFront(frames[0], Body(rest)[..n - |first|]);
        ParsePrefix(rest, n - |first|);
      }
    }
  }

  /** The same for the stream as the reader sees it, channel id and all. */
  lemma StreamPrefix(channel: I32, frames: seq<Bytes>, n: nat)
    requires AllShort(frames) && n <= |StreamBytes(channel, frames)|
    ensures n >= 4 ==> GetI32(StreamBytes(channel, frames)[..n][..4]) == channel
    ensures FramesIn(StreamBytes(channel, frames)[..n]) == frames[..Whole(frames, if n < 4 then 0 else n - 4)]
  {
    var cut := StreamBytes(channel, frames)[..n];
    if n >= 4 {
      I32RoundTrip(channel);
      assert cut[..4] == PutI32(channel);
      assert cut[4..] == Body(frames)[..n - 4];
      ParsePrefix(frames, n - 4);
    } else {
      ParsePrefix(frames, 0);
      assert Body(frames)[..0] == [];
    }
  }

  lemma {:induction false} ParsedAreShort(b: Bytes)
    ensures AllShort(Parse(b))
    decreases |b|
  {
    if |b| >= 4 {
      var length: int := GetU32(b[..4]);
      if |b| >= 4 + length {
        ParsedAreShort(b[4 + length..]);
      }
    }
  }

  lemma {:induction false} WholeOfAll(frames: seq<Bytes>)
    ensures Whole(frames, |Body(frames)|) == |frames|
  {
    if frames != [] {
      WholeOfAll(frames[1..]);
    }
  }

  /** A whole stream gives back its frames exactly when each one's length fits in 32 bits. */
  lemma FramingIff(channel: I32, frames: seq<Bytes>)
    ensures FramesIn(StreamBytes(channel, frames)) == frames <==> AllShort(frames)
  {
    var b := StreamBytes(channel, frames);
    assert b[4..] == Body(frames);
    if AllShort(frames) {
      StreamPrefix(channel, frames, |b|);
      assert b[..|b|] == b;
      WholeOfAll(frames);
      assert frames[..|frames|] == frames;
    }
    if FramesIn(b) == frames {
      ParsedAreShort(Body(frames));
    }
  }

  /** More bytes only ever add frames: whatever the bytes, what was read stays read. */
  lemma {:induction false} ParseGrows(b: Bytes, more: Bytes)
    ensures Parse(b) <= Parse(b + more)
    decreases |b|
  {
    if |b| >= 4 {
      var length: int := GetU32(b[..4]);
      assert (b + more)[..4] == b[..4];
      if |b| >= 4 + length {
        assert (b + more)[4..4 + length] == b[4..4 + length];
        assert (b + more)[4 + length..] == b[4 + length..] + more;
        ParseGrows(b[4 + length..], more);
      }
    }
  }

  /**
    A packet a game sends on the control channel shares the stream with the host's messages.
    The receiver acts on the host's messages alone exactly when the packet does not decode.
   */
  lemma ForgedMessageIff(before: seq<Bytes>, packet: Bytes, after: seq<Bytes>)
    ensures ControlsOf(before + [packet] + after) == ControlsOf(before + after)
            <==> Decode(packet).None?
  {
    MapSomeConcat(Decode, before + [packet], after);
    MapSomeConcat(Decode, before, [packet]);
    MapSomeConcat(Decode, before, after);
    MapSomeOne(Decode, packet);
  }

  // ---------- The tasks ----------

  /** The sending half of a stream. The connection takes `budget` bytes and then fails. */
  class SendStream {
    const budget: nat
    var sent: Bytes

    constructor (budget: nat)
      ensures this.budget == budget && sent == []
    {
      this.budget := budget;
      sent := [];
    }

    method WriteAll(data: Bytes) returns (ok: bool)
      requires |sent| <= budget
      modifies this
      ensures ok == (|old(sent) + data| <= budget)
      ensures sent == Take(old(sent) + data, budget)
      ensures ok ==> sent == old(sent) + data
    {
      ok := |sent + data| <= budget;
      sent := Take(sent + data, budget);
    }
  }

  /** The receiving half: `rest` is every byte still to come before the stream ends. */
  class RecvStream {
    var rest: Bytes

    constructor (rest: Bytes)
      ensures this.rest == rest
    {
      this.rest := rest;
    }

    method ReadExact(n: nat) returns (data: Option<Bytes>)
      modifies this
      ensures data == if n <= |old(rest)| then Some(old(rest)[..n]) else None
      ensures rest == if n <= |old(rest)| then old(rest)[n..] else []
    {
      if n <= |rest| {
        data, rest := Some(rest[..n]), rest[n..];
      } else {
        data, rest := None, [];
      }
    }
  }

  lemma StreamExtends(channel: I32, frames: seq<Bytes>, i: nat)
    requires i < |frames|
    ensures StreamBytes(channel, frames[..i + 1]) == StreamBytes(channel, frames[..i]) + FrameBytes(frames[i])
    ensures StreamBytes(channel, frames[..i + 1]) <= StreamBytes(channel, frames)
  {
    assert frames[..i + 1] == frames[..i] + [frames[i]];
    BodyConcat(frames[..i], [frames[i]]);
    var one := [frames[i]];
    assert one[1..] == [];
    assert frames == frames[..i + 1] + frames[i + 1..];
    BodyConcat(frames[..i + 1], frames[i + 1..]);
  }

  /** One frame with its length in front. */
  method WriteFrame(stream: SendStream, frame: Bytes) returns (ok: bool)
    requires |stream.sent| <= stream.budget
    modifies stream
    ensures ok == (|old(stream.sent) + FrameBytes(frame)| <= stream.budget)
    ensures stream.sent == Take(old(stream.sent) + FrameBytes(frame), stream.budget)
  {
    ghost var was := stream.sent;
    var length := PutU32(AsU32(|frame|));
    assert was + length + frame == was + FrameBytes(frame);
    ok := stream.WriteAll(length);
    if !ok {
      TakeSame(was + length, was + FrameBytes(frame), stream.budget);
      return;
    }
    ok := stream.WriteAll(frame);
  }

  /**
    The writer task for one channel, given every frame queued before its sender is dropped.
    However early the connection fails, what went out is the stream's bytes up to that point.
   */
  method WriteStream(stream: SendStream, channel: I32, frames: seq<Bytes>)
    requires stream.sent == []
    modifies stream
    ensures stream.sent == Take(StreamBytes(channel, frames), stream.budget)
  {
    var ok := stream.WriteAll(PutI32(channel));
    if !ok {
      TakeSame(PutI32(channel), StreamBytes(channel, frames), stream.budget);
      return;
    }
    for i := 0 to |frames|
      invariant stream.sent == StreamBytes(channel, frames[..i])
      invariant |stream.sent| <= stream.budget
    {
      StreamExtends(channel, frames, i);
      ok := WriteFrame(stream, frames[i]);
      if !ok {
        TakeSame(StreamBytes(channel, frames[..i + 1]), StreamBytes(channel, frames), stream.budget);
        return;
      }
    }
    assert frames[..|frames|] == frames;
  }

  lemma ControlsSnoc(read: seq<Bytes>, frame: Bytes, rest: seq<Bytes>)
    ensures ControlsOf(read + [frame])
            == ControlsOf(read) + (if Decode(frame).Some? then [Decode(frame).value] else [])
    ensures ControlsOf(read + [frame]) <= ControlsOf(read + [frame] + rest)
  {
    MapSomeOne(Decode, frame);
    MapSomeConcat(Decode, read, [frame]);
    MapSomeConcat(Decode, read + [frame], rest);
  }

  /** Where the frames of one stream go, when the session takes `room` of what they carry. */
  ghost predicate Routed(peer: I32, channel: I32, frames: seq<Bytes>, room: nat,
                         controls: seq<Control>, packets: seq<Packet>)
  {
    if channel == CONTROL_CHANNEL then controls == Take(ControlsOf(frames), room) && packets == []
    else controls == [] && packets == Take(PacketsOf(peer, channel, frames), room)
  }

  lemma RoutedNext(peer: I32, channel: I32, read: seq<Bytes>, frame: Bytes, rest: seq<Bytes>, room: nat,
                   controls: seq<Control>, packets: seq<Packet>)
    requires Routed(peer, channel, read, room, controls, packets)
    requires |controls| + |packets| == room
    requires channel == CONTROL_CHANNEL ==> |ControlsOf(read)| == room && Decode(frame).Some?
    ensures Routed(peer, channel, read + [frame] + rest, room, controls, packets)
  {
    if channel == CONTROL_CHANNEL {
      ControlsSnoc(read, frame, rest);
    }
  }

  /** One length and the bytes it announces, or nothing when the stream ends first. */
  method ReadFrame(stream: RecvStream) returns (frame: Option<Bytes>)
    modifies stream
    ensures frame.None? ==> Parse(old(stream.rest)) == []
    ensures frame.Some? ==> Parse(old(stream.rest)) == [frame.value] + Parse(stream.rest)
    ensures frame.Some? ==> |stream.rest| < |old(stream.rest)|
  {
    ghost var b := stream.rest;
    var length := stream.ReadExact(4);
    if length.None? {
      return None;
    }
    frame := stream.ReadExact(GetU32(length.value));
    assert frame.Some? ==> frame.value == b[4..4 + |frame.value|] && stream.rest == b[4 + |frame.value|..];
  }

  /**
    The reader task for one stream. It stops at the end of the stream, or when a send finds the
    session gone: `room` is how many sends succeed before that.
   */
  method ReadStream(peer: I32, stream: RecvStream, room: nat)
    returns (controls: seq<Control>, packets: seq<Packet>)
    modifies stream
    ensures |old(stream.rest)| < 4 ==> controls == [] && packets == []
    ensures |old(stream.rest)| >= 4 ==>
              Routed(peer, GetI32(old(stream.rest)[..4]), FramesIn(old(stream.rest)), room, controls, packets)
  {
    controls, packets := [], [];
    var header := stream.ReadExact(4);
    if header.None? {
      return;
    }
    var channel := GetI32(header.value);
    ghost var all := Parse(stream.rest);
    ghost var read: seq<Bytes> := [];
    while true
      invariant all == read + Parse(stream.rest)
      invariant |controls| + |packets| <= room
      invariant channel == CONTROL_CHANNEL ==> |ControlsOf(read)| <= room
      invariant Routed(peer, channel, read, room, controls, packets)
      decreases |stream.rest|
    {
      var frame := ReadFrame(stream);
      if frame.None? {
        assert all == read;
        break;
      }
      assert all == read + [frame.value] + Parse(stream.rest);
      if channel == CONTROL_CHANNEL {
        var c := DecodeFrame(frame.value);
        ControlsSnoc(read, frame.value, []);
        if c.Some? {
          if |controls| == room {
            RoutedNext(peer, channel, read, frame.value, Parse(stream.rest), room, controls, packets);
            return;
          }
          controls := controls + [c.value];
        }
      } else {
        if |packets| == room {
          RoutedNext(peer, channel, read, frame.value, Parse(stream.rest), room, controls, packets);
          return;
        }
        packets := packets + [Packet(peer, channel, Reliable, frame.value)];
      }
      read := read + [frame.value];
    }
  }
}
