/** The membership messages a host sends its clients, and their wire form. */
module Control {
  import opened Bytes

  datatype Control =
    | Welcome(yourId: I32, peers: seq<I32>)
    | PeerJoined(id: I32)
    | PeerLeft(id: I32)

  function PutIds(ids: seq<I32>): (b: Bytes)
    ensures |b| == 4 * |ids|
  {
    if ids == [] then [] else PutI32(ids[0]) + PutIds(ids[1..])
  }

  function GetIds(b: Bytes, count: nat): (ids: seq<I32>)
    requires 4 * count <= |b|
    ensures |ids| == count
  {
    if count == 0 then [] else [GetI32(b[..4])] + GetIds(b[4..], count - 1)
  }

  /** The bytes of a message. The peer count is cut to 32 bits. */
  function Encode(c: Control): Bytes {
    match c
    case Welcome(yourId, peers) => [1] + PutI32(yourId) + PutU32(AsU32(|peers|)) + PutIds(peers)
    case PeerJoined(id) => [2] + PutI32(id)
    case PeerLeft(id) => [3] + PutI32(id)
  }

  function WelcomeIn(b: Bytes): Option<Control> {
    if |b| < 8 then None
    else
      var count: nat := GetU32(b[4..8]);
      if |b[8..]| < count * 4 then None else Some(Welcome(GetI32(b[..4]), GetIds(b[8..], count)))
  }

  function IdIn(b: Bytes): Option<I32> {
    if |b| < 4 then None else Some(GetI32(b[..4]))
  }

  /** The message at the front of a frame, if there is one. Bytes after it are ignored. */
  function Decode(frame: Bytes): Option<Control> {
    if frame == [] then None
    else if frame[0] == 1 then WelcomeIn(frame[1..])
    else
      var id := IdIn(frame[1..]);
      if frame[0] == 2 && id.Some? then Some(PeerJoined(id.value))
      else if frame[0] == 3 && id.Some? then Some(PeerLeft(id.value))
      else None
  }

  /** Whether the message's peer count survives the cut to 32 bits. */
  predicate Fits(c: Control) {
    c.Welcome? ==> |c.peers| < U32_SPAN
  }

  // ---------- The prefix code ----------

  lemma {:induction false} IdsRoundTrip(ids: seq<I32>, rest: Bytes)
    ensures GetIds(PutIds(ids) + rest, |ids|) == ids
  {
    if ids != [] {
      var b := PutIds(ids) + rest;
      assert b[..4] == PutI32(ids[0]);
      assert b[4..] == PutIds(ids[1..]) + rest;
      I32RoundTrip(ids[0]);
      IdsRoundTrip(ids[1..], rest);
    }
  }

  lemma {:induction false} IdsOnto(b: Bytes, count: nat)
    requires 4 * count <= |b|
    ensures PutIds(GetIds(b, count)) == b[..4 * count]
  {
    if count > 0 {
      I32Onto(b[..4]);
      IdsOnto(b[4..], count - 1);
      assert b[..4] + b[4..][..4 * (count - 1)] == b[..4 * count];
    }
  }

  lemma Fields(a: Bytes, b: Bytes, c: Bytes)
    requires |a| == 4 && |b| == 4
    ensures (a + b + c)[..4] == a && (a + b + c)[4..8] == b && (a + b + c)[8..] == c
  {
  }

  lemma WelcomeRoundTrip(yourId: I32, peers: seq<I32>, rest: Bytes)
    requires |peers| < U32_SPAN
    ensures WelcomeIn(PutI32(yourId) + PutU32(|peers|) + (PutIds(peers) + rest)) == Some(Welcome(yourId, peers))
  {
    Fields(PutI32(yourId), PutU32(|peers|), PutIds(peers) + rest);
    I32RoundTrip(yourId);
    U32RoundTrip(|peers|);
    IdsRoundTrip(peers, rest);
  }

  lemma IdRoundTrip(id: I32, rest: Bytes)
    ensures IdIn(PutI32(id) + rest) == Some(id)
  {
    I32RoundTrip(id);
    assert (PutI32(id) + rest)[..4] == PutI32(id);
  }

  lemma Tagged(tag: Byte, b: Bytes)
    ensures [tag] + b != [] && ([tag] + b)[0] == tag && ([tag] + b)[1..] == b
  {
  }

  lemma Regroup(tag: Bytes, a: Bytes, b: Bytes, c: Bytes, rest: Bytes)
    ensures tag + a + b + c + rest == tag + (a + b + (c + rest))
  {
  }

  lemma WelcomeBytes(yourId: I32, peers: seq<I32>, rest: Bytes)
    requires |peers| < U32_SPAN
    ensures Encode(Welcome(yourId, peers)) + rest
            == [1] + (PutI32(yourId) + PutU32(|peers|) + (PutIds(peers) + rest))
  {
    Regroup([1], PutI32(yourId), PutU32(|peers|), PutIds(peers), rest);
  }

  lemma DecodeEncoded(c: Control, rest: Bytes)
    requires Fits(c)
    ensures Decode(Encode(c) + rest) == Some(c)
  {
    match c {
      case Welcome(yourId, peers) =>
        WelcomeBytes(yourId, peers, rest);
        WelcomeRoundTrip(yourId, peers, rest);
        Tagged(1, PutI32(yourId) + PutU32(|peers|) + (PutIds(peers) + rest));
      case PeerJoined(id) =>
        IdRoundTrip(id, rest);
        Tagged(2, PutI32(id) + rest);
        assert Encode(c) + rest == [2] + (PutI32(id) + rest);
      case PeerLeft(id) =>
        IdRoundTrip(id, rest);
        Tagged(3, PutI32(id) + rest);
        assert Encode(c) + rest == [3] + (PutI32(id) + rest);
    }
  }

  lemma WelcomeOnto(b: Bytes)
    requires WelcomeIn(b).Some?
    ensures var c := WelcomeIn(b).value;
            && c.Welcome? && Fits(c)
            && PutI32(c.yourId) + PutU32(|c.peers|) + PutIds(c.peers) <= b
  {
    var n := |WelcomeIn(b).value.peers|;
    I32Onto(b[..4]);
    U32Onto(b[4..8]);
    IdsOnto(b[8..], n);
    assert b[..4] + b[4..8] + b[8..][..4 * n] == b[..8 + 4 * n];
  }

  lemma IdOnto(b: Bytes)
    requires IdIn(b).Some?
    ensures PutI32(IdIn(b).value) <= b
  {
    I32Onto(b[..4]);
  }

  lemma DecodedIsPrefix(frame: Bytes)
    requires Decode(frame).Some?
    ensures Fits(Decode(frame).value)
    ensures Encode(Decode(frame).value) <= frame
  {
    var b := frame[1..];
    if frame[0] == 1 {
      WelcomeOnto(b);
      var c := WelcomeIn(b).value;
      WelcomeBytes(c.yourId, c.peers, []);
      assert Encode(c) + [] == Encode(c);
      assert PutIds(c.peers) + [] == PutIds(c.peers);
    } else {
      IdOnto(b);
    }
  }

  /**
    Decoding answers with a message exactly when that message fits and its bytes open the frame.
    Since decoding has one answer, at most one message's bytes can open any frame.
   */
  lemma DecodeIffPrefix(frame: Bytes, c: Control)
    ensures Decode(frame) == Some(c) <==> Fits(c) && Encode(c) <= frame
  {
    if Decode(frame).Some? {
      DecodedIsPrefix(frame);
    }
    if Fits(c) && Encode(c) <= frame {
      assert frame == Encode(c) + frame[|Encode(c)|..];
      DecodeEncoded(c, frame[|Encode(c)|..]);
    }
  }

  /** A message comes back from its own bytes exactly when its peer count fits in 32 bits. */
  lemma RoundTripIff(c: Control)
    ensures Decode(Encode(c)) == Some(c) <==> Fits(c)
  {
    DecodeIffPrefix(Encode(c), c);
  }

  /** No message's bytes begin another's. */
  lemma PrefixFree(c: Control, d: Control)
    requires Fits(c) && Fits(d) && Encode(c) <= Encode(d)
    ensures c == d
  {
    DecodeIffPrefix(Encode(d), c);
    DecodeIffPrefix(Encode(d), d);
  }

  /** One message of each kind, byte for byte. */
  lemma OnTheWire()
    ensures Encode(Welcome(2, [-1])) == [1, 0, 0, 0, 2, 0, 0, 0, 1, 0xff, 0xff, 0xff, 0xff]
    ensures Encode(PeerJoined(0x0102_0304)) == [2, 1, 2, 3, 4]
    ensures Encode(PeerLeft(I32_MIN)) == [3, 0x80, 0, 0, 0]
  {
    var ids: seq<I32> := [-1];
    assert ids[1..] == [];
    assert PutIds(ids) == PutI32(-1) + [];
    IntegersOnTheWire();
  }

  lemma IntegersOnTheWire()
    ensures PutI32(-1) == [0xff, 0xff, 0xff, 0xff] && PutI32(2) == [0, 0, 0, 2] && PutU32(1) == [0, 0, 0, 1]
    ensures PutI32(0x0102_0304) == [1, 2, 3, 4] && PutI32(I32_MIN) == [0x80, 0, 0, 0]
  {
  }

  // ---------- The buffers ----------

  lemma {:induction false} PutIdsSnoc(ids: seq<I32>, id: I32)
    ensures PutIds(ids + [id]) == PutIds(ids) + PutI32(id)
  {
    if ids != [] {
      assert (ids + [id])[1..] == ids[1..] + [id];
      PutIdsSnoc(ids[1..], id);
    }
  }

  lemma Shifted(b: Bytes, n: nat)
    requires n + 8 <= |b|
    ensures b[4..][n..n + 4] == b[n + 4..n + 8]
  {
  }

  lemma {:induction false} GetIdsSnoc(b: Bytes, count: nat)
    requires 4 * (count + 1) <= |b|
    ensures GetIds(b, count + 1) == GetIds(b, count) + [GetI32(b[4 * count..4 * count + 4])]
  {
    if count == 0 {
      assert GetIds(b, 1) == [GetI32(b[..4])] + GetIds(b[4..], 0);
    } else {
      var n := 4 * (count - 1);
      Shifted(b, n);
      GetIdsSnoc(b[4..], count - 1);
      assert GetIds(b, count + 1) == [GetI32(b[..4])] + GetIds(b[4..], count);
      assert GetIds(b[4..], count) == GetIds(b[4..], count - 1) + [GetI32(b[4..][n..n + 4])];
    }
  }

  /** Appends the message to a growing buffer, field by field. */
  method EncodeToBuffer(c: Control) returns (buffer: Bytes)
    ensures buffer == Encode(c)
  {
    buffer := [];
    match c
    case Welcome(yourId, peers) =>
      buffer := buffer + [1];
      buffer := buffer + PutI32(yourId);
      buffer := buffer + PutU32(AsU32(|peers|));
      ghost var head := buffer;
      for i := 0 to |peers|
        invariant buffer == head + PutIds(peers[..i])
      {
        PutIdsSnoc(peers[..i], peers[i]);
        assert peers[..i + 1] == peers[..i] + [peers[i]];
        buffer := buffer + PutI32(peers[i]);
      }
      assert peers[..|peers|] == peers;
    case PeerJoined(id) =>
      buffer := buffer + [2];
      buffer := buffer + PutI32(id);
    case PeerLeft(id) =>
      buffer := buffer + [3];
      buffer := buffer + PutI32(id);
  }

  /** A buffer read from the front, as `bytes::Buf` reads one. */
  class Cursor {
    var rest: Bytes

    constructor (data: Bytes)
      ensures rest == data
    {
      rest := data;
    }

    method TakeU8() returns (b: Byte)
      requires |rest| >= 1
      modifies this
      ensures [b] + rest == old(rest)
    {
      b := rest[0];
      rest := rest[1..];
    }

    method TakeI32() returns (n: I32)
      requires |rest| >= 4
      modifies this
      ensures n == GetI32(old(rest)[..4]) && rest == old(rest)[4..]
    {
      n := GetI32(rest[..4]);
      rest := rest[4..];
    }

    method TakeU32() returns (n: U32)
      requires |rest| >= 4
      modifies this
      ensures n == GetU32(old(rest)[..4]) && rest == old(rest)[4..]
    {
      n := GetU32(rest[..4]);
      rest := rest[4..];
    }
  }

  /** The part of a Welcome behind its tag. */
  method DecodeWelcome(cursor: Cursor) returns (c: Option<Control>)
    modifies cursor
    ensures c == WelcomeIn(old(cursor.rest))
  {
    ghost var b := cursor.rest;
    if |cursor.rest| < 8 {
      return None;
    }
    var yourId := cursor.TakeI32();
    var count: nat := cursor.TakeU32();
    assert count == GetU32(b[4..8]) && cursor.rest == b[8..];
    if |cursor.rest| < count * 4 {
      return None;
    }
    ghost var body := cursor.rest;
    var peers: seq<I32> := [];
    for i := 0 to count
      invariant cursor.rest == body[4 * i..]
      invariant peers == GetIds(body, i)
    {
      GetIdsSnoc(body, i);
      assert body[4 * i..][..4] == body[4 * i..4 * i + 4];
      var peer := cursor.TakeI32();
      peers := peers + [peer];
    }
    return Some(Welcome(yourId, peers));
  }

  /** Reads a frame through a cursor. Every read is in bounds, whatever the bytes are. */
  method DecodeFrame(frame: Bytes) returns (c: Option<Control>)
    ensures c == Decode(frame)
  {
    if frame == [] {
      return None;
    }
    var cursor := new Cursor(frame);
    var tag := cursor.TakeU8();
    assert cursor.rest == frame[1..];
    if tag == 1 {
      c := DecodeWelcome(cursor);
    } else if tag == 2 && |cursor.rest| >= 4 {
      var id := cursor.TakeI32();
      return Some(PeerJoined(id));
    } else if tag == 3 && |cursor.rest| >= 4 {
      var id := cursor.TakeI32();
      return Some(PeerLeft(id));
    } else {
      return None;
    }
  }
}
