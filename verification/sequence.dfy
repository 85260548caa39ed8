/** Datagrams: the sender's wrapping counter and the reader's staleness test. */
module Sequence {
  import opened Bytes
  import opened Protocol

  const U32_MAX: U32 := 0xffff_ffff

  /** The largest count of a half range, as integer division gives it. */
  const HALF := 0x7fff_ffff

  /** The counter's period: zero is never used for an ordered datagram. */
  const PERIOD := 0xffff_ffff

  /** The furthest ahead of the last datagram seen that one is never taken for an old one. */
  const REACH := 0x8000_0000

  /** The next value of a channel's counter. Zero means unordered, so a wrap skips it. */
  function Bump(counter: U32): (next: U32)
    ensures next != 0
  {
    var wrapped := if counter == U32_MAX then 0 else counter + 1;
    if wrapped < 1 then 1 else wrapped
  }

  function WrappingSub(a: U32, b: U32): U32 {
    if b <= a then a - b else a - b + U32_SPAN
  }

  predicate Stale(seen: U32, sequence: U32) {
    sequence < seen && WrappingSub(seen, sequence) < HALF
  }

  function Datagram(channel: I32, sequence: U32, payload: Bytes): (d: Bytes)
    ensures |d| == DATAGRAM_HEADER + |payload|
  {
    PutI32(channel) + PutU32(sequence) + payload
  }

  // ---------- The counter ----------

  /** A channel's counter after n ordered sends. */
  function Counter(n: nat): U32 {
    if n == 0 then 0 else Bump(Counter(n - 1))
  }

  function CounterFormula(n: nat): (c: U32)
    requires n > 0
  {
    (n - 1) % 0xffff_ffff + 1
  }

  /** Counting on by less than a turn passes the wrap once or not at all. */
  lemma CountOn(a: nat, d: nat)
    requires d < PERIOD
    ensures var r := a % 0xffff_ffff + d;
            && (a + d) / 0xffff_ffff == a / 0xffff_ffff + (if r < PERIOD then 0 else 1)
            && (a + d) % 0xffff_ffff == if r < PERIOD then r else r - PERIOD
  {
    var q, r := a / 0xffff_ffff, a % 0xffff_ffff + d;
    assert a + d == q * 0xffff_ffff + r;
    if r >= PERIOD {
      assert a + d == (q + 1) * 0xffff_ffff + (r - PERIOD);
    }
  }

  lemma {:induction false} CounterValue(n: nat)
    requires n > 0
    ensures Counter(n) == CounterFormula(n) != 0
  {
    if n > 1 {
      CounterValue(n - 1);
      CountOn(n - 2, 1);
    }
  }

  /** The same around the wrap, for counts in either order. */
  lemma RestGap(a: int, b: int, gap: int)
    requires gap == b - a
    ensures var r := a % 0xffff_ffff + gap % 0xffff_ffff;
            b % 0xffff_ffff == if r < PERIOD then r else r - PERIOD
  {
    var q, p, r := gap / 0xffff_ffff, a / 0xffff_ffff, a % 0xffff_ffff + gap % 0xffff_ffff;
    if r < PERIOD {
      assert b == (p + q) * 0xffff_ffff + r;
    } else {
      assert b == (p + q + 1) * 0xffff_ffff + (r - PERIOD);
    }
  }

  /** How far one send's counter lies ahead of another's, around the wrap, whichever was first. */
  lemma CounterGap(i: nat, j: nat)
    requires 0 < i && 0 < j
    ensures var d := (j - i) % 0xffff_ffff;
            Counter(j) == if Counter(i) + d <= PERIOD then Counter(i) + d else Counter(i) + d - PERIOD
  {
    RestGap(i - 1, j - 1, j - i);
    var x: int, y: int := (i - 1) % 0xffff_ffff, (j - 1) % 0xffff_ffff;
    assert Counter(i) == x + 1 && Counter(j) == y + 1 by {
      CounterValue(i);
      CounterValue(j);
    }
  }

  /**
    Right after the i-th send was seen, the j-th, sent before it or after, is taken for an old one
    exactly when counting on from the one to the other goes past the wrap and takes more than REACH.
   */
  lemma StaleIff(i: nat, j: nat)
    requires 0 < i && 0 < j
    ensures var d := (j - i) % 0xffff_ffff;
            Stale(Counter(i), Counter(j)) <==> Counter(i) + d > PERIOD && d > REACH
  {
    CounterGap(i, j);
    CounterValue(i);
  }

  /**
    One that is older, by less than a whole turn of the counter, is rejected exactly when the counter
    has not wrapped since it was sent and it is less than a half range behind.
   */
  lemma OldRejectedIff(i: nat, j: nat)
    requires 0 < j < i < j + PERIOD
    ensures Stale(Counter(i), Counter(j)) <==> Counter(j) < Counter(i) && i - j < HALF
    ensures Counter(j) < Counter(i) <==> (j - 1) / 0xffff_ffff == (i - 1) / 0xffff_ffff
  {
    CounterValue(i);
    CounterValue(j);
    CountOn(j - 1, i - j);
  }

  /** Within one half range of sends the test is exactly "older than the newest seen". */
  lemma StaleWithinHalf(i: nat, j: nat)
    requires 0 < i <= HALF && 0 < j <= HALF
    ensures Stale(Counter(i), Counter(j)) <==> j < i
  {
    CounterValue(i);
    CounterValue(j);
  }

  // ---------- The reader ----------

  datatype Reader = Reader(last: map<I32, U32>, packets: seq<Packet>)

  function Seen(last: map<I32, U32>, channel: I32): U32 {
    if channel in last then last[channel] else 0
  }

  function ChannelOf(datagram: Bytes): I32
    requires |datagram| >= DATAGRAM_HEADER
  {
    GetI32(datagram[..4])
  }

  function SequenceOf(datagram: Bytes): U32
    requires |datagram| >= DATAGRAM_HEADER
  {
    GetU32(datagram[4..8])
  }

  function ReadOne(peer: I32, r: Reader, datagram: Bytes): Reader {
    if |datagram| < DATAGRAM_HEADER then r
    else
      var channel, sequence := ChannelOf(datagram), SequenceOf(datagram);
      if sequence == 0 then
        r.(packets := r.packets + [Packet(peer, channel, Unreliable, datagram[8..])])
      else if Stale(Seen(r.last, channel), sequence) then r
      else
        Reader(r.last[channel := sequence],
               r.packets + [Packet(peer, channel, UnreliableOrdered, datagram[8..])])
  }

  /** What the datagram reader task has done after these arrivals. */
  function ReadAll(peer: I32, arrivals: seq<Bytes>): Reader {
    if arrivals == [] then Reader(map[], [])
    else ReadOne(peer, ReadAll(peer, arrivals[..|arrivals| - 1]), arrivals[|arrivals| - 1])
  }

  lemma {:induction false} ReadAllGrows(peer: I32, arrivals: seq<Bytes>, i: nat)
    requires i <= |arrivals|
    ensures ReadAll(peer, arrivals[..i]).packets <= ReadAll(peer, arrivals).packets
    decreases |arrivals|
  {
    if i < |arrivals| {
      var n := |arrivals| - 1;
      assert arrivals[..n][..i] == arrivals[..i];
      ReadAllGrows(peer, arrivals[..n], i);
    } else {
      assert arrivals[..i] == arrivals;
    }
  }

  /**
    The datagram reader task, given every datagram that arrives before the connection ends.
    `room` is how many packets the session takes before it goes away.
   */
  method ReadDatagrams(peer: I32, arrivals: seq<Bytes>, room: nat) returns (packets: seq<Packet>)
    ensures packets == Take(ReadAll(peer, arrivals).packets, room)
  {
    var last: map<I32, U32> := map[];
    packets := [];
    for i := 0 to |arrivals|
      invariant ReadAll(peer, arrivals[..i]) == Reader(last, packets)
      invariant |packets| <= room
    {
      assert arrivals[..i + 1][..i] == arrivals[..i];
      ReadAllGrows(peer, arrivals, i + 1);
      var datagram := arrivals[i];
      if |datagram| < DATAGRAM_HEADER {
        continue;
      }
      var channel, sequence := GetI32(datagram[..4]), GetU32(datagram[4..8]);
      var mode := Unreliable;
      if sequence != 0 {
        var seen := if channel in last then last[channel] else 0;
        if sequence < seen && WrappingSub(seen, sequence) < HALF {
          continue;
        }
        last := last[channel := sequence];
        mode := UnreliableOrdered;
      }
      if |packets| == room {
        return;
      }
      packets := packets + [Packet(peer, channel, mode, datagram[8..])];
    }
    assert arrivals[..|arrivals|] == arrivals;
  }

  // ---------- Unordered datagrams ----------

  /** The packet in a datagram that is numbered zero, which means it is not ordered. */
  function UnorderedIn(peer: I32): Bytes -> Option<Packet> {
    (d: Bytes) =>
      if |d| >= 8 && d[4..8] == PutU32(0) then Some(Packet(peer, GetI32(d[..4]), Unreliable, d[8..])) else None
  }

  function UnorderedOnly(p: Packet): Option<Packet> {
    if p.mode == Unreliable then Some(p) else None
  }

  lemma NumberedZero(b: Bytes)
    requires |b| == 4
    ensures GetU32(b) == 0 <==> b == PutU32(0)
  {
    U32RoundTrip(0);
    U32Onto(b);
  }

  /** Whatever else arrives: every unordered datagram gives its packet, in order and each time it comes. */
  lemma {:induction false} UnorderedDelivery(peer: I32, arrivals: seq<Bytes>)
    ensures MapSome(UnorderedOnly, ReadAll(peer, arrivals).packets) == MapSome(UnorderedIn(peer), arrivals)
  {
    if arrivals != [] {
      var n := |arrivals| - 1;
      UnorderedDelivery(peer, arrivals[..n]);
      UnorderedNext(peer, ReadAll(peer, arrivals[..n]), arrivals[n]);
      assert arrivals == arrivals[..n] + [arrivals[n]];
      MapSomeConcat(UnorderedIn(peer), arrivals[..n], [arrivals[n]]);
    }
  }

  lemma UnorderedNext(peer: I32, r: Reader, d: Bytes)
    ensures MapSome(UnorderedOnly, ReadOne(peer, r, d).packets)
            == MapSome(UnorderedOnly, r.packets) + MapSome(UnorderedIn(peer), [d])
  {
    MapSomeOne(UnorderedIn(peer), d);
    NoMore(MapSome(UnorderedOnly, r.packets));
    if |d| >= DATAGRAM_HEADER {
      NumberedZero(d[4..8]);
      var p := Packet(peer, ChannelOf(d), if SequenceOf(d) == 0 then Unreliable else UnreliableOrdered, d[8..]);
      MapSomeConcat(UnorderedOnly, r.packets, [p]);
      MapSomeOne(UnorderedOnly, p);
    }
  }

  // ---------- Channels do not interfere ----------

  predicate OrderedOn(channel: I32, datagram: Bytes) {
    && |datagram| >= DATAGRAM_HEADER
    && ChannelOf(datagram) == channel
    && SequenceOf(datagram) != 0
  }

  function Only(channel: I32, arrivals: seq<Bytes>): seq<Bytes> {
    if arrivals == [] then []
    else
      var d := arrivals[|arrivals| - 1];
      Only(channel, arrivals[..|arrivals| - 1]) + (if OrderedOn(channel, d) then [d] else [])
  }

  function PayloadsOn(channel: I32, packets: seq<Packet>): seq<Bytes> {
    if packets == [] then []
    else
      var p := packets[|packets| - 1];
      PayloadsOn(channel, packets[..|packets| - 1])
      + (if p.channel == channel && p.mode == UnreliableOrdered then [p.data] else [])
  }

  lemma PayloadsSnoc(channel: I32, packets: seq<Packet>, p: Packet)
    ensures PayloadsOn(channel, packets + [p])
            == PayloadsOn(channel, packets)
               + (if p.channel == channel && p.mode == UnreliableOrdered then [p.data] else [])
  {
    assert (packets + [p])[..|packets|] == packets;
  }

  /** A channel's ordered packets depend on that channel's ordered datagrams alone. */
  lemma {:induction false} ChannelsAreIndependent(peer: I32, channel: I32, arrivals: seq<Bytes>)
    ensures var all, only := ReadAll(peer, arrivals), ReadAll(peer, Only(channel, arrivals));
            && PayloadsOn(channel, all.packets) == PayloadsOn(channel, only.packets)
            && Seen(all.last, channel) == Seen(only.last, channel)
  {
    if arrivals != [] {
      var n := |arrivals| - 1;
      var d := arrivals[n];
      var all, only := ReadAll(peer, arrivals[..n]), ReadAll(peer, Only(channel, arrivals[..n]));
      ChannelsAreIndependent(peer, channel, arrivals[..n]);
      if |d| >= DATAGRAM_HEADER {
        var mode := if SequenceOf(d) == 0 then Unreliable else UnreliableOrdered;
        var p := Packet(peer, ChannelOf(d), mode, d[8..]);
        PayloadsSnoc(channel, all.packets, p);
        PayloadsSnoc(channel, only.packets, p);
      }
      if OrderedOn(channel, d) {
        assert (Only(channel, arrivals[..n]) + [d])[..|Only(channel, arrivals[..n])|] == Only(channel, arrivals[..n]);
      } else {
        assert Only(channel, arrivals) == Only(channel, arrivals[..n]);
      }
    }
  }

  // ---------- Order ----------

  /** The counter value seen last, once these positions have been kept. */
  function SeenAfter(kept: seq<nat>): U32 {
    if kept == [] then 0 else Counter(kept[|kept| - 1] + 1)
  }

  function KeepOne(kept: seq<nat>, i: nat): seq<nat> {
    if Stale(SeenAfter(kept), Counter(i + 1)) then kept else kept + [i]
  }

  /**
    Which of some arrivals the reader keeps. Arrivals are positions, from 0, in the order the
    channel's packets were sent; the send at position i carries Counter(i + 1).
   */
  function Kept(arrivals: seq<nat>): seq<nat> {
    if arrivals == [] then []
    else KeepOne(Kept(arrivals[..|arrivals| - 1]), arrivals[|arrivals| - 1])
  }

  /** The arrivals that no earlier arrival was sent after. */
  function RunningMaxima(arrivals: seq<nat>): (m: seq<nat>)
    ensures arrivals != [] ==> m != []
    ensures m != [] ==> m[|m| - 1] in arrivals && forall k :: 0 <= k < |arrivals| ==> arrivals[k] <= m[|m| - 1]
  {
    if arrivals == [] then []
    else
      var m := RunningMaxima(arrivals[..|arrivals| - 1]);
      var i := arrivals[|arrivals| - 1];
      if m != [] && i < m[|m| - 1] then m else m + [i]
  }

  predicate Increasing(s: seq<nat>) {
    forall i, j :: 0 <= i < j < |s| ==> s[i] < s[j]
  }

  ghost predicate Among(arrivals: seq<nat>, sends: nat) {
    forall k :: 0 <= k < |arrivals| ==> arrivals[k] < sends
  }

  lemma {:induction false} KeptAmong(arrivals: seq<nat>, sends: nat)
    requires Among(arrivals, sends)
    ensures Among(Kept(arrivals), sends)
  {
    if arrivals != [] {
      KeptAmong(arrivals[..|arrivals| - 1], sends);
    }
  }

  lemma KeepNewest(kept: seq<nat>, i: nat)
    requires Among(kept, HALF) && i < HALF
    ensures KeepOne(kept, i) == if kept != [] && i < kept[|kept| - 1] then kept else kept + [i]
  {
    if kept != [] {
      StaleWithinHalf(kept[|kept| - 1] + 1, i + 1);
    }
  }

  /** Over one half range of sends, whatever is lost or reordered, the running maxima are kept. */
  lemma {:induction false} KeptAreMaxima(arrivals: seq<nat>)
    requires Among(arrivals, HALF)
    ensures Kept(arrivals) == RunningMaxima(arrivals)
  {
    if arrivals != [] {
      var n := |arrivals| - 1;
      KeptAreMaxima(arrivals[..n]);
      KeptAmong(arrivals[..n], HALF);
      KeepNewest(Kept(arrivals[..n]), arrivals[n]);
    }
  }

  /** The running maxima are what their name says: each later than all before it in send order. */
  lemma {:induction false} DistinctMaxima(arrivals: seq<nat>)
    requires Distinct(arrivals)
    ensures Increasing(RunningMaxima(arrivals))
  {
    if arrivals != [] {
      var n := |arrivals| - 1;
      var m := RunningMaxima(arrivals[..n]);
      DistinctMaxima(arrivals[..n]);
      assert m != [] ==> m[|m| - 1] != arrivals[n];
    }
  }

  /**
    Loss and reordering never deliver packets out of send order exactly when a channel makes at
    most 2^31 - 1 ordered sends.
   */
  lemma InOrderIff(sends: nat)
    ensures (forall arrivals: seq<nat> :: Among(arrivals, sends) && Distinct(arrivals) ==> Increasing(Kept(arrivals)))
            <==> sends <= HALF
  {
    if sends <= HALF {
      forall arrivals: seq<nat> | Among(arrivals, sends) && Distinct(arrivals)
        ensures Increasing(Kept(arrivals))
      {
        KeptAreMaxima(arrivals);
        DistinctMaxima(arrivals);
      }
    } else {
      OldOneSlipsThrough();
      var swapped: seq<nat> := [HALF, 0];
      assert Among(swapped, sends) && Distinct(swapped);
    }
  }

  /** Position 2^31 - 1 then position 0: the old one is delivered after the newer. */
  lemma OldOneSlipsThrough()
    ensures Kept([HALF, 0]) == [HALF, 0]
    ensures !Increasing(Kept([HALF, 0]))
  {
    var swapped: seq<nat> := [HALF, 0];
    CounterValue(HALF + 1);
    CounterValue(1);
    var first := swapped[..1];
    assert first[..0] == [] && Kept(first) == [HALF];
    var kept := Kept(swapped);
    assert kept[0] == HALF && kept[1] == 0;
  }

  // ---------- The wrap ----------

  ghost predicate GapsWithin(arrivals: seq<nat>, gap: nat) {
    forall k :: 0 < k < |arrivals| ==> arrivals[k - 1] <= arrivals[k] <= arrivals[k - 1] + gap
  }

  lemma KeepNext(kept: seq<nat>, i: nat)
    requires kept != [] ==> kept[|kept| - 1] <= i <= kept[|kept| - 1] + REACH
    ensures KeepOne(kept, i) == kept + [i]
  {
    if kept != [] {
      var last := kept[|kept| - 1];
      StaleIff(last + 1, i + 1);
      assert (i - last) % 0xffff_ffff == i - last;
    }
  }

  lemma {:induction false} NothingDropped(arrivals: seq<nat>)
    requires GapsWithin(arrivals, REACH)
    ensures Kept(arrivals) == arrivals
  {
    if arrivals != [] {
      var n := |arrivals| - 1;
      NothingDropped(arrivals[..n]);
      KeepNext(arrivals[..n], arrivals[n]);
      assert arrivals == arrivals[..n] + [arrivals[n]];
    }
  }

  /** The last send before the wrap, then the one REACH + 1 later: the newer one is dropped. */
  lemma NewOneDropped()
    ensures Kept([PERIOD - 1, PERIOD + REACH]) == [PERIOD - 1]
  {
    var apart: seq<nat> := [PERIOD - 1, PERIOD + REACH];
    StaleIff(PERIOD, PERIOD + REACH + 1);
    CounterValue(PERIOD);
    assert (REACH + 1) % 0xffff_ffff == REACH + 1;
    var first := apart[..1];
    assert first[..0] == [] && Kept(first) == [PERIOD - 1];
  }

  /** Arrivals in send order all survive any number of wraps exactly when no gap exceeds 2^31 sends. */
  lemma WrapToleranceIff(gap: nat)
    ensures (forall arrivals: seq<nat> :: GapsWithin(arrivals, gap) ==> Kept(arrivals) == arrivals) <==> gap <= REACH
  {
    if gap <= REACH {
      forall arrivals: seq<nat> | GapsWithin(arrivals, gap)
        ensures Kept(arrivals) == arrivals
      {
        NothingDropped(arrivals);
      }
    } else {
      NewOneDropped();
      var apart: seq<nat> := [PERIOD - 1, PERIOD + REACH];
      assert GapsWithin(apart, gap);
    }
  }

  // ---------- End to end ----------

  /** The datagram that carries the i-th ordered payload of a channel. */
  function SentAt(channel: I32, payloads: seq<Bytes>, i: nat): Bytes
    requires i < |payloads|
  {
    Datagram(channel, Counter(i + 1), payloads[i])
  }

  /** Datagrams that the network delivers, given by their positions in send order. */
  function Arriving(channel: I32, payloads: seq<Bytes>, arrivals: seq<nat>): (ds: seq<Bytes>)
    requires Among(arrivals, |payloads|)
    ensures |ds| == |arrivals|
  {
    seq(|arrivals|, k requires 0 <= k < |arrivals| =>
      SentAt(channel, payloads, arrivals[k]))
  }

  function Pick(payloads: seq<Bytes>, at: seq<nat>): seq<Bytes>
    requires Among(at, |payloads|)
  {
    seq(|at|, k requires 0 <= k < |at| => payloads[at[k]])
  }

  lemma ReadDatagram(peer: I32, r: Reader, channel: I32, sequence: U32, payload: Bytes)
    requires sequence != 0
    ensures ReadOne(peer, r, Datagram(channel, sequence, payload))
            == if Stale(Seen(r.last, channel), sequence) then r
               else Reader(r.last[channel := sequence],
                           r.packets + [Packet(peer, channel, UnreliableOrdered, payload)])
  {
    var d := Datagram(channel, sequence, payload);
    I32RoundTrip(channel);
    U32RoundTrip(sequence);
    assert d[..4] == PutI32(channel) && d[4..8] == PutU32(sequence) && d[8..] == payload;
  }

  ghost predicate Follows(channel: I32, payloads: seq<Bytes>, r: Reader, kept: seq<nat>) {
    && Among(kept, |payloads|)
    && PayloadsOn(channel, r.packets) == Pick(payloads, kept)
    && Seen(r.last, channel) == SeenAfter(kept)
  }

  lemma FollowsOne(peer: I32, channel: I32, payloads: seq<Bytes>, r: Reader, kept: seq<nat>, i: nat)
    requires i < |payloads| && Follows(channel, payloads, r, kept)
    ensures Follows(channel, payloads, ReadOne(peer, r, SentAt(channel, payloads, i)), KeepOne(kept, i))
  {
    CounterValue(i + 1);
    ReadDatagram(peer, r, channel, Counter(i + 1), payloads[i]);
    PayloadsSnoc(channel, r.packets, Packet(peer, channel, UnreliableOrdered, payloads[i]));
    assert Pick(payloads, kept + [i]) == Pick(payloads, kept) + [payloads[i]];
  }

  /** From payloads sent to payloads delivered, the reader does what Kept says. */
  lemma {:induction false} ReaderKeeps(peer: I32, channel: I32, payloads: seq<Bytes>, arrivals: seq<nat>)
    requires Among(arrivals, |payloads|)
    ensures Follows(channel, payloads, ReadAll(peer, Arriving(channel, payloads, arrivals)), Kept(arrivals))
  {
    var ds := Arriving(channel, payloads, arrivals);
    if arrivals != [] {
      var n := |arrivals| - 1;
      assert ds[..n] == Arriving(channel, payloads, arrivals[..n]);
      ReaderKeeps(peer, channel, payloads, arrivals[..n]);
      FollowsOne(peer, channel, payloads, ReadAll(peer, ds[..n]), Kept(arrivals[..n]), arrivals[n]);
    }
  }

  /**
    The ordered payloads a game sees on a channel, amid any other traffic: with at most 2^31 - 1
    ordered sends and no datagram duplicated, the running maxima of the arrivals, in send order.
   */
  lemma OrderedDelivery(peer: I32, channel: I32, payloads: seq<Bytes>, arrivals: seq<nat>, traffic: seq<Bytes>)
    requires |payloads| <= HALF && Among(arrivals, |payloads|)
    requires Only(channel, traffic) == Arriving(channel, payloads, arrivals)
    ensures Among(RunningMaxima(arrivals), |payloads|)
    ensures PayloadsOn(channel, ReadAll(peer, traffic).packets) == Pick(payloads, RunningMaxima(arrivals))
    ensures Distinct(arrivals) ==> Increasing(RunningMaxima(arrivals))
  {
    ChannelsAreIndependent(peer, channel, traffic);
    ReaderKeeps(peer, channel, payloads, arrivals);
    KeptAreMaxima(arrivals);
    if Distinct(arrivals) {
      DistinctMaxima(arrivals);
    }
  }

  /** Over any number of sends and wraps, nothing arriving in send order with no gap above 2^31 is lost. */
  lemma WrappedDelivery(peer: I32, channel: I32, payloads: seq<Bytes>, arrivals: seq<nat>, traffic: seq<Bytes>)
    requires Among(arrivals, |payloads|) && GapsWithin(arrivals, REACH)
    requires Only(channel, traffic) == Arriving(channel, payloads, arrivals)
    ensures PayloadsOn(channel, ReadAll(peer, traffic).packets) == Pick(payloads, arrivals)
  {
    ChannelsAreIndependent(peer, channel, traffic);
    ReaderKeeps(peer, channel, payloads, arrivals);
    NothingDropped(arrivals);
  }
}
