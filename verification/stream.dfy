/** IrohStream's buffer: chunks off the network, read as one flat run of bytes. */
module Stream {
  import opened Bytes
  import opened Protocol
  import opened Framing
  import opened Carry
  import opened Channels

  datatype Error = Ok | Unavailable

  lemma DataSplit(items: seq<Incoming>, n: nat)
    requires n <= |items|
    ensures DataIn(items) == DataIn(items[..n]) + DataIn(items[n..])
  {
    assert items == items[..n] + items[n..];
    DataConcat(items[..n], items[n..]);
  }

  lemma FlattenFront(chunk: Bytes, rest: seq<Bytes>)
    ensures Flatten([chunk] + rest) == chunk + Flatten(rest)
    ensures chunk == [] ==> Flatten(rest) == chunk + Flatten(rest)
  {
    var all := [chunk] + rest;
    assert all[1..] == rest;
  }

  /** Some of the chunk at the front has moved from what is left to what was taken. */
  lemma Moved(all: Bytes, filled: nat, chunk: Bytes, rest: Bytes, take: nat)
    requires filled <= |all| && all[filled..] == chunk + rest && take <= |chunk|
    ensures filled + take <= |all|
    ensures all[..filled + take] == all[..filled] + chunk[..take]
    ensures all[filled + take..] == chunk[take..] + rest
  {
    assert |all[filled..]| == |chunk| + |rest|;
    assert all[..filled + take] == all[..filled] + all[filled..][..take];
    assert all[filled + take..] == all[filled..][take..];
  }

  lemma DropFront(here: Bytes, rest: Bytes, n: nat)
    requires n <= |here|
    ensures (here + rest)[n..] == here[n..] + rest && (here + rest)[..n] == here[..n]
  {
  }

  /** How a stream with these reports to come will have ended. */
  function EndAfter(items: seq<Incoming>): Option<string> {
    if items != [] && items[|items| - 1].Ended? then items[|items| - 1].reason
    else Some("the stream's task ended")
  }

  /** Taking reports off the front does not change how the stream ends. */
  lemma EndKept(items: seq<Incoming>, n: nat)
    requires EndsOnce(items) && n <= |items|
    ensures EndsOnce(items[n..])
    ensures if n > 0 && items[n - 1].Ended? then items[n..] == [] && EndAfter(items) == items[n - 1].reason
            else EndAfter(items[n..]) == EndAfter(items)
  {
  }

  class State {
    var stream: Receiver?<Incoming>
    var buffered: seq<Bytes>
    var available: nat
    var ended: Option<Option<string>>

    ghost predicate Valid()
      reads this, stream
    {
      && available == |Flatten(buffered)|
      && (stream != null ==> stream.Valid() && EndsOnce(stream.items) && (ended.Some? ==> stream.items == []))
    }

    /** Every byte a reader can still get, wherever the network cut them. */
    ghost function Rest(): Bytes
      reads this, stream
    {
      Flatten(buffered) + (if stream == null then [] else DataIn(stream.items))
    }

    /** Those of them that a reader can get without waiting. */
    ghost function Here(): Bytes
      requires Valid()
      reads this, stream
    {
      Flatten(buffered) + (if stream == null then [] else DataIn(stream.items[..stream.ready]))
    }

    /** How the stream ended, or will have. */
    ghost function FinalEnd(): Option<string>
      requires stream != null
      reads this, stream
    {
      if ended.Some? then ended.value else EndAfter(stream.items)
    }

    /** What every call but close leaves alone. */
    twostate predicate Same()
      reads this, stream
    {
      stream == old(stream) && (stream != null ==> FinalEnd() == old(FinalEnd()))
    }

    constructor (stream: Receiver<Incoming>)
      requires stream.Valid() && EndsOnce(stream.items)
      ensures Valid() && this.stream == stream && Rest() == DataIn(stream.items) && buffered == [] && ended == None
    {
      this.stream, buffered, available, ended := stream, [], 0, None;
    }

    /** One report, into the buffer or as the end. */
    method Accept(item: Incoming)
      requires available == |Flatten(buffered)|
      modifies this`available, this`buffered, this`ended
      ensures available == |Flatten(buffered)| && Flatten(buffered) == Flatten(old(buffered)) + DataIn([item])
      ensures ended == if item.Ended? then Some(item.reason) else old(ended)
    {
      var one := [item];
      assert DataIn(one[1..]) == [];
      match item
      case Data(chunk) =>
        FlattenConcat(buffered, [chunk]);
        FlattenOne(chunk);
        available := available + |chunk|;
        buffered := buffered + [chunk];
      case Ended(reason) => ended := Some(reason);
    }

    /** Takes every report that is here. An end, if there is one, is the last of them. */
    method DrainFeed(feed: Receiver<Incoming>)
      requires stream == feed && Valid()
      modifies this`available, this`buffered, this`ended, feed
      ensures feed.Valid() && feed.ready == 0 && feed.items == old(feed.items[feed.ready..])
      ensures available == |Flatten(buffered)|
      ensures Flatten(buffered) == Flatten(old(buffered)) + DataIn(old(feed.items[..feed.ready]))
      ensures ended == if old(feed.ready > 0 && feed.items[feed.ready - 1].Ended?)
                       then Some(old(feed.items[feed.ready - 1].reason)) else old(ended)
    {
      ghost var all, flat, k := feed.items, Flatten(buffered), 0;
      assert all[..0] == [];
      while feed.ready > 0
        invariant feed.Valid() && available == |Flatten(buffered)|
        invariant k + feed.ready == old(feed.ready) && feed.items == all[k..]
        invariant Flatten(buffered) == flat + DataIn(all[..k])
        invariant ended == if k > 0 && all[k - 1].Ended? then Some(all[k - 1].reason) else old(ended)
        decreases feed.ready
      {
        var incoming := feed.TryRecv();
        DataConcat(all[..k], [all[k]]);
        assert all[..k + 1] == all[..k] + [all[k]];
        Accept(incoming.value);
        k := k + 1;
        if incoming.value.Ended? {
          break;
        }
      }
    }

    /** Buffers all that is here; the bytes still to be read stay the same. */
    method Drain()
      requires Valid()
      modifies this, stream
      ensures Valid() && Same() && Rest() == old(Rest())
      ensures Flatten(buffered) == old(Here()) && available == |old(Here())|
      ensures stream != null ==> stream.ready == 0
    {
      if stream == null {
        return;
      }
      DataSplit(stream.items, stream.ready);
      Assoc(Flatten(buffered), DataIn(stream.items[..stream.ready]), DataIn(stream.items[stream.ready..]));
      EndKept(stream.items, stream.ready);
      DrainFeed(stream);
    }

    /** Waits as long as too little is buffered and more may come. */
    method Fill(wanted: nat)
      requires Valid()
      modifies this, stream
      ensures Valid() && Same() && Rest() == old(Rest())
      ensures available < wanted && stream != null ==> ended == Some(old(FinalEnd()))
      ensures wanted <= available <==> wanted <= |old(Rest())|
    {
      while available < wanted && ended.None? && stream != null
        invariant Valid() && Same() && Rest() == old(Rest())
        decreases if stream == null then 0 else |stream.items|, ended.None?
      {
        ghost var items := stream.items;
        var incoming := stream.RecvBlocking();
        match incoming
        case Some(item) =>
          DataSplit(items, 1);
          EndKept(items, 1);
          assert items[..1] == [item];
          Assoc(Flatten(buffered), DataIn([item]), DataIn(items[1..]));
          Accept(item);
        case None => ended := Some(Some("the stream's task ended"));
      }
    }

    /** Copies as much as fits, chunk by chunk. Empty chunks are dropped on the way. */
    method TakeInto(buffer: array<Byte>) returns (filled: nat)
      requires Valid()
      modifies this, buffer
      ensures Valid() && stream == old(stream) && ended == old(ended)
      ensures filled == if buffer.Length <= old(available) then buffer.Length else old(available)
      ensures buffer[..filled] == Flatten(old(buffered))[..filled]
      ensures Flatten(buffered) == Flatten(old(buffered))[filled..]
    {
      filled := 0;
      ghost var all := Flatten(buffered);
      while filled < buffer.Length
        invariant filled <= buffer.Length && filled <= |all|
        invariant buffer[..filled] == all[..filled] && Flatten(buffered) == all[filled..]
        invariant stream == old(stream) && ended == old(ended) && available == |all|
        decreases |buffered|, buffer.Length - filled
      {
        if buffered == [] {
          break;
        }
        var chunk := buffered[0];
        var take := if |chunk| <= buffer.Length - filled then |chunk| else buffer.Length - filled;
        ghost var before := buffer[..filled];
        forall i | 0 <= i < take {
          buffer[filled + i] := chunk[i];
        }
        assert buffer[..filled + take] == before + chunk[..take];
        Moved(all, filled, chunk, Flatten(buffered[1..]), take);
        FlattenFront(chunk[take..], buffered[1..]);
        if |chunk| == take {
          buffered := buffered[1..];
        } else {
          buffered := [chunk[take..]] + buffered[1..];
        }
        filled := filled + take;
      }
      available := available - filled;
    }

    /**
      Reads exactly n bytes, waiting for them, or nothing at all: whether it can depends only on the
      bytes still to come, and it always hands out the next ones.
     */
    method GetData(n: I32) returns (error: Error, data: Bytes)
      requires Valid()
      modifies this, stream
      ensures Valid() && Same()
      ensures error == if n <= |old(Rest())| then Ok else Unavailable
      ensures data == if error == Ok && n > 0 then old(Rest())[..n] else []
      ensures data <= old(Rest()) && Rest() == old(Rest())[|data|..]
      ensures error == Unavailable && stream != null ==> ended == Some(old(FinalEnd()))
    {
      Drain();
      var wanted := if n > 0 then n else 0;
      if wanted == 0 {
        return Ok, [];
      }
      Fill(wanted);
      if available < wanted {
        return Unavailable, [];
      }
      var buffer := new Byte[wanted];
      ghost var here, rest := Flatten(buffered), Rest();
      var filled := TakeInto(buffer);
      DropFront(here, rest[|here|..], filled);
      return Ok, buffer[..filled];
    }

    /** The next of the bytes that are here, n of them if there are as many. */
    method GetPartialData(n: I32) returns (data: Bytes)
      requires Valid()
      modifies this, stream
      ensures Valid() && Same()
      ensures data == Take(old(Here()), if n > 0 then n else 0)
      ensures data <= old(Rest()) && Rest() == old(Rest())[|data|..]
    {
      Drain();
      var wanted := if n <= 0 then 0 else if n <= available then n else available;
      if wanted == 0 {
        return [];
      }
      var buffer := new Byte[wanted];
      ghost var here, rest := Flatten(buffered), Rest();
      var filled := TakeInto(buffer);
      DropFront(here, rest[|here|..], filled);
      return buffer[..filled];
    }

    method GetAvailableBytes() returns (count: I32)
      requires Valid()
      modifies this, stream
      ensures Valid() && Same() && Rest() == old(Rest())
      ensures count == if |old(Here())| <= I32_MAX then |old(Here())| else I32_MAX
    {
      Drain();
      count := if available <= I32_MAX then available else I32_MAX;
    }

    /** Drops the stream and whatever it had buffered. */
    method Close()
      requires Valid()
      modifies this
      ensures Valid() && stream == null && Rest() == []
    {
      stream, buffered, available := null, [], 0;
    }
  }

  // ---------- One flat run of bytes ----------

  datatype Call = Arrive(reports: nat) | Exact(n: I32) | Partial(n: I32) | Count

  /** One call. What it hands out is the next of the bytes that could still be read. */
  method Do(state: State, call: Call) returns (data: Bytes)
    requires state.Valid() && state.stream != null
    modifies state, state.stream
    ensures state.Valid() && state.Same()
    ensures data + state.Rest() == old(state.Rest())
  {
    data := [];
    ghost var b := state.Rest();
    match call {
      case Arrive(n) =>
        var more := |state.stream.items| - state.stream.ready;
        state.stream.Arrive(if n <= more then n else more);
      case Exact(n) =>
        var error;
        error, data := state.GetData(n);
      case Partial(n) => data := state.GetPartialData(n);
      case Count => var _ := state.GetAvailableBytes();
    }
    assert state.Rest() == b[|data|..];
  }

  /**
    For every interleaving of arrivals, exact and partial reads and counts, and every way of cutting
    the bytes: what was handed out and what can still be read come to the bytes there were.
   */
  method Drive(state: State, calls: seq<Call>) returns (handed: Bytes)
    requires state.Valid() && state.stream != null
    modifies state, state.stream
    ensures state.Valid() && state.Same()
    ensures handed + state.Rest() == old(state.Rest())
  {
    handed := [];
    for i := 0 to |calls|
      invariant state.Valid() && state.Same()
      invariant handed + state.Rest() == old(state.Rest())
    {
      var data := Do(state, calls[i]);
      Assoc(handed, data, state.Rest());
      handed := handed + data;
    }
  }

  function FlatRead(b: Bytes, size: I32): Option<Bytes> {
    var n := if size > 0 then size else 0;
    if n <= |b| then Some(b[..n]) else None
  }

  function FlatRest(b: Bytes, size: I32): Bytes {
    var n := if size > 0 then size else 0;
    if n <= |b| then b[n..] else b
  }

  /** What exact reads of these sizes give, from the bytes alone. */
  function FlatReads(b: Bytes, sizes: seq<I32>): seq<Option<Bytes>> {
    if sizes == [] then []
    else [FlatRead(b, sizes[0])] + FlatReads(FlatRest(b, sizes[0]), sizes[1..])
  }

  /** Exact reads answer as if the bytes had come in one piece, all at once. */
  method ReadExactly(state: State, sizes: seq<I32>) returns (results: seq<Option<Bytes>>)
    requires state.Valid()
    modifies state, state.stream
    ensures state.Valid() && state.Same()
    ensures results == FlatReads(old(state.Rest()), sizes)
  {
    results := [];
    for i := 0 to |sizes|
      invariant state.Valid() && state.Same()
      invariant FlatReads(old(state.Rest()), sizes) == results + FlatReads(state.Rest(), sizes[i..])
    {
      ghost var b := state.Rest();
      assert sizes[i..][1..] == sizes[i + 1..];
      Assoc(results, [FlatRead(b, sizes[i])], FlatReads(FlatRest(b, sizes[i]), sizes[i + 1..]));
      var error, data := state.GetData(sizes[i]);
      assert state.Rest() == FlatRest(b, sizes[i]);
      results := results + [if error == Ok then Some(data) else None];
    }
  }

  // ---------- Length, then payload ----------

  /** The messages before the first that is longer than an exact read can ask for. */
  function Readable(messages: seq<Bytes>): seq<Bytes> {
    if messages == [] || |messages[0]| > I32_MAX then [] else [messages[0]] + Readable(messages[1..])
  }

  lemma {:induction false} ReadableIff(messages: seq<Bytes>)
    ensures Readable(messages) == messages <==> forall m :: m in messages ==> |m| <= I32_MAX
  {
    if messages != [] {
      ReadableIff(messages[1..]);
      assert messages == [messages[0]] + messages[1..];
      assert messages[0] in messages;
    }
  }

  /** What the bytes at hand say, once a length of n has been read off the front. */
  lemma ParseStep(b: Bytes)
    ensures |b| < 4 ==> Parse(b) == []
    ensures |b| >= 4 ==>
              var n := GetU32(b[..4]);
              if n > |b[4..]| then Parse(b) == []
              else |b[4..][..n]| == n && Parse(b) == [b[4..][..n]] + Parse(b[4..][n..])
  {
    if |b| >= 4 {
      var n := GetU32(b[..4]);
      if n <= |b[4..]| {
        assert b[4..][..n] == b[4..4 + n] && b[4..][n..] == b[4 + n..];
      }
    }
  }

  /** An exact read of a length and an exact read of that many bytes. */
  method ReadMessage(state: State) returns (message: Option<Bytes>)
    requires state.Valid()
    modifies state, state.stream
    ensures state.Valid() && state.Same()
    ensures message.None? ==> Readable(Parse(old(state.Rest()))) == []
    ensures message.Some? ==>
              Readable(Parse(old(state.Rest()))) == [message.value] + Readable(Parse(state.Rest()))
    ensures message.Some? ==> |state.Rest()| < |old(state.Rest())|
  {
    ParseStep(state.Rest());
    var error, header := state.GetData(4);
    if error != Ok {
      return None;
    }
    var length := GetU32(header);
    if length > I32_MAX {
      return None;
    }
    var payload;
    error, payload := state.GetData(length);
    if error != Ok {
      return None;
    }
    return Some(payload);
  }

  /**
    Godot's framing helpers: an exact read of a length, then an exact read of that many bytes, until
    one of them fails. Here the length is four bytes, most significant first.
   */
  method ReadMessages(state: State) returns (messages: seq<Bytes>)
    requires state.Valid()
    modifies state, state.stream
    ensures messages == Readable(Parse(old(state.Rest())))
  {
    messages := [];
    while true
      invariant state.Valid() && state.Same()
      invariant Readable(Parse(old(state.Rest()))) == messages + Readable(Parse(state.Rest()))
      decreases |state.Rest()|
    {
      var message := ReadMessage(state);
      if message.None? {
        return;
      }
      Assoc(messages, [message.value], Readable(Parse(state.Rest())));
      messages := messages + [message.value];
    }
  }

  /**
    However the network cut what a sender framed, and wherever it stopped, the reader gets exactly
    the messages that lie wholly before that point, up to one too long to ask for; and so all of a
    whole stream exactly when none is.
   */
  method ReadFramed(state: State, ghost messages: seq<Bytes>, ghost n: nat) returns (read: seq<Bytes>)
    requires state.Valid() && n <= |Body(messages)| && state.Rest() == Body(messages)[..n]
    requires AllShort(messages)
    modifies state, state.stream
    ensures read == Readable(messages[..Whole(messages, n)])
    ensures n == |Body(messages)| ==> (read == messages <==> forall m :: m in messages ==> |m| <= I32_MAX)
  {
    ParsePrefix(messages, n);
    WholeOfAll(messages);
    assert messages[..|messages|] == messages;
    ReadableIff(messages);
    read := ReadMessages(state);
  }

  /**
    Whatever both sides queue and however early either fails, the reports a far side's buffer is fed hold
    a beginning of the data before the queue's stop, and end cleanly only if no abort stands there and
    all of it is in.
   */
  lemma FarSideReads(queue: seq<Chunk>, k: nat, budget: nat, own: seq<Chunk>, ownBudget: nat,
                     inputs: seq<ReaderInput>)
    requires StopsAt(queue, k) && FarSide(queue, budget, own, ownBudget, inputs)
    ensures var items, data := ReadInputs(inputs, true).reports, Flatten(DataOf(queue, k));
            && EndsOnce(items) && DataIn(items) <= data
            && (EndAfter(items) == None ==> !Aborts(queue, k) && DataIn(items) == data)
  {
    var m := StopsSomewhere(own);
    HalvesCompose(queue, k, budget, own, m, ownBudget, inputs);
  }

  /**
    So every run of calls on that buffer hands out a beginning of that data, and with what can still be
    read all of it when the stream ends cleanly.
   */
  method DriveFarSide(state: State, calls: seq<Call>, ghost queue: seq<Chunk>, ghost k: nat, ghost budget: nat,
                      ghost own: seq<Chunk>, ghost ownBudget: nat, ghost inputs: seq<ReaderInput>)
    returns (handed: Bytes)
    requires StopsAt(queue, k) && FarSide(queue, budget, own, ownBudget, inputs)
    requires state.Valid() && state.buffered == [] && state.ended == None
    requires state.stream != null && state.stream.items == ReadInputs(inputs, true).reports
    modifies state, state.stream
    ensures state.Valid() && state.stream == old(state.stream)
    ensures handed <= Flatten(DataOf(queue, k))
    ensures state.FinalEnd() == None ==> !Aborts(queue, k) && handed + state.Rest() == Flatten(DataOf(queue, k))
  {
    FarSideReads(queue, k, budget, own, ownBudget, inputs);
    NoMore(DataIn(state.stream.items));
    handed := Drive(state, calls);
    assert handed <= handed + state.Rest();
  }
}
