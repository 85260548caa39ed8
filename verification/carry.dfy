/** The two halves of a raw stream: the writer's queue, and the reader's reports. */
module Carry {
  import opened Bytes
  import opened Protocol
  import opened Framing

  datatype Chunk = Write(data: Bytes) | Finish | Abort(code: U32)

  /** Read off a stream. An end without a reason is a clean finish. */
  datatype Incoming = Data(chunk: Bytes) | Ended(reason: Option<string>)

  /** How the send half was left: still open after a failed write, finished, or reset. */
  datatype SendEnd = Failed | Finished | Reset(code: U32)

  /** What the reader's select can yield. */
  datatype ReaderInput =
    | Read(chunk: Bytes)
    | EndOfStream
    | Error(reason: string)
    | Aborted(code: U32)
    | WriterGone

  function Flatten(chunks: seq<Bytes>): Bytes {
    if chunks == [] then [] else chunks[0] + Flatten(chunks[1..])
  }

  lemma {:induction false} FlattenConcat(a: seq<Bytes>, b: seq<Bytes>)
    ensures Flatten(a + b) == Flatten(a) + Flatten(b)
  {
    if a == [] {
      assert a + b == b;
    } else {
      assert (a + b)[1..] == a[1..] + b;
      FlattenConcat(a[1..], b);
      Assoc(a[0], Flatten(a[1..]), Flatten(b));
    }
  }

  lemma FlattenOne(chunk: Bytes)
    ensures Flatten([chunk]) == chunk
  {
    var one := [chunk];
    assert Flatten(one[1..]) == [];
  }

  // ---------- The writer ----------

  /** The bytes queued before the first finish or abort. */
  function Queued(queue: seq<Chunk>): Bytes {
    if queue == [] || !queue[0].Write? then [] else queue[0].data + Queued(queue[1..])
  }

  /** What a queue asks for in the end. Dropping the stream counts as finishing it. */
  function Asked(queue: seq<Chunk>): SendEnd {
    if queue == [] || queue[0].Finish? then Finished
    else if queue[0].Abort? then Reset(queue[0].code)
    else Asked(queue[1..])
  }

  /** The first k chunks are data, and they are all there is before a finish, an abort or the end. */
  ghost predicate StopsAt(queue: seq<Chunk>, k: nat) {
    && k <= |queue|
    && (forall i :: 0 <= i < k ==> queue[i].Write?)
    && (k < |queue| ==> !queue[k].Write?)
  }

  /** The data in the first k chunks. */
  function DataOf(queue: seq<Chunk>, k: nat): seq<Bytes>
    requires k <= |queue| && forall i :: 0 <= i < k ==> queue[i].Write?
  {
    seq(k, i requires 0 <= i < k => queue[i].data)
  }

  ghost predicate Aborts(queue: seq<Chunk>, k: nat) {
    k < |queue| && queue[k].Abort?
  }

  lemma {:induction false} StopsSomewhere(queue: seq<Chunk>) returns (k: nat)
    ensures StopsAt(queue, k)
  {
    if queue == [] || !queue[0].Write? {
      k := 0;
    } else {
      var j := StopsSomewhere(queue[1..]);
      k := j + 1;
    }
  }

  /** What every queue comes to: the data before its stop, and a reset with that code only if it is an abort. */
  lemma {:induction false} StopDecides(queue: seq<Chunk>, k: nat)
    requires StopsAt(queue, k)
    ensures Queued(queue) == Flatten(DataOf(queue, k))
    ensures Asked(queue) == if Aborts(queue, k) then Reset(queue[k].code) else Finished
  {
    if k > 0 {
      StopDecides(queue[1..], k - 1);
      assert DataOf(queue, k)[1..] == DataOf(queue[1..], k - 1);
    }
  }

  /** How the writer leaves a stream of whose bytes the connection takes `budget` before it fails. */
  function Leaves(queue: seq<Chunk>, budget: nat): SendEnd {
    if |Queued(queue)| <= budget then Asked(queue) else Failed
  }

  lemma QueuedStep(queue: seq<Chunk>, i: nat, sent: Bytes)
    requires i < |queue|
    ensures !queue[i].Write? ==> Queued(queue[i..]) == []
    ensures queue[i].Write? ==>
              && Asked(queue[i..]) == Asked(queue[i + 1..])
              && sent + Queued(queue[i..]) == sent + queue[i].data + Queued(queue[i + 1..])
  {
    assert queue[i..][1..] == queue[i + 1..];
    Assoc(sent, if queue[i].Write? then queue[i].data else [], Queued(queue[i + 1..]));
  }

  /** The writer loop, given every chunk queued before the stream is dropped. */
  method RunWriter(stream: SendStream, queue: seq<Chunk>) returns (end: SendEnd)
    requires stream.sent == []
    modifies stream
    ensures stream.sent == Take(Queued(queue), stream.budget)
    ensures end == Leaves(queue, stream.budget)
  {
    var i := 0;
    while i < |queue|
      invariant 0 <= i <= |queue|
      invariant Queued(queue) == stream.sent + Queued(queue[i..])
      invariant Asked(queue) == Asked(queue[i..])
      invariant |stream.sent| <= stream.budget
    {
      ghost var sent := stream.sent;
      QueuedStep(queue, i, sent);
      match queue[i] {
        case Write(data) =>
          var ok := stream.WriteAll(data);
          if !ok {
            assert Queued(queue) == (sent + data) + Queued(queue[i + 1..]);
            TakeSame(sent + data, Queued(queue), stream.budget);
            return Failed;
          }
        case Finish => return Finished;
        case Abort(code) => return Reset(code);
      }
      i := i + 1;
    }
    return Finished;
  }

  // ---------- The reader ----------

  datatype Reading = Reading(reports: seq<Incoming>, stopped: Option<U32>)

  /** What the reader reports, and the code it stops the stream with if an abort reaches it first. */
  function ReadInputs(inputs: seq<ReaderInput>, abortable: bool): Reading {
    if inputs == [] then Reading([], None)
    else
      match inputs[0]
      case Read(chunk) =>
        var rest := ReadInputs(inputs[1..], abortable);
        rest.(reports := [Data(chunk)] + rest.reports)
      case EndOfStream => Reading([Ended(None)], None)
      case Error(reason) => Reading([Ended(Some(reason))], None)
      case Aborted(code) => if abortable then Reading([], Some(code)) else ReadInputs(inputs[1..], abortable)
      case WriterGone => ReadInputs(inputs[1..], false)
  }

  lemma ReadStep(inputs: seq<ReaderInput>, i: nat, abortable: bool, reports: seq<Incoming>)
    requires i < |inputs|
    ensures var all := ReadInputs(inputs[i..], abortable);
            var rest := ReadInputs(inputs[i + 1..], if inputs[i].WriterGone? then false else abortable);
            match inputs[i]
            case Read(chunk) =>
              reports + all.reports == (reports + [Data(chunk)]) + rest.reports && all.stopped == rest.stopped
            case EndOfStream => all == Reading([Ended(None)], None)
            case Error(reason) => all == Reading([Ended(Some(reason))], None)
            case Aborted(code) => all == if abortable then Reading([], Some(code)) else rest
            case WriterGone => all == rest
  {
    assert inputs[i..][1..] == inputs[i + 1..];
    if inputs[i].Read? {
      Assoc(reports, [Data(inputs[i].chunk)], ReadInputs(inputs[i + 1..], abortable).reports);
    }
  }

  /** The reader loop. `room` is how many reports are taken before the stream's owner drops it. */
  method RunReader(inputs: seq<ReaderInput>, room: nat) returns (reports: seq<Incoming>, stopped: Option<U32>)
    ensures reports == Take(ReadInputs(inputs, true).reports, room)
    ensures |ReadInputs(inputs, true).reports| <= room ==> stopped == ReadInputs(inputs, true).stopped
  {
    reports, stopped := [], None;
    var abortable := true;
    var i := 0;
    while i < |inputs|
      invariant 0 <= i <= |inputs| && |reports| <= room
      invariant ReadInputs(inputs, true).reports == reports + ReadInputs(inputs[i..], abortable).reports
      invariant ReadInputs(inputs, true).stopped == ReadInputs(inputs[i..], abortable).stopped
      invariant stopped == None
    {
      ReadStep(inputs, i, abortable, reports);
      match inputs[i] {
        case Aborted(code) =>
          if abortable {
            return reports, Some(code);
          }
        case WriterGone => abortable := false;
        case Read(chunk) =>
          if |reports| == room {
            return;
          }
          reports := reports + [Data(chunk)];
        case EndOfStream =>
          reports := Take(reports + [Ended(None)], room);
          return;
        case Error(reason) =>
          reports := Take(reports + [Ended(Some(reason))], room);
          return;
      }
      i := i + 1;
    }
  }

  function Reported(input: ReaderInput): Option<Incoming> {
    if input.Read? then Some(Data(input.chunk)) else None
  }

  /** Nothing ends or aborts the stream before the j-th input. */
  ghost predicate GoesOn(inputs: seq<ReaderInput>, j: nat) {
    j <= |inputs| && forall i :: 0 <= i < j ==> inputs[i].Read? || inputs[i].WriterGone?
  }

  /**
    What first stops the reader decides: the end of the stream, an error with its reason, or an abort
    with its code, unless the writer was gone before. What was read until then is reported, and nothing
    that comes after.
   */
  lemma {:induction false} FirstStop(inputs: seq<ReaderInput>, j: nat, abortable: bool)
    requires GoesOn(inputs, j)
    ensures var reading, read := ReadInputs(inputs, abortable), MapSome(Reported, inputs[..j]);
            && (j == |inputs| ==> reading == Reading(read, None))
            && (j < |inputs| && inputs[j].EndOfStream? ==> reading == Reading(read + [Ended(None)], None))
            && (j < |inputs| && inputs[j].Error? ==> reading == Reading(read + [Ended(Some(inputs[j].reason))], None))
            && (j < |inputs| && inputs[j].Aborted? && abortable && WriterGone !in inputs[..j] ==>
                  reading == Reading(read, Some(inputs[j].code)))
  {
    if j > 0 {
      var rest := inputs[1..];
      FirstStop(rest, j - 1, if inputs[0].WriterGone? then false else abortable);
      assert inputs[..j] == [inputs[0]] + rest[..j - 1];
      assert inputs[..j][1..] == rest[..j - 1];
    }
  }

  /** The end is reported at most once, and last. */
  ghost predicate EndsOnce(reports: seq<Incoming>) {
    forall i :: 0 <= i < |reports| && reports[i].Ended? ==> i == |reports| - 1
  }

  lemma {:induction false} ReaderEndsOnce(inputs: seq<ReaderInput>, abortable: bool)
    ensures EndsOnce(ReadInputs(inputs, abortable).reports)
  {
    if inputs != [] {
      ReaderEndsOnce(inputs[1..], abortable);
      ReaderEndsOnce(inputs[1..], false);
    }
  }

  /** The bytes reported, in order. */
  function DataIn(reports: seq<Incoming>): Bytes {
    if reports == [] then []
    else (if reports[0].Data? then reports[0].chunk else []) + DataIn(reports[1..])
  }

  lemma {:induction false} DataConcat(a: seq<Incoming>, b: seq<Incoming>)
    ensures DataIn(a + b) == DataIn(a) + DataIn(b)
  {
    if a == [] {
      assert a + b == b;
    } else {
      assert (a + b)[1..] == a[1..] + b;
      DataConcat(a[1..], b);
      Assoc(if a[0].Data? then a[0].chunk else [], DataIn(a[1..]), DataIn(b));
    }
  }

  /** The chunks a network delivered before anything ended the stream. */
  function Chunks(inputs: seq<ReaderInput>): seq<Bytes> {
    if inputs == [] || inputs[0].EndOfStream? || inputs[0].Error? then []
    else (if inputs[0].Read? then [inputs[0].chunk] else []) + Chunks(inputs[1..])
  }

  ghost predicate NoAbort(inputs: seq<ReaderInput>) {
    forall i :: 0 <= i < |inputs| ==> !inputs[i].Aborted?
  }

  /** How the stream ended, when something ended it. */
  function EndOf(inputs: seq<ReaderInput>): Option<Incoming> {
    if inputs == [] then None
    else if inputs[0].EndOfStream? then Some(Ended(None))
    else if inputs[0].Error? then Some(Ended(Some(inputs[0].reason)))
    else EndOf(inputs[1..])
  }

  /**
    Unless this side aborts, everything delivered is reported, then how it ended. Finishing our own
    half, whenever that is noticed, takes nothing away.
   */
  lemma {:induction false} ReaderReportsAll(inputs: seq<ReaderInput>, abortable: bool)
    requires NoAbort(inputs)
    ensures var reports := ReadInputs(inputs, abortable).reports;
            && DataIn(reports) == Flatten(Chunks(inputs))
            && (EndOf(inputs).None? ==> forall i :: 0 <= i < |reports| ==> reports[i].Data?)
            && (EndOf(inputs).Some? ==> reports != [] && reports[|reports| - 1] == EndOf(inputs).value)
  {
    if inputs != [] {
      var rest := inputs[1..];
      ReaderReportsAll(rest, if inputs[0].WriterGone? then false else abortable);
      var reports := ReadInputs(inputs, abortable).reports;
      if inputs[0].Read? {
        assert reports[1..] == ReadInputs(rest, abortable).reports;
        assert Chunks(inputs)[1..] == Chunks(rest);
      } else if inputs[0].EndOfStream? || inputs[0].Error? {
        assert DataIn(reports[1..]) == [];
      } else {
        assert Chunks(inputs) == Chunks(rest);
      }
    }
  }

  /** An abort leaves what the reader reports a prefix of what it would have reported. */
  lemma {:induction false} AbortOnlyCuts(inputs: seq<ReaderInput>, abortable: bool)
    ensures DataIn(ReadInputs(inputs, abortable).reports) <= Flatten(Chunks(inputs))
  {
    if inputs != [] {
      var rest := inputs[1..];
      AbortOnlyCuts(rest, abortable);
      AbortOnlyCuts(rest, false);
      var reports := ReadInputs(inputs, abortable).reports;
      if inputs[0].Read? {
        assert reports[1..] == ReadInputs(rest, abortable).reports;
        assert Chunks(inputs)[1..] == Chunks(rest);
      } else if inputs[0].EndOfStream? || inputs[0].Error? {
        assert DataIn(reports[1..]) == [];
      } else {
        assert Chunks(inputs) == Chunks(rest);
      }
    }
  }

  // ---------- From one side to the other ----------

  /** What a side's writer tells the same side's reader: an abort's code, then that the writer is gone. */
  function ToReader(end: SendEnd): seq<ReaderInput> {
    (if end.Reset? then [Aborted(end.code)] else []) + [WriterGone]
  }

  function FromWriter(input: ReaderInput): Option<ReaderInput> {
    if input.Aborted? || input.WriterGone? then Some(input) else None
  }

  /** The reader's inputs from its own side are those its writer makes, as far as they have come. */
  ghost predicate HandedOff(end: SendEnd, inputs: seq<ReaderInput>) {
    MapSome(FromWriter, inputs) <= ToReader(end)
  }

  /**
    What a transport may make of a stream: some of its bytes, from the front, cut anywhere; and a clean
    end only for a stream that was finished, after all of them.
   */
  ghost predicate Transported(sent: Bytes, end: SendEnd, inputs: seq<ReaderInput>) {
    && Flatten(Chunks(inputs)) <= sent
    && (EndOf(inputs) == Some(Ended(None)) ==> end == Finished && Flatten(Chunks(inputs)) == sent)
  }

  lemma {:induction false} InputFromWriter(inputs: seq<ReaderInput>, i: nat)
    requires i < |inputs| && FromWriter(inputs[i]).Some?
    ensures inputs[i] in MapSome(FromWriter, inputs)
  {
    if i > 0 {
      InputFromWriter(inputs[1..], i - 1);
    }
  }

  /** A side that does not reset its own half never aborts its reader. */
  lemma NoneAborted(end: SendEnd, inputs: seq<ReaderInput>)
    requires HandedOff(end, inputs)
    ensures forall i :: 0 <= i < |inputs| && inputs[i].Aborted? ==> end == Reset(inputs[i].code)
    ensures !end.Reset? ==> NoAbort(inputs)
  {
    forall i | 0 <= i < |inputs| && inputs[i].Aborted?
      ensures end == Reset(inputs[i].code)
    {
      InputFromWriter(inputs, i);
      assert inputs[i] in ToReader(end);
    }
  }

  /** A stop carries the code of an abort. */
  lemma {:induction false} StoppedByAbort(inputs: seq<ReaderInput>, abortable: bool) returns (i: nat)
    requires ReadInputs(inputs, abortable).stopped.Some?
    ensures i < |inputs| && inputs[i] == Aborted(ReadInputs(inputs, abortable).stopped.value)
  {
    if inputs[0].Aborted? && abortable {
      i := 0;
    } else {
      var j := StoppedByAbort(inputs[1..], if inputs[0].WriterGone? then false else abortable);
      i := j + 1;
    }
  }

  /** An end is only reported once everything before it has been, and is the stream's own. */
  lemma {:induction false} EndAfterAll(inputs: seq<ReaderInput>, abortable: bool, end: Incoming)
    requires end.Ended? && end in ReadInputs(inputs, abortable).reports
    ensures EndOf(inputs) == Some(end)
    ensures DataIn(ReadInputs(inputs, abortable).reports) == Flatten(Chunks(inputs))
  {
    var rest, reports := inputs[1..], ReadInputs(inputs, abortable).reports;
    if inputs[0].EndOfStream? || inputs[0].Error? {
      assert DataIn(reports[1..]) == [];
    } else {
      EndAfterAll(rest, if inputs[0].WriterGone? then false else abortable, end);
      if inputs[0].Read? {
        assert reports[1..] == ReadInputs(rest, abortable).reports;
        assert Chunks(inputs)[1..] == Chunks(rest);
      } else {
        assert Chunks(inputs) == Chunks(rest);
      }
    }
  }

  /** What the far side's reader reports, given what its transport and its own writer put before it. */
  ghost predicate FarSide(queue: seq<Chunk>, budget: nat, own: seq<Chunk>, ownBudget: nat, inputs: seq<ReaderInput>) {
    && Transported(Take(Queued(queue), budget), Leaves(queue, budget), inputs)
    && HandedOff(Leaves(own, ownBudget), inputs)
  }

  /** A side's abort reaches its reader before word that its writer is gone. */
  lemma AbortComesFirst(end: SendEnd, inputs: seq<ReaderInput>, j: nat)
    requires HandedOff(end, inputs) && j < |inputs| && inputs[j].Aborted?
    ensures forall i :: 0 <= i < j ==> FromWriter(inputs[i]).None?
  {
    var before, told := MapSome(FromWriter, inputs[..j]), MapSome(FromWriter, inputs);
    assert inputs == inputs[..j] + [inputs[j]] + inputs[j + 1..];
    MapSomeConcat(FromWriter, inputs[..j] + [inputs[j]], inputs[j + 1..]);
    MapSomeConcat(FromWriter, inputs[..j], [inputs[j]]);
    MapSomeOne(FromWriter, inputs[j]);
    assert told[|before|] == inputs[j] && told == ToReader(end)[..|told|];
    assert before == [];
    forall i | 0 <= i < j
      ensures FromWriter(inputs[i]).None?
    {
      if FromWriter(inputs[i]).Some? {
        InputFromWriter(inputs[..j], i);
      }
    }
  }

  /** An abort that reaches the reader before an end stops it there: nothing that comes after is reported. */
  lemma AbortHeeded(end: SendEnd, inputs: seq<ReaderInput>, j: nat)
    requires HandedOff(end, inputs) && j < |inputs| && inputs[j].Aborted? && EndOf(inputs[..j]).None?
    ensures ReadInputs(inputs, true) == Reading(MapSome(Reported, inputs[..j]), Some(inputs[j].code))
  {
    AbortComesFirst(end, inputs, j);
    forall i | 0 <= i < j
      ensures inputs[i].Read?
    {
      NoEndBefore(inputs[..j], i);
      assert inputs[..j][i] == inputs[i];
    }
    FirstStop(inputs, j, true);
  }

  lemma {:induction false} NoEndBefore(inputs: seq<ReaderInput>, i: nat)
    requires EndOf(inputs).None? && i < |inputs|
    ensures !inputs[i].EndOfStream? && !inputs[i].Error?
  {
    if i > 0 {
      NoEndBefore(inputs[1..], i - 1);
    }
  }

  lemma WhatComes(queue: seq<Chunk>, k: nat, budget: nat, inputs: seq<ReaderInput>)
    requires StopsAt(queue, k) && Transported(Take(Queued(queue), budget), Leaves(queue, budget), inputs)
    ensures var reports, data := ReadInputs(inputs, true).reports, Flatten(DataOf(queue, k));
            && DataIn(reports) <= data
            && (Ended(None) in reports ==> !Aborts(queue, k) && |data| <= budget && DataIn(reports) == data)
  {
    StopDecides(queue, k);
    AbortOnlyCuts(inputs, true);
    if Ended(None) in ReadInputs(inputs, true).reports {
      EndAfterAll(inputs, true, Ended(None));
    }
  }

  lemma WhatStops(own: seq<Chunk>, m: nat, ownBudget: nat, inputs: seq<ReaderInput>)
    requires StopsAt(own, m) && HandedOff(Leaves(own, ownBudget), inputs)
    ensures var read := ReadInputs(inputs, true);
            && (read.stopped.Some? ==> Aborts(own, m) && read.stopped.value == own[m].code)
            && (!Aborts(own, m) ==>
                  && DataIn(read.reports) == Flatten(Chunks(inputs))
                  && (EndOf(inputs).Some? ==> EndOf(inputs).value in read.reports))
  {
    StopDecides(own, m);
    NoneAborted(Leaves(own, ownBudget), inputs);
    if ReadInputs(inputs, true).stopped.Some? {
      var _ := StoppedByAbort(inputs, true);
    }
    if !Aborts(own, m) {
      ReaderReportsAll(inputs, true);
    }
  }

  /**
    From one side's queue to the other side's reports, whatever either side queues, however early either
    connection fails and however the bytes are cut. Say the queue stops at k, and the reading side's own
    at m. The far side reports a beginning of the data before k, and a clean end only if no abort stands
    there, after all of it. It stops the stream only with the code of an abort at m; without one it
    reports everything that came and how that ended.
   */
  lemma HalvesCompose(queue: seq<Chunk>, k: nat, budget: nat, own: seq<Chunk>, m: nat, ownBudget: nat,
                      inputs: seq<ReaderInput>)
    requires StopsAt(queue, k) && StopsAt(own, m) && FarSide(queue, budget, own, ownBudget, inputs)
    ensures var read, data := ReadInputs(inputs, true), Flatten(DataOf(queue, k));
            && EndsOnce(read.reports)
            && DataIn(read.reports) <= data
            && (Ended(None) in read.reports ==>
                  !Aborts(queue, k) && |data| <= budget && DataIn(read.reports) == data)
            && (read.stopped.Some? ==> Aborts(own, m) && read.stopped.value == own[m].code)
            && (!Aborts(own, m) ==>
                  && DataIn(read.reports) == Flatten(Chunks(inputs))
                  && (EndOf(inputs).Some? ==> EndOf(inputs).value in read.reports))
  {
    ReaderEndsOnce(inputs, true);
    WhatComes(queue, k, budget, inputs);
    WhatStops(own, m, ownBudget, inputs);
  }

  /** Nothing queued after a finish or an abort is ever written. */
  lemma {:induction false} NothingAfter(queue: seq<Chunk>, stop: Chunk, later: seq<Chunk>)
    requires !stop.Write?
    ensures Queued(queue + [stop] + later) == Queued(queue + [stop])
    ensures Asked(queue + [stop] + later) == Asked(queue + [stop])
  {
    if queue != [] {
      assert (queue + [stop] + later)[1..] == queue[1..] + [stop] + later;
      assert (queue + [stop])[1..] == queue[1..] + [stop];
      NothingAfter(queue[1..], stop, later);
    }
  }
}
