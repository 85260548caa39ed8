/** IrohConnection: one event queue, drained by frames and read by blocking calls. */
module Connection {
  import opened Bytes
  import opened Channels
  import P = Protocol

  datatype Event = Opened(conn: nat) | StreamOpened | Datagram(data: Bytes) | Closed(reason: string)

  datatype Signal =
    | EmitOpened
    | EmitStream
    | EmitDatagram(data: Bytes)
    | EmitClosed(reason: string)
    | EmitFailed(reason: string)

  /** `pending` is every event still to come while listening; the first `ready` are here. */
  datatype ConnView = ConnView(
    listening: bool,
    pending: seq<Event>,
    ready: nat,
    held: Option<nat>,
    datagrams: seq<Bytes>,
    signals: seq<Signal>)

  // ---------- What each operation does ----------

  function AfterEvent(v: ConnView, e: Event): ConnView {
    match e
    case Opened(conn) => v.(held := Some(conn), signals := v.signals + [EmitOpened])
    case StreamOpened => v.(signals := v.signals + [EmitStream])
    case Datagram(data) => v.(datagrams := v.datagrams + [data], signals := v.signals + [EmitDatagram(data)])
    case Closed(reason) =>
      v.(listening := false, pending := [], ready := 0, held := None,
         signals := v.signals + [if v.held.Some? then EmitClosed(reason) else EmitFailed(reason)])
  }

  function AfterEvents(v: ConnView, events: seq<Event>): ConnView {
    if events == [] then v else AfterEvent(AfterEvents(v, events[..|events| - 1]), events[|events| - 1])
  }

  function AfterDrain(v: ConnView): ConnView {
    var now := P.Take(v.pending, v.ready);
    AfterEvents(v.(pending := v.pending[|now|..], ready := 0), now)
  }

  function Shift(v: ConnView): ConnView
    requires v.pending != []
  {
    v.(pending := v.pending[1..], ready := if v.ready == 0 then 0 else v.ready - 1)
  }

  /** Waiting for a datagram: other events are handled on the way, and an end stops the wait. */
  function AfterWait(v: ConnView): (ConnView, Option<Bytes>)
    decreases |v.pending|
  {
    if !v.listening || v.pending == [] then (v, None)
    else if v.pending[0].Datagram? then (Shift(v), Some(v.pending[0].data))
    else AfterWait(AfterEvent(Shift(v), v.pending[0]))
  }

  function AfterGet(v: ConnView): (ConnView, Option<Bytes>) {
    if v.datagrams != [] then (v.(datagrams := v.datagrams[1..]), Some(v.datagrams[0])) else AfterWait(v)
  }

  function AfterClose(v: ConnView): ConnView {
    v.(listening := false, pending := [], ready := 0, held := None)
  }

  // ---------- The object itself ----------

  class IrohConnection {
    var events: Receiver?<Event>
    var connection: Option<nat>
    var datagrams: seq<Bytes>
    var signals: seq<Signal>

    ghost predicate Valid()
      reads this, events
    {
      events != null ==> events.Valid()
    }

    ghost function Now(): ConnView
      reads this, events
    {
      ConnView(events != null, if events == null then [] else events.items,
               if events == null then 0 else events.ready, connection, datagrams, signals)
    }

    /** `connection` is given when the other side dialled; when this side did, Opened brings it. */
    constructor (events: Receiver<Event>, connection: Option<nat>)
      requires events.Valid()
      ensures Valid() && this.events == events
      ensures Now() == ConnView(true, events.items, events.ready, connection, [], [])
    {
      this.events, this.connection, datagrams, signals := events, connection, [], [];
    }

    method Handle(e: Event)
      requires Valid()
      modifies this
      ensures Valid() && events == (if e.Closed? then null else old(events))
      ensures Now() == AfterEvent(old(Now()), e)
    {
      match e
      case Opened(conn) => connection, signals := Some(conn), signals + [EmitOpened];
      case StreamOpened => signals := signals + [EmitStream];
      case Datagram(data) =>
        datagrams := datagrams + [data];
        signals := signals + [EmitDatagram(data)];
      case Closed(reason) =>
        var wasOpen := connection.Some?;
        connection, events := None, null;
        signals := signals + [if wasOpen then EmitClosed(reason) else EmitFailed(reason)];
    }

    /** Takes everything that is here, then handles it in order, even what came after an end. */
    method DrainPending()
      requires Valid()
      modifies this, events
      ensures Valid() && Now() == AfterDrain(old(Now()))
    {
      if events == null {
        return;
      }
      var pending := events.TakeReady();
      ghost var start := Now();
      for i := 0 to |pending|
        invariant Valid() && Now() == AfterEvents(start, pending[..i])
      {
        assert pending[..i + 1][..i] == pending[..i];
        Handle(pending[i]);
      }
      assert pending[..|pending|] == pending;
    }

    method GetAvailableDatagramCount() returns (count: I32)
      requires Valid()
      modifies this, events
      ensures Valid() && Now() == AfterDrain(old(Now()))
      ensures count == if |datagrams| <= I32_MAX then |datagrams| else I32_MAX
    {
      DrainPending();
      count := if |datagrams| <= I32_MAX then |datagrams| else I32_MAX;
    }

    /** The next datagram, waiting if need be. Script sees None as an empty array. */
    method GetDatagram() returns (data: Option<Bytes>)
      requires Valid()
      modifies this, events
      ensures Valid() && (Now(), data) == AfterGet(old(Now()))
    {
      if datagrams != [] {
        data := Some(datagrams[0]);
        datagrams := datagrams[1..];
        return;
      }
      while events != null
        invariant Valid() && (events == old(events) || events == null)
        invariant AfterWait(Now()) == AfterWait(old(Now()))
        decreases |Now().pending|, events != null
      {
        var e := events.RecvBlocking();
        match e
        case None => return None;
        case Some(Datagram(d)) => return Some(d);
        case Some(other) => Handle(other);
      }
      return None;
    }

    /** Closes from this side; nothing is emitted, and what was queued can still be taken. */
    method Close()
      requires Valid()
      modifies this
      ensures Valid() && Now() == AfterClose(old(Now()))
    {
      connection, events := None, null;
    }
  }

  // ---------- First in, first out, each once ----------

  function DatagramOf(e: Event): Option<Bytes> {
    if e.Datagram? then Some(e.data) else None
  }

  function DatagramsIn(events: seq<Event>): seq<Bytes> {
    P.MapSome(DatagramOf, events)
  }

  /** The connection held after an event. */
  function HeldStep(held: Option<nat>, e: Event): Option<nat> {
    if e.Opened? then Some(e.conn) else if e.Closed? then None else held
  }

  /** What a listener is told of an event that is not a datagram, given what is held when it comes. */
  function NewsStep(held: Option<nat>, e: Event): seq<Signal> {
    match e
    case Opened(_) => [EmitOpened]
    case StreamOpened => [EmitStream]
    case Datagram(_) => []
    case Closed(reason) => if held.Some? then [EmitClosed(reason)] else [EmitFailed(reason)]
  }

  function HeldAfter(held: Option<nat>, events: seq<Event>): Option<nat> {
    if events == [] then held else HeldStep(HeldAfter(held, events[..|events| - 1]), events[|events| - 1])
  }

  /** What a listener is told of these events but for the datagrams, given what is held before them. */
  function NewsIn(held: Option<nat>, events: seq<Event>): seq<Signal> {
    if events == [] then []
    else
      var before := events[..|events| - 1];
      NewsIn(held, before) + NewsStep(HeldAfter(held, before), events[|events| - 1])
  }

  function NewsOf(s: Signal): Option<Signal> {
    if s.EmitDatagram? then None else Some(s)
  }

  function News(signals: seq<Signal>): seq<Signal> {
    P.MapSome(NewsOf, signals)
  }

  function EndOf(s: Signal): Option<Signal> {
    if s.EmitClosed? || s.EmitFailed? then Some(s) else None
  }

  predicate NoEnd(events: seq<Event>) {
    forall e :: e in events ==> !e.Closed?
  }

  /** Whether an event comes after an end. */
  predicate PastEnd(events: seq<Event>) {
    exists i :: 0 <= i < |events| - 1 && events[i].Closed?
  }

  /** Whether a listener is told of something after it was told of an end. */
  predicate ToldPastEnd(signals: seq<Signal>) {
    exists i :: 0 <= i < |signals| - 1 && EndOf(signals[i]).Some?
  }

  /** Whether a sequence of events, or of signals, has come to an end, or to something after one. */
  datatype Stage = Going | AtEnd | Past

  function NextStage(before: Stage, ends: bool): Stage {
    if before.Going? then (if ends then AtEnd else Going) else Past
  }

  function EventStage(events: seq<Event>): Stage {
    if events == [] then Going
    else NextStage(EventStage(events[..|events| - 1]), events[|events| - 1].Closed?)
  }

  function SignalStage(signals: seq<Signal>): Stage {
    if signals == [] then Going
    else NextStage(SignalStage(signals[..|signals| - 1]), EndOf(signals[|signals| - 1]).Some?)
  }

  lemma {:induction false} EventStageIs(events: seq<Event>)
    ensures EventStage(events).Going? <==> NoEnd(events)
    ensures EventStage(events).Past? <==> PastEnd(events)
  {
    if events != [] {
      var n := |events| - 1;
      EventStageIs(events[..n]);
      assert events == events[..n] + [events[n]];
      assert forall i :: 0 <= i < n ==> events[..n][i] == events[i];
    }
  }

  lemma {:induction false} SignalStageIs(signals: seq<Signal>)
    ensures SignalStage(signals).Going? <==> forall i :: 0 <= i < |signals| ==> EndOf(signals[i]).None?
    ensures SignalStage(signals).Past? <==> ToldPastEnd(signals)
  {
    if signals != [] {
      var n := |signals| - 1;
      SignalStageIs(signals[..n]);
      assert forall i :: 0 <= i < n ==> signals[..n][i] == signals[i];
    }
  }

  /**
    A connection's life. `arrivals` is every event its channel will ever carry, `taken` how many of
    them have been taken off it, `handed` every datagram script has got.
   */
  datatype Life = Life(
    view: ConnView,
    held: Option<nat>,
    arrivals: seq<Event>,
    taken: nat,
    handed: seq<Bytes>,
    closed: bool)

  datatype Step = Arrive(n: nat) | Drain | Get | Close

  function Begin(held: Option<nat>, arrivals: seq<Event>): Life {
    Life(ConnView(true, arrivals, 0, held, [], []), held, arrivals, 0, [], false)
  }

  function Handing(data: Option<Bytes>): seq<Bytes> {
    if data.Some? then [data.value] else []
  }

  function Landed(l: Life, taken: nat, after: (ConnView, Option<Bytes>)): Life {
    l.(view := after.0, taken := l.taken + taken, handed := l.handed + Handing(after.1))
  }

  function Got(l: Life): Life {
    Landed(l, TakenByGet(l.view), AfterGet(l.view))
  }

  function After(l: Life, step: Step): Life {
    match step
    case Arrive(n) =>
      var here := l.view.ready + n;
      l.(view := l.view.(ready := if here <= |l.view.pending| then here else |l.view.pending|))
    case Drain => l.(view := AfterDrain(l.view), taken := l.taken + |P.Take(l.view.pending, l.view.ready)|)
    case Get => Got(l)
    case Close => l.(view := AfterClose(l.view), closed := true)
  }

  /** How many events a call that gets a datagram takes off the channel. */
  function TakenByGet(v: ConnView): nat {
    if v.datagrams != [] then 0 else TakenByWait(v)
  }

  function TakenByWait(v: ConnView): nat
    decreases |v.pending|
  {
    if !v.listening || v.pending == [] then 0
    else if v.pending[0].Datagram? then 1
    else 1 + TakenByWait(AfterEvent(Shift(v), v.pending[0]))
  }

  /** What is still in the channel is every arrival that was not taken, until nothing listens to it. */
  ghost predicate Placed(l: Life) {
    && l.taken <= |l.arrivals| && l.view.ready <= |l.view.pending|
    && if l.view.listening then !l.closed && l.view.pending == l.arrivals[l.taken..] else l.view.pending == []
  }

  /**
    What script has got and what is queued for it come to the datagrams of every event taken so far,
    in order and each once. Everything else taken is told once and in order: that it opened, a stream, an
    end, as failed when no connection was held; and the connection held is the last that opened.
    Until script closes it, it goes on taking events up to an end and no further call takes any after.
   */
  ghost predicate InOrder(l: Life) {
    && Placed(l)
    && l.handed + l.view.datagrams == DatagramsIn(l.arrivals[..l.taken])
    && News(l.view.signals) == NewsIn(l.held, l.arrivals[..l.taken])
    && SignalStage(l.view.signals) == EventStage(l.arrivals[..l.taken])
    && (l.closed ==> !l.view.listening && l.view.held == None)
    && (!l.closed ==>
          && l.view.held == HeldAfter(l.held, l.arrivals[..l.taken])
          && (l.view.listening <==> EventStage(l.arrivals[..l.taken]).Going?))
  }

  lemma PastSnoc(held: Option<nat>, past: seq<Event>, e: Event)
    ensures DatagramsIn(past + [e]) == DatagramsIn(past) + (if e.Datagram? then [e.data] else [])
    ensures NewsIn(held, past + [e]) == NewsIn(held, past) + NewsStep(HeldAfter(held, past), e)
    ensures HeldAfter(held, past + [e]) == HeldStep(HeldAfter(held, past), e)
  {
    P.MapSomeConcat(DatagramOf, past, [e]);
    P.MapSomeOne(DatagramOf, e);
    assert (past + [e])[..|past|] == past;
  }

  lemma StageSnoc(past: seq<Event>, e: Event, signals: seq<Signal>, s: Signal)
    ensures EventStage(past + [e]) == NextStage(EventStage(past), e.Closed?)
    ensures SignalStage(signals + [s]) == NextStage(SignalStage(signals), EndOf(s).Some?)
  {
    assert (past + [e])[..|past|] == past;
    assert (signals + [s])[..|signals|] == signals;
  }

  lemma SignalSnoc(v: ConnView, e: Event)
    ensures News(AfterEvent(v, e).signals) == News(v.signals) + NewsStep(v.held, e)
  {
    var s := AfterEvent(v, e).signals[|v.signals|];
    P.MapSomeConcat(NewsOf, v.signals, [s]);
    P.MapSomeOne(NewsOf, s);
  }

  /** Handling one event keeps the account, whichever call took it. */
  ghost predicate Account(held: Option<nat>, past: seq<Event>, v: ConnView, handed: seq<Bytes>) {
    && handed + v.datagrams == DatagramsIn(past)
    && News(v.signals) == NewsIn(held, past)
    && v.held == HeldAfter(held, past)
    && SignalStage(v.signals) == EventStage(past)
    && (v.listening <==> EventStage(past).Going?)
  }

  lemma EventAccount(held: Option<nat>, past: seq<Event>, v: ConnView, handed: seq<Bytes>, e: Event)
    requires Account(held, past, v, handed)
    ensures Account(held, past + [e], AfterEvent(v, e), handed)
  {
    EventStages(past, v, e);
    EventHands(past, v, handed, e);
    EventNews(held, past, v, e);
  }

  lemma EventStages(past: seq<Event>, v: ConnView, e: Event)
    requires SignalStage(v.signals) == EventStage(past) && (v.listening <==> EventStage(past).Going?)
    ensures var w := AfterEvent(v, e);
            SignalStage(w.signals) == EventStage(past + [e]) && (w.listening <==> EventStage(past + [e]).Going?)
  {
    StageSnoc(past, e, v.signals, AfterEvent(v, e).signals[|v.signals|]);
  }

  lemma EventHands(past: seq<Event>, v: ConnView, handed: seq<Bytes>, e: Event)
    requires handed + v.datagrams == DatagramsIn(past)
    ensures handed + AfterEvent(v, e).datagrams == DatagramsIn(past + [e])
  {
    PastSnoc(None, past, e);
    P.Assoc(handed, v.datagrams, if e.Datagram? then [e.data] else []);
    P.NoMore(DatagramsIn(past));
  }

  lemma EventNews(held: Option<nat>, past: seq<Event>, v: ConnView, e: Event)
    requires News(v.signals) == NewsIn(held, past) && v.held == HeldAfter(held, past)
    ensures var w := AfterEvent(v, e);
            News(w.signals) == NewsIn(held, past + [e]) && w.held == HeldAfter(held, past + [e])
  {
    PastSnoc(held, past, e);
    SignalSnoc(v, e);
  }

  /** What is left to take, after taking some. */
  ghost predicate Left(v: ConnView, pending: seq<Event>) {
    v.ready <= |v.pending| && if v.listening then v.pending == pending else v.pending == []
  }

  lemma {:induction false} EventsAccount(held: Option<nat>, past: seq<Event>, v: ConnView, handed: seq<Bytes>,
                                         events: seq<Event>)
    requires Account(held, past, v, handed)
    ensures Account(held, past + events, AfterEvents(v, events), handed)
  {
    if events == [] {
      P.NoMore(past);
    } else {
      var n := |events| - 1;
      assert past + events == past + events[..n] + [events[n]];
      EventsAccount(held, past, v, handed, events[..n]);
      EventAccount(held, past + events[..n], AfterEvents(v, events[..n]), handed, events[n]);
    }
  }

  lemma {:induction false} EventsLeave(v: ConnView, events: seq<Event>)
    requires Left(v, v.pending)
    ensures var w := AfterEvents(v, events);
            Left(w, v.pending) && (w.listening ==> v.listening)
  {
    if events != [] {
      EventsLeave(v, events[..|events| - 1]);
    }
  }

  /** A datagram handed straight out is accounted for as if it had been queued and taken. */
  lemma DirectAccount(held: Option<nat>, past: seq<Event>, v: ConnView, handed: seq<Bytes>, data: Bytes)
    requires Account(held, past, v, handed) && v.datagrams == [] && v.listening
    ensures Account(held, past + [Datagram(data)], v, handed + [data])
  {
    StageSnoc(past, Datagram(data), v.signals, EmitStream);
    PastSnoc(held, past, Datagram(data));
    P.NoMore(handed);
    P.NoMore(handed + [data]);
    P.NoMore(NewsIn(held, past));
  }

  lemma FrontMoves(past: seq<Event>, pending: seq<Event>, k: nat)
    requires k < |pending|
    ensures past + pending[..k + 1] == past + [pending[0]] + pending[1..][..k]
    ensures pending[k + 1..] == pending[1..][k..]
  {
    assert pending[..k + 1] == [pending[0]] + pending[1..][..k];
  }

  ghost predicate Ready(held: Option<nat>, past: seq<Event>, v: ConnView, handed: seq<Bytes>) {
    Left(v, v.pending) && Account(held, past, v, handed)
  }

  ghost predicate Waited(held: Option<nat>, past: seq<Event>, v: ConnView, handed: seq<Bytes>, k: nat,
                         after: (ConnView, Option<Bytes>)) {
    && k <= |v.pending|
    && Account(held, past + v.pending[..k], after.0, handed + Handing(after.1))
    && Left(after.0, v.pending[k..]) && (after.0.listening ==> v.listening)
  }

  /** What the wait does after one event that is not a datagram, it does from the start. */
  lemma WaitedOn(held: Option<nat>, past: seq<Event>, v: ConnView, handed: seq<Bytes>, k: nat,
                 after: (ConnView, Option<Bytes>))
    requires v.listening && v.pending != [] && !v.pending[0].Datagram? && Left(v, v.pending)
    requires Waited(held, past + [v.pending[0]], AfterEvent(Shift(v), v.pending[0]), handed, k, after)
    ensures Waited(held, past, v, handed, k + 1, after)
  {
    var w := AfterEvent(Shift(v), v.pending[0]);
    FrontMoves(past, v.pending, k);
    assert w.pending[..k] == v.pending[1..][..k];
  }

  lemma NoWait(held: Option<nat>, past: seq<Event>, v: ConnView, handed: seq<Bytes>)
    requires Ready(held, past, v, handed)
    ensures Waited(held, past, v, handed, 0, (v, None))
  {
    P.NoMore(handed);
    NoneTaken(past, v.pending);
  }

  lemma DirectWait(held: Option<nat>, past: seq<Event>, v: ConnView, handed: seq<Bytes>)
    requires Ready(held, past, v, handed)
    requires v.listening && v.datagrams == [] && v.pending != [] && v.pending[0].Datagram?
    ensures Waited(held, past, v, handed, 1, (Shift(v), Some(v.pending[0].data)))
  {
    DirectAccount(held, past, Shift(v), handed, v.pending[0].data);
    assert v.pending[..1] == [v.pending[0]];
  }

  /** After one event that is not a datagram the wait goes on, and takes that event too. */
  lemma HandledOnTheWay(held: Option<nat>, past: seq<Event>, v: ConnView, handed: seq<Bytes>)
    requires Ready(held, past, v, handed) && v.pending != [] && !v.pending[0].Datagram?
    ensures var w := AfterEvent(Shift(v), v.pending[0]);
            w.datagrams == v.datagrams && Ready(held, past + [v.pending[0]], w, handed)
  {
    var s, e := Shift(v), v.pending[0];
    assert Account(held, past, s, handed);
    EventAccount(held, past, s, handed, e);
    EventLeaves(s, e);
  }

  lemma EventLeaves(v: ConnView, e: Event)
    requires Left(v, v.pending)
    ensures var w := AfterEvent(v, e);
            Left(w, w.pending)
  {
  }

  lemma OnTheWay(v: ConnView)
    requires v.listening && v.pending != [] && !v.pending[0].Datagram?
    ensures var w := AfterEvent(Shift(v), v.pending[0]);
            TakenByWait(v) == TakenByWait(w) + 1 && AfterWait(v) == AfterWait(w) && |w.pending| < |v.pending|
  {
  }

  lemma WaitedAllTheWay(held: Option<nat>, past: seq<Event>, v: ConnView, handed: seq<Bytes>)
    requires Left(v, v.pending) && v.listening && v.pending != [] && !v.pending[0].Datagram?
    requires var w := AfterEvent(Shift(v), v.pending[0]);
             Waited(held, past + [v.pending[0]], w, handed, TakenByWait(w), AfterWait(w))
    ensures Waited(held, past, v, handed, TakenByWait(v), AfterWait(v))
  {
    var w := AfterEvent(Shift(v), v.pending[0]);
    OnTheWay(v);
    WaitedOn(held, past, v, handed, TakenByWait(w), AfterWait(w));
  }

  lemma {:induction false} WaitAccount(held: Option<nat>, past: seq<Event>, v: ConnView, handed: seq<Bytes>)
    requires v.datagrams == [] && Ready(held, past, v, handed)
    ensures Waited(held, past, v, handed, TakenByWait(v), AfterWait(v))
    decreases |v.pending|
  {
    if !v.listening || v.pending == [] {
      NoWait(held, past, v, handed);
    } else if v.pending[0].Datagram? {
      DirectWait(held, past, v, handed);
    } else {
      OnTheWay(v);
      HandledOnTheWay(held, past, v, handed);
      WaitAccount(held, past + [v.pending[0]], AfterEvent(Shift(v), v.pending[0]), handed);
      WaitedAllTheWay(held, past, v, handed);
    }
  }

  lemma GetAccount(held: Option<nat>, past: seq<Event>, v: ConnView, handed: seq<Bytes>)
    requires Ready(held, past, v, handed)
    ensures Waited(held, past, v, handed, TakenByGet(v), AfterGet(v))
  {
    if v.datagrams != [] {
      QueueAccount(held, past, v, handed);
    } else {
      WaitAccount(held, past, v, handed);
    }
  }

  /** One from the front of the queue takes nothing off the channel. */
  lemma QueueAccount(held: Option<nat>, past: seq<Event>, v: ConnView, handed: seq<Bytes>)
    requires Ready(held, past, v, handed) && v.datagrams != []
    ensures Waited(held, past, v, handed, 0, (v.(datagrams := v.datagrams[1..]), Some(v.datagrams[0])))
  {
    FrontHanded(handed, v.datagrams);
    NoneTaken(past, v.pending);
  }

  lemma FrontHanded<T>(handed: seq<T>, queue: seq<T>)
    requires queue != []
    ensures (handed + [queue[0]]) + queue[1..] == handed + queue
  {
  }

  lemma NoneTaken<T>(past: seq<T>, pending: seq<T>)
    ensures past + pending[..0] == past && pending[0..] == pending
  {
  }

  /** A drain takes what is here, and hands nothing out. */
  lemma DrainAccount(held: Option<nat>, past: seq<Event>, v: ConnView, handed: seq<Bytes>)
    requires Ready(held, past, v, handed)
    ensures Waited(held, past, v, handed, v.ready, (AfterDrain(v), None))
  {
    var rest := v.(pending := v.pending[v.ready..], ready := 0);
    EventsAccount(held, past, rest, handed, v.pending[..v.ready]);
    EventsLeave(rest, v.pending[..v.ready]);
    P.NoMore(handed);
  }

  lemma FurtherOn<T>(s: seq<T>, n: nat, k: nat)
    requires n + k <= |s|
    ensures s[..n + k] == s[..n] + s[n..][..k] && s[n + k..] == s[n..][k..]
  {
  }

  lemma TookMore(l: Life, k: nat)
    requires Placed(l) && k <= |l.view.pending|
    ensures l.taken + k <= |l.arrivals|
    ensures l.arrivals[..l.taken + k] == l.arrivals[..l.taken] + l.view.pending[..k]
    ensures l.view.listening ==> l.arrivals[l.taken + k..] == l.view.pending[k..]
  {
    FurtherOn(l.arrivals, l.taken, k);
    if !l.view.listening {
      P.NoMore(l.arrivals[..l.taken]);
    }
  }

  lemma ClosedDrainInOrder(l: Life)
    requires InOrder(l) && l.closed
    ensures After(l, Drain) == l
  {
    assert AfterDrain(l.view) == l.view;
  }

  lemma DrainInOrder(l: Life)
    requires InOrder(l)
    ensures InOrder(After(l, Drain))
  {
    if l.closed {
      ClosedDrainInOrder(l);
    } else {
      DrainAccount(l.held, l.arrivals[..l.taken], l.view, l.handed);
      WaitedInOrder(l, l.view.ready, (AfterDrain(l.view), None));
      P.NoMore(l.handed);
      assert Landed(l, l.view.ready, (AfterDrain(l.view), None)) == After(l, Drain);
    }
  }

  lemma WaitedPlaced(l: Life, k: nat, after: (ConnView, Option<Bytes>))
    requires Placed(l) && !l.closed && k <= |l.view.pending|
    requires Left(after.0, l.view.pending[k..]) && (after.0.listening ==> l.view.listening)
    ensures Placed(Landed(l, k, after))
    ensures l.arrivals[..l.taken + k] == l.arrivals[..l.taken] + l.view.pending[..k]
  {
    TookMore(l, k);
  }

  lemma WaitedInOrder(l: Life, k: nat, after: (ConnView, Option<Bytes>))
    requires InOrder(l) && !l.closed && Waited(l.held, l.arrivals[..l.taken], l.view, l.handed, k, after)
    ensures InOrder(Landed(l, k, after))
  {
    WaitedPlaced(l, k, after);
    assert Account(l.held, l.arrivals[..l.taken + k], after.0, l.handed + Handing(after.1));
  }

  lemma ClosedGetInOrder(l: Life)
    requires InOrder(l) && l.closed
    ensures InOrder(Got(l))
  {
    var v := l.view;
    if v.datagrams != [] {
      P.Assoc(l.handed, [v.datagrams[0]], v.datagrams[1..]);
      assert [v.datagrams[0]] + v.datagrams[1..] == v.datagrams;
    } else {
      P.NoMore(l.handed);
    }
  }

  lemma OpenGot(l: Life)
    requires InOrder(l) && !l.closed
    ensures Waited(l.held, l.arrivals[..l.taken], l.view, l.handed, TakenByGet(l.view), AfterGet(l.view))
  {
    GetAccount(l.held, l.arrivals[..l.taken], l.view, l.handed);
  }

  lemma GetInOrder(l: Life)
    requires InOrder(l)
    ensures InOrder(Got(l))
  {
    if l.closed {
      ClosedGetInOrder(l);
    } else {
      OpenGot(l);
      WaitedInOrder(l, TakenByGet(l.view), AfterGet(l.view));
    }
  }

  lemma StepInOrder(l: Life, step: Step)
    requires InOrder(l)
    ensures InOrder(After(l, step))
  {
    match step
    case Arrive(_) =>
    case Drain => DrainInOrder(l);
    case Get => GetInOrder(l);
    case Close =>
  }

  function Lived(l: Life, steps: seq<Step>): Life {
    if steps == [] then l else After(Lived(l, steps[..|steps| - 1]), steps[|steps| - 1])
  }

  /** For every interleaving of arrivals, frame drains, counts, blocking reads and a close. */
  lemma {:induction false} DatagramsInOrder(held: Option<nat>, arrivals: seq<Event>, steps: seq<Step>)
    ensures var l := Lived(Begin(held, arrivals), steps);
            InOrder(l) && l.arrivals == arrivals && l.held == held
  {
    if steps == [] {
      assert arrivals[0..] == arrivals && arrivals[..0] == [];
      assert DatagramsIn([]) == [] && News([]) == [];
    } else {
      var n := |steps| - 1;
      DatagramsInOrder(held, arrivals, steps[..n]);
      StepInOrder(Lived(Begin(held, arrivals), steps[..n]), steps[n]);
    }
  }

  // ---------- Up to the end, and past it ----------

  function IsEnd(e: Event): bool {
    e.Closed?
  }

  /**
    Until script closes it, nothing is lost up to the first end: what script has got, what is queued and
    what is still in the channel come to the datagrams up to that end, and, once the end was taken, to
    those that the same drain took from behind it.
   */
  lemma NothingLost(held: Option<nat>, arrivals: seq<Event>, steps: seq<Step>)
    ensures var l, toEnd := Lived(Begin(held, arrivals), steps), P.UpTo(IsEnd, arrivals);
            !l.closed ==>
              && (l.view.listening ==>
                    l.handed + l.view.datagrams + DatagramsIn(P.UpTo(IsEnd, l.view.pending)) == DatagramsIn(toEnd))
              && (!l.view.listening ==>
                    && |toEnd| <= l.taken <= |arrivals|
                    && l.handed + l.view.datagrams
                       == DatagramsIn(toEnd) + DatagramsIn(arrivals[|toEnd|..l.taken]))
  {
    DatagramsInOrder(held, arrivals, steps);
    var l := Lived(Begin(held, arrivals), steps);
    if l.view.listening {
      StillToCome(l);
    } else if !l.closed {
      AllTaken(l);
    }
  }

  lemma StillToCome(l: Life)
    requires InOrder(l) && l.view.listening
    ensures l.handed + l.view.datagrams + DatagramsIn(P.UpTo(IsEnd, l.view.pending))
            == DatagramsIn(P.UpTo(IsEnd, l.arrivals))
  {
    var past, rest := l.arrivals[..l.taken], l.view.pending;
    assert l.arrivals == past + rest;
    EventStageIs(past);
    P.UpToPast(IsEnd, past, rest);
    P.MapSomeConcat(DatagramOf, past, P.UpTo(IsEnd, rest));
  }

  lemma EndTaken(l: Life) returns (i: nat)
    requires InOrder(l) && !l.view.listening && !l.closed
    ensures i < l.taken <= |l.arrivals| && l.arrivals[i].Closed?
  {
    EventStageIs(l.arrivals[..l.taken]);
    var e :| e in l.arrivals[..l.taken] && e.Closed?;
    i :| 0 <= i < l.taken && l.arrivals[..l.taken][i] == e;
  }

  lemma AllTaken(l: Life)
    requires InOrder(l) && !l.view.listening && !l.closed
    ensures var n := |P.UpTo(IsEnd, l.arrivals)|;
            && n <= l.taken
            && l.handed + l.view.datagrams
               == DatagramsIn(P.UpTo(IsEnd, l.arrivals)) + DatagramsIn(l.arrivals[n..l.taken])
  {
    var past, toEnd := l.arrivals[..l.taken], P.UpTo(IsEnd, l.arrivals);
    var i := EndTaken(l);
    assert l.arrivals == past + l.arrivals[l.taken..];
    P.UpToFound(IsEnd, past, l.arrivals[l.taken..], i);
    var behind := l.arrivals[|toEnd|..l.taken];
    assert past == toEnd + behind;
    P.MapSomeConcat(DatagramOf, toEnd, behind);
  }

  /** Over a whole life, something is told after an end exactly when an event from behind one was taken. */
  lemma ToldPastEndIff(held: Option<nat>, arrivals: seq<Event>, steps: seq<Step>)
    ensures var l := Lived(Begin(held, arrivals), steps);
            && l.taken <= |arrivals|
            && (ToldPastEnd(l.view.signals) <==> PastEnd(arrivals[..l.taken]))
  {
    DatagramsInOrder(held, arrivals, steps);
    var l := Lived(Begin(held, arrivals), steps);
    EventStageIs(arrivals[..l.taken]);
    SignalStageIs(l.view.signals);
  }

  /** Handling these events has added these signals, one for each. */
  ghost predicate TellsEach(events: seq<Event>, signals: seq<Signal>) {
    && |signals| == |events|
    && forall i :: 0 <= i < |events| ==>
         match events[i]
         case Opened(_) => signals[i] == EmitOpened
         case StreamOpened => signals[i] == EmitStream
         case Datagram(data) => signals[i] == EmitDatagram(data)
         case Closed(reason) => signals[i] == EmitClosed(reason) || signals[i] == EmitFailed(reason)
  }

  lemma {:induction false} OneSignalEach(v: ConnView, events: seq<Event>) returns (more: seq<Signal>)
    ensures AfterEvents(v, events).signals == v.signals + more && TellsEach(events, more)
  {
    if events == [] {
      more := [];
    } else {
      var before := events[..|events| - 1];
      more := OneSignalEach(v, before);
      var e := events[|events| - 1];
      var s := AfterEvent(AfterEvents(v, before), e).signals[|v.signals + more|];
      P.Assoc(v.signals, more, [s]);
      more := more + [s];
    }
  }

  /** A drain tells of every event that is here, datagrams too, in order and each once. */
  lemma DrainTellsEach(v: ConnView) returns (more: seq<Signal>)
    requires v.ready <= |v.pending|
    ensures AfterDrain(v).signals == v.signals + more && TellsEach(v.pending[..v.ready], more)
  {
    more := OneSignalEach(v.(pending := v.pending[v.ready..], ready := 0), v.pending[..v.ready]);
  }

  /** A drain tells of something after an end exactly when an event that is here lies behind one. */
  lemma DrainPastEndIff(v: ConnView)
    requires v.ready <= |v.pending|
    ensures v.signals <= AfterDrain(v).signals
    ensures ToldPastEnd(AfterDrain(v).signals[|v.signals|..]) <==> PastEnd(v.pending[..v.ready])
  {
    var more := DrainTellsEach(v);
    assert AfterDrain(v).signals[|v.signals|..] == more;
  }

  /** A call that waits for a datagram never does: it stops at the end. */
  lemma {:induction false} WaitStopsAtEnd(v: ConnView)
    ensures v.signals <= AfterGet(v).0.signals
    ensures !ToldPastEnd(AfterGet(v).0.signals[|v.signals|..])
    decreases |v.pending|
  {
    if v.datagrams == [] && v.listening && v.pending != [] && !v.pending[0].Datagram? {
      var w := AfterEvent(Shift(v), v.pending[0]);
      WaitStopsAtEnd(w);
      var told := AfterGet(v).0.signals;
      assert AfterGet(v) == AfterGet(w);
      if w.listening {
        forall i | 0 <= i < |told[|v.signals|..]| - 1
          ensures EndOf(told[|v.signals|..][i]).None?
        {
          if i > 0 {
            assert told[|v.signals|..][i] == told[|w.signals|..][i - 1];
          }
        }
      }
    }
  }

  /** A datagram that came in behind the end, and is told after it. */
  lemma ToldAfterClosed()
    ensures Lived(Begin(Some(0), [Closed("gone"), Datagram([1])]), [Arrive(2), Drain]).view.signals
            == [EmitClosed("gone"), EmitDatagram([1])]
  {
    var begun := Begin(Some(0), [Closed("gone"), Datagram([1])]);
    var both: seq<Step> := [Arrive(2), Drain];
    assert both[..1] == [Arrive(2)] && both[..1][..0] == [];
    var l := After(begun, Arrive(2));
    var now := l.view.pending;
    assert now[..2] == now && now[..1][..0] == [] && now[..1] == [Closed("gone")];
    var start := l.view.(pending := [], ready := 0);
    assert l.view.ready == 2 && P.Take(now, 2) == now && now[2..] == [];
    assert AfterDrain(l.view) == AfterEvents(start, now);
    assert AfterEvents(start, now[..1]) == AfterEvent(start, Closed("gone"));
    assert AfterEvents(start, now) == AfterEvent(AfterEvent(start, Closed("gone")), Datagram([1]));
  }

  /** The first end is told as failed exactly when no connection was ever held before it. */
  lemma FirstEnd(held: Option<nat>, before: seq<Event>, reason: string)
    requires NoEnd(before)
    ensures NewsIn(held, before + [Closed(reason)])
            == NewsIn(held, before)
               + (if held.Some? || exists conn :: Opened(conn) in before then [EmitClosed(reason)]
                  else [EmitFailed(reason)])
    ensures EmitClosed(reason) !in NewsIn(held, before) && EmitFailed(reason) !in NewsIn(held, before)
  {
    PastSnoc(held, before, Closed(reason));
    NoEndYet(held, before);
  }

  lemma {:induction false} NoEndYet(held: Option<nat>, before: seq<Event>)
    requires NoEnd(before)
    ensures forall s :: s in NewsIn(held, before) ==> EndOf(s).None?
    ensures HeldAfter(held, before).Some? <==> held.Some? || exists conn :: Opened(conn) in before
  {
    if before != [] {
      var n := |before| - 1;
      assert before == before[..n] + [before[n]];
      NoEndYet(held, before[..n]);
    }
  }

  // ---------- A wait ----------

  /** Among the first k events still to come there is neither a datagram nor an end. */
  ghost predicate Silent(v: ConnView, k: nat) {
    k <= |v.pending| && forall i :: 0 <= i < k ==> !v.pending[i].Datagram? && !v.pending[i].Closed?
  }

  /**
    With nothing queued, a call for a datagram gives the first that is still to come, and takes all up to
    it, if it comes before an end; and nothing, if an end comes first or there is neither.
   */
  lemma {:induction false} WaitGives(v: ConnView, k: nat)
    requires v.listening && v.datagrams == [] && Silent(v, k)
    ensures var got := AfterGet(v);
            && (k == |v.pending| ==> got.1 == None && got.0.listening && got.0.pending == [])
            && (k < |v.pending| && v.pending[k].Datagram? ==>
                  && got.1 == Some(v.pending[k].data) && got.0.datagrams == []
                  && got.0.listening && got.0.pending == v.pending[k + 1..])
            && (k < |v.pending| && v.pending[k].Closed? ==> got.1 == None && !got.0.listening && got.0.held == None)
    decreases k
  {
    if k > 0 {
      var w := AfterEvent(Shift(v), v.pending[0]);
      assert AfterGet(v) == AfterGet(w) && w.pending == v.pending[1..];
      WaitGives(w, k - 1);
    } else if v.pending != [] && v.pending[0].Closed? {
      assert AfterGet(v) == AfterWait(AfterEvent(Shift(v), v.pending[0]));
    }
  }
}
