/** IrohPeer: the end of the packet pipeline, where Godot polls and takes packets one by one. */
module Peer {
  import opened Bytes
  import opened Protocol
  import opened Channels

  datatype Status = Disconnected | Connecting | Connected

  /** `waiting` is what the session has reported and no poll has taken; `signals` what Godot was told. */
  datatype PeerView = PeerView(
    open: bool,
    waiting: seq<Event>,
    uniqueId: I32,
    status: Status,
    incoming: seq<Packet>,
    current: Option<Packet>,
    signals: seq<Event>)

  // ---------- What each operation does ----------

  function AfterEvent(p: PeerView, e: Event): PeerView {
    match e
    case Ready(id) => p.(uniqueId := id, status := Connected)
    case PeerConnected(_) => p.(signals := p.signals + [e])
    case PeerDisconnected(_) => p.(signals := p.signals + [e])
    case Arrived(packet) => p.(incoming := p.incoming + [packet])
    case Warning(_, _, _) => p.(signals := p.signals + [e])
    case Closed(_) => p.(open := false, waiting := [], uniqueId := 0, status := Disconnected)
  }

  function AfterEvents(p: PeerView, events: seq<Event>): PeerView {
    if events == [] then p else AfterEvent(AfterEvents(p, events[..|events| - 1]), events[|events| - 1])
  }

  function AfterPoll(p: PeerView): PeerView {
    AfterEvents(p.(waiting := []), p.waiting)
  }

  function AfterGet(p: PeerView): PeerView {
    if p.incoming == [] then p else p.(incoming := p.incoming[1..], current := Some(p.incoming[0]))
  }

  function AfterClose(p: PeerView): PeerView {
    p.(open := false, waiting := [], incoming := [], current := None, uniqueId := 0, status := Disconnected)
  }

  // ---------- The object itself ----------

  class IrohPeer {
    var session: Receiver?<Event>
    var uniqueId: I32
    var status: Status
    var incoming: seq<Packet>
    var current: Option<Packet>
    var signals: seq<Event>

    ghost predicate Valid()
      reads this, session
    {
      session != null ==> session.Valid()
    }

    ghost function Now(): PeerView
      requires Valid()
      reads this, session
    {
      PeerView(session != null, if session == null then [] else session.items[..session.ready],
               uniqueId, status, incoming, current, signals)
    }

    /** A peer that has just started hosting or joining. */
    constructor (session: Receiver<Event>, uniqueId: I32)
      requires session.Valid()
      ensures Valid() && this.session == session
      ensures Now() == PeerView(true, session.items[..session.ready], uniqueId, Connecting, [], None, [])
    {
      this.session, this.uniqueId, status := session, uniqueId, Connecting;
      incoming, current, signals := [], None, [];
    }

    method Handle(e: Event)
      requires Valid()
      modifies this
      ensures Valid() && session == (if e.Closed? then null else old(session))
      ensures Now() == AfterEvent(old(Now()), e)
    {
      match e
      case Ready(id) => uniqueId, status := id, Connected;
      case PeerConnected(_) => signals := signals + [e];
      case PeerDisconnected(_) => signals := signals + [e];
      case Arrived(packet) => incoming := incoming + [packet];
      case Warning(_, _, _) => signals := signals + [e];
      case Closed(_) => session, uniqueId, status := null, 0, Disconnected;
    }

    /** Takes every waiting event, then handles them in order. */
    method Poll()
      requires Valid()
      modifies this, session
      ensures Valid() && Now() == AfterPoll(old(Now()))
    {
      var events: seq<Event> := [];
      if session != null {
        events := session.TakeReady();
      }
      assert events == old(Now()).waiting;
      ghost var start := Now();
      assert start == old(Now()).(waiting := []);
      for i := 0 to |events|
        invariant Valid() && (session != null ==> session.ready == 0)
        invariant Now() == AfterEvents(start, events[..i])
      {
        assert events[..i + 1][..i] == events[..i];
        Handle(events[i]);
      }
      assert events[..|events|] == events;
    }

    method GetPacket() returns (packet: Option<Packet>)
      requires Valid()
      modifies this
      ensures packet == if old(incoming) == [] then None else Some(old(incoming)[0])
      ensures Valid() && session == old(session) && Now() == AfterGet(old(Now()))
    {
      if incoming == [] {
        return None;
      }
      packet := Some(incoming[0]);
      current, incoming := packet, incoming[1..];
    }

    /** The sender, channel and mode of the packet GetPacket would hand out next. */
    method PeekPacket() returns (peer: I32, channel: I32, mode: Mode)
      ensures incoming != [] ==> incoming[0] == Packet(peer, channel, mode, incoming[0].data)
      ensures incoming == [] ==> peer == 0 && channel == 0 && mode == Reliable
    {
      if incoming == [] {
        return 0, 0, Reliable;
      }
      return incoming[0].peer, incoming[0].channel, incoming[0].mode;
    }

    method Close()
      requires Valid()
      modifies this
      ensures Valid() && session == null && Now() == AfterClose(old(Now()))
    {
      session, uniqueId, status := null, 0, Disconnected;
      incoming, current := [], None;
    }
  }

  // ---------- First in, first out ----------

  function PacketOf(e: Event): Option<Packet> {
    if e.Arrived? then Some(e.packet) else None
  }

  /** The packets among some events, in order. */
  function PacketsIn(events: seq<Event>): seq<Packet> {
    MapSome(PacketOf, events)
  }

  /**
    A peer's life. `reported` is every event of its session, `taken` how many of them a poll has
    taken, and `handed` every packet Godot has got. `closed` is whether the game closed it.
   */
  datatype Life = Life(view: PeerView, reported: seq<Event>, taken: nat, handed: seq<Packet>, closed: bool)

  datatype Step = Report(event: Event) | Poll | Get | Close

  function Begin(uniqueId: I32): Life {
    Life(PeerView(true, [], uniqueId, Connecting, [], None, []), [], 0, [], false)
  }

  function After(l: Life, step: Step): Life {
    match step
    case Report(e) =>
      l.(view := if l.view.open then l.view.(waiting := l.view.waiting + [e]) else l.view,
         reported := l.reported + [e])
    case Poll => l.(view := AfterPoll(l.view), taken := l.taken + |l.view.waiting|)
    case Get =>
      l.(view := AfterGet(l.view),
         handed := l.handed + (if l.view.incoming == [] then [] else [l.view.incoming[0]]))
    case Close => l.(view := AfterClose(l.view), closed := true)
  }

  predicate NoEnd(events: seq<Event>) {
    forall e :: e in events ==> !e.Closed?
  }

  /**
    What Godot has got and what is still queued for it come to the packets of every event taken so
    far, in order and each once; closing drops the queue and nothing is handed out after it. Unless the
    game closes it, the peer goes on taking events until it has taken an end.
   */
  ghost predicate InOrder(l: Life) {
    && l.taken <= |l.reported|
    && (if l.view.open then !l.closed && l.view.waiting == l.reported[l.taken..] else l.view.waiting == [])
    && (!l.closed ==> (l.view.open <==> NoEnd(l.reported[..l.taken])))
    && (if l.closed then l.view.incoming == [] && l.handed <= PacketsIn(l.reported[..l.taken])
        else l.handed + l.view.incoming == PacketsIn(l.reported[..l.taken]))
  }

  lemma {:induction false} EventsQueuePackets(p: PeerView, events: seq<Event>)
    requires p.waiting == []
    ensures var q := AfterEvents(p, events);
            && q.incoming == p.incoming + PacketsIn(events)
            && q.waiting == []
  {
    if events != [] {
      var n := |events| - 1;
      EventsQueuePackets(p, events[..n]);
      assert events == events[..n] + [events[n]];
      MapSomeConcat(PacketOf, events[..n], [events[n]]);
      MapSomeOne(PacketOf, events[n]);
      Assoc(p.incoming, PacketsIn(events[..n]), PacketsIn([events[n]]));
    }
  }

  lemma {:induction false} EventsEndIt(p: PeerView, events: seq<Event>)
    ensures AfterEvents(p, events).open <==> p.open && NoEnd(events)
  {
    if events != [] {
      var n := |events| - 1;
      EventsEndIt(p, events[..n]);
      assert events == events[..n] + [events[n]];
    }
  }

  lemma OpenPollInOrder(l: Life)
    requires InOrder(l) && l.view.open
    ensures InOrder(After(l, Poll))
  {
    var before, waiting := l.reported[..l.taken], l.view.waiting;
    EventsQueuePackets(l.view.(waiting := []), waiting);
    EventsEndIt(l.view.(waiting := []), waiting);
    MapSomeConcat(PacketOf, before, waiting);
    assert l.taken + |waiting| == |l.reported| && l.reported[..|l.reported|] == before + waiting;
    Assoc(l.handed, l.view.incoming, PacketsIn(waiting));
  }

  lemma PollInOrder(l: Life)
    requires InOrder(l)
    ensures InOrder(After(l, Poll))
  {
    if l.view.open {
      OpenPollInOrder(l);
    } else {
      assert After(l, Poll) == l;
    }
  }

  lemma StepInOrder(l: Life, step: Step)
    requires InOrder(l)
    ensures InOrder(After(l, step))
  {
    match step
    case Report(e) =>
      assert (l.reported + [e])[..l.taken] == l.reported[..l.taken];
    case Poll => PollInOrder(l);
    case Get =>
    case Close =>
  }

  function Lived(l: Life, steps: seq<Step>): Life {
    if steps == [] then l else After(Lived(l, steps[..|steps| - 1]), steps[|steps| - 1])
  }

  /** For every interleaving of reports, polls, fetches and a close. */
  lemma {:induction false} PacketsInOrder(uniqueId: I32, steps: seq<Step>)
    ensures InOrder(Lived(Begin(uniqueId), steps))
  {
    if steps != [] {
      var n := |steps| - 1;
      PacketsInOrder(uniqueId, steps[..n]);
      StepInOrder(Lived(Begin(uniqueId), steps[..n]), steps[n]);
    }
  }
  // ---------- Up to the end, and past it ----------

  function IsEnd(e: Event): bool {
    e.Closed?
  }

  /**
    Until the game closes the peer, no packet is lost up to the session's first end: what Godot has got,
    what is queued and what waits come to the packets up to that end, and, once the end was taken, to
    those that the same poll took from behind it.
   */
  lemma NothingLost(uniqueId: I32, steps: seq<Step>)
    ensures var l := Lived(Begin(uniqueId), steps);
            var toEnd := UpTo(IsEnd, l.reported);
            !l.closed ==>
              && (l.view.open ==>
                    l.handed + l.view.incoming + PacketsIn(UpTo(IsEnd, l.view.waiting)) == PacketsIn(toEnd))
              && (!l.view.open ==>
                    && |toEnd| <= l.taken <= |l.reported|
                    && l.handed + l.view.incoming == PacketsIn(toEnd) + PacketsIn(l.reported[|toEnd|..l.taken]))
  {
    PacketsInOrder(uniqueId, steps);
    var l := Lived(Begin(uniqueId), steps);
    if l.view.open {
      StillToCome(l);
    } else if !l.closed {
      AllTaken(l);
    }
  }

  lemma StillToCome(l: Life)
    requires InOrder(l) && l.view.open
    ensures l.handed + l.view.incoming + PacketsIn(UpTo(IsEnd, l.view.waiting)) == PacketsIn(UpTo(IsEnd, l.reported))
  {
    var past, rest := l.reported[..l.taken], l.view.waiting;
    assert l.reported == past + rest;
    UpToPast(IsEnd, past, rest);
    MapSomeConcat(PacketOf, past, UpTo(IsEnd, rest));
  }

  lemma AllTaken(l: Life)
    requires InOrder(l) && !l.view.open && !l.closed
    ensures var n := |UpTo(IsEnd, l.reported)|;
            && n <= l.taken
            && l.handed + l.view.incoming == PacketsIn(UpTo(IsEnd, l.reported)) + PacketsIn(l.reported[n..l.taken])
  {
    var past, toEnd := l.reported[..l.taken], UpTo(IsEnd, l.reported);
    var i :| 0 <= i < |past| && past[i].Closed?;
    assert l.reported == past + l.reported[l.taken..];
    UpToFound(IsEnd, past, l.reported[l.taken..], i);
    var behind := l.reported[|toEnd|..l.taken];
    assert past == toEnd + behind;
    MapSomeConcat(PacketOf, toEnd, behind);
  }
  // ---------- What Godot is told, and who the peer is ----------

  function SignalOf(e: Event): Option<Event> {
    if e.PeerConnected? || e.PeerDisconnected? || e.Warning? then Some(e) else None
  }

  /** The last word on whether the session is up. */
  function LastWord(events: seq<Event>): Option<Event> {
    if events == [] then None
    else
      var e := events[|events| - 1];
      if e.Ready? || e.Closed? then Some(e) else LastWord(events[..|events| - 1])
  }

  predicate Stands(p: PeerView, uniqueId: I32, status: Status, word: Option<Event>) {
    match word
    case None => p.uniqueId == uniqueId && p.status == status
    case Some(e) =>
      if e.Ready? then p.uniqueId == e.id && p.status == Connected else p.uniqueId == 0 && p.status == Disconnected
  }

  /** Godot is told of the membership changes and warnings taken, in order and each once. */
  ghost predicate Tells(l: Life) {
    l.view.signals == MapSome(SignalOf, Take(l.reported, l.taken))
  }

  /**
    The id and status are those of the last word taken, unless the game closed the peer; and the current
    packet is the last one handed out.
   */
  ghost predicate Follows(l: Life, uniqueId: I32) {
    if l.closed then l.view.uniqueId == 0 && l.view.status == Disconnected && l.view.current == None
    else
      && Stands(l.view, uniqueId, Connecting, LastWord(Take(l.reported, l.taken)))
      && l.view.current == if l.handed == [] then None else Some(l.handed[|l.handed| - 1])
  }

  lemma {:induction false} EventsSignal(p: PeerView, events: seq<Event>)
    ensures AfterEvents(p, events).signals == p.signals + MapSome(SignalOf, events)
    ensures AfterEvents(p, events).current == p.current
  {
    if events == [] {
      NoMore(p.signals);
    } else {
      var n := |events| - 1;
      EventsSignal(p, events[..n]);
      assert events == events[..n] + [events[n]];
      MapSomeConcat(SignalOf, events[..n], [events[n]]);
      MapSomeOne(SignalOf, events[n]);
      Assoc(p.signals, MapSome(SignalOf, events[..n]), MapSome(SignalOf, [events[n]]));
      NoMore(p.signals + MapSome(SignalOf, events[..n]));
    }
  }

  lemma {:induction false} EventsStand(p: PeerView, past: seq<Event>, events: seq<Event>, uniqueId: I32, status: Status)
    requires Stands(p, uniqueId, status, LastWord(past))
    ensures Stands(AfterEvents(p, events), uniqueId, status, LastWord(past + events))
  {
    if events == [] {
      NoMore(past);
    } else {
      var n := |events| - 1;
      EventsStand(p, past, events[..n], uniqueId, status);
      assert (past + events)[..|past| + n] == past + events[..n];
    }
  }

  lemma Polled(l: Life)
    requires InOrder(l) && l.view.open
    ensures Take(l.reported, l.taken) == l.reported[..l.taken]
    ensures Take(l.reported, l.taken + |l.view.waiting|) == l.reported[..l.taken] + l.view.waiting
  {
  }

  lemma PollTells(l: Life)
    requires Tells(l)
    requires Take(l.reported, l.taken + |l.view.waiting|) == Take(l.reported, l.taken) + l.view.waiting
    ensures Tells(After(l, Poll))
  {
    var p := l.view.(waiting := []);
    assert AfterPoll(l.view) == AfterEvents(p, l.view.waiting);
    EventsSignal(p, l.view.waiting);
    MapSomeConcat(SignalOf, Take(l.reported, l.taken), l.view.waiting);
  }

  lemma PollFollows(l: Life, uniqueId: I32)
    requires Follows(l, uniqueId) && !l.closed
    requires Take(l.reported, l.taken + |l.view.waiting|) == Take(l.reported, l.taken) + l.view.waiting
    ensures Follows(After(l, Poll), uniqueId)
  {
    var p, past := l.view.(waiting := []), Take(l.reported, l.taken);
    assert AfterPoll(l.view) == AfterEvents(p, l.view.waiting);
    EventsSignal(p, l.view.waiting);
    EventsStand(p, past, l.view.waiting, uniqueId, Connecting);
  }

  lemma StepFollows(l: Life, step: Step, uniqueId: I32)
    requires InOrder(l) && Tells(l) && Follows(l, uniqueId)
    ensures Tells(After(l, step)) && Follows(After(l, step), uniqueId)
  {
    match step
    case Report(e) => assert Take(l.reported + [e], l.taken) == Take(l.reported, l.taken);
    case Poll =>
      if l.view.open {
        Polled(l);
        PollTells(l);
        PollFollows(l, uniqueId);
      } else {
        assert After(l, Poll) == l;
      }
    case Get =>
    case Close =>
  }

  /** For every interleaving of reports, polls, fetches and a close. */
  lemma {:induction false} StandingFollows(uniqueId: I32, steps: seq<Step>)
    ensures Tells(Lived(Begin(uniqueId), steps)) && Follows(Lived(Begin(uniqueId), steps), uniqueId)
  {
    if steps != [] {
      var n := |steps| - 1;
      StandingFollows(uniqueId, steps[..n]);
      PacketsInOrder(uniqueId, steps[..n]);
      StepFollows(Lived(Begin(uniqueId), steps[..n]), steps[n], uniqueId);
    }
  }
}
