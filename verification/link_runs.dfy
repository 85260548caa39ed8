/** What every run of one session task sends to each peer, and the warnings it raises on the way. */
module LinkRuns {
  import opened Bytes
  import opened Protocol
  import opened Control
  import opened Sequence
  import opened Links
  import opened Views
  import opened Runs

  // ---------- What a run means for each peer ----------

  /** A link so far: its connection, and every packet meant for its peer since it was made. */
  datatype Dealing = Dealing(conn: nat, ops: seq<Op>)

  /** What one turn of the task means for a peer whose link it leaves in place. */
  function Meant(a: Task, input: Input, peer: I32): seq<Op> {
    match input
    case Packet(target, channel, mode, data, limits) =>
      if Addressed(a.view.links.Keys, target, peer)
      then [Op(channel, mode, data, if peer in limits then limits[peer] else 0)]
      else []
    case Gone(gone) => if a.view.isHost && gone in a.view.links then [ControlOp(PeerLeft(gone))] else []
    case Accepted(_) => [ControlOp(PeerJoined(a.nextId))]
    case _ => []
  }

  /** The Welcome of an accept whose id was still linked is followed by word of the newcomer itself. */
  function FirstOps(a: Task, order: seq<I32>): seq<Op> {
    [ControlOp(Control.Welcome(a.nextId, order))]
    + (if a.nextId in a.view.links then [ControlOp(PeerJoined(a.nextId))] else [])
  }

  function NextDealing(a: Task, input: Input, order: seq<I32>, d: Option<Dealing>, peer: I32): Option<Dealing> {
    if input.Accepted? && a.nextId == peer then Some(Dealing(input.conn, FirstOps(a, order)))
    else if input == Gone(peer) || d.None? then None
    else Some(d.value.(ops := d.value.ops + Meant(a, input, peer)))
  }

  /** What the first i turns of a run come to for one peer. */
  function Dealt(trace: seq<Task>, inputs: seq<Input>, orders: seq<seq<I32>>, i: nat, peer: I32): Option<Dealing>
    requires i < |trace| && i <= |inputs| && i <= |orders|
  {
    if i == 0 then
      if peer in trace[0].view.links then Some(Dealing(trace[0].view.links[peer].conn, [])) else None
    else
      NextDealing(trace[i - 1], inputs[i - 1], orders[i - 1], Dealt(trace, inputs, orders, i - 1, peer), peer)
  }

  /** The link is there when it should be, in the state those packets, each sent once, bring it to. */
  ghost predicate Booked(v: View, d: Option<Dealing>, peer: I32) {
    && (peer in v.links <==> d.Some?)
    && (d.Some? ==> v.links[peer] == SendAll(NewLink(d.value.conn), d.value.ops))
  }

  lemma BookedSnoc(d: Dealing, op: Op)
    ensures SendAll(NewLink(d.conn), d.ops + [op]) == Links.Send(SendAll(NewLink(d.conn), d.ops), op)
    ensures SendAll(NewLink(d.conn), d.ops + []) == SendAll(NewLink(d.conn), d.ops)
  {
    SendAllSnoc(NewLink(d.conn), d.ops, op);
    NoMore(d.ops);
  }

  lemma AcceptBooked(a: Task, conn: nat, order: seq<I32>, b: Task, d: Option<Dealing>, peer: I32)
    requires Booked(a.view, d, peer) && Turn(a, Accepted(conn), order, b)
    ensures Booked(b.view, NextDealing(a, Accepted(conn), order, d, peer), peer)
  {
    var welcome, joined := ControlOp(Control.Welcome(a.nextId, order)), ControlOp(PeerJoined(a.nextId));
    var greeted := SendOne(AddLink(a.view, a.nextId, conn), a.nextId, welcome);
    TellEffect(greeted, order, PeerJoined(a.nextId));
    if peer == a.nextId {
      var first := Dealing(conn, []);
      BookedSnoc(first, welcome);
      assert first.ops + [welcome] == [welcome];
      BookedSnoc(Dealing(conn, [welcome]), joined);
    } else if d.Some? {
      BookedSnoc(d.value, joined);
    }
  }

  lemma PacketBooked(a: Task, input: Input, order: seq<I32>, b: Task, d: Option<Dealing>, peer: I32)
    requires Booked(a.view, d, peer) && input.Packet? && Turn(a, input, order, b)
    ensures Booked(b.view, NextDealing(a, input, order, d, peer), peer)
  {
    SendEachEffect(a.view, order, input.channel, input.mode, input.data, input.limits);
    if d.Some? {
      BookedSnoc(d.value, OpFor(input.limits, peer, input.channel, input.mode, input.data));
      assert peer in order <==> Addressed(a.view.links.Keys, input.target, peer);
    }
  }

  /** What a loss leaves of another peer's link: on a host, one departure message more. */
  lemma LossLeaves(v: View, gone: I32, order: seq<I32>, peer: I32)
    requires gone in v.links && IsOrder(order, v.links.Keys - {gone})
    ensures var links := Lose(v, gone, order).links;
            && (peer in links <==> peer in v.links && peer != gone)
            && (peer in links ==>
                  links[peer]
                  == if v.isHost then Links.Send(v.links[peer], ControlOp(PeerLeft(gone))) else v.links[peer])
  {
    TellEffect(Forget(v.(links := v.links - {gone}, connections := v.connections - {gone}), gone),
               order, PeerLeft(gone));
  }

  lemma LossBooked(a: Task, gone: I32, order: seq<I32>, b: Task, d: Option<Dealing>, peer: I32)
    requires Booked(a.view, d, peer) && Turn(a, Gone(gone), order, b)
    ensures Booked(b.view, NextDealing(a, Gone(gone), order, d, peer), peer)
  {
    if gone in a.view.links {
      LossLeaves(a.view, gone, order, peer);
    }
    if d.Some? {
      BookedSnoc(d.value, ControlOp(PeerLeft(gone)));
    }
  }

  lemma TurnBooked(a: Task, input: Input, order: seq<I32>, b: Task, d: Option<Dealing>, peer: I32)
    requires Booked(a.view, d, peer) && Turn(a, input, order, b)
    ensures Booked(b.view, NextDealing(a, input, order, d, peer), peer)
  {
    var v := a.view;
    if d.Some? {
      NoMore(d.value.ops);
    }
    match input
    case Packet(_, _, _, _, _) => PacketBooked(a, input, order, b, d, peer);
    case Disconnect(_) =>
    case Message(c) =>
      if c.Welcome? {
        AnnounceAllEffect(Announce(v.(events := v.events + [Ready(c.yourId)]), HOST_ID), c.peers);
      }
    case Gone(gone) => LossBooked(a, gone, order, b, d, peer);
    case Accepted(conn) => AcceptBooked(a, conn, order, b, d, peer);
  }

  ghost predicate Starts(trace: seq<Task>, conn: nat) {
    trace != [] && (trace[0].view == HostStart() || trace[0].view == ClientStart(conn))
  }

  /**
    In every run, for every peer and at every turn: the peer has a link exactly when its last accept
    was not followed by its loss, and that link is as the packets meant for it left it.
   */
  lemma {:induction false} LinksConserve(trace: seq<Task>, inputs: seq<Input>, orders: seq<seq<I32>>, i: nat, conn: nat,
                                         peer: I32)
    requires Turns(trace, inputs, orders) && i < |trace| && Starts(trace, conn)
    ensures Booked(trace[i].view, Dealt(trace, inputs, orders, i, peer), peer)
  {
    if i > 0 {
      LinksConserve(trace, inputs, orders, i - 1, conn, peer);
      TurnBooked(trace[i - 1], inputs[i - 1], orders[i - 1], trace[i], Dealt(trace, inputs, orders, i - 1, peer), peer);
    }
  }

  /**
    What that means: each packet the run meant for the peer is on its channel's stream or among the
    datagrams, once and in order, and each counter has counted every ordered one of them.
   */
  lemma LinkAccount(trace: seq<Task>, inputs: seq<Input>, orders: seq<seq<I32>>, i: nat, conn: nat, peer: I32,
                    channel: I32)
    requires Turns(trace, inputs, orders) && i < |trace| && Starts(trace, conn) && peer in trace[i].view.links
    ensures var d, link := Dealt(trace, inputs, orders, i, peer), trace[i].view.links[peer];
            && d.Some?
            && link.conn == d.value.conn
            && Frames(link, channel) == Streamed(d.value.ops, channel)
            && link.datagrams == Datagrams(d.value.ops)
            && Last(link, channel) == Counter(OrderedCount(d.value.ops, channel))
            && (channel in link.warned <==> HasOversized(d.value.ops, channel))
  {
    LinksConserve(trace, inputs, orders, i, conn, peer);
    var d := Dealt(trace, inputs, orders, i, peer).value;
    PacketsConserved(d.conn, d.ops);
    CounterTracks(d.conn, d.ops, channel);
    WarnsOnce(d.conn, d.ops, channel);
  }

  // ---------- Warnings, over a whole run ----------

  /** The links that have warned of this channel. */
  function Warned(v: View, channel: I32): set<I32> {
    set p | p in v.links && channel in v.links[p].warned
  }

  /** One warning for each link that has warned, and one for each of `over` links that had and are gone. */
  ghost predicate Tally(v: View, channel: I32, over: nat) {
    WarningsOn(v.events, channel) == over + |Warned(v, channel)|
  }

  lemma OtherEvent(events: seq<Event>, e: Event, channel: I32)
    requires !e.Warning?
    ensures WarningsOn(events + [e], channel) == WarningsOn(events, channel)
  {
    assert (events + [e])[..|events|] == events;
  }

  lemma QuietTally(v: View, e: Event, channel: I32, over: nat)
    requires Tally(v, channel, over) && !e.Warning?
    ensures Tally(v.(events := v.events + [e]), channel, over)
  {
    OtherEvent(v.events, e, channel);
  }

  lemma SendOneTally(v: View, peer: I32, op: Op, channel: I32, over: nat)
    requires Tally(v, channel, over)
    ensures Tally(SendOne(v, peer, op), channel, over)
  {
    if peer in v.links {
      var w := SendOne(v, peer, op);
      SendWarned(v.links[peer], op, channel);
      WarningsSnoc(v.events, v.links[peer], op, channel);
      if op.channel == channel && Oversized(op) && channel !in v.links[peer].warned {
        assert Warned(w, channel) == Warned(v, channel) + {peer};
      } else {
        assert Warned(w, channel) == Warned(v, channel);
      }
    }
  }

  lemma {:induction false} SendEachTally(v: View, peers: seq<I32>, ch: I32, mode: Mode, data: Bytes,
                                         limits: map<I32, nat>, channel: I32, over: nat)
    requires Tally(v, channel, over)
    ensures Tally(SendEach(v, peers, ch, mode, data, limits), channel, over)
  {
    if peers != [] {
      var n := |peers| - 1;
      SendEachTally(v, peers[..n], ch, mode, data, limits, channel, over);
      SendOneTally(SendEach(v, peers[..n], ch, mode, data, limits), peers[n],
                   OpFor(limits, peers[n], ch, mode, data), channel, over);
    }
  }

  lemma {:induction false} TellTally(v: View, peers: seq<I32>, c: Control, channel: I32, over: nat)
    requires Tally(v, channel, over)
    ensures Tally(Tell(v, peers, c), channel, over)
  {
    if peers != [] {
      var n := |peers| - 1;
      TellTally(v, peers[..n], c, channel, over);
      SendOneTally(Tell(v, peers[..n], c), peers[n], ControlOp(c), channel, over);
    }
  }

  lemma AnnounceTally(v: View, peer: I32, channel: I32, over: nat)
    requires Tally(v, channel, over)
    ensures Tally(Announce(v, peer), channel, over) && Tally(Forget(v, peer), channel, over)
  {
    NoMore(v.events);
    OtherEvent(v.events, PeerConnected(peer), channel);
    OtherEvent(v.events, PeerDisconnected(peer), channel);
    assert Warned(Announce(v, peer), channel) == Warned(v, channel) == Warned(Forget(v, peer), channel);
  }

  lemma {:induction false} AnnounceAllTally(v: View, peers: seq<I32>, channel: I32, over: nat)
    requires Tally(v, channel, over)
    ensures Tally(AnnounceAll(v, peers), channel, over)
  {
    if peers != [] {
      var n := |peers| - 1;
      AnnounceAllTally(v, peers[..n], channel, over);
      AnnounceTally(AnnounceAll(v, peers[..n]), peers[n], channel, over);
    }
  }

  lemma ApplyTally(v: View, c: Control, channel: I32, over: nat)
    requires Tally(v, channel, over)
    ensures Tally(Apply(v, c), channel, over)
  {
    match c
    case Welcome(yourId, peers) =>
      var ready := v.(events := v.events + [Ready(yourId)]);
      QuietTally(v, Ready(yourId), channel, over);
      AnnounceTally(ready, HOST_ID, channel, over);
      AnnounceAllTally(Announce(ready, HOST_ID), peers, channel, over);
    case PeerJoined(id) => AnnounceTally(v, id, channel, over);
    case PeerLeft(id) => AnnounceTally(v, id, channel, over);
  }

  /** A link that goes, or gives way to a new one, leaves its warning behind. */
  function Left(v: View, peer: I32, channel: I32): nat {
    if peer in Warned(v, channel) then 1 else 0
  }

  lemma LoseTally(v: View, peer: I32, order: seq<I32>, channel: I32, over: nat)
    requires Tally(v, channel, over)
    ensures Tally(Lose(v, peer, order), channel, over + Left(v, peer, channel))
  {
    if peer in v.links {
      var more := over + Left(v, peer, channel);
      var cut := v.(links := v.links - {peer}, connections := v.connections - {peer});
      assert Warned(cut, channel) == Warned(v, channel) - {peer};
      AnnounceTally(cut, peer, channel, more);
      var gone := Forget(cut, peer);
      TellTally(gone, order, PeerLeft(peer), channel, more);
      QuietTally(gone, Closed("host disconnected"), channel, more);
    }
  }

  lemma GreetTally(v: View, peer: I32, conn: nat, order: seq<I32>, channel: I32, over: nat)
    requires Tally(v, channel, over)
    ensures Tally(Greet(v, peer, conn, order), channel, over + Left(v, peer, channel))
  {
    var more := over + Left(v, peer, channel);
    var added, welcome := AddLink(v, peer, conn), ControlOp(Control.Welcome(peer, order));
    assert Warned(added, channel) == Warned(v, channel) - {peer};
    SendOneTally(added, peer, welcome, channel, more);
    var greeted := SendOne(added, peer, welcome);
    TellTally(greeted, order, PeerJoined(peer), channel, more);
    AnnounceTally(Tell(greeted, order, PeerJoined(peer)), peer, channel, more);
  }

  /** The link, if any, that a turn ends. */
  function Ending(a: Task, input: Input): Option<I32> {
    var peer := if input.Gone? then input.peer else a.nextId;
    if (input.Gone? || input.Accepted?) && peer in a.view.links then Some(peer) else None
  }

  /** The links that the first i turns ended and that had been meant an oversized packet on the channel. */
  ghost function Over(trace: seq<Task>, inputs: seq<Input>, orders: seq<seq<I32>>, i: nat, channel: I32): nat
    requires i < |trace| && i <= |inputs| && i <= |orders|
  {
    if i == 0 then 0
    else
      var ending := Ending(trace[i - 1], inputs[i - 1]);
      Over(trace, inputs, orders, i - 1, channel)
      + (if ending.Some? && ending.value in Oversizing(trace, inputs, orders, i - 1, channel) then 1 else 0)
  }

  /** The links there are that have been meant an oversized packet on the channel. */
  ghost function Oversizing(trace: seq<Task>, inputs: seq<Input>, orders: seq<seq<I32>>, i: nat, channel: I32): set<I32>
    requires i < |trace| && i <= |inputs| && i <= |orders|
  {
    set p | p in trace[i].view.links
            && Dealt(trace, inputs, orders, i, p).Some?
            && HasOversized(Dealt(trace, inputs, orders, i, p).value.ops, channel)
  }

  lemma OversizingWarned(trace: seq<Task>, inputs: seq<Input>, orders: seq<seq<I32>>, i: nat, conn: nat, channel: I32)
    requires Turns(trace, inputs, orders) && i < |trace| && Starts(trace, conn)
    ensures Warned(trace[i].view, channel) == Oversizing(trace, inputs, orders, i, channel)
  {
    forall p | p in trace[i].view.links
      ensures p in Warned(trace[i].view, channel) <==> p in Oversizing(trace, inputs, orders, i, channel)
    {
      LinkAccount(trace, inputs, orders, i, conn, p, channel);
    }
  }

  lemma TurnTally(a: Task, input: Input, order: seq<I32>, b: Task, channel: I32, over: nat)
    requires Tally(a.view, channel, over) && Turn(a, input, order, b)
    ensures var ending := Ending(a, input);
            Tally(b.view, channel, over + if ending.Some? then Left(a.view, ending.value, channel) else 0)
  {
    match input
    case Packet(_, ch, mode, data, limits) => SendEachTally(a.view, order, ch, mode, data, limits, channel, over);
    case Disconnect(_) =>
    case Message(c) => ApplyTally(a.view, c, channel, over);
    case Gone(peer) => LoseTally(a.view, peer, order, channel, over);
    case Accepted(conn) => GreetTally(a.view, a.nextId, conn, order, channel, over);
  }

  /**
    In every run and for every channel, exactly one warning is reported for each link, past or
    present, that the run meant an oversized packet on it.
   */
  lemma {:induction false} WarningsCounted(trace: seq<Task>, inputs: seq<Input>, orders: seq<seq<I32>>, i: nat,
                                           conn: nat, channel: I32)
    requires Turns(trace, inputs, orders) && i < |trace| && Starts(trace, conn)
    ensures WarningsOn(trace[i].view.events, channel)
            == Over(trace, inputs, orders, i, channel) + |Oversizing(trace, inputs, orders, i, channel)|
  {
    OversizingWarned(trace, inputs, orders, i, conn, channel);
    if i == 0 {
      OtherEvent([], Ready(HOST_ID), channel);
      assert Warned(trace[0].view, channel) == {};
    } else {
      WarningsCounted(trace, inputs, orders, i - 1, conn, channel);
      OversizingWarned(trace, inputs, orders, i - 1, conn, channel);
      TurnTally(trace[i - 1], inputs[i - 1], orders[i - 1], trace[i], channel,
                Over(trace, inputs, orders, i - 1, channel));
    }
  }

  /** The links a run has made: the one it starts with, if any, and one at each accept. */
  function Made(trace: seq<Task>, inputs: seq<Input>, i: nat): nat
    requires i < |trace| && i <= |inputs|
  {
    |trace[0].view.links| + Accepts(inputs[..i])
  }

  lemma TurnKeys(a: Task, input: Input, order: seq<I32>, b: Task)
    requires Turn(a, input, order, b)
    ensures b.view.links.Keys
            == if input.Gone? then a.view.links.Keys - {input.peer}
               else if input.Accepted? then a.view.links.Keys + {a.nextId}
               else a.view.links.Keys
  {
    var v := a.view;
    match input
    case Packet(_, channel, mode, data, limits) => SendEachEffect(v, order, channel, mode, data, limits);
    case Disconnect(_) =>
    case Message(c) =>
      if c.Welcome? {
        AnnounceAllEffect(Announce(v.(events := v.events + [Ready(c.yourId)]), HOST_ID), c.peers);
      }
    case Gone(peer) =>
      if peer in v.links {
        TellEffect(Forget(v.(links := v.links - {peer}, connections := v.connections - {peer}), peer),
                   order, PeerLeft(peer));
      }
    case Accepted(conn) =>
      var greeted := SendOne(AddLink(v, a.nextId, conn), a.nextId, ControlOp(Control.Welcome(a.nextId, order)));
      TellEffect(greeted, order, PeerJoined(a.nextId));
  }

  lemma OneMoreOrLess(keys: set<I32>, peer: I32)
    ensures |keys - {peer}| + (if peer in keys then 1 else 0) == |keys|
    ensures |keys + {peer}| + (if peer in keys then 1 else 0) == |keys| + 1
  {
    if peer in keys {
      assert keys + {peer} == keys;
    } else {
      assert keys - {peer} == keys;
    }
  }

  lemma KeysCount(a: Task, input: Input, b: Task)
    requires b.view.links.Keys
             == if input.Gone? then a.view.links.Keys - {input.peer}
                else if input.Accepted? then a.view.links.Keys + {a.nextId}
                else a.view.links.Keys
    ensures |b.view.links| + (if Ending(a, input).Some? then 1 else 0)
            == |a.view.links| + (if input.Accepted? then 1 else 0)
  {
    OneMoreOrLess(a.view.links.Keys, if input.Gone? then input.peer else a.nextId);
    assert |a.view.links| == |a.view.links.Keys| && |b.view.links| == |b.view.links.Keys|;
  }

  lemma TurnCounts(a: Task, input: Input, order: seq<I32>, b: Task)
    requires Turn(a, input, order, b)
    ensures |b.view.links| + (if Ending(a, input).Some? then 1 else 0)
            == |a.view.links| + (if input.Accepted? then 1 else 0)
  {
    TurnKeys(a, input, order, b);
    KeysCount(a, input, b);
  }

  lemma OneMoreLink(trace: seq<Task>, inputs: seq<Input>, i: nat, ending: nat)
    requires 0 < i < |trace| && i <= |inputs|
    requires |trace[i].view.links| + ending == |trace[i - 1].view.links| + (if inputs[i - 1].Accepted? then 1 else 0)
    ensures |trace[i].view.links| + ending - Made(trace, inputs, i)
            == |trace[i - 1].view.links| - Made(trace, inputs, i - 1)
  {
    assert inputs[..i][..i - 1] == inputs[..i - 1];
  }

  lemma {:induction false} LinksMade(trace: seq<Task>, inputs: seq<Input>, orders: seq<seq<I32>>, i: nat, channel: I32)
    requires Turns(trace, inputs, orders) && i < |trace|
    ensures Over(trace, inputs, orders, i, channel) + |trace[i].view.links| <= Made(trace, inputs, i)
  {
    if i > 0 {
      LinksMade(trace, inputs, orders, i - 1, channel);
      TurnCounts(trace[i - 1], inputs[i - 1], orders[i - 1], trace[i]);
      OneMoreLink(trace, inputs, i, if Ending(trace[i - 1], inputs[i - 1]).Some? then 1 else 0);
    }
  }

  lemma {:induction false} SubsetSize<T>(a: set<T>, b: set<T>)
    requires a <= b
    ensures |a| <= |b|
  {
    if a != {} {
      var x :| x in a;
      SubsetSize(a - {x}, b - {x});
    }
  }

  /** So a channel is never warned of more often than links were made. */
  lemma WarningsBounded(trace: seq<Task>, inputs: seq<Input>, orders: seq<seq<I32>>, i: nat, conn: nat, channel: I32)
    requires Turns(trace, inputs, orders) && i < |trace| && Starts(trace, conn)
    ensures WarningsOn(trace[i].view.events, channel) <= Made(trace, inputs, i)
  {
    WarningsCounted(trace, inputs, orders, i, conn, channel);
    LinksMade(trace, inputs, orders, i, channel);
    SubsetSize(Oversizing(trace, inputs, orders, i, channel), trace[i].view.links.Keys);
    assert |trace[i].view.links| == |trace[i].view.links.Keys|;
  }
}
