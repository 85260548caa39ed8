/** What one session task shows and tells the game, turn by turn, read off its inputs. */
module Notices {
  import opened Bytes
  import opened Protocol
  import opened Control
  import opened Links
  import opened Views
  import LinkRuns

  // ---------- Ready and closed ----------

  /** Picks nothing but word that the session is ready or closed. */
  ghost predicate Picks<T>(f: Event -> Option<T>) {
    forall e: Event :: !e.Ready? && !e.Closed? ==> f(e).None?
  }

  function Notice(e: Event): Option<Event> {
    if e.Ready? || e.Closed? then Some(e) else None
  }

  function ReadyId(e: Event): Option<I32> {
    if e.Ready? then Some(e.id) else None
  }

  /** What a turn has to tell: the id in a Welcome, and, on a client, that its host is gone. */
  function Due(a: Task, input: Input): seq<Event> {
    match input
    case Message(c) => if c.Welcome? then [Ready(c.yourId)] else []
    case Gone(peer) =>
      if !a.view.isHost && peer == HOST_ID && peer in a.view.links then [Closed("host disconnected")] else []
    case _ => []
  }

  lemma PickSnoc<T>(f: Event -> Option<T>, events: seq<Event>, e: Event)
    ensures MapSome(f, events + [e]) == MapSome(f, events) + MapSome(f, [e])
    ensures f(e).None? ==> MapSome(f, events + [e]) == MapSome(f, events)
  {
    MapSomeConcat(f, events, [e]);
    MapSomeOne(f, e);
    NoMore(MapSome(f, events));
  }

  lemma SendOnePicks<T>(f: Event -> Option<T>, v: View, peer: I32, op: Op)
    requires Picks(f)
    ensures MapSome(f, SendOne(v, peer, op).events) == MapSome(f, v.events)
  {
    if peer in v.links {
      NoMore(v.events);
      if Warnings(v.links[peer], op) != [] {
        PickSnoc(f, v.events, Warnings(v.links[peer], op)[0]);
      }
    }
  }

  lemma {:induction false} SendEachPicks<T>(f: Event -> Option<T>, v: View, peers: seq<I32>, channel: I32, mode: Mode,
                                            data: Bytes, limits: map<I32, nat>)
    requires Picks(f)
    ensures MapSome(f, SendEach(v, peers, channel, mode, data, limits).events) == MapSome(f, v.events)
  {
    if peers != [] {
      var n := |peers| - 1;
      SendEachPicks(f, v, peers[..n], channel, mode, data, limits);
      SendOnePicks(f, SendEach(v, peers[..n], channel, mode, data, limits), peers[n],
                   OpFor(limits, peers[n], channel, mode, data));
    }
  }

  lemma {:induction false} TellPicks<T>(f: Event -> Option<T>, v: View, peers: seq<I32>, c: Control)
    requires Picks(f)
    ensures MapSome(f, Tell(v, peers, c).events) == MapSome(f, v.events)
  {
    if peers != [] {
      var n := |peers| - 1;
      TellPicks(f, v, peers[..n], c);
      SendOnePicks(f, Tell(v, peers[..n], c), peers[n], ControlOp(c));
    }
  }

  lemma AnnouncePicks<T>(f: Event -> Option<T>, v: View, peer: I32)
    requires Picks(f)
    ensures MapSome(f, Announce(v, peer).events) == MapSome(f, v.events) == MapSome(f, Forget(v, peer).events)
  {
    NoMore(v.events);
    PickSnoc(f, v.events, PeerConnected(peer));
    PickSnoc(f, v.events, PeerDisconnected(peer));
  }

  lemma {:induction false} AnnounceAllPicks<T>(f: Event -> Option<T>, v: View, peers: seq<I32>)
    requires Picks(f)
    ensures MapSome(f, AnnounceAll(v, peers).events) == MapSome(f, v.events)
  {
    if peers != [] {
      var n := |peers| - 1;
      AnnounceAllPicks(f, v, peers[..n]);
      AnnouncePicks(f, AnnounceAll(v, peers[..n]), peers[n]);
    }
  }

  lemma ApplyPicks<T>(f: Event -> Option<T>, v: View, c: Control)
    requires Picks(f)
    ensures MapSome(f, Apply(v, c).events)
            == MapSome(f, v.events) + MapSome(f, if c.Welcome? then [Ready(c.yourId)] else [])
  {
    NoMore(MapSome(f, v.events));
    match c
    case Welcome(yourId, peers) =>
      var ready := v.(events := v.events + [Ready(yourId)]);
      PickSnoc(f, v.events, Ready(yourId));
      AnnouncePicks(f, ready, HOST_ID);
      AnnounceAllPicks(f, Announce(ready, HOST_ID), peers);
    case PeerJoined(id) => AnnouncePicks(f, v, id);
    case PeerLeft(id) => AnnouncePicks(f, v, id);
  }

  lemma LosePicks<T>(f: Event -> Option<T>, a: Task, peer: I32, order: seq<I32>)
    requires Picks(f)
    ensures MapSome(f, Lose(a.view, peer, order).events)
            == MapSome(f, a.view.events) + MapSome(f, Due(a, Gone(peer)))
  {
    var v := a.view;
    NoMore(MapSome(f, v.events));
    if peer in v.links {
      var cut := v.(links := v.links - {peer}, connections := v.connections - {peer});
      AnnouncePicks(f, cut, peer);
      TellPicks(f, Forget(cut, peer), order, PeerLeft(peer));
      PickSnoc(f, Forget(cut, peer).events, Closed("host disconnected"));
    }
  }

  lemma GreetPicks<T>(f: Event -> Option<T>, v: View, peer: I32, conn: nat, order: seq<I32>)
    requires Picks(f)
    ensures MapSome(f, Greet(v, peer, conn, order).events) == MapSome(f, v.events)
  {
    var added, welcome := AddLink(v, peer, conn), ControlOp(Control.Welcome(peer, order));
    SendOnePicks(f, added, peer, welcome);
    TellPicks(f, SendOne(added, peer, welcome), order, PeerJoined(peer));
    AnnouncePicks(f, Tell(SendOne(added, peer, welcome), order, PeerJoined(peer)), peer);
  }

  lemma TurnTells<T>(f: Event -> Option<T>, a: Task, input: Input, order: seq<I32>, b: Task)
    requires Picks(f) && Turn(a, input, order, b)
    ensures MapSome(f, b.view.events) == MapSome(f, a.view.events) + MapSome(f, Due(a, input))
  {
    NoMore(MapSome(f, a.view.events));
    match input
    case Packet(_, channel, mode, data, limits) => SendEachPicks(f, a.view, order, channel, mode, data, limits);
    case Disconnect(_) =>
    case Message(c) => ApplyPicks(f, a.view, c);
    case Gone(peer) => LosePicks(f, a, peer, order);
    case Accepted(conn) => GreetPicks(f, a.view, a.nextId, conn, order);
  }

  /** All that the first i turns of a run have to tell. */
  function AllDue(trace: seq<Task>, inputs: seq<Input>, i: nat): seq<Event>
    requires i < |trace| && i <= |inputs|
  {
    if i == 0 then [] else AllDue(trace, inputs, i - 1) + Due(trace[i - 1], inputs[i - 1])
  }

  lemma DueIsNotice(a: Task, input: Input)
    ensures MapSome(Notice, Due(a, input)) == Due(a, input)
  {
    if Due(a, input) != [] {
      MapSomeOne(Notice, Due(a, input)[0]);
    }
  }

  ghost predicate HasTold(v: View, start: seq<Event>, due: seq<Event>) {
    MapSome(Notice, v.events) == start + due
  }

  lemma TurnNotices(a: Task, input: Input, order: seq<I32>, b: Task, start: seq<Event>, due: seq<Event>)
    requires Turn(a, input, order, b) && HasTold(a.view, start, due)
    ensures HasTold(b.view, start, due + Due(a, input))
  {
    TurnTells(Notice, a, input, order, b);
    DueIsNotice(a, input);
    Assoc(start, due, Due(a, input));
  }

  lemma TurnAllDue(trace: seq<Task>, inputs: seq<Input>, orders: seq<seq<I32>>, i: nat, start: seq<Event>)
    requires Turns(trace, inputs, orders) && i < |orders|
    requires HasTold(trace[i].view, start, AllDue(trace, inputs, i))
    ensures HasTold(trace[i + 1].view, start, AllDue(trace, inputs, i + 1))
  {
    TurnNotices(trace[i], inputs[i], orders[i], trace[i + 1], start, AllDue(trace, inputs, i));
  }

  lemma {:induction false} RunTells(trace: seq<Task>, inputs: seq<Input>, orders: seq<seq<I32>>, i: nat,
                                    start: seq<Event>)
    requires Turns(trace, inputs, orders) && i < |trace| && HasTold(trace[0].view, start, [])
    ensures HasTold(trace[i].view, start, AllDue(trace, inputs, i))
  {
    if i > 0 {
      RunTells(trace, inputs, orders, i - 1, start);
      TurnAllDue(trace, inputs, orders, i - 1, start);
    }
  }

  /**
    In every run the game is told that the session is ready, and under which id, and that it is closed,
    exactly when it should be, in order and once each time: a host at its start, a client at each
    Welcome, with the id in it, and when its host is gone.
   */
  lemma NoticesTold(trace: seq<Task>, inputs: seq<Input>, orders: seq<seq<I32>>, i: nat, conn: nat)
    requires Turns(trace, inputs, orders) && i < |trace| && LinkRuns.Starts(trace, conn)
    ensures MapSome(Notice, trace[i].view.events)
            == (if trace[0].view.isHost then [Ready(HOST_ID)] else []) + AllDue(trace, inputs, i)
  {
    MapSomeOne(Notice, Ready(HOST_ID));
    RunTells(trace, inputs, orders, i, if trace[0].view.isHost then [Ready(HOST_ID)] else []);
  }

  // ---------- Who is shown, and the shared connections ----------

  /** Who is shown after a turn, from who was and what came in. */
  function Shown(a: Task, input: Input): set<I32> {
    var shown := a.view.announced;
    match input
    case Message(Welcome(_, peers)) => shown + {HOST_ID} + (set p | p in peers)
    case Message(PeerJoined(id)) => shown + {id}
    case Message(PeerLeft(id)) => shown - {id}
    case Gone(peer) => if peer in a.view.links then shown - {peer} else shown
    case Accepted(_) => shown + {a.nextId}
    case _ => shown
  }

  /** The shared map holds exactly each link's own connection. */
  ghost predicate Shared(v: View) {
    v.connections.Keys == v.links.Keys && forall p :: p in v.links ==> v.connections[p] == v.links[p].conn
  }

  /** What every turn does to them; losing its host, say, a client stops showing it. */
  lemma TurnShows(a: Task, input: Input, order: seq<I32>, b: Task)
    requires Turn(a, input, order, b)
    ensures b.view.announced == Shown(a, input)
    ensures Shared(a.view) ==> Shared(b.view)
  {
    var v := a.view;
    match input
    case Packet(_, channel, mode, data, limits) => SendEachEffect(v, order, channel, mode, data, limits);
    case Disconnect(_) =>
    case Message(c) =>
      if c.Welcome? {
        AnnounceAllEffect(Announce(v.(events := v.events + [Ready(c.yourId)]), HOST_ID), c.peers);
      }
    case Gone(peer) =>
      if peer in v.links {
        TellEffect(Forget(v.(links := v.links - {peer}, connections := v.connections - {peer}), peer),
                   order, PeerLeft(peer));
      }
    case Accepted(conn) =>
      var greeted := SendOne(AddLink(v, a.nextId, conn), a.nextId, ControlOp(Control.Welcome(a.nextId, order)));
      TellEffect(greeted, order, PeerJoined(a.nextId));
  }

  /** In every run of a host or a client, whatever it hears and whichever ids come round again. */
  lemma {:induction false} ConnectionsShared(trace: seq<Task>, inputs: seq<Input>, orders: seq<seq<I32>>, i: nat,
                                             conn: nat)
    requires Turns(trace, inputs, orders) && i < |trace| && LinkRuns.Starts(trace, conn)
    ensures Shared(trace[i].view)
  {
    if i > 0 {
      ConnectionsShared(trace, inputs, orders, i - 1, conn);
      TurnShows(trace[i - 1], inputs[i - 1], orders[i - 1], trace[i]);
    }
  }
}
