/** What every run of one session task keeps, whatever its inputs and however its maps are ordered. */
module Runs {
  import opened Bytes
  import opened Protocol
  import opened Control
  import opened Links
  import opened Views

  // ---------- Membership events replay to the announced set ----------

  /** What the main thread was told about one peer: true for each connect, false for each disconnect. */
  function Toggles(events: seq<Event>, peer: I32): seq<bool> {
    if events == [] then []
    else
      var e := events[|events| - 1];
      Toggles(events[..|events| - 1], peer)
      + (if e == PeerConnected(peer) then [true] else if e == PeerDisconnected(peer) then [false] else [])
  }

  /** Starting with a connect, connects and disconnects take turns. */
  predicate Alternates(toggles: seq<bool>) {
    forall i :: 0 <= i < |toggles| ==> toggles[i] == (i % 2 == 0)
  }

  /** The peers a listener that keeps its own set would hold after these events. */
  function Replay(events: seq<Event>): set<I32> {
    if events == [] then {}
    else
      var e := events[|events| - 1];
      var before := Replay(events[..|events| - 1]);
      if e.PeerConnected? then before + {e.id} else if e.PeerDisconnected? then before - {e.id} else before
  }

  ghost predicate Faithful(v: View) {
    && Replay(v.events) == v.announced
    && forall p: I32 :: Alternates(Toggles(v.events, p)) && (p in v.announced <==> |Toggles(v.events, p)| % 2 == 1)
  }

  lemma EventsSnoc(events: seq<Event>, e: Event, peer: I32)
    ensures (events + [e])[..|events|] == events
    ensures Toggles(events + [e], peer)
            == Toggles(events, peer)
               + (if e == PeerConnected(peer) then [true] else if e == PeerDisconnected(peer) then [false] else [])
  {
    assert (events + [e])[..|events|] == events;
  }

  lemma ReportFaithful(v: View, peer: I32, joins: bool)
    requires Faithful(v) && joins == (peer !in v.announced)
    ensures var e := if joins then PeerConnected(peer) else PeerDisconnected(peer);
            Faithful(v.(announced := if joins then v.announced + {peer} else v.announced - {peer},
                        events := v.events + [e]))
  {
    var e := if joins then PeerConnected(peer) else PeerDisconnected(peer);
    EventsSnoc(v.events, e, peer);
    forall p: I32
      ensures p != peer ==> Toggles(v.events + [e], p) == Toggles(v.events, p)
    {
      EventsSnoc(v.events, e, p);
    }
    assert Toggles(v.events + [e], peer) == Toggles(v.events, peer) + [joins];
  }

  lemma AnnounceFaithful(v: View, peer: I32)
    requires Faithful(v)
    ensures Faithful(Announce(v, peer))
  {
    if peer in v.announced {
      assert Announce(v, peer) == v;
    } else {
      ReportFaithful(v, peer, true);
    }
  }

  lemma ForgetFaithful(v: View, peer: I32)
    requires Faithful(v)
    ensures Faithful(Forget(v, peer))
  {
    if peer in v.announced {
      ReportFaithful(v, peer, false);
    } else {
      assert Forget(v, peer) == v;
    }
  }

  /** Events that are not about membership change nothing. */
  lemma QuietFaithful(v: View, e: Event)
    requires Faithful(v) && !e.PeerConnected? && !e.PeerDisconnected?
    ensures Faithful(v.(events := v.events + [e]))
  {
    forall p: I32
      ensures Toggles(v.events + [e], p) == Toggles(v.events, p)
    {
      EventsSnoc(v.events, e, p);
    }
    EventsSnoc(v.events, e, 0);
  }

  lemma SendOneFaithful(v: View, peer: I32, op: Op)
    requires Faithful(v)
    ensures Faithful(SendOne(v, peer, op))
  {
    if peer in v.links {
      var more := Warnings(v.links[peer], op);
      if more == [] {
        assert v.events + more == v.events;
      } else {
        QuietFaithful(v, more[0]);
        assert Faithful(v.(events := v.events + more));
      }
    }
  }

  lemma {:induction false} AnnounceAllFaithful(v: View, peers: seq<I32>)
    requires Faithful(v)
    ensures Faithful(AnnounceAll(v, peers))
  {
    if peers != [] {
      var n := |peers| - 1;
      AnnounceAllFaithful(v, peers[..n]);
      AnnounceFaithful(AnnounceAll(v, peers[..n]), peers[n]);
    }
  }

  lemma {:induction false} SendEachFaithful(v: View, peers: seq<I32>, channel: I32, mode: Mode, data: Bytes,
                                            limits: map<I32, nat>)
    requires Faithful(v)
    ensures Faithful(SendEach(v, peers, channel, mode, data, limits))
  {
    if peers != [] {
      var n := |peers| - 1;
      SendEachFaithful(v, peers[..n], channel, mode, data, limits);
      SendOneFaithful(SendEach(v, peers[..n], channel, mode, data, limits), peers[n],
                      OpFor(limits, peers[n], channel, mode, data));
    }
  }

  lemma {:induction false} TellFaithful(v: View, peers: seq<I32>, c: Control)
    requires Faithful(v)
    ensures Faithful(Tell(v, peers, c))
  {
    if peers != [] {
      var n := |peers| - 1;
      TellFaithful(v, peers[..n], c);
      SendOneFaithful(Tell(v, peers[..n], c), peers[n], ControlOp(c));
    }
  }

  lemma ApplyFaithful(v: View, c: Control)
    requires Faithful(v)
    ensures Faithful(Apply(v, c))
  {
    match c
    case Welcome(yourId, peers) =>
      QuietFaithful(v, Ready(yourId));
      var ready := v.(events := v.events + [Ready(yourId)]);
      AnnounceFaithful(ready, HOST_ID);
      AnnounceAllFaithful(Announce(ready, HOST_ID), peers);
    case PeerJoined(id) => AnnounceFaithful(v, id);
    case PeerLeft(id) => ForgetFaithful(v, id);
  }

  lemma LoseFaithful(v: View, peer: I32, order: seq<I32>)
    requires Faithful(v)
    ensures Faithful(Lose(v, peer, order))
  {
    if peer in v.links {
      var cut := v.(links := v.links - {peer}, connections := v.connections - {peer});
      assert Faithful(cut);
      ForgetFaithful(cut, peer);
      TellFaithful(Forget(cut, peer), order, PeerLeft(peer));
      QuietFaithful(Forget(cut, peer), Closed("host disconnected"));
    }
  }

  lemma GreetFaithful(v: View, peer: I32, conn: nat, order: seq<I32>)
    requires Faithful(v)
    ensures Faithful(Greet(v, peer, conn, order))
  {
    var added := AddLink(v, peer, conn);
    assert Faithful(added);
    SendOneFaithful(added, peer, ControlOp(Control.Welcome(peer, order)));
    var greeted := SendOne(added, peer, ControlOp(Control.Welcome(peer, order)));
    TellFaithful(greeted, order, PeerJoined(peer));
    AnnounceFaithful(Tell(greeted, order, PeerJoined(peer)), peer);
  }

  lemma TurnFaithful(a: Task, input: Input, order: seq<I32>, b: Task)
    requires Faithful(a.view) && Turn(a, input, order, b)
    ensures Faithful(b.view)
  {
    match input
    case Packet(_, channel, mode, data, limits) => SendEachFaithful(a.view, order, channel, mode, data, limits);
    case Disconnect(_) =>
    case Message(c) => ApplyFaithful(a.view, c);
    case Gone(peer) => LoseFaithful(a.view, peer, order);
    case Accepted(conn) => GreetFaithful(a.view, a.nextId, conn, order);
  }

  lemma StartsFaithful(conn: nat)
    ensures Faithful(HostStart()) && Faithful(ClientStart(conn))
  {
    QuietFaithful(View(true, map[], {}, map[], []), Ready(HOST_ID));
  }

  /**
    In every run of a host or a client, at every turn and for every peer, the connects and
    disconnects reported take turns, connects first, and replaying them gives the announced set.
   */
  lemma {:induction false} EventsReplay(trace: seq<Task>, inputs: seq<Input>, orders: seq<seq<I32>>, i: nat, conn: nat)
    requires Turns(trace, inputs, orders) && i < |trace|
    requires trace[0].view == HostStart() || trace[0].view == ClientStart(conn)
    ensures Faithful(trace[i].view)
  {
    if i == 0 {
      StartsFaithful(conn);
    } else {
      EventsReplay(trace, inputs, orders, i - 1, conn);
      TurnFaithful(trace[i - 1], inputs[i - 1], orders[i - 1], trace[i]);
    }
  }

  // ---------- The host's three views of who is there ----------

  ghost predicate Mirrored(v: View) {
    v.links.Keys == v.announced == v.connections.Keys
  }

  /** Whether a message, were a host to apply it, would leave its announced set alone. */
  predicate NoNews(announced: set<I32>, c: Control) {
    match c
    case Welcome(_, peers) => HOST_ID in announced && forall p :: p in peers ==> p in announced
    case PeerJoined(id) => id in announced
    case PeerLeft(id) => id !in announced
  }

  /** A host has no guard against membership messages: one breaks the mirror exactly when it is news. */
  lemma MirrorIff(v: View, c: Control)
    requires Mirrored(v)
    ensures Mirrored(Apply(v, c)) <==> NoNews(v.announced, c)
  {
    if c.Welcome? {
      var ready := Announce(v.(events := v.events + [Ready(c.yourId)]), HOST_ID);
      AnnounceAllEffect(ready, c.peers);
      var after := Apply(v, c).announced;
      assert HOST_ID in after;
      assert after == v.announced ==> forall p :: p in c.peers ==> p in v.announced;
      assert NoNews(v.announced, c) ==> after == v.announced;
    }
  }

  lemma MirrorTurn(a: Task, input: Input, order: seq<I32>, b: Task)
    requires a.view.isHost && Mirrored(a.view) && Turn(a, input, order, b)
    requires input.Message? ==> NoNews(a.view.announced, input.control)
    ensures b.view.isHost && Mirrored(b.view)
  {
    var v := a.view;
    match input
    case Packet(_, channel, mode, data, limits) => SendEachEffect(v, order, channel, mode, data, limits);
    case Disconnect(_) =>
    case Message(c) =>
      MirrorIff(v, c);
      if c.Welcome? {
        AnnounceAllEffect(Announce(v.(events := v.events + [Ready(c.yourId)]), HOST_ID), c.peers);
      }
    case Gone(peer) =>
      if peer in v.links {
        TellEffect(Forget(v.(links := v.links - {peer}, connections := v.connections - {peer}), peer),
                   order, PeerLeft(peer));
      }
    case Accepted(conn) =>
      var greeted := SendOne(AddLink(v, a.nextId, conn), a.nextId, ControlOp(Control.Welcome(a.nextId, order)));
      TellEffect(greeted, order, PeerJoined(a.nextId));
  }

  // ---------- Ids ----------

  /** The id of the k-th accept, counting from 0. */
  function IdAt(k: nat): I32 {
    FIRST_CLIENT_ID + k % 0x7fff_fffe
  }

  function Accepts(inputs: seq<Input>): nat {
    if inputs == [] then 0
    else Accepts(inputs[..|inputs| - 1]) + (if inputs[|inputs| - 1].Accepted? then 1 else 0)
  }

  lemma NextIdAt(k: nat)
    ensures NextId(IdAt(k)) == IdAt(k + 1)
  {
    var q, r := k / 0x7fff_fffe, k % 0x7fff_fffe;
    assert k == q * 0x7fff_fffe + r;
    if r + 1 == 0x7fff_fffe {
      assert k + 1 == (q + 1) * 0x7fff_fffe;
    } else {
      assert k + 1 == q * 0x7fff_fffe + (r + 1);
    }
  }

  /** Ids repeat exactly every 2^31 - 2 accepts. */
  lemma IdsRepeatIff(j: nat, k: nat)
    requires j < k
    ensures IdAt(j) == IdAt(k) <==> (k - j) % 0x7fff_fffe == 0
  {
  }

  /** In every run the k-th accept, from 0, gets the id IdAt(k). */
  lemma {:induction false} IdsInTurn(trace: seq<Task>, inputs: seq<Input>, orders: seq<seq<I32>>, i: nat)
    requires Turns(trace, inputs, orders) && i < |trace|
    requires trace[0].nextId == FIRST_CLIENT_ID
    ensures trace[i].nextId == IdAt(Accepts(inputs[..i]))
  {
    if i > 0 {
      IdsInTurn(trace, inputs, orders, i - 1);
      assert Turn(trace[i - 1], inputs[i - 1], orders[i - 1], trace[i]);
      NextIdAt(Accepts(inputs[..i - 1]));
      assert inputs[..i][..i - 1] == inputs[..i - 1];
    }
  }
}
