/** What each operation of the session task does to its state, as functions of that state. */
module Views {
  import opened Bytes
  import opened Protocol
  import opened Control
  import opened Links

  datatype View = View(
    isHost: bool,
    links: map<I32, Link>,
    announced: set<I32>,
    connections: map<I32, nat>,
    events: seq<Event>)

  // ---------- What each operation does ----------

  function HostStart(): View {
    View(true, map[], {}, map[], [Ready(HOST_ID)])
  }

  function ClientStart(conn: nat): View {
    AddLink(View(false, map[], {}, map[], []), HOST_ID, conn)
  }

  function AddLink(v: View, peer: I32, conn: nat): View {
    v.(links := v.links[peer := NewLink(conn)], connections := v.connections[peer := conn])
  }

  function Announce(v: View, peer: I32): View {
    v.(announced := v.announced + {peer},
       events := v.events + (if peer in v.announced then [] else [PeerConnected(peer)]))
  }

  function Forget(v: View, peer: I32): View {
    v.(announced := v.announced - {peer},
       events := v.events + (if peer in v.announced then [PeerDisconnected(peer)] else []))
  }

  function AnnounceAll(v: View, peers: seq<I32>): View {
    if peers == [] then v else Announce(AnnounceAll(v, peers[..|peers| - 1]), peers[|peers| - 1])
  }

  function LimitOf(limits: map<I32, nat>, peer: I32): nat {
    if peer in limits then limits[peer] else 0
  }

  /** One packet to one peer, which is nothing when no link has that id. */
  function SendOne(v: View, peer: I32, op: Op): View {
    if peer !in v.links then v
    else
      v.(links := v.links[peer := Links.Send(v.links[peer], op)],
         events := v.events + Warnings(v.links[peer], op))
  }

  function OpFor(limits: map<I32, nat>, peer: I32, channel: I32, mode: Mode, data: Bytes): Op {
    Op(channel, mode, data, LimitOf(limits, peer))
  }

  function SendEach(v: View, peers: seq<I32>, channel: I32, mode: Mode, data: Bytes, limits: map<I32, nat>): View {
    if peers == [] then v
    else
      var peer := peers[|peers| - 1];
      SendOne(SendEach(v, peers[..|peers| - 1], channel, mode, data, limits), peer,
              OpFor(limits, peer, channel, mode, data))
  }

  /** A control message always goes by the reliable path. */
  function ControlOp(c: Control): Op {
    Op(CONTROL_CHANNEL, Reliable, Encode(c), 0)
  }

  function Tell(v: View, peers: seq<I32>, c: Control): View {
    if peers == [] then v
    else SendOne(Tell(v, peers[..|peers| - 1], c), peers[|peers| - 1], ControlOp(c))
  }

  /** An accept, which finds the peers in `order`: a Welcome to the newcomer, word of it to them. */
  function Greet(v: View, peer: I32, conn: nat, order: seq<I32>): View {
    var added := AddLink(v, peer, conn);
    var greeted := SendOne(added, peer, ControlOp(Control.Welcome(peer, order)));
    Announce(Tell(greeted, order, PeerJoined(peer)), peer)
  }

  function Apply(v: View, c: Control): View {
    match c
    case Welcome(yourId, peers) =>
      AnnounceAll(Announce(v.(events := v.events + [Ready(yourId)]), HOST_ID), peers)
    case PeerJoined(id) => Announce(v, id)
    case PeerLeft(id) => Forget(v, id)
  }

  /** A connection ended. On a host the others, listed in `order`, are told. */
  function Lose(v: View, peer: I32, order: seq<I32>): View {
    if peer !in v.links then v
    else
      var gone := Forget(v.(links := v.links - {peer}, connections := v.connections - {peer}), peer);
      if v.isHost then Tell(gone, order, PeerLeft(peer))
      else if peer == HOST_ID then gone.(events := gone.events + [Closed("host disconnected")])
      else gone
  }

  /** Negation that wraps, as a release build's does. */
  function Negate(n: I32): I32 {
    if n == I32_MIN then I32_MIN else -n
  }

  /** Whether a target, read as Godot reads it, takes in this peer. */
  predicate Addressed(keys: set<I32>, target: I32, peer: I32) {
    if target <= 0 then peer != Negate(target)
    else peer == if target in keys then target else HOST_ID
  }

  function Route(keys: set<I32>, target: I32): set<I32> {
    set p | p in keys && Addressed(keys, target, p)
  }

  /** The convention case by case, the least target included. */
  lemma Targets(keys: set<I32>, target: I32)
    requires 0 !in keys && I32_MIN !in keys
    ensures target == 0 || target == I32_MIN ==> Route(keys, target) == keys
    ensures I32_MIN < target < 0 ==> Route(keys, target) == keys - {-target}
    ensures target > 0 && target in keys ==> Route(keys, target) == {target}
    ensures target > 0 && target !in keys ==> Route(keys, target) == keys * {HOST_ID}
  {
  }

  // ---------- How the operations act on the links ----------

  lemma {:induction false} TellEffect(v: View, peers: seq<I32>, c: Control)
    requires Distinct(peers)
    ensures var t := Tell(v, peers, c);
            && t == v.(links := t.links)
            && t.links.Keys == v.links.Keys
            && forall p :: p in v.links ==>
                 t.links[p] == if p in peers then Links.Send(v.links[p], ControlOp(c)) else v.links[p]
  {
    if peers != [] {
      var n := |peers| - 1;
      TellEffect(v, peers[..n], c);
      assert peers == peers[..n] + [peers[n]];
      assert v.events + [] == v.events;
    }
  }

  lemma {:induction false} SendEachEffect(v: View, peers: seq<I32>, channel: I32, mode: Mode, data: Bytes,
                                          limits: map<I32, nat>)
    requires Distinct(peers)
    ensures var t := SendEach(v, peers, channel, mode, data, limits);
            && t == v.(links := t.links, events := t.events)
            && v.events <= t.events
            && (forall e :: e in t.events ==> e in v.events || e.Warning?)
            && t.links.Keys == v.links.Keys
            && forall p :: p in v.links ==>
                 t.links[p] == if p in peers then Links.Send(v.links[p], OpFor(limits, p, channel, mode, data))
                               else v.links[p]
  {
    if peers != [] {
      var n := |peers| - 1;
      SendEachEffect(v, peers[..n], channel, mode, data, limits);
      assert peers == peers[..n] + [peers[n]];
    }
  }

  /**
    A send reaches exactly the links Godot's convention selects, in whatever order the map lists them:
    each carries the game's own packet once, as its mode and the link's limit ask; every other link is
    untouched.
   */
  lemma SendReaches(v: View, target: I32, channel: I32, mode: Mode, data: Bytes, limits: map<I32, nat>,
                    order: seq<I32>, peer: I32)
    requires IsOrder(order, Route(v.links.Keys, target)) && peer in v.links
    ensures var t := SendEach(v, order, channel, mode, data, limits);
            && t.links.Keys == v.links.Keys
            && if Addressed(v.links.Keys, target, peer)
               then Carries(v.links[peer], t.links[peer], channel, mode, data,
                            if peer in limits then limits[peer] else 0)
               else t.links[peer] == v.links[peer]
  {
    SendEachEffect(v, order, channel, mode, data, limits);
    SendCarries(v.links[peer], channel, mode, data, if peer in limits then limits[peer] else 0);
  }

  /** What a send tells the game about one link: its first packet too large for a datagram on a channel. */
  function Warns(v: View, channel: I32, mode: Mode, data: Bytes, limits: map<I32, nat>): I32 -> Option<Event> {
    (peer: I32) =>
      var limit := if peer in limits then limits[peer] else 0;
      if peer in v.links && mode != Reliable && 8 + |data| > limit && channel !in v.links[peer].warned
      then Some(Warning(|data|, if limit < 8 then 0 else limit - 8, channel))
      else None
  }

  lemma OneWarns(v: View, w: View, peer: I32, channel: I32, mode: Mode, data: Bytes, limits: map<I32, nat>)
    requires w.links.Keys == v.links.Keys && (peer in v.links ==> w.links[peer] == v.links[peer])
    ensures SendOne(w, peer, OpFor(limits, peer, channel, mode, data)).events
            == w.events + MapSome(Warns(v, channel, mode, data, limits), [peer])
  {
    MapSomeOne(Warns(v, channel, mode, data, limits), peer);
    NoMore(w.events);
  }

  /** A send tells the game of nothing but those, one for each such link it reaches. */
  lemma {:induction false} SendWarns(v: View, peers: seq<I32>, channel: I32, mode: Mode, data: Bytes,
                                     limits: map<I32, nat>)
    requires Distinct(peers)
    ensures SendEach(v, peers, channel, mode, data, limits).events
            == v.events + MapSome(Warns(v, channel, mode, data, limits), peers)
  {
    var f := Warns(v, channel, mode, data, limits);
    if peers == [] {
      NoMore(v.events);
    } else {
      var n := |peers| - 1;
      var last := peers[n];
      SendWarns(v, peers[..n], channel, mode, data, limits);
      SendEachEffect(v, peers[..n], channel, mode, data, limits);
      assert peers == peers[..n] + [last] && last !in peers[..n];
      MapSomeConcat(f, peers[..n], [last]);
      OneWarns(v, SendEach(v, peers[..n], channel, mode, data, limits), last, channel, mode, data, limits);
      Assoc(v.events, MapSome(f, peers[..n]), MapSome(f, [last]));
    }
  }

  lemma {:induction false} AnnounceAllEffect(v: View, peers: seq<I32>)
    ensures var t := AnnounceAll(v, peers);
            && t == v.(announced := t.announced, events := t.events)
            && t.announced == v.announced + (set p | p in peers)
            && v.events <= t.events
            && forall e :: e in t.events ==> e in v.events || (e.PeerConnected? && e.id in peers)
  {
    if peers != [] {
      var n := |peers| - 1;
      AnnounceAllEffect(v, peers[..n]);
      assert peers == peers[..n] + [peers[n]];
    }
  }

  // ---------- The task's loop ----------

  /** What the task's select can yield. `limits` are the datagram limits at the time of a send. */
  datatype Input =
    | Packet(target: I32, channel: I32, mode: Mode, data: Bytes, limits: map<I32, nat>)
    | Disconnect(peer: I32)
    | Close
    | Message(control: Control)
    | Gone(peer: I32)
    | Accepted(conn: nat)

  datatype Task = Task(view: View, nextId: I32)

  /** The id after one that was just handed out: wraps past the largest to the first. */
  function NextId(id: I32): (next: I32)
    ensures next >= FIRST_CLIENT_ID
  {
    var wrapped: I32 := if id == I32_MAX then I32_MIN else id + 1;
    if wrapped < FIRST_CLIENT_ID then FIRST_CLIENT_ID else wrapped
  }

  /** One turn of the loop, where `order` is how a map listed the peers the turn went through. */
  ghost predicate Turn(a: Task, input: Input, order: seq<I32>, b: Task) {
    match input
    case Packet(target, channel, mode, data, limits) =>
      && IsOrder(order, Route(a.view.links.Keys, target))
      && b == a.(view := SendEach(a.view, order, channel, mode, data, limits))
    case Disconnect(_) => b == a
    case Close => false
    case Message(control) => b == a.(view := Apply(a.view, control))
    case Gone(peer) =>
      && IsOrder(order, a.view.links.Keys - {peer})
      && b == a.(view := Lose(a.view, peer, order))
    case Accepted(conn) =>
      && IsOrder(order, a.view.links.Keys)
      && b == Task(Greet(a.view, a.nextId, conn, order), NextId(a.nextId))
  }

  ghost predicate Turns(trace: seq<Task>, inputs: seq<Input>, orders: seq<seq<I32>>) {
    && |trace| == |orders| + 1 <= |inputs| + 1
    && forall i {:trigger orders[i]} :: 0 <= i < |orders| ==> Turn(trace[i], inputs[i], orders[i], trace[i + 1])
  }
}
