/** The invariant of that system, and that every allowed step keeps it. */
module StarInvariant {
  import opened Bytes
  import opened Protocol
  import opened Control
  import opened Framing
  import opened Links
  import opened Views
  import opened Runs
  import opened Star

  // ---------- The invariant ----------

  /** A message that takes a set of links to another. */
  ghost predicate Change(a: set<I32>, c: Control, b: set<I32>) {
    match c
    case Welcome(_, _) => false
    case PeerJoined(id) => id !in a && b == a + {id}
    case PeerLeft(id) => id in a && b == a - {id}
  }

  /** The accept of `id` led to the state at `at`, and the Welcome says who was there before it. */
  ghost predicate Greeted(history: seq<set<I32>>, at: nat, id: I32, c: Control) {
    && 1 <= at < |history|
    && c.Welcome? && c.yourId == id
    && IsOrder(c.peers, history[at - 1])
    && id !in history[at - 1] && history[at] == history[at - 1] + {id}
  }

  /** The message takes the host's links to the state at `at`, where `id` still is. */
  ghost predicate Moved(history: seq<set<I32>>, at: nat, id: I32, c: Control) {
    && 1 <= at < |history|
    && Change(history[at - 1], c, history[at])
    && id in history[at] && id in history[at - 1]
  }

  /** What a peer was told is its own accept and then every change of the host's links since, in order. */
  ghost predicate Told(history: seq<set<I32>>, joined: nat, id: I32, sent: seq<Control>) {
    && sent != []
    && joined + |sent| <= |history|
    && Greeted(history, joined, id, sent[0])
    && forall m :: 1 <= m < |sent| ==> Moved(history, joined + m, id, sent[m])
  }

  /** The client's announced set is the host's links, less itself, at the point it has got to. */
  ghost predicate InStep(history: seq<set<I32>>, id: I32, client: Client) {
    && (client.applied == 0 ==> client.view.announced == {})
    && (client.applied > 0 ==>
          && client.joined + client.applied <= |history|
          && client.view.announced - {HOST_ID} == history[client.joined + client.applied - 1] - {id}
          && (HOST_ID in client.view.links ==> HOST_ID in client.view.announced))
    && PeerConnected(id) !in client.view.events
  }

  /** Nothing a client sends the host reads as a membership message. */
  ghost predicate QuietUp(client: Client) {
    && !client.view.isHost && client.view.links.Keys <= {HOST_ID}
    && ControlsOf(client.up) == [] && AllShort(client.up)
    && (HOST_ID in client.view.links ==> client.up == ControlFrames(client.view.links[HOST_ID]))
  }

  /** The counts of bytes and messages are within what they count. */
  ghost predicate Counted(client: Client) {
    && AllShort(client.down)
    && client.got <= |StreamBytes(CONTROL_CHANNEL, client.down)|
    && client.heard <= |StreamBytes(CONTROL_CHANNEL, client.up)|
    && client.applied <= |Heard(client.down, client.got)|
  }

  ghost predicate ClientOk(history: seq<set<I32>>, c: nat, client: Client) {
    && Counted(client)
    && Told(history, client.joined, IdAt(c), ControlsOf(client.down))
    && InStep(history, IdAt(c), client)
    && QuietUp(client)
  }

  ghost predicate HostOk(host: Task, count: nat, history: seq<set<I32>>) {
    && host.view.isHost && Mirrored(host.view)
    && host.nextId == IdAt(count)
    && history != [] && history[|history| - 1] == host.view.links.Keys
    && (forall i :: 0 <= i < |history| ==> HOST_ID !in history[i])
    && (forall id :: id in host.view.links ==>
          host.view.links[id].conn < count && id == IdAt(host.view.links[id].conn))
  }

  /** While the host holds the link, the peer has been told everything up to now. */
  ghost predicate Linked(host: View, history: seq<set<I32>>, c: nat, client: Client) {
    Live(host, c) ==>
      && client.down == ControlFrames(host.links[IdAt(c)])
      && client.joined + |ControlsOf(client.down)| == |history|
  }

  ghost predicate Attended(host: View, history: seq<set<I32>>, c: nat, client: Client) {
    ClientOk(history, c, client) && Linked(host, history, c, client)
  }

  ghost predicate Inv(s: System) {
    && HostOk(s.host, |s.clients|, s.history)
    && forall c :: 0 <= c < |s.clients| ==> Attended(s.host.view, s.history, c, s.clients[c])
  }

  // ---------- Streams ----------

  lemma StreamGrows(frames: seq<Bytes>, more: seq<Bytes>)
    ensures StreamBytes(CONTROL_CHANNEL, frames) <= StreamBytes(CONTROL_CHANNEL, frames + more)
  {
    BodyConcat(frames, more);
  }

  /** What was heard is a prefix of what was sent, wherever the bytes were cut. */
  lemma HeardIsPrefix(frames: seq<Bytes>, n: nat)
    requires AllShort(frames) && n <= |StreamBytes(CONTROL_CHANNEL, frames)|
    ensures Heard(frames, n) <= ControlsOf(frames)
    ensures n == |StreamBytes(CONTROL_CHANNEL, frames)| ==> Heard(frames, n) == ControlsOf(frames)
  {
    StreamPrefix(CONTROL_CHANNEL, frames, n);
    var k := Whole(frames, if n < 4 then 0 else n - 4);
    assert frames == frames[..k] + frames[k..];
    MapSomeConcat(Decode, frames[..k], frames[k..]);
    if n == |StreamBytes(CONTROL_CHANNEL, frames)| {
      assert StreamBytes(CONTROL_CHANNEL, frames)[..n] == StreamBytes(CONTROL_CHANNEL, frames);
      FramingIff(CONTROL_CHANNEL, frames);
    }
  }

  /** Frames handed over later do not change what the bytes already in say. */
  lemma HeardKept(frames: seq<Bytes>, more: seq<Bytes>, n: nat)
    requires n <= |StreamBytes(CONTROL_CHANNEL, frames)|
    ensures n <= |StreamBytes(CONTROL_CHANNEL, frames + more)|
    ensures Heard(frames + more, n) == Heard(frames, n)
  {
    StreamGrows(frames, more);
    TakeSame(StreamBytes(CONTROL_CHANNEL, frames), StreamBytes(CONTROL_CHANNEL, frames + more), n);
  }

  lemma FramesGrow(b: Bytes, n: nat, m: nat)
    requires n <= m <= |b|
    ensures FramesIn(b[..n]) <= FramesIn(b[..m])
  {
    if n >= 4 {
      assert b[..m][4..] == b[..n][4..] + b[n..m];
      ParseGrows(b[..n][4..], b[n..m]);
    }
  }

  /** More bytes only add messages. */
  lemma HeardMore(frames: seq<Bytes>, n: nat, m: nat)
    requires n <= m <= |StreamBytes(CONTROL_CHANNEL, frames)|
    ensures Heard(frames, n) <= Heard(frames, m)
  {
    var b := StreamBytes(CONTROL_CHANNEL, frames);
    FramesGrow(b, n, m);
    var x, y := FramesIn(b[..n]), FramesIn(b[..m]);
    assert y == x + y[|x|..];
    MapSomeConcat(Decode, x, y[|x|..]);
  }

  /** What one packet adds to a link's control stream. */
  function Added(op: Op): seq<Bytes> {
    if op.channel == CONTROL_CHANNEL && (op.mode == Reliable || Oversized(op)) then [op.data] else []
  }

  lemma SendAdds(link: Link, op: Op)
    ensures Links.Send(link, op).conn == link.conn
    ensures ControlFrames(Links.Send(link, op)) == ControlFrames(link) + Added(op)
  {
  }

  /** A packet adds no message to the control stream exactly when it is harmless or overlong. */
  lemma HarmlessAdds(op: Op)
    requires Short(op.data)
    ensures ControlsOf(Added(op)) == [] <==> Harmless(op)
  {
    MapSomeOne(Decode, op.data);
  }

  lemma WelcomeShortIff(id: I32, peers: seq<I32>)
    ensures Short(Encode(Control.Welcome(id, peers))) <==> |peers| <= MAX_PEERS
  {
  }

  lemma ControlAdds(c: Control)
    requires c.Welcome? ==> |c.peers| <= MAX_PEERS
    ensures Added(ControlOp(c)) == [Encode(c)]
    ensures ControlsOf(Added(ControlOp(c))) == [c] && AllShort(Added(ControlOp(c)))
  {
    RoundTripIff(c);
    MapSomeOne(Decode, Encode(c));
  }

  // ---------- What a client makes of a message ----------

  function ApplyTo(announced: set<I32>, c: Control): set<I32> {
    match c
    case Welcome(_, peers) => announced + {HOST_ID} + (set p | p in peers)
    case PeerJoined(id) => announced + {id}
    case PeerLeft(id) => announced - {id}
  }

  lemma ApplyAnnounced(v: View, c: Control)
    ensures Apply(v, c).announced == ApplyTo(v.announced, c)
    ensures Apply(v, c).links == v.links && Apply(v, c).isHost == v.isHost
    ensures forall id :: PeerConnected(id) in Apply(v, c).events ==>
              || PeerConnected(id) in v.events
              || (c.Welcome? && (id == HOST_ID || id in c.peers))
              || c == PeerJoined(id)
  {
    if c.Welcome? {
      AnnounceAllEffect(Announce(v.(events := v.events + [Ready(c.yourId)]), HOST_ID), c.peers);
    }
  }

  /** One message takes a client from one point of the host's history to the next. */
  lemma Advance(history: seq<set<I32>>, joined: nat, id: I32, sent: seq<Control>, k: nat, announced: set<I32>)
    requires Told(history, joined, id, sent) && k < |sent| && id != HOST_ID
    requires forall i :: 0 <= i < |history| ==> HOST_ID !in history[i]
    requires k == 0 ==> announced == {}
    requires k > 0 ==> announced - {HOST_ID} == history[joined + k - 1] - {id}
    ensures var after := ApplyTo(announced, sent[k]);
            && after - {HOST_ID} == history[joined + k] - {id}
            && (k == 0 || HOST_ID in announced ==> HOST_ID in after)
    ensures k == 0 <==> sent[k].Welcome?
    ensures sent[k].Welcome? ==> id !in sent[k].peers
    ensures sent[k] != PeerJoined(id)
  {
    var a, b := history[joined + k - 1], history[joined + k];
    assert HOST_ID !in a && HOST_ID !in b;
    if k == 0 {
      assert Greeted(history, joined, id, sent[0]);
      assert (set p | p in sent[0].peers) == a;
    } else {
      assert Moved(history, joined + k, id, sent[k]);
      assert sent[k].PeerJoined? ==>
          announced + {sent[k].id} - {HOST_ID} == (announced - {HOST_ID}) + {sent[k].id};
      assert sent[k].PeerLeft? ==>
          announced - {sent[k].id} - {HOST_ID} == (announced - {HOST_ID}) - {sent[k].id};
    }
  }

  lemma IdIsNotHost(c: nat)
    ensures IdAt(c) >= FIRST_CLIENT_ID > HOST_ID
  {
  }

  // ---------- The invariant is kept ----------

  lemma ToldLater(history: seq<set<I32>>, more: seq<set<I32>>, joined: nat, id: I32, sent: seq<Control>)
    requires Told(history, joined, id, sent)
    ensures Told(history + more, joined, id, sent)
  {
    forall m | 1 <= m < |sent|
      ensures Moved(history + more, joined + m, id, sent[m])
    {
      assert Moved(history, joined + m, id, sent[m]);
    }
  }

  lemma ToldNext(history: seq<set<I32>>, keys: set<I32>, joined: nat, id: I32, sent: seq<Control>, c: Control)
    requires Told(history, joined, id, sent) && joined + |sent| == |history|
    requires Change(history[|history| - 1], c, keys) && id in keys
    ensures Told(history + [keys], joined, id, sent + [c])
  {
    ToldLater(history, [keys], joined, id, sent);
    var n := |sent|;
    assert id in history[joined + n - 1] by {
      if n > 1 {
        assert Moved(history, joined + (n - 1), id, sent[n - 1]);
      }
    }
    forall m | 1 <= m < n + 1
      ensures Moved(history + [keys], joined + m, id, (sent + [c])[m])
    {
    }
  }

  lemma InStepLater(history: seq<set<I32>>, more: seq<set<I32>>, id: I32, client: Client, down: seq<Bytes>)
    requires InStep(history, id, client)
    ensures InStep(history + more, id, client.(down := down))
  {
  }

  lemma CountedGrows(client: Client, added: seq<Bytes>)
    requires Counted(client) && AllShort(added)
    ensures Counted(client.(down := client.down + added))
  {
    HeardKept(client.down, added, client.got);
  }

  /** A client stays in order when its control stream grows and the host's history with it. */
  lemma ClientGrows(history: seq<set<I32>>, more: seq<set<I32>>, c: nat, client: Client, added: seq<Bytes>)
    requires ClientOk(history, c, client) && AllShort(added)
    requires Told(history + more, client.joined, IdAt(c), ControlsOf(client.down) + ControlsOf(added))
    ensures ClientOk(history + more, c, client.(down := client.down + added))
  {
    MapSomeConcat(Decode, client.down, added);
    CountedGrows(client, added);
    InStepLater(history, more, IdAt(c), client, client.down + added);
  }

  lemma ClientWaits(history: seq<set<I32>>, more: seq<set<I32>>, c: nat, client: Client)
    requires ClientOk(history, c, client)
    ensures ClientOk(history + more, c, client)
  {
    ToldLater(history, more, client.joined, IdAt(c), ControlsOf(client.down));
    InStepLater(history, more, IdAt(c), client, client.down);
  }

  /** What a host's move put on a control stream matches what it did to the history. */
  ghost predicate Matches(history: seq<set<I32>>, more: seq<set<I32>>, id: I32, added: seq<Bytes>) {
    && AllShort(added)
    && match |more|
       case 0 => ControlsOf(added) == []
       case 1 =>
         && |ControlsOf(added)| == 1 && history != []
         && Change(history[|history| - 1], ControlsOf(added)[0], more[0]) && id in more[0]
       case _ => false
  }

  /** The host's link of connection c is still there only if it was, with `added` on its control stream. */
  ghost predicate LinkGrew(v: View, w: View, c: nat, added: seq<Bytes>) {
    Live(w, c) ==>
      Live(v, c) && ControlFrames(w.links[IdAt(c)]) == ControlFrames(v.links[IdAt(c)]) + added
  }

  lemma LiveFollows(v: View, w: View, history: seq<set<I32>>, more: seq<set<I32>>, c: nat, client: Client,
                    added: seq<Bytes>)
    requires Attended(v, history, c, client) && LinkGrew(v, w, c, added)
    requires Live(w, c) && Matches(history, more, IdAt(c), added)
    ensures Attended(w, history + more, c, client.(down := client.down + added))
  {
    var sent, news := ControlsOf(client.down), ControlsOf(added);
    if more == [] {
      assert history + more == history && sent + news == sent;
    } else {
      assert more == [more[0]] && news == [news[0]];
      ToldNext(history, more[0], client.joined, IdAt(c), sent, news[0]);
    }
    MapSomeConcat(Decode, client.down, added);
    ClientGrows(history, more, c, client, added);
  }

  lemma ClientFollows(v: View, w: View, history: seq<set<I32>>, more: seq<set<I32>>, c: nat, client: Client,
                      added: seq<Bytes>)
    requires Attended(v, history, c, client) && LinkGrew(v, w, c, added)
    requires Live(w, c) ==> Matches(history, more, IdAt(c), added)
    ensures Attended(w, history + more, c, Down(w, c, client))
  {
    if Live(w, c) {
      LiveFollows(v, w, history, more, c, client, added);
    } else {
      ClientWaits(history, more, c, client);
    }
  }

  // A game's packet.

  /** What a game's packet adds to the control stream of one link. */
  function AddedBy(input: Input, order: seq<I32>, id: I32): seq<Bytes>
    requires input.Packet?
  {
    if id in order then Added(OpFor(input.limits, id, input.channel, input.mode, input.data)) else []
  }

  ghost predicate PacketSent(v: View, w: View, input: Input, order: seq<I32>) {
    && input.Packet? && w.isHost == v.isHost && w.announced == v.announced && w.connections == v.connections
    && w.links.Keys == v.links.Keys
    && (forall e :: e in w.events ==> e in v.events || e.Warning?)
    && forall id :: id in v.links ==>
         && w.links[id].conn == v.links[id].conn
         && ControlFrames(w.links[id]) == ControlFrames(v.links[id]) + AddedBy(input, order, id)
  }

  lemma PacketAdds(link: Link, input: Input, order: seq<I32>, id: I32)
    requires input.Packet?
    ensures var op := OpFor(input.limits, id, input.channel, input.mode, input.data);
            var after := if id in order then Links.Send(link, op) else link;
            && after.conn == link.conn
            && ControlFrames(after) == ControlFrames(link) + AddedBy(input, order, id)
  {
    SendAdds(link, OpFor(input.limits, id, input.channel, input.mode, input.data));
    assert ControlFrames(link) + [] == ControlFrames(link);
  }

  lemma PacketEffect(v: View, input: Input, order: seq<I32>)
    requires input.Packet? && Distinct(order)
    ensures PacketSent(v, SendEach(v, order, input.channel, input.mode, input.data, input.limits), input, order)
  {
    SendEachEffect(v, order, input.channel, input.mode, input.data, input.limits);
    forall id | id in v.links {
      PacketAdds(v.links[id], input, order, id);
    }
  }

  lemma AddedByClean(links: set<I32>, input: Input, order: seq<I32>, id: I32)
    requires input.Packet? && Clean(links, input) && IsOrder(order, Route(links, input.target))
    ensures ControlsOf(AddedBy(input, order, id)) == [] && AllShort(AddedBy(input, order, id))
  {
    if AddedBy(input, order, id) != [] {
      assert id in Route(links, input.target);
      HarmlessAdds(OpFor(input.limits, id, input.channel, input.mode, input.data));
    }
  }

  lemma PacketReaches(v: View, w: View, history: seq<set<I32>>, c: nat, client: Client, input: Input, order: seq<I32>)
    requires Attended(v, history, c, client) && PacketSent(v, w, input, order)
    requires Clean(v.links.Keys, input) && IsOrder(order, Route(v.links.Keys, input.target))
    ensures Attended(w, history, c, Down(w, c, client))
  {
    AddedByClean(v.links.Keys, input, order, IdAt(c));
    assert history + [] == history;
    ClientFollows(v, w, history, [], c, client, AddedBy(input, order, IdAt(c)));
  }

  lemma HostPacketKeeps(s: System, input: Input, order: seq<I32>, t: System)
    requires Inv(s) && input.Packet? && Clean(s.host.view.links.Keys, input) && Turn(s.host, input, order, t.host)
    requires HostMoved(s, t) && |t.clients| == |s.clients|
    ensures Inv(t)
  {
    PacketEffect(s.host.view, input, order);
    assert t.history == s.history;
    forall c | 0 <= c < |s.clients|
      ensures Attended(t.host.view, t.history, c, t.clients[c])
    {
      PacketReaches(s.host.view, t.host.view, s.history, c, s.clients[c], input, order);
    }
  }

  // An accept.

  /** Everyone already there has been told of the newcomer, and the newcomer of who is there. */
  ghost predicate PeerJoins(v: View, w: View, peer: I32, conn: nat, order: seq<I32>) {
    && w.isHost == v.isHost
    && w.links.Keys == v.links.Keys + {peer}
    && w.links[peer].conn == conn
    && ControlFrames(w.links[peer]) == [Encode(Control.Welcome(peer, order))]
    && forall p :: p in v.links ==>
         && w.links[p].conn == v.links[p].conn
         && ControlFrames(w.links[p]) == ControlFrames(v.links[p]) + [Encode(PeerJoined(peer))]
  }

  lemma GreetEffect(v: View, peer: I32, conn: nat, order: seq<I32>)
    requires IsOrder(order, v.links.Keys) && peer !in v.links
    ensures PeerJoins(v, Greet(v, peer, conn, order), peer, conn, order)
  {
    var welcome := ControlOp(Control.Welcome(peer, order));
    var greeted := SendOne(AddLink(v, peer, conn), peer, welcome);
    SendAdds(NewLink(conn), welcome);
    TellEffect(greeted, order, PeerJoined(peer));
    forall p | p in v.links
      ensures greeted.links[p] == v.links[p]
      ensures ControlFrames(Links.Send(v.links[p], ControlOp(PeerJoined(peer))))
              == ControlFrames(v.links[p]) + [Encode(PeerJoined(peer))]
    {
      SendAdds(v.links[p], ControlOp(PeerJoined(peer)));
    }
  }

  lemma AcceptReaches(v: View, w: View, history: seq<set<I32>>, peer: I32, conn: nat, order: seq<I32>,
                      c: nat, client: Client)
    requires Attended(v, history, c, client) && c != conn
    requires history != [] && history[|history| - 1] == v.links.Keys && peer !in v.links
    requires PeerJoins(v, w, peer, conn, order)
    ensures Attended(w, history + [w.links.Keys], c, Down(w, c, client))
  {
    ControlAdds(PeerJoined(peer));
    ClientFollows(v, w, history, [w.links.Keys], c, client, [Encode(PeerJoined(peer))]);
  }

  lemma NewcomerCounted(c: nat, joined: nat, order: seq<I32>)
    requires |order| <= MAX_PEERS
    ensures var client := NewClient(c, joined).(down := [Encode(Control.Welcome(IdAt(c), order))]);
            Counted(client) && QuietUp(client) && ControlsOf(client.down) == [Control.Welcome(IdAt(c), order)]
  {
    ControlAdds(Control.Welcome(IdAt(c), order));
    assert ControlsOf([]) == [];
  }

  lemma NewcomerReaches(v: View, w: View, history: seq<set<I32>>, conn: nat, order: seq<I32>)
    requires history != [] && history[|history| - 1] == v.links.Keys && IdAt(conn) !in v.links
    requires PeerJoins(v, w, IdAt(conn), conn, order)
    requires IsOrder(order, v.links.Keys) && |order| <= MAX_PEERS
    ensures Attended(w, history + [w.links.Keys], conn, Down(w, conn, NewClient(conn, |history|)))
  {
    var now := history + [w.links.Keys];
    NewcomerCounted(conn, |history|, order);
    assert Greeted(now, |history|, IdAt(conn), Control.Welcome(IdAt(conn), order));
  }

  lemma AcceptedIds(v: View, w: View, count: nat, order: seq<I32>)
    requires PeerJoins(v, w, IdAt(count), count, order)
    requires forall id :: id in v.links ==> v.links[id].conn < count && id == IdAt(v.links[id].conn)
    requires IdAt(count) !in v.links
    ensures forall id :: id in w.links ==> w.links[id].conn < count + 1 && id == IdAt(w.links[id].conn)
  {
  }

  lemma AcceptHost(host: Task, next: Task, count: nat, history: seq<set<I32>>, order: seq<I32>)
    requires HostOk(host, count, history) && host.nextId !in host.view.links
    requires Turn(host, Accepted(count), order, next)
    requires PeerJoins(host.view, next.view, host.nextId, count, order)
    ensures HostOk(next, count + 1, history + [next.view.links.Keys])
  {
    MirrorTurn(host, Accepted(count), order, next);
    NextIdAt(count);
    AcceptedIds(host.view, next.view, count, order);
    assert HOST_ID !in next.view.links.Keys by {
      IdIsNotHost(count);
      assert HOST_ID !in history[|history| - 1];
    }
  }

  lemma OneMoreAttended(w: View, history: seq<set<I32>>, before: seq<Client>, after: seq<Client>)
    requires history != [] && |after| == |before| + 1
    requires forall c :: 0 <= c < |before| ==> Attended(w, history, c, Down(w, c, before[c]))
    requires Attended(w, history, |before|, Down(w, |before|, NewClient(|before|, |history| - 1)))
    requires forall c :: 0 <= c < |after| ==>
               after[c] == Down(w, c, if c < |before| then before[c] else NewClient(c, |history| - 1))
    ensures forall c :: 0 <= c < |after| ==> Attended(w, history, c, after[c])
  {
    forall c | 0 <= c < |after|
      ensures Attended(w, history, c, after[c])
    {
      if c == |before| {
        assert after[c] == Down(w, c, NewClient(c, |history| - 1));
      } else {
        assert after[c] == Down(w, c, before[c]);
      }
    }
  }

  lemma AcceptOthers(v: View, w: View, history: seq<set<I32>>, peer: I32, order: seq<I32>, clients: seq<Client>)
    requires forall c :: 0 <= c < |clients| ==> Attended(v, history, c, clients[c])
    requires history != [] && history[|history| - 1] == v.links.Keys && peer !in v.links
    requires PeerJoins(v, w, peer, |clients|, order)
    ensures forall c :: 0 <= c < |clients| ==>
              Attended(w, history + [w.links.Keys], c, Down(w, c, clients[c]))
  {
    forall c | 0 <= c < |clients|
      ensures Attended(w, history + [w.links.Keys], c, Down(w, c, clients[c]))
    {
      AcceptReaches(v, w, history, peer, |clients|, order, c, clients[c]);
    }
  }

  lemma AcceptAttended(s: System, order: seq<I32>, t: System)
    requires Inv(s) && IsOrder(order, s.host.view.links.Keys) && |order| <= MAX_PEERS
    requires s.host.nextId !in s.host.view.links
    requires PeerJoins(s.host.view, t.host.view, s.host.nextId, |s.clients|, order)
    requires HostMoved(s, t) && |t.clients| == |s.clients| + 1
    ensures forall c :: 0 <= c < |t.clients| ==> Attended(t.host.view, t.history, c, t.clients[c])
  {
    var v, w := s.host.view, t.host.view;
    assert t.history == s.history + [w.links.Keys];
    AcceptOthers(v, w, s.history, s.host.nextId, order, s.clients);
    NewcomerReaches(v, w, s.history, |s.clients|, order);
    OneMoreAttended(w, t.history, s.clients, t.clients);
  }

  lemma AcceptKeeps(s: System, order: seq<I32>, t: System)
    requires Inv(s) && Turn(s.host, Accepted(|s.clients|), order, t.host)
    requires s.host.nextId !in s.host.view.links && |s.host.view.links| <= MAX_PEERS
    requires HostMoved(s, t) && |t.clients| == |s.clients| + 1
    ensures Inv(t)
  {
    GreetEffect(s.host.view, s.host.nextId, |s.clients|, order);
    AcceptHost(s.host, t.host, |s.clients|, s.history, order);
    OrderSize(order, s.host.view.links.Keys);
    AcceptAttended(s, order, t);
  }

  // A loss.

  ghost predicate PeerLeaves(v: View, w: View, peer: I32) {
    && w.isHost == v.isHost
    && w.links.Keys == v.links.Keys - {peer}
    && forall p :: p in w.links ==>
         && w.links[p].conn == v.links[p].conn
         && ControlFrames(w.links[p]) == ControlFrames(v.links[p]) + [Encode(PeerLeft(peer))]
  }

  lemma LoseEffect(v: View, peer: I32, order: seq<I32>)
    requires v.isHost && peer in v.links && IsOrder(order, v.links.Keys - {peer})
    ensures PeerLeaves(v, Lose(v, peer, order), peer)
  {
    var gone := Forget(v.(links := v.links - {peer}, connections := v.connections - {peer}), peer);
    TellEffect(gone, order, PeerLeft(peer));
    forall p | p in gone.links
      ensures Links.Send(gone.links[p], ControlOp(PeerLeft(peer))).conn == v.links[p].conn
      ensures ControlFrames(Links.Send(gone.links[p], ControlOp(PeerLeft(peer))))
              == ControlFrames(v.links[p]) + [Encode(PeerLeft(peer))]
    {
      SendAdds(v.links[p], ControlOp(PeerLeft(peer)));
    }
  }

  lemma LossReaches(v: View, w: View, history: seq<set<I32>>, peer: I32, c: nat, client: Client)
    requires Attended(v, history, c, client) && peer in v.links
    requires history != [] && history[|history| - 1] == v.links.Keys
    requires PeerLeaves(v, w, peer)
    ensures Attended(w, history + [w.links.Keys], c, Down(w, c, client))
  {
    ControlAdds(PeerLeft(peer));
    ClientFollows(v, w, history, [w.links.Keys], c, client, [Encode(PeerLeft(peer))]);
  }

  lemma LossHost(host: Task, next: Task, count: nat, history: seq<set<I32>>, peer: I32, order: seq<I32>)
    requires HostOk(host, count, history) && peer in host.view.links
    requires Turn(host, Gone(peer), order, next) && PeerLeaves(host.view, next.view, peer)
    ensures HostOk(next, count, history + [next.view.links.Keys])
  {
    MirrorTurn(host, Gone(peer), order, next);
  }

  lemma LossKeeps(s: System, peer: I32, order: seq<I32>, t: System)
    requires Inv(s) && Turn(s.host, Gone(peer), order, t.host)
    requires HostMoved(s, t) && |t.clients| == |s.clients|
    ensures Inv(t)
  {
    if peer in s.host.view.links {
      LoseEffect(s.host.view, peer, order);
      LossHost(s.host, t.host, |s.clients|, s.history, peer, order);
      assert t.history == s.history + [t.host.view.links.Keys];
      forall c | 0 <= c < |t.clients|
        ensures Attended(t.host.view, t.history, c, t.clients[c])
      {
        LossReaches(s.host.view, t.host.view, s.history, peer, c, s.clients[c]);
      }
    } else {
      HostIdles(s, t);
    }
  }

  lemma HostIdles(s: System, t: System)
    requires Inv(s) && t.host == s.host && HostMoved(s, t) && |t.clients| == |s.clients|
    ensures Inv(t)
  {
    assert t.history == s.history;
    forall c | 0 <= c < |s.clients|
      ensures t.clients[c] == s.clients[c]
    {
      assert Attended(s.host.view, s.history, c, s.clients[c]);
    }
    assert t.clients == s.clients;
  }

  // The clients.

  lemma OneClientKeeps(s: System, c: nat, client: Client)
    requires Inv(s) && c < |s.clients|
    requires ClientOk(s.history, c, client)
    requires client.down == s.clients[c].down && client.joined == s.clients[c].joined
    ensures Inv(s.(clients := s.clients[c := client]))
  {
    assert Linked(s.host.view, s.history, c, s.clients[c]);
    assert Attended(s.host.view, s.history, c, client);
  }

  lemma QuietUpGrows(client: Client, w: View, added: seq<Bytes>)
    requires QuietUp(client) && !w.isHost && w.links.Keys == client.view.links.Keys
    requires ControlsOf(added) == [] && AllShort(added)
    requires HOST_ID in w.links ==> ControlFrames(w.links[HOST_ID]) == client.up + added
    ensures QuietUp(WithView(client, w))
    ensures StreamBytes(CONTROL_CHANNEL, client.up) <= StreamBytes(CONTROL_CHANNEL, WithView(client, w).up)
  {
    MapSomeConcat(Decode, client.up, added);
    StreamGrows(client.up, added);
  }

  lemma ClientPacketKeeps(history: seq<set<I32>>, c: nat, client: Client, input: Input, order: seq<I32>, w: View)
    requires ClientOk(history, c, client) && PacketSent(client.view, w, input, order)
    requires Clean(client.view.links.Keys, input) && IsOrder(order, Route(client.view.links.Keys, input.target))
    ensures ClientOk(history, c, WithView(client, w))
  {
    AddedByClean(client.view.links.Keys, input, order, HOST_ID);
    QuietUpGrows(client, w, AddedBy(input, order, HOST_ID));
  }

  lemma ClientLossKeeps(history: seq<set<I32>>, c: nat, client: Client, peer: I32, order: seq<I32>)
    requires ClientOk(history, c, client)
    ensures ClientOk(history, c, WithView(client, Lose(client.view, peer, order)))
  {
  }

  lemma MessageApplied(history: seq<set<I32>>, c: nat, client: Client)
    requires ClientOk(history, c, client) && client.applied < |Heard(client.down, client.got)|
    requires forall i :: 0 <= i < |history| ==> HOST_ID !in history[i]
    ensures var message := Heard(client.down, client.got)[client.applied];
            ClientOk(history, c, AfterHearing(client, message))
  {
    var sent, k := ControlsOf(client.down), client.applied;
    HeardIsPrefix(client.down, client.got);
    assert Heard(client.down, client.got)[k] == sent[k];
    IdIsNotHost(c);
    Advance(history, client.joined, IdAt(c), sent, k, client.view.announced);
    ApplyAnnounced(client.view, sent[k]);
  }

  lemma ClientHearsKeeps(s: System, c: nat, t: System)
    requires Inv(s) && Next(s, ClientHears(c), t)
    ensures Inv(t)
  {
    MessageApplied(s.history, c, s.clients[c]);
    OneClientKeeps(s, c, t.clients[c]);
  }

  lemma MoreArrived(history: seq<set<I32>>, c: nat, client: Client, n: nat)
    requires ClientOk(history, c, client)
    requires client.got <= n <= |StreamBytes(CONTROL_CHANNEL, client.down)|
    ensures ClientOk(history, c, client.(got := n))
  {
    HeardMore(client.down, client.got, n);
  }

  lemma ArriveKeeps(s: System, c: nat, n: nat)
    requires Inv(s) && c < |s.clients|
    requires s.clients[c].got <= n <= |StreamBytes(CONTROL_CHANNEL, s.clients[c].down)|
    ensures Inv(s.(clients := s.clients[c := s.clients[c].(got := n)]))
  {
    MoreArrived(s.history, c, s.clients[c], n);
    OneClientKeeps(s, c, s.clients[c].(got := n));
  }

  lemma ArriveUpKeeps(s: System, c: nat, n: nat)
    requires Inv(s) && c < |s.clients| && n <= |StreamBytes(CONTROL_CHANNEL, s.clients[c].up)|
    ensures Inv(s.(clients := s.clients[c := s.clients[c].(heard := n)]))
  {
    OneClientKeeps(s, c, s.clients[c].(heard := n));
  }

  lemma ClientTurnKeeps(s: System, c: nat, input: Input, order: seq<I32>, t: System)
    requires Inv(s) && Allowed(s, ClientTurn(c, input, order)) && Next(s, ClientTurn(c, input, order), t)
    ensures Inv(t)
  {
    var client := s.clients[c];
    match input {
      case Packet(_, _, _, _, _) =>
        PacketEffect(client.view, input, order);
        ClientPacketKeeps(s.history, c, client, input, order,
                          SendEach(client.view, order, input.channel, input.mode, input.data, input.limits));
      case Gone(peer) => ClientLossKeeps(s.history, c, client, peer, order);
      case Disconnect(_) =>
    }
    OneClientKeeps(s, c, t.clients[c]);
  }

  /** Nothing a client sends ever reads, on the host, as a membership message. */
  lemma HostHearsNothing(s: System, c: nat)
    requires Inv(s) && c < |s.clients|
    ensures Heard(s.clients[c].up, s.clients[c].heard) == []
  {
    HeardIsPrefix(s.clients[c].up, s.clients[c].heard);
  }

  lemma HostTurnKeeps(s: System, input: Input, order: seq<I32>, t: System)
    requires Inv(s) && Allowed(s, HostTurn(input, order)) && Next(s, HostTurn(input, order), t)
    ensures Inv(t)
  {
    match input
    case Packet(_, _, _, _, _) => HostPacketKeeps(s, input, order, t);
    case Gone(peer) => LossKeeps(s, peer, order, t);
    case Accepted(_) => AcceptKeeps(s, order, t);
    case Disconnect(_) => HostIdles(s, t);
  }

  lemma StepKeeps(s: System, step: Step, t: System)
    requires Inv(s) && Allowed(s, step) && Next(s, step, t)
    ensures Inv(t)
  {
    match step
    case HostTurn(input, order) => HostTurnKeeps(s, input, order, t);
    case HostHears(c) => HostHearsNothing(s, c);
    case ClientTurn(c, input, order) => ClientTurnKeeps(s, c, input, order, t);
    case ClientHears(c) => ClientHearsKeeps(s, c, t);
    case Arrive(c, n) => ArriveKeeps(s, c, n);
    case ArriveUp(c, n) => ArriveUpKeeps(s, c, n);
  }
}
