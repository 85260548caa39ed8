/** A host, its clients and the control streams between them, as one system of steps. */
module Star {
  import opened Bytes
  import opened Protocol
  import opened Control
  import opened Framing
  import opened Links
  import opened Views
  import opened Runs

  /**
    One connection the host accepted; the c-th belongs to peer IdAt(c).
    `down` is every frame the host handed to this connection's control stream, `got` how many of
    that stream's bytes have reached the client, `applied` how many messages it has acted on.
    `up`, `heard` and `acted` are the same in the other direction.
    `joined` is the place in the host's history of the state its accept made.
   */
  datatype Client = Client(
    joined: nat,
    down: seq<Bytes>, got: nat, applied: nat,
    view: View,
    up: seq<Bytes>, heard: nat, acted: nat)

  /** `history` lists every value the host's set of links has had, oldest first. */
  datatype System = System(host: Task, clients: seq<Client>, history: seq<set<I32>>)

  /** The most peers a Welcome can list and still be a frame shorter than 2^32 bytes. */
  const MAX_PEERS := 1_073_741_821

  function Init(): System {
    System(Task(HostStart(), FIRST_CLIENT_ID), [], [{}])
  }

  function ControlFrames(link: Link): seq<Bytes> {
    Frames(link, CONTROL_CHANNEL)
  }

  /** The messages the reader has got out of a control stream once n of its bytes are in. */
  function Heard(frames: seq<Bytes>, n: nat): seq<Control> {
    ControlsOf(FramesIn(Take(StreamBytes(CONTROL_CHANNEL, frames), n)))
  }

  /** Whether the host still holds the link of connection c. */
  predicate Live(host: View, c: nat) {
    IdAt(c) in host.links && host.links[IdAt(c)].conn == c
  }

  function Down(host: View, c: nat, client: Client): Client {
    if Live(host, c) then client.(down := ControlFrames(host.links[IdAt(c)])) else client
  }

  function NewClient(c: nat, joined: nat): Client {
    Client(joined, [], 0, 0, ClientStart(c), [], 0, 0)
  }

  function Record(history: seq<set<I32>>, keys: set<I32>): seq<set<I32>> {
    if history != [] && history[|history| - 1] == keys then history else history + [keys]
  }

  /** The client's own state has changed to v. */
  function WithView(client: Client, v: View): Client {
    client.(view := v, up := if HOST_ID in v.links then ControlFrames(v.links[HOST_ID]) else client.up)
  }

  /** The client has acted on one message more. */
  function AfterHearing(client: Client, message: Control): Client {
    WithView(client, Apply(client.view, message)).(applied := client.applied + 1)
  }

  // ---------- Steps ----------

  datatype Step =
    | HostTurn(input: Input, order: seq<I32>)
    | HostHears(c: nat)
    | ClientTurn(c: nat, input: Input, order: seq<I32>)
    | ClientHears(c: nat)
    | Arrive(c: nat, n: nat)
    | ArriveUp(c: nat, n: nat)

  /** The host's task went from s.host to t.host; its history and streams follow. */
  ghost predicate HostMoved(s: System, t: System) {
    && t.history == Record(s.history, t.host.view.links.Keys)
    && |s.clients| <= |t.clients|
    && forall c :: 0 <= c < |t.clients| ==>
         t.clients[c] == Down(t.host.view, c,
                              if c < |s.clients| then s.clients[c] else NewClient(c, |t.history| - 1))
  }

  ghost predicate Next(s: System, step: Step, t: System) {
    match step
    case HostTurn(input, order) =>
      && !input.Message?
      && (input.Accepted? ==> input.conn == |s.clients|)
      && Turn(s.host, input, order, t.host)
      && HostMoved(s, t)
      && |t.clients| == |s.clients| + (if input.Accepted? then 1 else 0)
    case HostHears(c) =>
      && c < |s.clients|
      && var client := s.clients[c];
      && var messages := Heard(client.up, client.heard);
      && client.acted < |messages|
      && Turn(s.host, Message(messages[client.acted]), [], t.host)
      && HostMoved(s.(clients := s.clients[c := client.(acted := client.acted + 1)]), t)
      && |t.clients| == |s.clients|
    case ClientTurn(c, input, order) =>
      && c < |s.clients|
      && !input.Message? && !input.Accepted?
      && (exists after ::
           && Turn(Task(s.clients[c].view, FIRST_CLIENT_ID), input, order, after)
           && t == s.(clients := s.clients[c := WithView(s.clients[c], after.view)]))
    case ClientHears(c) =>
      && c < |s.clients|
      && var client := s.clients[c];
      && var messages := Heard(client.down, client.got);
      && client.applied < |messages|
      && t == s.(clients := s.clients[c := AfterHearing(client, messages[client.applied])])
    case Arrive(c, n) =>
      && c < |s.clients|
      && s.clients[c].got <= n <= |StreamBytes(CONTROL_CHANNEL, s.clients[c].down)|
      && t == s.(clients := s.clients[c := s.clients[c].(got := n)])
    case ArriveUp(c, n) =>
      && c < |s.clients|
      && s.clients[c].heard <= n <= |StreamBytes(CONTROL_CHANNEL, s.clients[c].up)|
      && t == s.(clients := s.clients[c := s.clients[c].(heard := n)])
  }

  /** Whether a packet that goes out on the control stream cannot be read there as a membership message. */
  predicate Harmless(op: Op) {
    op.channel == CONTROL_CHANNEL && (op.mode == Reliable || Oversized(op)) ==> Decode(op.data).None? && Short(op.data)
  }

  /** The same of a game's send, for every linked peer it goes to. */
  predicate Clean(links: set<I32>, input: Input) {
    input.Packet? ==>
      forall p :: p in links && Addressed(links, input.target, p) ==>
        Harmless(OpFor(input.limits, p, input.channel, input.mode, input.data))
  }

  /** What a game may send, and what an accept may find: clean packets, and a Welcome that fits. */
  predicate Tame(s: System, step: Step) {
    match step
    case HostTurn(input, _) =>
      Clean(s.host.view.links.Keys, input) && (input.Accepted? ==> |s.host.view.links| <= MAX_PEERS)
    case ClientTurn(c, input, _) => c < |s.clients| ==> Clean(s.clients[c].view.links.Keys, input)
    case _ => true
  }

  /** The id that an accept is about to hand out is free. */
  predicate FreshId(s: System, step: Step) {
    step.HostTurn? && step.input.Accepted? ==> s.host.nextId !in s.host.view.links
  }

  /** The conditions on a run. */
  predicate Allowed(s: System, step: Step) {
    Tame(s, step) && FreshId(s, step)
  }

  ghost predicate IsRun(trace: seq<System>, steps: seq<Step>) {
    && |trace| == |steps| + 1
    && trace[0] == Init()
    && forall i {:trigger steps[i]} :: 0 <= i < |steps| ==>
         Allowed(trace[i], steps[i]) && Next(trace[i], steps[i], trace[i + 1])
  }
}
