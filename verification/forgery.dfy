/** What a single packet on the reserved channel does, in a system that has kept its promises so far. */
module Forgery {
  import opened Bytes
  import opened Protocol
  import opened Control
  import opened Framing
  import opened Links
  import opened Views
  import opened Runs
  import opened Star
  import opened StarInvariant
  import opened Membership
  import LinkRuns

  // ---------- Going on from a state ----------

  /** A state that some allowed run comes to. */
  ghost predicate Reachable(s: System) {
    exists trace, steps :: IsRun(trace, steps) && trace[|steps|] == s
  }

  lemma RunGoesOn(trace: seq<System>, steps: seq<Step>, step: Step, t: System)
    requires IsRun(trace, steps) && Allowed(trace[|steps|], step) && Next(trace[|steps|], step, t)
    ensures IsRun(trace + [t], steps + [step])
  {
    var more, on := trace + [t], steps + [step];
    forall i | 0 <= i < |on|
      ensures Allowed(more[i], on[i]) && Next(more[i], on[i], more[i + 1])
    {
      if i < |steps| {
        assert more[i] == trace[i] && more[i + 1] == trace[i + 1] && on[i] == steps[i];
      }
    }
  }

  lemma Reaches(s: System, step: Step, t: System)
    requires Reachable(s) && Allowed(s, step) && Next(s, step, t)
    ensures Reachable(t)
  {
    var trace, steps :| IsRun(trace, steps) && trace[|steps|] == s;
    RunGoesOn(trace, steps, step, t);
    assert (trace + [t])[|steps + [step]|] == t;
  }

  lemma ReachableInv(s: System)
    requires Reachable(s)
    ensures Inv(s)
  {
    var trace, steps :| IsRun(trace, steps) && trace[|steps|] == s;
    RunKeeps(trace, steps, |steps|);
  }

  /** The system once its host's task has gone to `host`. */
  function HostTo(s: System, host: Task, count: nat): System {
    var history := Record(s.history, host.view.links.Keys);
    System(host,
           seq(count, c requires 0 <= c < count =>
             Down(host.view, c, if c < |s.clients| then s.clients[c] else NewClient(c, |history| - 1))),
           history)
  }

  // ---------- Catching up ----------

  /** The client has been sent nothing it has not acted on. */
  predicate CaughtUp(s: System, c: nat) {
    c < |s.clients| && s.clients[c].applied == |ControlsOf(s.clients[c].down)|
  }

  /** Only the client's reading has moved on. */
  predicate OnlyRead(s: System, c: nat, t: System) {
    && t.host == s.host && t.history == s.history && |t.clients| == |s.clients| > c
    && t.clients[c].down == s.clients[c].down
    && t.clients[c].view.links == s.clients[c].view.links
  }

  lemma HearingKeeps(client: Client, message: Control)
    ensures var after := AfterHearing(client, message);
            && after.down == client.down && after.got == client.got && after.applied == client.applied + 1
            && after.view.links == client.view.links
            && after.view.announced == ApplyTo(client.view.announced, message)
  {
    ApplyAnnounced(client.view, message);
  }

  lemma HearsNext(s: System, c: nat, message: Control)
    requires c < |s.clients|
    requires var client := s.clients[c];
             var messages := Heard(client.down, client.got);
             client.applied < |messages| && messages[client.applied] == message
    ensures Next(s, ClientHears(c), s.(clients := s.clients[c := AfterHearing(s.clients[c], message)]))
  {
  }

  lemma HearsOne(s: System, c: nat) returns (t: System)
    requires Reachable(s) && c < |s.clients| && !CaughtUp(s, c)
    requires s.clients[c].got == |StreamBytes(CONTROL_CHANNEL, s.clients[c].down)|
    ensures Reachable(t) && OnlyRead(s, c, t)
    ensures t.clients[c].got == s.clients[c].got && t.clients[c].applied == s.clients[c].applied + 1
    ensures s.clients[c].applied < |ControlsOf(s.clients[c].down)|
  {
    var client := s.clients[c];
    assert AllShort(client.down) && client.applied <= |Heard(client.down, client.got)| by {
      ReachableInv(s);
      assert Attended(s.host.view, s.history, c, client);
    }
    HeardIsPrefix(client.down, client.got);
    var message := Heard(client.down, client.got)[client.applied];
    t := s.(clients := s.clients[c := AfterHearing(client, message)]);
    HearingKeeps(client, message);
    HearsNext(s, c, message);
    Reaches(s, ClientHears(c), t);
  }

  lemma {:induction false} HearsAll(s: System, c: nat) returns (t: System)
    requires Reachable(s) && c < |s.clients|
    requires s.clients[c].got == |StreamBytes(CONTROL_CHANNEL, s.clients[c].down)|
    ensures Reachable(t) && OnlyRead(s, c, t) && CaughtUp(t, c)
    decreases |ControlsOf(s.clients[c].down)| - s.clients[c].applied
  {
    if CaughtUp(s, c) {
      t := s;
    } else {
      var u := HearsOne(s, c);
      t := HearsAll(u, c);
    }
  }

  /** Whatever is in flight, bytes arriving and messages being acted on are all a client needs to catch up. */
  lemma CatchUp(s: System, c: nat) returns (t: System)
    requires Reachable(s) && c < |s.clients|
    ensures Reachable(t) && OnlyRead(s, c, t) && CaughtUp(t, c)
  {
    ReachableInv(s);
    var n := |StreamBytes(CONTROL_CHANNEL, s.clients[c].down)|;
    var u := s.(clients := s.clients[c := s.clients[c].(got := n)]);
    assert Attended(s.host.view, s.history, c, s.clients[c]);
    Reaches(s, Arrive(c, n), u);
    t := HearsAll(u, c);
  }

  // ---------- The packet ----------

  /** A game's packet to one peer that says another has left. */
  function Forged(c: nat, gone: I32): Input {
    Input.Packet(IdAt(c), CONTROL_CHANNEL, Reliable, Encode(PeerLeft(gone)), map[])
  }

  lemma ForgedTurn(a: Task, c: nat, gone: I32) returns (b: Task)
    requires Live(a.view, c)
    ensures Turn(a, Forged(c, gone), [IdAt(c)], b)
    ensures b.view.links.Keys == a.view.links.Keys && Live(b.view, c)
    ensures ControlFrames(b.view.links[IdAt(c)])
            == ControlFrames(a.view.links[IdAt(c)]) + [Encode(PeerLeft(gone))]
  {
    var input, order := Forged(c, gone), [IdAt(c)];
    IdIsNotHost(c);
    b := a.(view := SendEach(a.view, order, input.channel, input.mode, input.data, input.limits));
    PacketEffect(a.view, input, order);
    assert order[0] == IdAt(c);
    assert IsOrder(order, Route(a.view.links.Keys, IdAt(c)));
  }

  lemma HearsForged(down: seq<Bytes>, gone: I32)
    requires AllShort(down)
    ensures var after := down + [Encode(PeerLeft(gone))];
            Heard(after, |StreamBytes(CONTROL_CHANNEL, after)|) == ControlsOf(down) + [PeerLeft(gone)]
  {
    ControlAdds(PeerLeft(gone));
    MapSomeConcat(Decode, down, [Encode(PeerLeft(gone))]);
    var after := down + [Encode(PeerLeft(gone))];
    HeardIsPrefix(after, |StreamBytes(CONTROL_CHANNEL, after)|);
  }

  lemma SendsForged(s: System, c: nat, gone: I32) returns (t: System)
    requires c < |s.clients| && Live(s.host.view, c) && s.history != []
    requires s.history[|s.history| - 1] == s.host.view.links.Keys
    requires s.clients[c].down == ControlFrames(s.host.view.links[IdAt(c)])
    ensures Next(s, HostTurn(Forged(c, gone), [IdAt(c)]), t)
    ensures t.host.view.links.Keys == s.host.view.links.Keys && |t.clients| == |s.clients|
    ensures t.clients[c] == s.clients[c].(down := s.clients[c].down + [Encode(PeerLeft(gone))])
  {
    var host := ForgedTurn(s.host, c, gone);
    t := HostTo(s, host, |s.clients|);
  }

  lemma ForgedIsNotTame(s: System, c: nat, gone: I32)
    requires Live(s.host.view, c)
    ensures !Tame(s, HostTurn(Forged(c, gone), [IdAt(c)]))
  {
    RoundTripIff(PeerLeft(gone));
    IdIsNotHost(c);
    assert Addressed(s.host.view.links.Keys, IdAt(c), IdAt(c));
    assert !Harmless(OpFor(map[], IdAt(c), CONTROL_CHANNEL, Reliable, Encode(PeerLeft(gone))));
  }

  /** The packet arrives and is acted on. */
  lemma ForgedApplied(sent: System, c: nat, down: seq<Bytes>, gone: I32) returns (arrived: System, applied: System)
    requires c < |sent.clients| && AllShort(down)
    requires sent.clients[c].down == down + [Encode(PeerLeft(gone))]
    requires sent.clients[c].applied == |ControlsOf(down)|
    requires sent.clients[c].got <= |StreamBytes(CONTROL_CHANNEL, down)|
    ensures |arrived.clients| == |applied.clients| == |sent.clients| && applied.host == sent.host
    ensures Next(sent, Arrive(c, arrived.clients[c].got), arrived)
    ensures Next(arrived, ClientHears(c), applied)
    ensures applied.clients[c].view.announced == sent.clients[c].view.announced - {gone}
  {
    var client := sent.clients[c];
    var n := |StreamBytes(CONTROL_CHANNEL, client.down)|;
    StreamGrows(down, [Encode(PeerLeft(gone))]);
    HearsForged(down, gone);
    arrived := sent.(clients := sent.clients[c := client.(got := n)]);
    HearsNext(arrived, c, PeerLeft(gone));
    HearingKeeps(arrived.clients[c], PeerLeft(gone));
    applied := arrived.(clients := arrived.clients[c := AfterHearing(arrived.clients[c], PeerLeft(gone))]);
  }

  /**
    Sent to any client the host holds, when it has caught up, about any other peer the host holds: the
    client drops that peer, and the host, whose links are as they were, still holds it.
   */
  lemma ForgedDeparture(s: System, c: nat, gone: I32) returns (sent: System, arrived: System, applied: System)
    requires Inv(s) && CaughtUp(s, c) && Live(s.host.view, c) && gone in s.host.view.links
    ensures !Tame(s, HostTurn(Forged(c, gone), [IdAt(c)]))
    ensures Next(s, HostTurn(Forged(c, gone), [IdAt(c)]), sent)
    ensures |arrived.clients| == |applied.clients| == |s.clients|
    ensures Next(sent, Arrive(c, arrived.clients[c].got), arrived)
    ensures Next(arrived, ClientHears(c), applied)
    ensures applied.host.view.links.Keys == s.host.view.links.Keys
    ensures applied.clients[c].view.announced == s.clients[c].view.announced - {gone}
    ensures gone in applied.host.view.links && gone !in applied.clients[c].view.announced
  {
    var client := s.clients[c];
    assert Attended(s.host.view, s.history, c, client);
    ForgedIsNotTame(s, c, gone);
    sent := SendsForged(s, c, gone);
    arrived, applied := ForgedApplied(sent, c, client.down, gone);
    assert gone in applied.host.view.links.Keys;
  }

  // ---------- One such run ----------

  lemma AcceptNext(s: System, order: seq<I32>) returns (t: System)
    requires IsOrder(order, s.host.view.links.Keys)
    ensures Next(s, HostTurn(Accepted(|s.clients|), order), t)
    ensures |t.clients| == |s.clients| + 1
    ensures t.host.view.links.Keys == s.host.view.links.Keys + {s.host.nextId}
    ensures t.host.nextId == NextId(s.host.nextId)
    ensures forall c :: 0 <= c < |s.clients| ==> t.clients[c].view == s.clients[c].view
    ensures t.clients[|s.clients|].view == ClientStart(|s.clients|)
  {
    var n := |s.clients|;
    var host := Task(Greet(s.host.view, s.host.nextId, n, order), NextId(s.host.nextId));
    LinkRuns.TurnKeys(s.host, Accepted(n), order, host);
    t := HostTo(s, host, n + 1);
    assert t.clients[n] == Down(host.view, n, NewClient(n, |t.history| - 1));
  }

  lemma TwoJoin() returns (s: System)
    ensures Reachable(s) && |s.clients| == 2 && s.host.view.links.Keys == {2, 3}
    ensures s.clients[0].view == ClientStart(0)
  {
    assert IsRun([Init()], []);
    assert Reachable(Init());
    var one := AcceptNext(Init(), []);
    Reaches(Init(), HostTurn(Accepted(0), []), one);
    var order: seq<I32> := [2];
    assert order[0] == 2 && one.host.view.links.Keys == {2};
    s := AcceptNext(one, order);
    assert |one.host.view.links| == |one.host.view.links.Keys|;
    assert Allowed(one, HostTurn(Accepted(1), order));
    Reaches(one, HostTurn(Accepted(1), order), s);
  }

  lemma FirstIsLive(s: System)
    requires Inv(s) && |s.clients| == 2 && 2 in s.host.view.links
    ensures IdAt(0) == 2 && Live(s.host.view, 0)
  {
    assert 2 == IdAt(s.host.view.links[2].conn);
  }

  lemma ShowsOther(s: System)
    requires Inv(s) && CaughtUp(s, 0) && Live(s.host.view, 0) && s.host.view.links.Keys == {2, 3}
    requires HOST_ID in s.clients[0].view.links
    ensures s.clients[0].view.announced == {HOST_ID, 3}
  {
    var client := s.clients[0];
    Converges(s, 0);
    assert ControlsOf(client.down)[client.applied..] == [];
    assert IdAt(0) == 2;
    var shown := client.view.announced;
    assert shown - {HOST_ID} == {3} && HOST_ID in shown;
    assert shown == (shown - {HOST_ID}) + {HOST_ID};
  }

  /**
    Two clients join, the first catches up and shows the second, peer 3; then one packet from the host's
    game makes it drop peer 3, which the host still holds.
   */
  lemma ForgedExample() returns (s: System, sent: System, arrived: System, applied: System)
    ensures |s.clients| == |arrived.clients| == |applied.clients| == 2
    ensures Reachable(s) && s.host.view.links.Keys == {2, 3} && s.clients[0].view.announced == {HOST_ID, 3}
    ensures Next(s, HostTurn(Forged(0, 3), [2]), sent)
    ensures Next(sent, Arrive(0, arrived.clients[0].got), arrived) && Next(arrived, ClientHears(0), applied)
    ensures applied.host.view.links.Keys == {2, 3} && applied.clients[0].view.announced == {HOST_ID}
  {
    var joined := TwoJoin();
    s := CatchUp(joined, 0);
    ReachableInv(s);
    FirstIsLive(s);
    ShowsOther(s);
    assert 3 in s.host.view.links.Keys;
    sent, arrived, applied := ForgedDeparture(s, 0, 3);
  }
}
