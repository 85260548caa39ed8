/** What the invariant means for membership, over every run. */
module Membership {
  import opened Bytes
  import opened Protocol
  import opened Control
  import opened Framing
  import opened Links
  import opened Views
  import opened Runs
  import opened Star
  import opened StarInvariant
  import opened Notices
  import opened LinkRuns

  // ---------- Over whole runs ----------

  lemma {:induction false} RunKeeps(trace: seq<System>, steps: seq<Step>, i: nat)
    requires IsRun(trace, steps) && i < |trace|
    ensures Inv(trace[i])
  {
    if i > 0 {
      RunKeeps(trace, steps, i - 1);
      StepKeeps(trace[i - 1], steps[i - 1], trace[i]);
    }
  }

  /** A step leaves the past alone, and moves each client on by at most one message. */
  ghost predicate MovesOn(s: System, t: System) {
    && s.history <= t.history
    && |s.clients| <= |t.clients|
    && forall c :: 0 <= c < |s.clients| ==>
         && t.clients[c].joined == s.clients[c].joined
         && s.clients[c].applied <= t.clients[c].applied
  }

  lemma HostMovesOn(s: System, t: System)
    requires HostMoved(s, t)
    ensures MovesOn(s, t)
    ensures forall c :: 0 <= c < |s.clients| ==> t.clients[c].applied == s.clients[c].applied
  {
  }

  lemma StepMovesOn(s: System, step: Step, t: System)
    requires Next(s, step, t)
    ensures MovesOn(s, t)
    ensures t.history == Record(s.history, t.host.view.links.Keys) || (t.history == s.history && t.host == s.host)
    ensures forall c :: 0 <= c < |s.clients| ==> t.clients[c].applied <= s.clients[c].applied + 1
  {
    match step
    case HostTurn(_, _) => HostMovesOn(s, t);
    case HostHears(c) =>
      HostMovesOn(s.(clients := s.clients[c := s.clients[c].(acted := s.clients[c].acted + 1)]), t);
    case _ =>
  }

  lemma MovesFurther(s: System, t: System, u: System)
    requires MovesOn(s, t) && MovesOn(t, u)
    ensures MovesOn(s, u)
  {
  }

  /** Along a run the host's history only grows, and every client goes through it in order. */
  lemma {:induction false} HistoryInOrder(trace: seq<System>, steps: seq<Step>, i: nat, j: nat)
    requires IsRun(trace, steps) && i <= j < |trace|
    ensures MovesOn(trace[i], trace[j])
    decreases j
  {
    if i < j {
      HistoryInOrder(trace, steps, i, j - 1);
      StepMovesOn(trace[j - 1], steps[j - 1], trace[j]);
      MovesFurther(trace[i], trace[j - 1], trace[j]);
    }
  }

  /** Every entry of the history is the set of links the host really had, at some state so far. */
  lemma {:induction false} HistoryIsPast(trace: seq<System>, steps: seq<Step>, i: nat, k: nat) returns (j: nat)
    requires IsRun(trace, steps) && i < |trace| && k < |trace[i].history|
    ensures j <= i && trace[j].host.view.links.Keys == trace[i].history[k]
  {
    if i == 0 {
      j := 0;
    } else {
      StepMovesOn(trace[i - 1], steps[i - 1], trace[i]);
      if k < |trace[i - 1].history| {
        j := HistoryIsPast(trace, steps, i - 1, k);
      } else {
        j := i;
      }
    }
  }

  lemma ShowsItsPlace(s: System, c: nat)
    requires Inv(s) && c < |s.clients| && s.clients[c].applied > 0
    ensures var client := s.clients[c];
            && client.joined + client.applied <= |s.history|
            && var others := s.history[client.joined + client.applied - 1] - {IdAt(c)};
            && client.view.announced - {HOST_ID} == others
            && (HOST_ID in client.view.links ==> client.view.announced == {HOST_ID} + others)
            && IdAt(c) !in client.view.announced && PeerConnected(IdAt(c)) !in client.view.events
  {
    var client := s.clients[c];
    var others := s.history[client.joined + client.applied - 1] - {IdAt(c)};
    IdIsNotHost(c);
    assert ClientOk(s.history, c, client);
    assert IdAt(c) !in client.view.announced - {HOST_ID};
    assert HOST_ID in client.view.announced ==>
        client.view.announced == {HOST_ID} + (client.view.announced - {HOST_ID});
  }

  /**
    A client that has applied its Welcome, and not lost its host, shows the host and everyone else
    the host had at some past moment, never itself. Having lost its host changes only whether the
    host is shown.
   */
  lemma ViewsArePast(trace: seq<System>, steps: seq<Step>, i: nat, c: nat)
    requires IsRun(trace, steps) && i < |trace| && c < |trace[i].clients| && trace[i].clients[c].applied > 0
    ensures var v := trace[i].clients[c].view;
            && IdAt(c) !in v.announced
            && PeerConnected(IdAt(c)) !in v.events
            && exists j :: && 0 <= j <= i
                           && var others := trace[j].host.view.links.Keys - {IdAt(c)};
                           && v.announced - {HOST_ID} == others
                           && (HOST_ID in v.links ==> v.announced == {HOST_ID} + others)
  {
    RunKeeps(trace, steps, i);
    ShowsItsPlace(trace[i], c);
    var client := trace[i].clients[c];
    var j := HistoryIsPast(trace, steps, i, client.joined + client.applied - 1);
    var others := trace[j].host.view.links.Keys - {IdAt(c)};
    assert client.view.announced - {HOST_ID} == others;
  }

  /**
    Where a client is in the host's history: its first message is its own accept, every later one
    is the next change of the host's links, and it is applied in its turn.
   */
  lemma OneMessagePerChange(trace: seq<System>, steps: seq<Step>, i: nat, c: nat)
    requires IsRun(trace, steps) && i < |trace| && c < |trace[i].clients|
    ensures var s, client := trace[i], trace[i].clients[c];
            var sent := ControlsOf(client.down);
            && Told(s.history, client.joined, IdAt(c), sent)
            && client.applied <= |sent|
            && Heard(client.down, client.got) <= sent
            && (client.applied > 0 ==> client.view.announced - {HOST_ID}
                                       == s.history[client.joined + client.applied - 1] - {IdAt(c)})
            && (Live(s.host.view, c) ==> client.joined + |sent| == |s.history|)
  {
    RunKeeps(trace, steps, i);
    HeardIsPrefix(trace[i].clients[c].down, trace[i].clients[c].got);
  }

  function FoldApply(announced: set<I32>, messages: seq<Control>): set<I32> {
    if messages == [] then announced
    else ApplyTo(FoldApply(announced, messages[..|messages| - 1]), messages[|messages| - 1])
  }

  lemma {:induction false} FoldAdvances(history: seq<set<I32>>, joined: nat, id: I32, sent: seq<Control>,
                                        announced: set<I32>, k: nat, m: nat)
    requires Told(history, joined, id, sent) && id != HOST_ID
    requires forall i :: 0 <= i < |history| ==> HOST_ID !in history[i]
    requires k <= m <= |sent|
    requires k == 0 ==> announced == {}
    requires k > 0 ==> announced - {HOST_ID} == history[joined + k - 1] - {id}
    ensures var shown := FoldApply(announced, sent[k..m]);
            && (m == 0 ==> shown == {})
            && (m > 0 ==> shown - {HOST_ID} == history[joined + m - 1] - {id})
            && (m > 0 && (k == 0 || HOST_ID in announced) ==> HOST_ID in shown)
    decreases m
  {
    if m > k {
      assert sent[k..m][..m - 1 - k] == sent[k..m - 1];
      FoldAdvances(history, joined, id, sent, announced, k, m - 1);
      Advance(history, joined, id, sent, m - 1, FoldApply(announced, sent[k..m - 1]));
    }
  }

  lemma AllToldConverges(history: seq<set<I32>>, joined: nat, id: I32, sent: seq<Control>, announced: set<I32>, k: nat)
    requires Told(history, joined, id, sent) && id != HOST_ID && k <= |sent|
    requires joined + |sent| == |history|
    requires forall i :: 0 <= i < |history| ==> HOST_ID !in history[i]
    requires k == 0 ==> announced == {}
    requires k > 0 ==> announced - {HOST_ID} == history[joined + k - 1] - {id}
    ensures var shown := FoldApply(announced, sent[k..]);
            && shown - {HOST_ID} == history[|history| - 1] - {id}
            && (k == 0 || HOST_ID in announced ==> HOST_ID in shown)
  {
    FoldAdvances(history, joined, id, sent, announced, k, |sent|);
    assert sent[k..|sent|] == sent[k..];
  }

  lemma LiveConverges(host: Task, count: nat, history: seq<set<I32>>, c: nat, client: Client)
    requires HostOk(host, count, history) && Attended(host.view, history, c, client) && Live(host.view, c)
    ensures var sent := ControlsOf(client.down);
            && client.applied <= |sent|
            && FoldApply(client.view.announced, sent[client.applied..]) - {HOST_ID}
               == host.view.links.Keys - {IdAt(c)}
            && (HOST_ID in client.view.links ==>
                  HOST_ID in FoldApply(client.view.announced, sent[client.applied..]))
  {
    var sent := ControlsOf(client.down);
    assert client.applied <= |sent| by {
      HeardIsPrefix(client.down, client.got);
    }
    IdIsNotHost(c);
    AllToldConverges(history, client.joined, IdAt(c), sent, client.view.announced, client.applied);
  }

  lemma Converges(s: System, c: nat)
    requires Inv(s) && c < |s.clients| && Live(s.host.view, c)
    ensures var client := s.clients[c];
            var sent := ControlsOf(client.down);
            && client.applied <= |sent|
            && FoldApply(client.view.announced, sent[client.applied..]) - {HOST_ID}
               == s.host.view.links.Keys - {IdAt(c)}
            && (HOST_ID in client.view.links ==>
                  HOST_ID in FoldApply(client.view.announced, sent[client.applied..]))
  {
    var v, history, client := s.host.view, s.history, s.clients[c];
    assert HostOk(s.host, |s.clients|, history) && Attended(v, history, c, client);
    LiveConverges(s.host, |s.clients|, history, c, client);
  }

  /**
    For every client the host still holds, what it shows plus what it has yet to apply comes to
    exactly who the host holds now, so once it has applied everything the two agree.
   */
  lemma InFlight(trace: seq<System>, steps: seq<Step>, i: nat, c: nat)
    requires IsRun(trace, steps) && i < |trace| && c < |trace[i].clients| && Live(trace[i].host.view, c)
    ensures var s, client := trace[i], trace[i].clients[c];
            var sent := ControlsOf(client.down);
            var others := s.host.view.links.Keys - {IdAt(c)};
            && client.applied <= |sent|
            && FoldApply(client.view.announced, sent[client.applied..]) - {HOST_ID} == others
            && (HOST_ID in client.view.links ==>
                  && FoldApply(client.view.announced, sent[client.applied..]) == {HOST_ID} + others
                  && (client.applied == |sent| ==> client.view.announced == {HOST_ID} + others))
  {
    RunKeeps(trace, steps, i);
    Converges(trace[i], c);
    var client := trace[i].clients[c];
    var sent := ControlsOf(client.down);
    var shown := FoldApply(client.view.announced, sent[client.applied..]);
    assert HOST_ID !in trace[i].host.view.links.Keys - {IdAt(c)} by {
      assert HOST_ID !in trace[i].history[|trace[i].history| - 1];
    }
    assert HOST_ID in shown ==> shown == {HOST_ID} + (shown - {HOST_ID});
    assert client.applied == |sent| ==> sent[client.applied..] == [];
  }

  /** On the host, links, announced peers and shared connections agree at every state of every run. */
  lemma HostAgrees(trace: seq<System>, steps: seq<Step>, i: nat)
    requires IsRun(trace, steps) && i < |trace|
    ensures Mirrored(trace[i].host.view)
    ensures trace[i].host.nextId == IdAt(|trace[i].clients|)
    ensures forall c :: 0 <= c < |trace[i].clients| ==>
              Heard(trace[i].clients[c].up, trace[i].clients[c].heard) == []
  {
    RunKeeps(trace, steps, i);
    forall c | 0 <= c < |trace[i].clients|
      ensures Heard(trace[i].clients[c].up, trace[i].clients[c].heard) == []
    {
      HostHearsNothing(trace[i], c);
    }
  }

  // ---------- What each game is told of its own id ----------

  function ReadyIds(v: View): seq<I32> {
    MapSome(ReadyId, v.events)
  }

  ghost predicate KnowsItself(c: nat, client: Client) {
    ReadyIds(client.view) == if client.applied == 0 then [] else [IdAt(c)]
  }

  ghost predicate AllKnow(s: System) {
    && ReadyIds(s.host.view) == [HOST_ID]
    && forall c :: 0 <= c < |s.clients| ==> KnowsItself(c, s.clients[c])
  }

  lemma HostTurnKnows(s: System, input: Input, order: seq<I32>, t: System)
    requires AllKnow(s) && Next(s, HostTurn(input, order), t)
    ensures AllKnow(t)
  {
    TurnTells(ReadyId, s.host, input, order, t.host);
    NotReady(s.host, input);
    forall c | 0 <= c < |t.clients|
      ensures KnowsItself(c, t.clients[c])
    {
      assert c < |s.clients| ==> KnowsItself(c, s.clients[c]);
      assert c >= |s.clients| ==> t.clients[c].view == ClientStart(c) && t.clients[c].applied == 0;
    }
  }

  /** Only a Welcome makes a session ready. */
  lemma NotReady(a: Task, input: Input)
    requires !input.Message?
    ensures MapSome(ReadyId, Due(a, input)) == []
    ensures forall ids: seq<I32> :: ids + MapSome(ReadyId, Due(a, input)) == ids
  {
    if Due(a, input) != [] {
      MapSomeOne(ReadyId, Due(a, input)[0]);
    }
  }

  lemma ClientTurnKnows(s: System, c: nat, input: Input, order: seq<I32>, t: System)
    requires AllKnow(s) && Next(s, ClientTurn(c, input, order), t)
    ensures AllKnow(t)
  {
    var before := Task(s.clients[c].view, FIRST_CLIENT_ID);
    var after :| Turn(before, input, order, after)
                 && t == s.(clients := s.clients[c := WithView(s.clients[c], after.view)]);
    TurnTells(ReadyId, before, input, order, after);
    NotReady(before, input);
    assert KnowsItself(c, s.clients[c]);
  }

  /** The message is the Welcome of this very client, when it is the first, and word of another client when not. */
  ghost predicate Meant(c: nat, first: bool, message: Control) {
    match message
    case Welcome(yourId, _) => first && yourId == IdAt(c)
    case PeerJoined(id) => !first && id != HOST_ID
    case PeerLeft(id) => !first && id != HOST_ID
  }

  lemma NextIsMeant(history: seq<set<I32>>, c: nat, client: Client)
    requires ClientOk(history, c, client) && client.applied < |Heard(client.down, client.got)|
    requires forall i :: 0 <= i < |history| ==> HOST_ID !in history[i]
    ensures Meant(c, client.applied == 0, Heard(client.down, client.got)[client.applied])
  {
    var sent, k := ControlsOf(client.down), client.applied;
    assert k < |sent| && sent[k] == Heard(client.down, client.got)[k] by {
      HeardIsPrefix(client.down, client.got);
    }
    ToldIsMeant(history, client.joined, c, sent, k);
  }

  lemma ToldIsMeant(history: seq<set<I32>>, joined: nat, c: nat, sent: seq<Control>, k: nat)
    requires Told(history, joined, IdAt(c), sent) && k < |sent|
    requires forall i :: 0 <= i < |history| ==> HOST_ID !in history[i]
    ensures Meant(c, k == 0, sent[k])
  {
    if k == 0 {
      assert Greeted(history, joined, IdAt(c), sent[0]);
    } else {
      assert Moved(history, joined + k, IdAt(c), sent[k]);
      assert HOST_ID !in history[joined + k - 1] && HOST_ID !in history[joined + k];
    }
  }

  lemma HeardKnows(c: nat, client: Client, message: Control)
    requires KnowsItself(c, client) && Meant(c, client.applied == 0, message)
    ensures ReadyIds(Apply(client.view, message)) == [IdAt(c)]
  {
    ApplyPicks(ReadyId, client.view, message);
    MapSomeOne(ReadyId, Ready(IdAt(c)));
    NoMore(ReadyIds(client.view));
  }

  lemma ClientHearsKnows(s: System, c: nat, t: System)
    requires Inv(s) && AllKnow(s) && Next(s, ClientHears(c), t)
    ensures AllKnow(t)
  {
    NextIsMeant(s.history, c, s.clients[c]);
    HeardKnows(c, s.clients[c], Heard(s.clients[c].down, s.clients[c].got)[s.clients[c].applied]);
  }

  lemma StepKnows(s: System, step: Step, t: System)
    requires Inv(s) && AllKnow(s) && Next(s, step, t)
    ensures AllKnow(t)
  {
    match step
    case HostTurn(input, order) => HostTurnKnows(s, input, order, t);
    case HostHears(c) => HostHearsNothing(s, c);
    case ClientTurn(c, input, order) => ClientTurnKnows(s, c, input, order, t);
    case ClientHears(c) => ClientHearsKnows(s, c, t);
    case Arrive(c, _) => assert KnowsItself(c, s.clients[c]);
    case ArriveUp(c, _) => assert KnowsItself(c, s.clients[c]);
  }

  lemma StartKnows()
    ensures AllKnow(Init())
  {
    MapSomeOne(ReadyId, Ready(HOST_ID));
  }

  lemma KnowsOn(trace: seq<System>, steps: seq<Step>, i: nat)
    requires IsRun(trace, steps) && i < |steps| && AllKnow(trace[i])
    ensures AllKnow(trace[i + 1])
  {
    RunKeeps(trace, steps, i);
    StepKnows(trace[i], steps[i], trace[i + 1]);
  }

  lemma {:induction false} RunKnows(trace: seq<System>, steps: seq<Step>, i: nat)
    requires IsRun(trace, steps) && i < |trace|
    ensures AllKnow(trace[i])
  {
    if i == 0 {
      StartKnows();
    } else {
      RunKnows(trace, steps, i - 1);
      KnowsOn(trace, steps, i - 1);
    }
  }

  /**
    In every run a client's game is told once that it is ready, when it has its Welcome, under the very
    id its accept handed out; and the host's game once, under the host's.
   */
  lemma OwnIdTold(trace: seq<System>, steps: seq<Step>, i: nat, c: nat)
    requires IsRun(trace, steps) && i < |trace| && c < |trace[i].clients|
    ensures ReadyIds(trace[i].host.view) == [HOST_ID]
    ensures var client := trace[i].clients[c];
            ReadyIds(client.view) == if client.applied == 0 then [] else [IdAt(c)]
  {
    RunKnows(trace, steps, i);
    assert KnowsItself(c, trace[i].clients[c]);
  }

  // ---------- When a client shows its host ----------

  /** A step of a client: its host never comes back, is not shown once it goes, and is shown from the Welcome on. */
  ghost predicate HostFollows(a: Client, b: Client) {
    && (HOST_ID in b.view.links ==> HOST_ID in a.view.links)
    && a.applied <= b.applied
    && (a.applied > 0 ==>
          (HOST_ID in b.view.announced
           <==> HOST_ID in a.view.announced && (HOST_ID in b.view.links || HOST_ID !in a.view.links)))
    && (a.applied == 0 && b.applied > 0 ==>
          HOST_ID in b.view.announced && (HOST_ID in b.view.links <==> HOST_ID in a.view.links))
  }

  lemma HeardHost(c: nat, first: bool, v: View, message: Control)
    requires Meant(c, first, message)
    ensures Apply(v, message).links == v.links
    ensures HOST_ID in Apply(v, message).announced <==> first || HOST_ID in v.announced
  {
    ApplyAnnounced(v, message);
  }

  lemma ClientHearsHost(s: System, d: nat, t: System, c: nat)
    requires Inv(s) && Next(s, ClientHears(d), t) && c < |s.clients|
    ensures HostFollows(s.clients[c], t.clients[c])
  {
    var client := s.clients[d];
    NextIsMeant(s.history, d, client);
    HeardHost(d, client.applied == 0, client.view, Heard(client.down, client.got)[client.applied]);
  }

  lemma ClientTurnHost(s: System, c: nat, input: Input, order: seq<I32>, t: System)
    requires Inv(s) && Next(s, ClientTurn(c, input, order), t)
    ensures HostFollows(s.clients[c], t.clients[c])
  {
    var before := Task(s.clients[c].view, FIRST_CLIENT_ID);
    var after :| Turn(before, input, order, after)
                 && t == s.(clients := s.clients[c := WithView(s.clients[c], after.view)]);
    TurnShows(before, input, order, after);
    TurnKeys(before, input, order, after);
    assert Attended(s.host.view, s.history, c, s.clients[c]);
  }

  lemma ElsewhereHost(s: System, step: Step, t: System, c: nat)
    requires Next(s, step, t) && c < |s.clients| && (step.HostTurn? || step.Arrive? || step.ArriveUp?)
    ensures HostFollows(s.clients[c], t.clients[c])
  {
    if step.HostTurn? {
      assert t.clients[c] == Down(t.host.view, c, s.clients[c]);
    }
  }

  lemma StepHost(s: System, step: Step, t: System, c: nat)
    requires Inv(s) && Next(s, step, t) && c < |s.clients|
    ensures HostFollows(s.clients[c], t.clients[c])
  {
    match step
    case HostHears(d) => HostHearsNothing(s, d);
    case ClientTurn(d, input, order) => ClientTurnHost(s, d, input, order, t);
    case ClientHears(d) => ClientHearsHost(s, d, t, c);
    case _ => ElsewhereHost(s, step, t, c);
  }

  lemma RunHost(trace: seq<System>, steps: seq<Step>, i: nat, c: nat)
    requires IsRun(trace, steps) && 0 < i < |trace| && c < |trace[i - 1].clients|
    ensures c < |trace[i].clients| && HostFollows(trace[i - 1].clients[c], trace[i].clients[c])
  {
    RunKeeps(trace, steps, i - 1);
    StepMovesOn(trace[i - 1], steps[i - 1], trace[i]);
    StepHost(trace[i - 1], steps[i - 1], trace[i], c);
  }

  /** The client lost its host before it acted on its Welcome. */
  ghost predicate LostEarly(trace: seq<System>, i: nat, c: nat) {
    exists j :: 0 <= j <= i < |trace| && c < |trace[j].clients|
                && trace[j].clients[c].applied == 0 && HOST_ID !in trace[j].clients[c].view.links
  }

  lemma {:induction false} LinkedThroughout(trace: seq<System>, steps: seq<Step>, i: nat, c: nat)
    requires IsRun(trace, steps) && i < |trace| && c < |trace[i].clients|
    requires HOST_ID in trace[i].clients[c].view.links
    ensures !LostEarly(trace, i, c)
  {
    if i > 0 && c < |trace[i - 1].clients| {
      RunHost(trace, steps, i, c);
      LinkedThroughout(trace, steps, i - 1, c);
    } else if i > 0 {
      NotYet(trace, steps, i - 1, c);
    }
  }

  /** Before a client's accept there is nothing of it. */
  lemma NotYet(trace: seq<System>, steps: seq<Step>, i: nat, c: nat)
    requires IsRun(trace, steps) && i < |trace| && c >= |trace[i].clients|
    ensures forall j :: 0 <= j <= i ==> c >= |trace[j].clients|
  {
    forall j | 0 <= j <= i
      ensures c >= |trace[j].clients|
    {
      HistoryInOrder(trace, steps, j, i);
    }
  }

  lemma LostBefore(trace: seq<System>, i: nat, c: nat)
    requires 0 < i < |trace| && c < |trace[i].clients| && trace[i].clients[c].applied > 0
    ensures LostEarly(trace, i, c) <==> LostEarly(trace, i - 1, c)
  {
    if LostEarly(trace, i, c) {
      var j :| 0 <= j <= i && c < |trace[j].clients|
               && trace[j].clients[c].applied == 0 && HOST_ID !in trace[j].clients[c].view.links;
      assert j <= i - 1;
    }
  }

  /** A client has acted on nothing yet when its accept is made. */
  lemma NewIsNew(s: System, step: Step, t: System, c: nat)
    requires Next(s, step, t) && |s.clients| <= c < |t.clients|
    ensures t.clients[c].applied == 0
  {
  }

  /**
    A client that has acted on its Welcome shows its host exactly while it holds the link to it; except
    that one which lost its host before its Welcome shows it from then on, with no link to it.
   */
  lemma {:induction false} HostShownIff(trace: seq<System>, steps: seq<Step>, i: nat, c: nat)
    requires IsRun(trace, steps) && i < |trace| && c < |trace[i].clients| && trace[i].clients[c].applied > 0
    ensures var v := trace[i].clients[c].view;
            HOST_ID in v.announced <==> HOST_ID in v.links || LostEarly(trace, i, c)
  {
    var s, t := trace[i - 1], trace[i];
    if c >= |s.clients| {
      NewIsNew(s, steps[i - 1], t, c);
    } else {
      RunHost(trace, steps, i, c);
      LostBefore(trace, i, c);
      if s.clients[c].applied > 0 {
        HostShownIff(trace, steps, i - 1, c);
      }
      if HOST_ID in s.clients[c].view.links {
        LinkedThroughout(trace, steps, i - 1, c);
      }
    }
  }

  // ---------- When the conditions hold, and what happens when they do not ----------

  /** Through the first 2^31 - 2 accepts the next id is always free. */
  lemma FreshWithinBudget(trace: seq<System>, steps: seq<Step>, i: nat)
    requires IsRun(trace, steps) && i < |trace| && |trace[i].clients| < 0x7fff_fffe
    ensures trace[i].host.nextId !in trace[i].host.view.links
  {
    RunKeeps(trace, steps, i);
    var s := trace[i];
    forall id | id in s.host.view.links
      ensures id != s.host.nextId
    {
      var conn := s.host.view.links[id].conn;
      assert conn % 0x7fff_fffe == conn && |s.clients| % 0x7fff_fffe == |s.clients|;
    }
  }

  /** The newcomer is told of itself, and shows itself, exactly when its id was still taken. */
  lemma ShowsItselfIff(v: View, peer: I32, conn: nat, order: seq<I32>)
    requires IsOrder(order, v.links.Keys) && peer >= FIRST_CLIENT_ID
    ensures peer in Apply(ClientStart(conn), Control.Welcome(peer, order)).announced <==> peer in v.links
  {
    ApplyAnnounced(ClientStart(conn), Control.Welcome(peer, order));
  }

  lemma {:induction false} ClientsStay(trace: seq<System>, steps: seq<Step>, i: nat, j: nat)
    requires |trace| == |steps| + 1 && i <= j < |trace|
    requires forall k :: 0 <= k < |steps| ==> Next(trace[k], steps[k], trace[k + 1])
    ensures |trace[i].clients| <= |trace[j].clients|
    decreases j
  {
    if i < j {
      ClientsStay(trace, steps, i, j - 1);
      StepMovesOn(trace[j - 1], steps[j - 1], trace[j]);
    }
  }

  /** So with at most 2^31 - 2 accepts, clean packets and Welcomes that fit are all a run needs. */
  lemma {:induction false} BudgetSuffices(trace: seq<System>, steps: seq<Step>)
    requires |trace| == |steps| + 1 && trace[0] == Init()
    requires forall i :: 0 <= i < |steps| ==> Tame(trace[i], steps[i]) && Next(trace[i], steps[i], trace[i + 1])
    requires |trace[|steps|].clients| <= 0x7fff_fffe
    ensures IsRun(trace, steps)
  {
    if steps != [] {
      var n := |steps| - 1;
      ClientsStay(trace, steps, n, n + 1);
      BudgetSuffices(trace[..n + 1], steps[..n]);
      if steps[n].HostTurn? && steps[n].input.Accepted? {
        FreshWithinBudget(trace[..n + 1], steps[..n], n);
      }
      forall i | 0 <= i < n
        ensures Allowed(trace[i], steps[i])
      {
        assert Allowed(trace[..n + 1][i], steps[..n][i]);
      }
    }
  }
}
