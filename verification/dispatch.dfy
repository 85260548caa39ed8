/** The registry that routes inbound connections by protocol name, one locked section at a time. */
module Dispatch {
  import opened Bytes

  /** A held name. Registrations are numbered in the order they are made. */
  datatype Claim = Claim(registration: nat, alpn: Bytes)

  datatype Route = Routed(registration: nat) | Refused | NoListener

  /**
    `protocols` is the registry; `claims` are the claims still held, by registration; `refusing` the
    registrations whose flag is up.
   */
  datatype Registry = Registry(
    protocols: map<Bytes, nat>,
    claims: map<nat, Bytes>,
    made: nat,
    refusing: set<nat>)

  // ---------- What each operation does ----------

  function Empty(): Registry {
    Registry(map[], map[], 0, {})
  }

  function AfterRegister(r: Registry, alpn: Bytes): Registry {
    if alpn in r.protocols then r
    else Registry(r.protocols[alpn := r.made], r.claims[r.made := alpn], r.made + 1, r.refusing)
  }

  /** A release removes whatever entry has the claim's name. */
  function AfterRelease(r: Registry, registration: nat): Registry
    requires registration in r.claims
  {
    r.(protocols := r.protocols - {r.claims[registration]}, claims := r.claims - {registration})
  }

  function AfterRefuse(r: Registry, registration: nat, refuse: bool): Registry {
    r.(refusing := if refuse then r.refusing + {registration} else r.refusing - {registration})
  }

  function Look(r: Registry, alpn: Bytes): Route {
    if alpn !in r.protocols then NoListener
    else if r.protocols[alpn] in r.refusing then Refused
    else Routed(r.protocols[alpn])
  }

  // ---------- The object itself ----------

  class Dispatcher {
    var protocols: map<Bytes, nat>
    var refusing: set<nat>
    var made: nat
    var published: set<Bytes>
    ghost var claims: map<nat, Bytes>

    ghost function Now(): Registry
      reads this
    {
      Registry(protocols, claims, made, refusing)
    }

    constructor ()
      ensures Now() == Empty()
    {
      protocols, refusing, made, published, claims := map[], {}, 0, {}, map[];
    }

    /** Lists the names, then sets them on the endpoint. */
    method PublishNames()
      modifies this`published
      ensures published == protocols.Keys
    {
      var names := protocols.Keys;
      published := names;
    }

    /** Claims a name, unless something holds it already. */
    method Register(alpn: Bytes) returns (claim: Option<Claim>)
      modifies this
      ensures Now() == AfterRegister(old(Now()), alpn)
      ensures claim == if alpn in old(protocols) then None else Some(Claim(old(made), alpn))
      ensures published == if alpn in old(protocols) then old(published) else protocols.Keys
    {
      if alpn in protocols {
        return None;
      }
      protocols := protocols[alpn := made];
      claims := claims[made := alpn];
      claim := Some(Claim(made, alpn));
      made := made + 1;
      PublishNames();
    }

    /** What dropping a claim does. */
    method Release(claim: Claim)
      requires claim.registration in claims && claims[claim.registration] == claim.alpn
      modifies this
      ensures Now() == AfterRelease(old(Now()), claim.registration)
      ensures published == protocols.Keys
    {
      protocols := protocols - {claim.alpn};
      claims := claims - {claim.registration};
      PublishNames();
    }

    method Refuse(registration: nat, refuse: bool)
      modifies this
      ensures Now() == AfterRefuse(old(Now()), registration, refuse)
    {
      refusing := if refuse then refusing + {registration} else refusing - {registration};
    }

    method Wanted(alpn: Bytes) returns (wanted: bool)
      ensures wanted <==> Look(Now(), alpn).Routed?
      ensures OneEach(Now()) ==>
                (wanted <==> exists id :: id in claims && claims[id] == alpn && id !in refusing)
    {
      if OneEach(Now()) {
        LookDecides(Now(), alpn);
      }
      wanted := alpn in protocols && protocols[alpn] !in refusing;
    }

    /** The locked part of dispatching a connection that settled on this name. */
    method Dispatch(alpn: Bytes) returns (route: Route)
      ensures route == Look(Now(), alpn)
      ensures OneEach(Now()) ==>
                && (forall id :: route == Routed(id) <==> id in claims && claims[id] == alpn && id !in refusing)
                && (route == Refused <==> exists id :: id in claims && claims[id] == alpn && id in refusing)
                && (route == NoListener <==> forall id :: id in claims ==> claims[id] != alpn)
    {
      if OneEach(Now()) {
        LookDecides(Now(), alpn);
      }
      if alpn in protocols {
        var registration := protocols[alpn];
        if registration in refusing {
          return Refused;
        }
        return Routed(registration);
      }
      return NoListener;
    }
  }

  // ---------- One claim, one entry ----------

  /** The names in the registry are exactly those of the claims held, one claim each. */
  ghost predicate OneEach(r: Registry) {
    && (forall alpn :: alpn in r.protocols ==>
          r.protocols[alpn] in r.claims && r.claims[r.protocols[alpn]] == alpn)
    && (forall id :: id in r.claims ==>
          id < r.made && r.claims[id] in r.protocols && r.protocols[r.claims[id]] == id)
  }

  lemma RegisterKeeps(r: Registry, alpn: Bytes)
    requires OneEach(r)
    ensures OneEach(AfterRegister(r, alpn))
  {
  }

  /** A release takes away its own entry and no other, even though it goes by name. */
  lemma ReleaseTakesOwn(r: Registry, id: nat)
    requires OneEach(r) && id in r.claims
    ensures OneEach(AfterRelease(r, id))
    ensures forall alpn :: alpn in r.protocols && r.protocols[alpn] != id ==>
              && alpn in AfterRelease(r, id).protocols
              && AfterRelease(r, id).protocols[alpn] == r.protocols[alpn]
    ensures forall alpn :: alpn in AfterRelease(r, id).protocols ==> r.protocols[alpn] != id
  {
    var s := AfterRelease(r, id);
    assert forall alpn :: alpn in r.protocols && alpn != r.claims[id] ==> alpn in s.protocols;
  }

  /** A connection goes to the one holder of its name unless that refuses; nobody listens if there is none. */
  lemma LookDecides(r: Registry, alpn: Bytes)
    requires OneEach(r)
    ensures forall id ::
              Look(r, alpn) == Routed(id) <==> id in r.claims && r.claims[id] == alpn && id !in r.refusing
    ensures Look(r, alpn) == Refused <==> exists id :: id in r.claims && r.claims[id] == alpn && id in r.refusing
    ensures Look(r, alpn) == NoListener <==> forall id :: id in r.claims ==> r.claims[id] != alpn
  {
    if alpn in r.protocols {
      assert r.claims[r.protocols[alpn]] == alpn;
    }
  }

  // ---------- Names on their way to the endpoint ----------

  /** After each change the names are listed under the lock, then set on the endpoint outside it. */
  datatype Publishing = Due | Listed(names: set<Bytes>, after: nat)

  /**
    `changes` is the name that each change so far added or removed; `publishing` the changes whose
    names are not set yet; `published` the names last set, listed after `shown` changes.
   */
  datatype Board = Board(changes: seq<Bytes>, publishing: map<nat, Publishing>, published: set<Bytes>, shown: nat)

  function Changed(b: Board, alpn: Bytes): Board {
    b.(changes := b.changes + [alpn], publishing := b.publishing[|b.changes| := Due])
  }

  function NamesListed(b: Board, change: nat, names: set<Bytes>): Board {
    b.(publishing := b.publishing[change := Listed(names, |b.changes|)])
  }

  function NamesSet(b: Board, change: nat): Board
    requires change in b.publishing && b.publishing[change].Listed?
  {
    var listed := b.publishing[change];
    Board(b.changes, b.publishing - {change}, listed.names, listed.after)
  }

  // ---------- Connections on their way ----------

  /**
    The registry, the names on their way, the accept loop's tasks and the inboxes. `asked` are the
    connections whose lookup is done, `routed` those about to be put in an inbox, `delivered` those that
    were, and `gone` the registrations whose inbox nobody reads any more.
   */
  datatype Net = Net(
    registry: Registry,
    board: Board,
    asked: set<nat>,
    routed: map<nat, nat>,
    delivered: map<nat, nat>,
    gone: set<nat>)

  datatype Step =
    | Register(alpn: Bytes)
    | Release(id: nat)
    | ListNames(change: nat)
    | SetNames(change: nat)
    | Refuse(id: nat, refuse: bool)
    | Abandon(id: nat)
    | LookUp(connection: nat, alpn: Bytes)
    | Deliver(connection: nat)

  function Start(): Net {
    Net(Empty(), Board([], map[], {}, 0), {}, map[], map[], {})
  }

  /** A claim is released once, and a connection looked up once. */
  predicate Enabled(n: Net, step: Step) {
    match step
    case Release(id) => id in n.registry.claims
    case ListNames(change) => change in n.board.publishing && n.board.publishing[change].Due?
    case SetNames(change) => change in n.board.publishing && n.board.publishing[change].Listed?
    case LookUp(connection, _) => connection !in n.asked
    case Deliver(connection) => connection in n.routed
    case _ => true
  }

  function After(n: Net, step: Step): Net
    requires Enabled(n, step)
  {
    match step
    case Register(alpn) =>
      n.(registry := AfterRegister(n.registry, alpn),
         board := if alpn in n.registry.protocols then n.board else Changed(n.board, alpn))
    case Release(id) =>
      n.(registry := AfterRelease(n.registry, id), board := Changed(n.board, n.registry.claims[id]))
    case ListNames(change) => n.(board := NamesListed(n.board, change, n.registry.protocols.Keys))
    case SetNames(change) => n.(board := NamesSet(n.board, change))
    case Refuse(id, refuse) => n.(registry := AfterRefuse(n.registry, id, refuse))
    case Abandon(id) => n.(gone := n.gone + {id})
    case LookUp(connection, alpn) =>
      var route := Look(n.registry, alpn);
      n.(asked := n.asked + {connection},
         routed := if route.Routed? then n.routed[connection := route.registration] else n.routed)
    case Deliver(connection) =>
      var id := n.routed[connection];
      n.(routed := n.routed - {connection},
         delivered := if id in n.gone then n.delivered else n.delivered[connection := id])
  }

  ghost predicate IsRun(trace: seq<Net>, steps: seq<Step>) {
    && |trace| == |steps| + 1
    && trace[0] == Start()
    && forall i {:trigger steps[i]} :: 0 <= i < |steps| ==>
         Enabled(trace[i], steps[i]) && trace[i + 1] == After(trace[i], steps[i])
  }

  ghost predicate Tidy(n: Net) {
    && OneEach(n.registry)
    && n.routed.Keys <= n.asked && n.delivered.Keys <= n.asked
    && n.routed.Keys !! n.delivered.Keys
  }

  /** In every run, at every moment the lock is free, names and claims match one for one. */
  lemma {:induction false} RunTidy(trace: seq<Net>, steps: seq<Step>, i: nat)
    requires IsRun(trace, steps) && i < |trace|
    ensures Tidy(trace[i])
  {
    if i > 0 {
      RunTidy(trace, steps, i - 1);
      assert trace[i] == After(trace[i - 1], steps[i - 1]);
      match steps[i - 1]
      case Register(alpn) => RegisterKeeps(trace[i - 1].registry, alpn);
      case Release(id) => ReleaseTakesOwn(trace[i - 1].registry, id);
      case _ =>
    }
  }

  lemma RunStep(trace: seq<Net>, steps: seq<Step>, i: nat)
    requires IsRun(trace, steps) && i < |steps|
    ensures Tidy(trace[i]) && Enabled(trace[i], steps[i]) && trace[i + 1] == After(trace[i], steps[i])
  {
    RunTidy(trace, steps, i);
  }

  /** The lookup that sent a connection where it is going, or where it went. */
  ghost predicate SentBy(n: Net, step: Step, connection: nat, id: nat) {
    && step.LookUp? && step.connection == connection
    && var r := n.registry;
    && step.alpn in r.protocols && r.protocols[step.alpn] == id
    && id in r.claims && r.claims[id] == step.alpn
    && id !in r.refusing && id < r.made
  }

  /** The registration a connection is on its way to, or with. */
  function HandedTo(n: Net, connection: nat): Option<nat> {
    if connection in n.routed then Some(n.routed[connection])
    else if connection in n.delivered then Some(n.delivered[connection])
    else None
  }

  lemma StaysOrSetsOut(n: Net, step: Step, connection: nat)
    requires Tidy(n) && Enabled(n, step)
    ensures var before, after := HandedTo(n, connection), HandedTo(After(n, step), connection);
            after.Some? ==> before == after || SentBy(n, step, connection, after.value)
  {
  }

  /**
    A connection is only ever handed to a registration that, at its lookup, already existed, held
    the name it settled on and was not refusing.
   */
  lemma {:induction false} HandedRightly(trace: seq<Net>, steps: seq<Step>, i: nat, connection: nat) returns (j: nat)
    requires IsRun(trace, steps) && i < |trace| && HandedTo(trace[i], connection).Some?
    ensures j < i && SentBy(trace[j], steps[j], connection, HandedTo(trace[i], connection).value)
  {
    RunStep(trace, steps, i - 1);
    StaysOrSetsOut(trace[i - 1], steps[i - 1], connection);
    if HandedTo(trace[i - 1], connection) == HandedTo(trace[i], connection) {
      j := HandedRightly(trace, steps, i - 1, connection);
    } else {
      j := i - 1;
    }
  }

  /** Once handed over a connection stays with that registration, and no other ever gets it. */
  lemma {:induction false} HandedOnce(trace: seq<Net>, steps: seq<Step>, i: nat, k: nat, connection: nat)
    requires IsRun(trace, steps) && i <= k < |trace| && connection in trace[i].delivered
    ensures connection in trace[k].delivered && trace[k].delivered[connection] == trace[i].delivered[connection]
    decreases k
  {
    if i < k {
      HandedOnce(trace, steps, i, k - 1, connection);
      RunStep(trace, steps, k - 1);
    }
  }
  // ---------- What a run decides ----------

  /** Whether a registration's flag was last put up. It starts down. */
  function LastRefusal(steps: seq<Step>, id: nat): bool {
    if steps == [] then false
    else if steps[|steps| - 1].Refuse? && steps[|steps| - 1].id == id then steps[|steps| - 1].refuse
    else LastRefusal(steps[..|steps| - 1], id)
  }

  /** A registration refuses exactly when it was last asked to. */
  lemma {:induction false} RefusesIff(trace: seq<Net>, steps: seq<Step>, i: nat, id: nat)
    requires IsRun(trace, steps) && i < |trace|
    ensures id in trace[i].registry.refusing <==> LastRefusal(steps[..i], id)
  {
    if i > 0 {
      RefusesIff(trace, steps, i - 1, id);
      RunStep(trace, steps, i - 1);
      assert steps[..i][..i - 1] == steps[..i - 1];
    }
  }

  /** The claim is made at the j-th step, by a name that nothing holds, and not released before the i-th. */
  ghost predicate HeldSince(trace: seq<Net>, steps: seq<Step>, j: nat, i: nat, id: nat, alpn: Bytes) {
    && j < i < |trace| && i <= |steps|
    && steps[j] == Register(alpn) && trace[j].registry.made == id
    && (forall other :: other in trace[j].registry.claims ==> trace[j].registry.claims[other] != alpn)
    && forall k :: j < k < i ==> steps[k] != Release(id)
  }

  /** A claim is held exactly since a step that claimed a free name, until it is released. */
  lemma HeldIff(trace: seq<Net>, steps: seq<Step>, i: nat, id: nat, alpn: Bytes)
    requires IsRun(trace, steps) && i < |trace|
    ensures id in trace[i].registry.claims && trace[i].registry.claims[id] == alpn
            <==> exists j :: HeldSince(trace, steps, j, i, id, alpn)
  {
    if id in trace[i].registry.claims && trace[i].registry.claims[id] == alpn {
      var j := HeldFrom(trace, steps, i, id);
    }
    if j :| HeldSince(trace, steps, j, i, id, alpn) {
      StillHeld(trace, steps, j, i, id, alpn);
    }
  }

  /** One step leaves a claim as it was unless it releases it, and makes one only of a name nothing holds. */
  lemma ClaimsStep(n: Net, step: Step, id: nat)
    requires Tidy(n) && Enabled(n, step)
    ensures var before, after := n.registry.claims, After(n, step).registry.claims;
            && (id in before ==> (id in after <==> step != Release(id)) && (id in after ==> after[id] == before[id]))
            && (id !in before ==>
                  (id in after <==> step.Register? && n.registry.made == id
                                    && forall other :: other in before ==> before[other] != step.alpn)
                  && (id in after ==> after[id] == step.alpn))
  {
    if step.Register? && step.alpn in n.registry.protocols {
      assert n.registry.claims[n.registry.protocols[step.alpn]] == step.alpn;
    }
  }

  lemma {:induction false} HeldFrom(trace: seq<Net>, steps: seq<Step>, i: nat, id: nat) returns (j: nat)
    requires IsRun(trace, steps) && i < |trace| && id in trace[i].registry.claims
    ensures HeldSince(trace, steps, j, i, id, trace[i].registry.claims[id])
  {
    RunStep(trace, steps, i - 1);
    ClaimsStep(trace[i - 1], steps[i - 1], id);
    if id in trace[i - 1].registry.claims {
      j := HeldFrom(trace, steps, i - 1, id);
    } else {
      j := i - 1;
    }
  }

  lemma {:induction false} StillHeld(trace: seq<Net>, steps: seq<Step>, j: nat, i: nat, id: nat, alpn: Bytes)
    requires IsRun(trace, steps) && i < |trace| && HeldSince(trace, steps, j, i, id, alpn)
    ensures id in trace[i].registry.claims && trace[i].registry.claims[id] == alpn
    decreases i
  {
    RunStep(trace, steps, i - 1);
    if j < i - 1 {
      StillHeld(trace, steps, j, i - 1, id, alpn);
    }
    ClaimsStep(trace[i - 1], steps[i - 1], id);
  }

  lemma {:induction false} GoneIff(trace: seq<Net>, steps: seq<Step>, i: nat, id: nat)
    requires IsRun(trace, steps) && i < |trace|
    ensures id in trace[i].gone <==> Abandon(id) in steps[..i]
  {
    if i > 0 {
      GoneIff(trace, steps, i - 1, id);
      RunStep(trace, steps, i - 1);
      assert steps[..i] == steps[..i - 1] + [steps[i - 1]];
    }
  }

  lemma {:induction false} StaysAsked(trace: seq<Net>, steps: seq<Step>, i: nat, k: nat)
    requires IsRun(trace, steps) && i <= k < |trace|
    ensures trace[i].asked <= trace[k].asked
    decreases k
  {
    if i < k {
      StaysAsked(trace, steps, i, k - 1);
      RunStep(trace, steps, k - 1);
    }
  }

  /** A connection is looked up once, so one registration at most is ever meant to have it. */
  lemma SentOnce(trace: seq<Net>, steps: seq<Step>, i: nat, j: nat, connection: nat)
    requires IsRun(trace, steps) && i < |steps| && j < |steps|
    requires steps[i].LookUp? && steps[i].connection == connection
    requires steps[j].LookUp? && steps[j].connection == connection
    ensures i == j
  {
    if i < j {
      StaysAsked(trace, steps, i + 1, j);
    } else if j < i {
      StaysAsked(trace, steps, j + 1, i);
    }
  }

  /** It was sent there by its lookup, at step j, and put in the inbox, which was still read, at step k. */
  ghost predicate Arrived(trace: seq<Net>, steps: seq<Step>, j: nat, k: nat, i: nat, connection: nat, id: nat) {
    && j < k < i < |trace| && i <= |steps|
    && SentBy(trace[j], steps[j], connection, id)
    && steps[k] == Deliver(connection)
    && Abandon(id) !in steps[..k]
  }

  lemma {:induction false} ArrivedFrom(trace: seq<Net>, steps: seq<Step>, i: nat, connection: nat)
    returns (j: nat, k: nat)
    requires IsRun(trace, steps) && i < |trace| && connection in trace[i].delivered
    ensures Arrived(trace, steps, j, k, i, connection, trace[i].delivered[connection])
  {
    RunStep(trace, steps, i - 1);
    if connection in trace[i - 1].delivered {
      HandedOnce(trace, steps, i - 1, i, connection);
      j, k := ArrivedFrom(trace, steps, i - 1, connection);
    } else {
      k := i - 1;
      j := HandedRightly(trace, steps, k, connection);
      GoneIff(trace, steps, k, trace[k].routed[connection]);
    }
  }

  lemma ArrivedStays(trace: seq<Net>, steps: seq<Step>, j: nat, k: nat, i: nat, connection: nat, id: nat)
    requires IsRun(trace, steps) && i < |trace| && Arrived(trace, steps, j, k, i, connection, id)
    ensures connection in trace[i].delivered && trace[i].delivered[connection] == id
  {
    assert connection in trace[k].routed;
    var sent := HandedRightly(trace, steps, k, connection);
    SentOnce(trace, steps, sent, j, connection);
    GoneIff(trace, steps, k, id);
    HandedOnce(trace, steps, k + 1, i, connection);
  }

  /**
    In every run a registration has a connection exactly when the connection's lookup found it holding
    the name and not refusing, and it was then put in its inbox while that was still read.
   */
  lemma DeliveredIff(trace: seq<Net>, steps: seq<Step>, i: nat, connection: nat, id: nat)
    requires IsRun(trace, steps) && i < |trace|
    ensures connection in trace[i].delivered && trace[i].delivered[connection] == id
            <==> exists j, k :: Arrived(trace, steps, j, k, i, connection, id)
  {
    if connection in trace[i].delivered && trace[i].delivered[connection] == id {
      var j, k := ArrivedFrom(trace, steps, i, connection);
    }
    if j, k :| Arrived(trace, steps, j, k, i, connection, id) {
      ArrivedStays(trace, steps, j, k, i, connection, id);
    }
  }

  /** The step that looks a connection up, and what is on its way after it. */
  lemma LookUpDecides(trace: seq<Net>, steps: seq<Step>, i: nat, id: nat)
    requires IsRun(trace, steps) && i < |steps| && steps[i].LookUp?
    ensures var r, connection := trace[i].registry, steps[i].connection;
            connection in trace[i + 1].routed && trace[i + 1].routed[connection] == id
            <==> id in r.claims && r.claims[id] == steps[i].alpn && id !in r.refusing
  {
    RunStep(trace, steps, i);
    LookDecides(trace[i].registry, steps[i].alpn);
  }

  // ---------- When the published names are the registry's ----------

  /** The names held after some changes, each of which adds its name or takes it away. */
  function NamesAfter(changes: seq<Bytes>): set<Bytes> {
    if changes == [] then {}
    else
      var before, name := NamesAfter(changes[..|changes| - 1]), changes[|changes| - 1];
      if name in before then before - {name} else before + {name}
  }

  function Times(changes: seq<Bytes>, name: Bytes): nat {
    if changes == [] then 0
    else Times(changes[..|changes| - 1], name) + (if changes[|changes| - 1] == name then 1 else 0)
  }

  /** Every name was added or taken away an even number of times. */
  ghost predicate EvenlyChanged(changes: seq<Bytes>) {
    forall name :: Times(changes, name) % 2 == 0
  }

  lemma {:induction false} HeldIffOdd(changes: seq<Bytes>, name: Bytes)
    ensures name in NamesAfter(changes) <==> Times(changes, name) % 2 == 1
  {
    if changes != [] {
      HeldIffOdd(changes[..|changes| - 1], name);
    }
  }

  lemma {:induction false} TimesSplit(changes: seq<Bytes>, k: nat, name: Bytes)
    requires k <= |changes|
    ensures Times(changes, name) == Times(changes[..k], name) + Times(changes[k..], name)
    decreases |changes|
  {
    if k < |changes| {
      var n := |changes| - 1;
      TimesSplit(changes[..n], k, name);
      assert changes[..n][..k] == changes[..k] && changes[k..][..n - k] == changes[..n][k..];
    } else {
      assert changes[..k] == changes;
    }
  }

  ghost predicate Recorded(keys: set<Bytes>, b: Board) {
    && keys == NamesAfter(b.changes)
    && b.shown <= |b.changes| && b.published == NamesAfter(b.changes[..b.shown])
    && forall c :: c in b.publishing ==>
         && c < |b.changes|
         && (b.publishing[c].Listed? ==>
               && b.publishing[c].after <= |b.changes|
               && b.publishing[c].names == NamesAfter(b.changes[..b.publishing[c].after]))
  }

  lemma ChangeRecorded(keys: set<Bytes>, b: Board, alpn: Bytes)
    requires Recorded(keys, b)
    ensures Recorded(if alpn in keys then keys - {alpn} else keys + {alpn}, Changed(b, alpn))
  {
    var next := b.changes + [alpn];
    assert next[..|b.changes|] == b.changes;
    assert forall k :: 0 <= k <= |b.changes| ==> next[..k] == b.changes[..k];
  }

  lemma StepRecorded(n: Net, step: Step)
    requires OneEach(n.registry) && Recorded(n.registry.protocols.Keys, n.board) && Enabled(n, step)
    ensures Recorded(After(n, step).registry.protocols.Keys, After(n, step).board)
  {
    var keys, m := n.registry.protocols.Keys, After(n, step);
    match step
    case Register(alpn) =>
      if alpn !in keys {
        ChangeRecorded(keys, n.board, alpn);
        assert m.registry.protocols.Keys == keys + {alpn};
      }
    case Release(id) =>
      ChangeRecorded(keys, n.board, n.registry.claims[id]);
      assert m.registry.protocols.Keys == keys - {n.registry.claims[id]};
    case ListNames(_) => assert n.board.changes[..|n.board.changes|] == n.board.changes;
    case _ =>
  }

  lemma {:induction false} RunRecorded(trace: seq<Net>, steps: seq<Step>, i: nat)
    requires IsRun(trace, steps) && i < |trace|
    ensures Recorded(trace[i].registry.protocols.Keys, trace[i].board)
  {
    if i > 0 {
      RunRecorded(trace, steps, i - 1);
      RunStep(trace, steps, i - 1);
      StepRecorded(trace[i - 1], steps[i - 1]);
    }
  }

  /**
    However changes and publishing overlap, the endpoint negotiates exactly the registry's names when,
    and only when, every name was added or taken away an even number of times since the names last set
    were listed; not at all, say.
   */
  lemma PublishedIff(trace: seq<Net>, steps: seq<Step>, i: nat)
    requires IsRun(trace, steps) && i < |trace|
    ensures var b := trace[i].board;
            && b.shown <= |b.changes|
            && (b.published == trace[i].registry.protocols.Keys
                <==> EvenlyChanged(b.changes[b.shown..]))
  {
    RunRecorded(trace, steps, i);
    var b := trace[i].board;
    var keys := trace[i].registry.protocols.Keys;
    forall name
      ensures Times(b.changes[b.shown..], name) % 2 == 0 <==> (name in b.published <==> name in keys)
    {
      HeldIffOdd(b.changes, name);
      HeldIffOdd(b.changes[..b.shown], name);
      TimesSplit(b.changes, b.shown, name);
    }
    if EvenlyChanged(b.changes[b.shown..]) {
      assert forall name :: name in b.published <==> name in keys;
    }
  }

  /** No change is made while the names of another are still on their way. */
  ghost predicate NoOverlap(trace: seq<Net>, steps: seq<Step>) {
    && IsRun(trace, steps)
    && forall i :: 0 <= i < |steps| && (steps[i].Register? || steps[i].Release?) ==> trace[i].board.publishing == map[]
  }

  ghost predicate InTurn(b: Board) {
    && (b.publishing == map[] ==> b.shown == |b.changes|)
    && forall c :: c in b.publishing ==>
         && c == |b.changes| - 1
         && (b.publishing[c].Listed? ==> b.publishing[c].after == |b.changes|)
  }

  lemma StepInTurn(n: Net, step: Step)
    requires InTurn(n.board) && Enabled(n, step)
    requires step.Register? || step.Release? ==> n.board.publishing == map[]
    ensures InTurn(After(n, step).board)
  {
    var b, after := n.board, After(n, step).board;
    match step
    case Register(alpn) => assert alpn !in n.registry.protocols ==> |b.changes| in after.publishing;
    case Release(_) => assert |b.changes| in after.publishing;
    case ListNames(change) => assert change in after.publishing;
    case _ =>
  }

  /** Changes that do not overlap leave the endpoint with the registry's names whenever all is set. */
  lemma {:induction false} PublishedInTurn(trace: seq<Net>, steps: seq<Step>, i: nat)
    requires NoOverlap(trace, steps) && i < |trace|
    ensures InTurn(trace[i].board)
    ensures trace[i].board.publishing == map[] ==> trace[i].board.published == trace[i].registry.protocols.Keys
  {
    if i > 0 {
      PublishedInTurn(trace, steps, i - 1);
      RunStep(trace, steps, i - 1);
      StepInTurn(trace[i - 1], steps[i - 1]);
    }
    RunRecorded(trace, steps, i);
    AllSet(trace[i].registry.protocols.Keys, trace[i].board);
  }

  lemma AllSet(keys: set<Bytes>, b: Board)
    requires Recorded(keys, b) && InTurn(b)
    ensures b.publishing == map[] ==> b.published == keys
  {
    assert b.changes[..|b.changes|] == b.changes;
  }

  /** Two changes that overlap, the first one's names set last: all is set, and a name held is not published. */
  lemma OverlapExample() returns (trace: seq<Net>, steps: seq<Step>)
    ensures IsRun(trace, steps)
    ensures var n := trace[|steps|];
            n.board.publishing == map[] && n.board.published == {[1]} && n.registry.protocols.Keys == {[1], [2]}
  {
    steps := [Register([1]), ListNames(0), Register([2]), ListNames(1), SetNames(1), SetNames(0)];
    var n1 := After(Start(), steps[0]);
    var n2 := After(n1, steps[1]);
    var n3 := After(n2, steps[2]);
    var n4 := After(n3, steps[3]);
    var n5 := After(n4, steps[4]);
    var n6 := After(n5, steps[5]);
    trace := [Start(), n1, n2, n3, n4, n5, n6];
    assert n6.board.publishing == map[];
  }
}
