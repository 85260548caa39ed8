/** IrohEndpoint's listeners: names claimed at once when bound, queued while a bind is in flight. */
module Endpoint {
  import opened Bytes
  import opened Protocol
  import D = Dispatch

  /** The name IrohPeer's own protocol goes by. */
  const SESSION_ALPN: Bytes := [103, 100, 105, 114, 111, 104, 47, 48]

  /** `registered` is every name on the dispatcher, whoever holds it. */
  datatype EndpointView = EndpointView(
    bound: bool,
    binding: bool,
    listeners: set<Bytes>,
    queued: seq<Bytes>,
    registered: set<Bytes>)

  // ---------- What each operation does ----------

  function AfterClaim(v: EndpointView, alpn: Bytes): EndpointView {
    if alpn in v.listeners || !v.bound || alpn in v.registered then v
    else v.(listeners := v.listeners + {alpn}, registered := v.registered + {alpn})
  }

  predicate Claims(v: EndpointView, alpn: Bytes) {
    alpn in v.listeners || (v.bound && alpn !in v.registered)
  }

  function AfterListen(v: EndpointView, alpn: Bytes): EndpointView {
    if alpn == [] || alpn == SESSION_ALPN then v
    else if v.bound then AfterClaim(v, alpn)
    else if !v.binding || alpn in v.queued then v
    else v.(queued := v.queued + [alpn])
  }

  predicate Listens(v: EndpointView, alpn: Bytes) {
    alpn != [] && alpn != SESSION_ALPN && if v.bound then Claims(v, alpn) else v.binding
  }

  function Unless(alpn: Bytes): Bytes -> Option<Bytes> {
    (name: Bytes) => if name == alpn then None else Some(name)
  }

  function Without(names: seq<Bytes>, alpn: Bytes): seq<Bytes> {
    MapSome(Unless(alpn), names)
  }

  function AfterStop(v: EndpointView, alpn: Bytes): EndpointView {
    v.(queued := Without(v.queued, alpn), listeners := v.listeners - {alpn},
       registered := if alpn in v.listeners then v.registered - {alpn} else v.registered)
  }

  function AfterClaims(v: EndpointView, names: seq<Bytes>): EndpointView {
    if names == [] then v else AfterClaim(AfterClaims(v, names[..|names| - 1]), names[|names| - 1])
  }

  /** A bind has come back: on a fresh dispatcher, everything queued is claimed in turn. */
  function AfterBound(v: EndpointView): EndpointView {
    AfterClaims(v.(bound := true, binding := false, queued := [], registered := {}), v.queued)
  }

  // ---------- The object itself ----------

  datatype Outcome = Waiting | Bound | Failed

  class IrohEndpoint {
    var dispatcher: D.Dispatcher?
    var pendingBind: bool
    var listeners: map<Bytes, D.Claim>
    var pendingListens: seq<Bytes>

    ghost predicate Valid()
      reads this, dispatcher
    {
      && (dispatcher == null ==> listeners == map[])
      && (dispatcher != null ==>
            && !pendingBind
            && D.OneEach(dispatcher.Now())
            && forall alpn :: alpn in listeners ==>
                 && listeners[alpn].alpn == alpn
                 && listeners[alpn].registration in dispatcher.claims
                 && dispatcher.claims[listeners[alpn].registration] == alpn)
    }

    ghost function Now(): EndpointView
      reads this, dispatcher
    {
      EndpointView(dispatcher != null, pendingBind, listeners.Keys, pendingListens,
                   if dispatcher == null then {} else dispatcher.protocols.Keys)
    }

    constructor ()
      ensures Valid() && Now() == EndpointView(false, false, {}, [], {})
    {
      dispatcher, pendingBind, listeners, pendingListens := null, false, map[], [];
    }

    /** `spawns` is whether the runtime is there to take the bind on. */
    method Bind(spawns: bool)
      requires Valid()
      modifies this
      ensures Valid() && dispatcher == old(dispatcher)
      ensures Now() == if old(dispatcher) != null || !spawns then old(Now()) else old(Now()).(binding := true)
    {
      if pendingBind || dispatcher != null {
        return;
      }
      if !spawns {
        return;
      }
      pendingBind := true;
    }

    /** Makes a name ours: it is already, or the dispatcher has it free. */
    method Claim(alpn: Bytes) returns (ok: bool)
      requires Valid()
      modifies this, dispatcher
      ensures Valid() && dispatcher == old(dispatcher)
      ensures Now() == AfterClaim(old(Now()), alpn) && ok == Claims(old(Now()), alpn)
    {
      if alpn in listeners {
        return true;
      }
      if dispatcher == null {
        return false;
      }
      D.RegisterKeeps(dispatcher.Now(), alpn);
      ghost var before := dispatcher.Now();
      var claim := dispatcher.Register(alpn);
      assert alpn !in before.protocols ==>
          dispatcher.protocols.Keys == before.protocols.Keys + {alpn} && before.made !in before.claims;
      if claim == None {
        return false;
      }
      listeners := listeners[alpn := claim.value];
      return true;
    }

    method Listen(alpn: Bytes) returns (ok: bool)
      requires Valid()
      modifies this, dispatcher
      ensures Valid() && dispatcher == old(dispatcher)
      ensures Now() == AfterListen(old(Now()), alpn) && ok == Listens(old(Now()), alpn)
    {
      if alpn == [] || alpn == SESSION_ALPN {
        return false;
      }
      if dispatcher == null {
        if !pendingBind {
          return false;
        }
        if alpn !in pendingListens {
          pendingListens := pendingListens + [alpn];
        }
        return true;
      }
      ok := Claim(alpn);
    }

    /** Dropping a listener releases its claim. */
    method StopListening(alpn: Bytes)
      requires Valid()
      modifies this, dispatcher
      ensures Valid() && dispatcher == old(dispatcher)
      ensures Now() == AfterStop(old(Now()), alpn)
    {
      pendingListens := Without(pendingListens, alpn);
      if alpn in listeners {
        D.ReleaseTakesOwn(dispatcher.Now(), listeners[alpn].registration);
        dispatcher.Release(listeners[alpn]);
        listeners := listeners - {alpn};
      }
    }

    /** Looks whether the bind came back; if it failed, the queue stays for the next one. */
    method DrainBind(outcome: Outcome)
      requires Valid()
      modifies this
      ensures Valid() && (dispatcher == old(dispatcher) || fresh(dispatcher))
      ensures Now() == if !old(pendingBind) || outcome == Waiting then old(Now())
                       else if outcome == Failed then old(Now()).(binding := false)
                       else AfterBound(old(Now()))
    {
      if !pendingBind || outcome == Waiting {
        return;
      }
      pendingBind := false;
      if outcome == Failed {
        return;
      }
      dispatcher := new D.Dispatcher();
      assert dispatcher.protocols.Keys == {};
      var queued := pendingListens;
      pendingListens := [];
      ghost var start := Now();
      for i := 0 to |queued|
        invariant Valid() && fresh(dispatcher)
        invariant Now() == AfterClaims(start, queued[..i])
      {
        assert queued[..i + 1][..i] == queued[..i];
        var _ := Claim(queued[i]);
      }
      assert queued[..|queued|] == queued;
    }

    /** Gives up every listener, which frees their names for whoever shares the dispatcher. */
    method Teardown()
      requires Valid()
      modifies this, dispatcher
      ensures Valid() && Now() == EndpointView(false, false, {}, [], {})
      ensures old(dispatcher) != null ==>
                && D.OneEach(old(dispatcher).Now())
                && old(dispatcher).protocols.Keys == old(dispatcher.protocols.Keys - listeners.Keys)
    {
      pendingBind := false;
      var left := listeners.Keys;
      while left != {}
        invariant Valid() && dispatcher == old(dispatcher) && !pendingBind
        invariant left == listeners.Keys <= old(listeners.Keys)
        invariant dispatcher != null ==>
                    dispatcher.protocols.Keys == old(dispatcher.protocols.Keys) - (old(listeners.Keys) - left)
        decreases |left|
      {
        var alpn :| alpn in left;
        if dispatcher != null {
          OneMoreGone(old(dispatcher.protocols.Keys), old(listeners.Keys), left, alpn);
        }
        StopListening(alpn);
        left := left - {alpn};
      }
      pendingListens, listeners, dispatcher := [], map[], null;
    }
  }

  lemma OneMoreGone(all: set<Bytes>, names: set<Bytes>, left: set<Bytes>, alpn: Bytes)
    requires alpn in left && left <= names
    ensures all - (names - left) - {alpn} == all - (names - (left - {alpn}))
  {
  }

  // ---------- Queueing a call or making it later ----------

  datatype Call = Listen(alpn: Bytes) | Stop(alpn: Bytes)

  function AfterCall(v: EndpointView, call: Call): EndpointView {
    match call
    case Listen(alpn) => AfterListen(v, alpn)
    case Stop(alpn) => AfterStop(v, alpn)
  }

  function AfterCalls(v: EndpointView, calls: seq<Call>): EndpointView {
    if calls == [] then v else AfterCall(AfterCalls(v, calls[..|calls| - 1]), calls[|calls| - 1])
  }

  /** What the listen calls answer. */
  function Answers(v: EndpointView, calls: seq<Call>): seq<bool> {
    if calls == [] then []
    else
      var before := calls[..|calls| - 1];
      var call := calls[|calls| - 1];
      Answers(v, before) + (if call.Listen? then [Listens(AfterCalls(v, before), call.alpn)] else [])
  }

  function Names(names: seq<Bytes>): set<Bytes> {
    set n | n in names
  }

  lemma {:induction false} WithoutNames(names: seq<Bytes>, alpn: Bytes)
    ensures Names(Without(names, alpn)) == Names(names) - {alpn}
  {
    if names == [] {
      assert Names(Without(names, alpn)) == {} == Names(names);
    } else {
      WithoutNames(names[1..], alpn);
      var kept := Unless(alpn)(names[0]);
      assert Names(names) == {names[0]} + Names(names[1..]);
      assert Names(Without(names, alpn))
          == (if kept.Some? then {names[0]} else {}) + Names(Without(names[1..], alpn));
    }
  }

  lemma {:induction false} ClaimsAll(v: EndpointView, names: seq<Bytes>)
    requires v.bound && v.listeners == v.registered
    ensures AfterClaims(v, names)
            == v.(listeners := v.listeners + Names(names), registered := v.registered + Names(names))
  {
    if names != [] {
      var n := |names| - 1;
      ClaimsAll(v, names[..n]);
      assert names == names[..n] + [names[n]];
      assert Names(names) == Names(names[..n]) + {names[n]};
    } else {
      assert Names(names) == {};
    }
  }

  /** The endpoint waiting for its bind, and the same endpoint had the bind come back first. */
  ghost predicate Abreast(waiting: EndpointView, landed: EndpointView) {
    && waiting.binding && !waiting.bound && waiting.listeners == {}
    && landed == EndpointView(true, false, Names(waiting.queued), [], Names(waiting.queued))
  }

  lemma CallAbreast(waiting: EndpointView, landed: EndpointView, call: Call)
    requires Abreast(waiting, landed)
    ensures Abreast(AfterCall(waiting, call), AfterCall(landed, call))
    ensures Listens(waiting, call.alpn) == Listens(landed, call.alpn)
  {
    WithoutNames(waiting.queued, call.alpn);
    if call.Listen? && call.alpn !in waiting.queued {
      assert Names(waiting.queued + [call.alpn]) == Names(waiting.queued) + {call.alpn};
    }
  }

  lemma {:induction false} CallsAbreast(waiting: EndpointView, landed: EndpointView, calls: seq<Call>)
    requires Abreast(waiting, landed)
    ensures Abreast(AfterCalls(waiting, calls), AfterCalls(landed, calls))
    ensures Answers(waiting, calls) == Answers(landed, calls)
  {
    if calls != [] {
      var n := |calls| - 1;
      CallsAbreast(waiting, landed, calls[..n]);
      CallAbreast(AfterCalls(waiting, calls[..n]), AfterCalls(landed, calls[..n]), calls[n]);
    }
  }

  lemma LandsAbreast(waiting: EndpointView)
    requires waiting.binding && !waiting.bound && waiting.listeners == {}
    ensures Abreast(waiting, AfterBound(waiting))
  {
    ClaimsAll(waiting.(bound := true, binding := false, queued := [], registered := {}), waiting.queued);
  }

  /**
    Listening and stopping while a bind is in flight comes to the same, call for call, as waiting
    for the bind and making the same calls then.
   */
  lemma QueueCommutesWithBind(waiting: EndpointView, calls: seq<Call>)
    requires waiting.binding && !waiting.bound && waiting.listeners == {}
    ensures AfterBound(AfterCalls(waiting, calls)) == AfterCalls(AfterBound(waiting), calls)
    ensures Answers(waiting, calls) == Answers(AfterBound(waiting), calls)
  {
    LandsAbreast(waiting);
    CallsAbreast(waiting, AfterBound(waiting), calls);
    LandsAbreast(AfterCalls(waiting, calls));
  }
  // ---------- What is listened to, from the calls alone ----------

  /** A name that a game may listen to. The one it may not is "gdiroh/0". */
  predicate Nameable(alpn: Bytes) {
    |alpn| > 0 && alpn != [0x67, 0x64, 0x69, 0x72, 0x6f, 0x68, 0x2f, 0x30]
  }

  /** The names this endpoint listens to, or will once its bind is back. */
  function Held(v: EndpointView): set<Bytes> {
    if v.bound then v.listeners else Names(v.queued)
  }

  /** The names that something else on the dispatcher holds. */
  function Others(v: EndpointView): set<Bytes> {
    v.registered - v.listeners
  }

  predicate Proper(v: EndpointView) {
    && (if v.bound then v.queued == [] && v.listeners <= v.registered else v.listeners == {} == v.registered)
    && forall alpn :: alpn in Held(v) ==> Nameable(alpn)
  }

  /** Whether a name is given to us: it is one a game may have, we are bound or binding, and nobody else holds it. */
  predicate Grants(v: EndpointView, alpn: Bytes) {
    Nameable(alpn) && (v.bound || v.binding) && alpn !in Others(v)
  }

  ghost predicate SameSide(v: EndpointView, w: EndpointView) {
    w.bound == v.bound && w.binding == v.binding && Others(w) == Others(v)
  }

  lemma CallDecides(v: EndpointView, call: Call)
    requires Proper(v)
    ensures var w := AfterCall(v, call);
            && Proper(w) && SameSide(v, w)
            && Held(w) == match call
                          case Listen(alpn) => if Grants(v, alpn) then Held(v) + {alpn} else Held(v)
                          case Stop(alpn) => Held(v) - {alpn}
    ensures Listens(v, call.alpn) <==> Grants(v, call.alpn)
  {
    match call
    case Listen(alpn) =>
      assert Names(v.queued + [alpn]) == Names(v.queued) + {alpn};
      assert alpn in v.queued ==> Names(v.queued) + {alpn} == Names(v.queued);
    case Stop(alpn) =>
      WithoutNames(v.queued, alpn);
      assert v.queued == [] ==> Without(v.queued, alpn) == [];
  }

  /** A bind that comes back leaves just what was queued listened to. */
  lemma LandingKeeps(v: EndpointView)
    requires v.binding && !v.bound && v.listeners == {}
    ensures AfterBound(v).bound && Held(AfterBound(v)) == Held(v) == AfterBound(v).registered
  {
    LandsAbreast(v);
  }

  /** The last call about a name. */
  function LastCall(calls: seq<Call>, alpn: Bytes): Option<Call> {
    if calls == [] then None
    else if calls[|calls| - 1].alpn == alpn then Some(calls[|calls| - 1])
    else LastCall(calls[..|calls| - 1], alpn)
  }

  /**
    After any calls on an endpoint that is bound or binding, a name is listened to, or queued, exactly
    when the last call about it was a listen and the name was to be had; or when there was none and it
    was before. What others hold stays theirs.
   */
  lemma {:induction false} CallsDecide(v: EndpointView, calls: seq<Call>, alpn: Bytes)
    requires Proper(v) && (v.bound || v.binding)
    ensures var w := AfterCalls(v, calls);
            && Proper(w) && SameSide(v, w)
            && (alpn in Held(w) <==> match LastCall(calls, alpn)
                                     case None => alpn in Held(v)
                                     case Some(Listen(_)) => Grants(v, alpn)
                                     case Some(Stop(_)) => false)
  {
    if calls != [] {
      var n := |calls| - 1;
      CallsDecide(v, calls[..n], alpn);
      CallDecides(AfterCalls(v, calls[..n]), calls[n]);
      if alpn in Held(AfterCalls(v, calls[..n])) {
        HeldGranted(AfterCalls(v, calls[..n]), alpn);
      }
    }
  }

  /** What we hold we would be given. */
  lemma HeldGranted(v: EndpointView, alpn: Bytes)
    requires Proper(v) && (v.bound || v.binding) && alpn in Held(v)
    ensures Grants(v, alpn)
  {
  }

  function AnswerTo(v: EndpointView): Call -> Option<bool> {
    (call: Call) => if call.Listen? then Some(Grants(v, call.alpn)) else None
  }

  /** Every listen among any calls is answered by whether the name was to be had, whatever came before it. */
  lemma {:induction false} AnswersDecide(v: EndpointView, calls: seq<Call>)
    requires Proper(v)
    ensures Proper(AfterCalls(v, calls)) && SameSide(v, AfterCalls(v, calls))
    ensures Answers(v, calls) == MapSome(AnswerTo(v), calls)
  {
    if calls != [] {
      var n := |calls| - 1;
      AnswersDecide(v, calls[..n]);
      CallDecides(AfterCalls(v, calls[..n]), calls[n]);
      assert calls == calls[..n] + [calls[n]];
      MapSomeConcat(AnswerTo(v), calls[..n], [calls[n]]);
      MapSomeOne(AnswerTo(v), calls[n]);
    }
  }

  /** An endpoint that is neither grants nothing and takes nothing on. */
  lemma {:induction false} IdleTakesNothing(v: EndpointView, calls: seq<Call>)
    requires Proper(v) && !v.bound && !v.binding
    ensures Held(AfterCalls(v, calls)) <= Held(v)
    ensures forall answer :: answer in Answers(v, calls) ==> !answer
  {
    if calls != [] {
      var n := |calls| - 1;
      IdleTakesNothing(v, calls[..n]);
      AnswersDecide(v, calls[..n]);
      CallDecides(AfterCalls(v, calls[..n]), calls[n]);
    }
  }
}
