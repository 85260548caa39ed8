/** Names shared by both ends of a session. */
module Protocol {
  import opened Bytes

  /** The host's own peer id. */
  const HOST_ID: I32 := 1

  /** Where ids for clients begin. */
  const FIRST_CLIENT_ID: I32 := 2

  /** Where membership messages travel; a game's own packets should not. */
  const CONTROL_CHANNEL: I32 := I32_MIN

  /** The channel and sequence number in front of every datagram's payload. */
  const DATAGRAM_HEADER := 8

  datatype Mode = Reliable | Unreliable | UnreliableOrdered

  datatype Packet = Packet(peer: I32, channel: I32, mode: Mode, data: Bytes)

  datatype Event =
    | Ready(id: I32)
    | PeerConnected(id: I32)
    | PeerDisconnected(id: I32)
    | Arrived(packet: Packet)
    | Warning(size: nat, limit: nat, channel: I32)
    | Closed(reason: string)

  /** The first n elements, or all of them when there are fewer. */
  function Take<T>(s: seq<T>, n: nat): (t: seq<T>)
    ensures t <= s
  {
    if n <= |s| then s[..n] else s
  }

  lemma Assoc<T>(a: seq<T>, b: seq<T>, c: seq<T>)
    ensures a + b + c == a + (b + c)
  {
  }

  lemma NoMore<T>(s: seq<T>)
    ensures s + [] == s && [] + s == s
  {
  }

  lemma TakeSame<T>(a: seq<T>, b: seq<T>, n: nat)
    requires a <= b && n <= |a|
    ensures Take(a, n) == Take(b, n)
  {
    assert a == b[..|a|];
  }

  /** The values f gives for the elements of s, in order, leaving out those it gives none for. */
  function MapSome<T, U>(f: T -> Option<U>, s: seq<T>): seq<U> {
    if s == [] then []
    else
      var u := f(s[0]);
      (if u.Some? then [u.value] else []) + MapSome(f, s[1..])
  }

  lemma {:induction false} MapSomeConcat<T, U>(f: T -> Option<U>, a: seq<T>, b: seq<T>)
    ensures MapSome(f, a + b) == MapSome(f, a) + MapSome(f, b)
  {
    if a == [] {
      assert a + b == b;
    } else {
      assert (a + b)[1..] == a[1..] + b;
      MapSomeConcat(f, a[1..], b);
      Assoc(if f(a[0]).Some? then [f(a[0]).value] else [], MapSome(f, a[1..]), MapSome(f, b));
    }
  }

  lemma MapSomeOne<T, U>(f: T -> Option<U>, x: T)
    ensures MapSome(f, [x]) == if f(x).Some? then [f(x).value] else []
  {
    var one := [x];
    assert MapSome(f, one[1..]) == [];
  }

  /** The elements up to the first for which f holds, and that one. */
  function UpTo<T>(f: T -> bool, s: seq<T>): seq<T> {
    if s == [] || f(s[0]) then Take(s, 1) else [s[0]] + UpTo(f, s[1..])
  }

  lemma {:induction false} UpToPast<T(!new)>(f: T -> bool, a: seq<T>, b: seq<T>)
    requires forall x :: x in a ==> !f(x)
    ensures UpTo(f, a + b) == a + UpTo(f, b)
  {
    if a == [] {
      assert a + b == b;
    } else {
      assert (a + b)[1..] == a[1..] + b;
      UpToPast(f, a[1..], b);
      assert a == [a[0]] + a[1..];
    }
  }

  lemma {:induction false} UpToFound<T(!new)>(f: T -> bool, a: seq<T>, b: seq<T>, i: nat)
    requires i < |a| && f(a[i])
    ensures UpTo(f, a + b) == UpTo(f, a) <= a
  {
    assert (a + b)[1..] == a[1..] + b;
    if f(a[0]) {
      assert (a + b)[..1] == a[..1];
    } else {
      UpToFound(f, a[1..], b, i - 1);
      assert a == [a[0]] + a[1..];
    }
  }

  /** An order in which a hash map may list its keys: each one once. */
  ghost predicate IsOrder<T(!new)>(order: seq<T>, keys: set<T>) {
    && (forall x :: x in order <==> x in keys)
    && Distinct(order)
  }

  ghost predicate Distinct<T>(s: seq<T>) {
    forall i, j :: 0 <= i < j < |s| ==> s[i] != s[j]
  }

  lemma {:induction false} OrderSize<T(!new)>(order: seq<T>, keys: set<T>)
    requires IsOrder(order, keys)
    ensures |order| == |keys|
  {
    if order != [] {
      var n := |order| - 1;
      assert order == order[..n] + [order[n]];
      OrderSize(order[..n], keys - {order[n]});
    }
  }
}
