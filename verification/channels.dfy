/** The receiving end of an unbounded channel between tasks. */
module Channels {
  import opened Bytes

  /**
    `items` is everything still to be taken before every sender is gone; the first `ready` of them
    are already here, the rest only a blocking receive waits for.
   */
  class Receiver<T> {
    var items: seq<T>
    var ready: nat

    ghost predicate Valid()
      reads this
    {
      ready <= |items|
    }

    constructor (items: seq<T>)
      ensures Valid() && this.items == items && ready == 0
    {
      this.items, ready := items, 0;
    }

    /** More items arrive. */
    method Arrive(n: nat)
      requires ready + n <= |items|
      modifies this`ready
      ensures Valid() && ready == old(ready) + n
    {
      ready := ready + n;
    }

    method TryRecv() returns (item: Option<T>)
      requires Valid()
      modifies this
      ensures Valid()
      ensures old(ready) == 0 ==> item == None && items == old(items) && ready == 0
      ensures old(ready) > 0 ==>
                item == Some(old(items)[0]) && items == old(items)[1..] && ready == old(ready) - 1
    {
      if ready == 0 {
        return None;
      }
      item := Some(items[0]);
      items, ready := items[1..], ready - 1;
    }

    /** The item at the front, whether or not it is here yet. None once nothing more can come. */
    method RecvBlocking() returns (item: Option<T>)
      requires Valid()
      modifies this
      ensures Valid()
      ensures old(items) == [] ==> item == None && items == [] && ready == 0
      ensures old(items) != [] ==>
                && item == Some(old(items)[0]) && items == old(items)[1..]
                && ready == if old(ready) == 0 then 0 else old(ready) - 1
    {
      if items == [] {
        return None;
      }
      item := Some(items[0]);
      items, ready := items[1..], if ready == 0 then 0 else ready - 1;
    }

    /** Takes everything that is here. */
    method TakeReady() returns (taken: seq<T>)
      requires Valid()
      modifies this
      ensures Valid() && ready == 0
      ensures taken == old(items[..ready]) && items == old(items[ready..])
    {
      taken := [];
      ghost var all := items;
      while ready > 0
        invariant Valid() && |taken| + ready == old(ready)
        invariant taken == all[..|taken|] && items == all[|taken|..]
        decreases ready
      {
        var item := TryRecv();
        taken := taken + [item.value];
      }
    }
  }
}
