/** The bounded frame queue between the socket and the workers, and the two places
    that answer on behalf of a frame: on arrival and when results are flushed. */
module FrameQueues {

  datatype Policy = DropOldest | DropNewest

  datatype Put<F> = Put(items: seq<F>, evicted: seq<F>)

  /** Put on an open queue: at the limit the arrival is refused, or room is made at the
      front. */
  function PutOpen<F>(items: seq<F>, depth: nat, policy: Policy, f: F): (p: Put<F>)
    requires depth >= 1 && |items| <= depth
    ensures policy.DropNewest? ==> p.items + p.evicted == items + [f]
    ensures policy.DropOldest? ==> p.evicted + p.items == items + [f]
    ensures |p.items| <= depth && |p.evicted| <= 1
    ensures p.evicted != [] <==> |items| == depth
  {
    if |items| < depth then Put(items + [f], [])
    else if policy.DropNewest? then Put(items, [f])
    else
      assert [items[0]] + (items[1..] + [f]) == items + [f];
      Put(items[1..] + [f], [items[0]])
  }

  /** No frame is lost or made up: what was waiting and the arrival are what waits now
      and what was evicted. */
  lemma PutConserves<F>(items: seq<F>, depth: nat, policy: Policy, f: F)
    requires depth >= 1 && |items| <= depth
    ensures var p := PutOpen(items, depth, policy, f);
            multiset(p.items) + multiset(p.evicted) == multiset(items) + multiset{f}
  {
    var p := PutOpen(items, depth, policy, f);
    assert multiset(items + [f]) == multiset(items) + multiset{f};
    if p.items + p.evicted == items + [f] {
      assert multiset(p.items + p.evicted) == multiset(p.items) + multiset(p.evicted);
    } else {
      assert multiset(p.evicted + p.items) == multiset(p.items) + multiset(p.evicted);
    }
  }

  class FrameQueue<F(==)> {
    const maxDepth: nat
    const policy: Policy
    var items: seq<F>
    var closed: bool
    var droppedTotal: nat

    predicate Valid()
      reads this
    {
      maxDepth >= 1 && |items| <= maxDepth
    }

    /** The depth is at least one by configuration. */
    constructor (maxDepth: nat, policy: Policy)
      requires maxDepth >= 1
      ensures Valid() && items == [] && !closed && droppedTotal == 0
      ensures this.maxDepth == maxDepth && this.policy == policy
    {
      this.maxDepth, this.policy := maxDepth, policy;
      items, closed, droppedTotal := [], false, 0;
    }

    /** Enqueue a frame, returning those evicted to make room; a closed queue hands the
        frame back and counts nothing. */
    method Enqueue(f: F) returns (evicted: seq<F>)
      requires Valid()
      modifies this
      ensures Valid() && closed == old(closed)
      ensures closed ==> evicted == [f] && items == old(items) && droppedTotal == old(droppedTotal)
      ensures !closed ==> PutOpen(old(items), maxDepth, policy, f) == Put(items, evicted)
      ensures !closed ==> droppedTotal == old(droppedTotal) + |evicted|
    {
      if closed {
        return [f];
      }
      evicted := [];
      if |items| >= maxDepth {
        if policy.DropNewest? {
          droppedTotal := droppedTotal + 1;
          return [f];
        }
        while |items| >= maxDepth
          invariant !closed && (0 < |items| <= maxDepth || (items == [] && maxDepth == 1))
          invariant |items| == maxDepth ==> items == old(items) && evicted == [] && droppedTotal == old(droppedTotal)
          invariant |items| < maxDepth ==>
                      items == old(items)[1..] && evicted == [old(items)[0]] && droppedTotal == old(droppedTotal) + 1
        {
          evicted := evicted + [items[0]];
          items := items[1..];
          droppedTotal := droppedTotal + 1;
        }
      }
      items := items + [f];
    }

    /** Pop the oldest frame, if there is one, closed or not. */
    method Get() returns (f: seq<F>)
      requires Valid()
      modifies this
      ensures Valid() && closed == old(closed) && droppedTotal == old(droppedTotal)
      ensures |f| <= 1 && f + items == old(items) && (f == [] <==> old(items) == [])
    {
      if items == [] {
        return [];
      }
      f := [items[0]];
      items := items[1..];
    }

    method Close()
      requires Valid()
      modifies this
      ensures Valid() && closed && items == old(items) && droppedTotal == old(droppedTotal)
    {
      closed := true;
    }

    method Drain() returns (all: seq<F>)
      requires Valid()
      modifies this
      ensures Valid() && all == old(items) && items == [] && closed == old(closed) && droppedTotal == old(droppedTotal)
    {
      all := items;
      items := [];
    }
  }
}
