/** The stable descending sort of `list.sort(key=..., reverse=True)`, as the order of
    the indices. */
module Sorting {

  datatype Key = Key(major: real, minor: int)

  predicate Above(a: Key, b: Key) {
    a.major > b.major || (a.major == b.major && a.minor > b.minor)
  }

  /** Item `x` comes before item `y`: its key is greater, or the same and it came first. */
  predicate Precedes(keys: seq<Key>, x: nat, y: nat)
    requires x < |keys| && y < |keys|
  {
    Above(keys[x], keys[y]) || (keys[x] == keys[y] && x < y)
  }

  ghost predicate Ordered(keys: seq<Key>, order: seq<nat>)
  {
    && (forall i :: 0 <= i < |order| ==> order[i] < |keys|)
    && (forall i, j :: 0 <= i < j < |order| ==> Precedes(keys, order[i], order[j]))
  }

  /** Each of the first `n` items once, and no other. */
  ghost predicate Lists(order: seq<nat>, n: nat) {
    |order| == n && forall x :: 0 <= x < n <==> x in order
  }

  /** Item `x` inserted behind every item it does not beat. */
  function Insert(keys: seq<Key>, order: seq<nat>, x: nat): (placed: seq<nat>)
    requires x < |keys| && forall i :: 0 <= i < |order| ==> order[i] < x
    ensures |placed| == |order| + 1
    ensures forall y :: y in placed <==> y == x || y in order
    ensures forall i :: 0 <= i < |placed| ==> placed[i] <= x
  {
    if order == [] then [x]
    else
      var last := order[|order| - 1];
      if Above(keys[x], keys[last]) then Insert(keys, order[..|order| - 1], x) + [last] else order + [x]
  }

  function Ranking(keys: seq<Key>, n: nat): (order: seq<nat>)
    requires n <= |keys|
    ensures Lists(order, n) && forall i :: 0 <= i < n ==> order[i] < n
  {
    if n == 0 then [] else Insert(keys, Ranking(keys, n - 1), n - 1)
  }

  lemma {:induction false} InsertOrdered(keys: seq<Key>, order: seq<nat>, x: nat)
    requires x < |keys| && (forall i :: 0 <= i < |order| ==> order[i] < x) && Ordered(keys, order)
    ensures Ordered(keys, Insert(keys, order, x))
  {
    var placed := Insert(keys, order, x);
    if order != [] {
      var init, last := order[..|order| - 1], order[|order| - 1];
      if Above(keys[x], keys[last]) {
        InsertOrdered(keys, init, x);
        var front := Insert(keys, init, x);
        forall i | 0 <= i < |front| ensures Precedes(keys, front[i], last) {
          assert front[i] in front;
          if front[i] != x {
            var k :| 0 <= k < |init| && init[k] == front[i];
            assert Precedes(keys, order[k], order[|order| - 1]);
          }
        }
      } else {
        forall i | 0 <= i < |order| ensures Precedes(keys, order[i], x) {
          assert i < |order| - 1 ==> Precedes(keys, order[i], last);
        }
      }
    }
  }

  /** The order lists every item once, greatest key first, ties as they came. */
  lemma {:induction false} RankingIsStableSort(keys: seq<Key>, n: nat)
    requires n <= |keys|
    ensures Lists(Ranking(keys, n), n) && Ordered(keys, Ranking(keys, n))
  {
    if n > 0 {
      RankingIsStableSort(keys, n - 1);
      var order := Ranking(keys, n - 1);
      InsertOrdered(keys, order, n - 1);
    }
  }
}
