/** Breadth-first flood fill over a boolean grid of blocks: the components it
    returns are the classes of 4-connectivity. */
module Components {
  import opened Rasters

  datatype Block = Block(r: int, c: int)

  predicate On(blocks: Raster<bool>, b: Block) {
    0 <= b.r < |blocks| && 0 <= b.c < |blocks[b.r]| && blocks[b.r][b.c]
  }

  predicate Adjacent(a: Block, b: Block) {
    || (a.c == b.c && (a.r == b.r + 1 || b.r == a.r + 1))
    || (a.r == b.r && (a.c == b.c + 1 || b.c == a.c + 1))
  }

  /** Blocks are adjacent exactly when they are one step apart along one axis. */
  lemma AdjacentIsOneStep(a: Block, b: Block)
    ensures Adjacent(a, b) <==> (a.r - b.r) * (a.r - b.r) + (a.c - b.c) * (a.c - b.c) == 1
  {
    Square(a.r - b.r);
    Square(a.c - b.c);
  }

  lemma Square(d: int)
    ensures d * d >= 0 && (d * d == 0 <==> d == 0) && (d * d == 1 <==> d == 1 || d == -1)
  {
    if d > 1 {
      assert d * d >= 2 * d;
    } else if d < -1 {
      assert d * d == (-d) * (-d) && (-d) * (-d) >= 2 * (-d);
    }
  }

  function Elems(s: seq<Block>): set<Block> { set b | b in s }

  ghost predicate Distinct(s: seq<Block>) {
    forall i, j :: 0 <= i < j < |s| ==> s[i] != s[j]
  }

  ghost predicate Closed(blocks: Raster<bool>, s: set<Block>) {
    forall a, b :: a in s && Adjacent(a, b) && On(blocks, b) ==> b in s
  }

  /** Block `k` was reached from an earlier one. */
  ghost predicate HasParent(s: seq<Block>, k: nat)
    requires k < |s|
  {
    exists j :: 0 <= j < k && Adjacent(s[j], s[k])
  }

  ghost predicate Grown(s: seq<Block>) {
    forall k :: 1 <= k < |s| ==> HasParent(s, k)
  }

  ghost predicate AllOn(blocks: Raster<bool>, s: set<Block>) {
    forall b :: b in s ==> On(blocks, b)
  }

  /** One component, as the flood fill builds it: true blocks only, none twice, each
      after the first next to an earlier one, and no true neighbour left out. */
  ghost predicate IsComponent(blocks: Raster<bool>, comp: seq<Block>) {
    && comp != [] && Distinct(comp) && AllOn(blocks, Elems(comp)) && Grown(comp) && Closed(blocks, Elems(comp))
  }

  ghost predicate InSome(out: seq<seq<Block>>, b: Block) {
    exists i :: 0 <= i < |out| && b in out[i]
  }

  ghost predicate Disjoint(out: seq<seq<Block>>) {
    forall i, j, b :: 0 <= i < j < |out| && b in out[i] ==> b !in out[j]
  }

  /** `a` comes before `b` in row-major order. */
  predicate Earlier(a: Block, b: Block) {
    a.r < b.r || (a.r == b.r && a.c < b.c)
  }

  /** The first block listed is the first in row-major order. */
  ghost predicate Led(comp: seq<Block>) {
    comp != [] && forall b :: b in comp ==> b == comp[0] || Earlier(comp[0], b)
  }

  /** Components led by their first blocks, in the order of those. */
  ghost predicate RowMajor(out: seq<seq<Block>>) {
    && (forall i :: 0 <= i < |out| ==> Led(out[i]))
    && (forall i, j :: 0 <= i < j < |out| ==> Earlier(out[i][0], out[j][0]))
  }

  /** Every true block is in exactly one component, and every part is a component. */
  ghost predicate IsPartition(blocks: Raster<bool>, out: seq<seq<Block>>) {
    && (forall i :: 0 <= i < |out| ==> IsComponent(blocks, out[i]))
    && (forall b :: On(blocks, b) ==> InSome(out, b))
    && Disjoint(out)
  }

  // ---- The flood fill ----

  const STEPS := [Block(1, 0), Block(-1, 0), Block(0, 1), Block(0, -1)]

  ghost predicate Marks(seen: array2<bool>, s: set<Block>)
    reads seen
  {
    forall r, c :: InBounds(r, c, seen.Length0, seen.Length1) ==> (seen[r, c] <==> Block(r, c) in s)
  }

  /** The blocks not yet seen: what the fill terminates on. */
  ghost function Unseen(rows: nat, cols: nat, s: set<Block>): set<Block> {
    set r, c | 0 <= r < rows && 0 <= c < cols && Block(r, c) !in s :: Block(r, c)
  }

  lemma UnseenShrinks(rows: nat, cols: nat, s: set<Block>, b: Block)
    requires InBounds(b.r, b.c, rows, cols) && b !in s
    ensures |Unseen(rows, cols, s + {b})| < |Unseen(rows, cols, s)|
  {
    assert b == Block(b.r, b.c);
    assert Unseen(rows, cols, s) == Unseen(rows, cols, s + {b}) + {b};
  }

  lemma GrowOne(s: seq<Block>, parent: Block, b: Block)
    requires Grown(s) && Distinct(s) && parent in s && b !in s && Adjacent(parent, b)
    ensures Grown(s + [b]) && Distinct(s + [b]) && Elems(s + [b]) == Elems(s) + {b}
  {
    var t := s + [b];
    forall k | 1 <= k < |t| ensures HasParent(t, k) {
      if k < |s| {
        assert HasParent(s, k);
        var j :| 0 <= j < k && Adjacent(s[j], s[k]);
        assert Adjacent(t[j], t[k]);
      } else {
        var j :| 0 <= j < |s| && s[j] == parent;
        assert Adjacent(t[j], t[k]);
      }
    }
  }

  /** The true neighbours of `b` along the first `k` steps are in `s`. */
  ghost predicate Visited(blocks: Raster<bool>, b: Block, k: nat, s: set<Block>)
    requires k <= 4
  {
    forall j :: 0 <= j < k ==>
      (On(blocks, Block(b.r + STEPS[j].r, b.c + STEPS[j].c)) ==> Block(b.r + STEPS[j].r, b.c + STEPS[j].c) in s)
  }

  lemma VisitedAll(blocks: Raster<bool>, a: Block, b: Block, s: set<Block>)
    requires Visited(blocks, a, 4, s) && Adjacent(a, b) && On(blocks, b)
    ensures b in s
  {
    var k := if b.r == a.r + 1 then 0 else if a.r == b.r + 1 then 1 else if b.c == a.c + 1 then 2 else 3;
    assert b == Block(a.r + STEPS[k].r, a.c + STEPS[k].c);
  }

  /** What a component has found so far, in the order it was found. */
  ghost predicate Found(blocks: Raster<bool>, order: seq<Block>, done: set<Block>) {
    Grown(order) && Distinct(order) && AllOn(blocks, Elems(order)) && Elems(order) !! done
  }

  lemma FindOne(blocks: Raster<bool>, order: seq<Block>, done: set<Block>, parent: Block, b: Block)
    requires Found(blocks, order, done) && parent in order && Adjacent(parent, b)
    requires On(blocks, b) && b !in done + Elems(order)
    ensures Found(blocks, order + [b], done)
    ensures done + Elems(order + [b]) == done + Elems(order) + {b}
  {
    GrowOne(order, parent, b);
  }

  /** What the fill terminates on: blocks not yet seen, and the queue. */
  ghost function Measure(seen: array2<bool>, s: set<Block>, queue: seq<Block>): nat {
    |Unseen(seen.Length0, seen.Length1, s)| + |queue|
  }

  /** Mark and queue a neighbour of `b` if it is true and unseen. */
  method Visit(blocks: Raster<bool>, seen: array2<bool>, queue: seq<Block>, b: Block, n: Block, ghost order: seq<Block>, ghost done: set<Block>)
    returns (grown: seq<Block>, ghost more: seq<Block>)
    requires Shaped(blocks, seen.Length0, seen.Length1) && Marks(seen, done + Elems(order))
    requires b in order && Adjacent(b, n) && Found(blocks, order, done)
    modifies seen
    ensures grown == queue + more
    ensures Marks(seen, done + Elems(order + more)) && Found(blocks, order + more, done)
    ensures On(blocks, n) ==> n in done + Elems(order + more)
    ensures Measure(seen, done + Elems(order + more), grown) <= Measure(seen, done + Elems(order), queue)
  {
    grown, more := queue, [];
    assert order + more == order;
    if InBounds(n.r, n.c, seen.Length0, seen.Length1) && blocks[n.r][n.c] && !seen[n.r, n.c] {
      seen[n.r, n.c] := true;
      grown, more := queue + [n], [n];
      FindOne(blocks, order, done, b, n);
      UnseenShrinks(seen.Length0, seen.Length1, done + Elems(order), n);
    }
  }

  lemma VisitedWidens(blocks: Raster<bool>, b: Block, k: nat, s: set<Block>, t: set<Block>)
    requires k < 4 && Visited(blocks, b, k, s) && s <= t
    requires var n := Block(b.r + STEPS[k].r, b.c + STEPS[k].c); On(blocks, n) ==> n in t
    ensures Visited(blocks, b, k + 1, t)
  {
  }

  /** Queue every true, unseen neighbour of `b`. */
  method Expand(blocks: Raster<bool>, seen: array2<bool>, queue: seq<Block>, b: Block, ghost order: seq<Block>, ghost done: set<Block>)
    returns (grown: seq<Block>, ghost more: seq<Block>)
    requires Shaped(blocks, seen.Length0, seen.Length1) && Marks(seen, done + Elems(order))
    requires b in order && Found(blocks, order, done)
    modifies seen
    ensures grown == queue + more
    ensures Marks(seen, done + Elems(order + more)) && Found(blocks, order + more, done)
    ensures Visited(blocks, b, 4, done + Elems(order + more))
    ensures Measure(seen, done + Elems(order + more), grown) <= Measure(seen, done + Elems(order), queue)
  {
    grown, more := queue, [];
    ghost var found := order;
    for k := 0 to 4
      invariant grown == queue + more && found == order + more
      invariant Marks(seen, done + Elems(found)) && Found(blocks, found, done)
      invariant Visited(blocks, b, k, done + Elems(found))
      invariant Measure(seen, done + Elems(found), grown) <= Measure(seen, done + Elems(order), queue)
    {
      var n := Block(b.r + STEPS[k].r, b.c + STEPS[k].c);
      ghost var next;
      grown, next := Visit(blocks, seen, grown, b, n, found, done);
      VisitedWidens(blocks, b, k, done + Elems(found), done + Elems(found + next));
      more := more + next;
      found := found + next;
    }
  }

  /** The true neighbours of every finished block are found. */
  ghost predicate Finished(blocks: Raster<bool>, comp: seq<Block>, s: set<Block>) {
    forall b :: b in comp ==> Visited(blocks, b, 4, s)
  }

  lemma FinishedWidens(blocks: Raster<bool>, comp: seq<Block>, s: set<Block>, t: set<Block>, b: Block)
    requires Finished(blocks, comp, s) && s <= t && Visited(blocks, b, 4, t)
    ensures Finished(blocks, comp + [b], t)
  {
  }

  /** The component of `start`, breadth first. */
  method Flood(blocks: Raster<bool>, seen: array2<bool>, start: Block, ghost done: set<Block>) returns (comp: seq<Block>)
    requires Shaped(blocks, seen.Length0, seen.Length1) && Marks(seen, done)
    requires On(blocks, start) && start !in done && Closed(blocks, done) && AllOn(blocks, done)
    modifies seen
    ensures Marks(seen, done + Elems(comp)) && comp != [] && comp[0] == start
    ensures IsComponent(blocks, comp) && Elems(comp) !! done
  {
    var queue := [start];
    seen[start.r, start.c] := true;
    comp := [];
    ghost var order := [start];
    while queue != []
      invariant order == comp + queue && order != [] && order[0] == start
      invariant Marks(seen, done + Elems(order)) && Found(blocks, order, done)
      invariant Finished(blocks, comp, done + Elems(order))
      decreases Measure(seen, done + Elems(order), queue)
    {
      var b := queue[0];
      queue := queue[1..];
      ghost var more;
      queue, more := Expand(blocks, seen, queue, b, order, done);
      FinishedWidens(blocks, comp, done + Elems(order), done + Elems(order + more), b);
      comp := comp + [b];
      order := order + more;
    }
    assert order == comp;
    FilledIsClosed(blocks, done, comp);
  }

  lemma FilledIsClosed(blocks: Raster<bool>, done: set<Block>, comp: seq<Block>)
    requires Closed(blocks, done) && AllOn(blocks, Elems(comp)) && Elems(comp) !! done
    requires Finished(blocks, comp, done + Elems(comp))
    ensures Closed(blocks, Elems(comp))
  {
    forall a, b | a in Elems(comp) && Adjacent(a, b) && On(blocks, b) ensures b in Elems(comp) {
      VisitedAll(blocks, a, b, done + Elems(comp));
      if b in done {
        assert Adjacent(b, a);
      }
    }
  }

  ghost function Union(out: seq<seq<Block>>): set<Block> {
    set i, b | 0 <= i < |out| && b in out[i] :: b
  }

  lemma UnionAppend(blocks: Raster<bool>, out: seq<seq<Block>>, comp: seq<Block>)
    requires forall i :: 0 <= i < |out| ==> IsComponent(blocks, out[i])
    requires IsComponent(blocks, comp) && Elems(comp) !! Union(out) && Disjoint(out)
    requires Closed(blocks, Union(out)) && AllOn(blocks, Union(out))
    ensures Union(out + [comp]) == Union(out) + Elems(comp)
    ensures Disjoint(out + [comp])
    ensures Closed(blocks, Union(out + [comp])) && AllOn(blocks, Union(out + [comp]))
  {
    var next := out + [comp];
    forall b ensures b in Union(next) <==> b in Union(out) || b in Elems(comp) {
      if b in Union(out) {
        var i :| 0 <= i < |out| && b in out[i];
        assert b in next[i];
      }
      if b in comp {
        assert b in next[|out|];
      }
    }
    forall i, j, b | 0 <= i < j < |next| && b in next[i] ensures b !in next[j] {
      if j == |out| {
        assert b in out[i] && b in Union(out);
      }
    }
  }

  /** A fill that starts at the first true block not yet seen is led by it. */
  lemma LedByStart(blocks: Raster<bool>, comp: seq<Block>, done: set<Block>)
    requires IsComponent(blocks, comp) && Elems(comp) !! done
    requires forall b :: On(blocks, b) && Earlier(b, comp[0]) ==> b in done
    ensures Led(comp)
  {
    forall b | b in comp ensures b == comp[0] || Earlier(comp[0], b) {
      assert b in Elems(comp) && On(blocks, b);
      assert b == Block(b.r, b.c) && comp[0] == Block(comp[0].r, comp[0].c);
    }
  }

  /** What the sweep has when it comes to block `at`: the components of all true blocks
      before it. */
  ghost predicate Swept(blocks: Raster<bool>, out: seq<seq<Block>>, at: Block) {
    && Closed(blocks, Union(out)) && AllOn(blocks, Union(out)) && Disjoint(out)
    && (forall i :: 0 <= i < |out| ==> IsComponent(blocks, out[i]))
    && (forall b :: On(blocks, b) && Earlier(b, at) ==> b in Union(out))
    && RowMajor(out) && (forall i :: 0 <= i < |out| ==> Earlier(out[i][0], at))
  }

  lemma SweepTakes(blocks: Raster<bool>, out: seq<seq<Block>>, at: Block, comp: seq<Block>)
    requires Swept(blocks, out, at) && IsComponent(blocks, comp) && comp[0] == at && Elems(comp) !! Union(out)
    ensures Union(out + [comp]) == Union(out) + Elems(comp)
    ensures Swept(blocks, out + [comp], Block(at.r, at.c + 1))
  {
    UnionAppend(blocks, out, comp);
    LedByStart(blocks, comp, Union(out));
    RowMajorAppend(out, comp);
    BeforeNext(blocks, Union(out), Elems(comp), at);
  }

  lemma RowMajorAppend(out: seq<seq<Block>>, comp: seq<Block>)
    requires RowMajor(out) && Led(comp) && forall i :: 0 <= i < |out| ==> Earlier(out[i][0], comp[0])
    ensures RowMajor(out + [comp])
    ensures forall i :: 0 <= i < |out + [comp]| ==> Earlier((out + [comp])[i][0], Block(comp[0].r, comp[0].c + 1))
  {
  }

  lemma BeforeNext(blocks: Raster<bool>, done: set<Block>, comp: set<Block>, at: Block)
    requires at in comp && forall b :: On(blocks, b) && Earlier(b, at) ==> b in done
    ensures forall b :: On(blocks, b) && Earlier(b, Block(at.r, at.c + 1)) ==> b in done + comp
  {
    forall b | On(blocks, b) && Earlier(b, Block(at.r, at.c + 1)) ensures b in done + comp {
      assert b == Block(b.r, b.c) && at == Block(at.r, at.c);
    }
  }

  lemma SweepSkips(blocks: Raster<bool>, out: seq<seq<Block>>, at: Block)
    requires Swept(blocks, out, at) && (On(blocks, at) ==> at in Union(out))
    ensures Swept(blocks, out, Block(at.r, at.c + 1))
  {
    forall b | On(blocks, b) && Earlier(b, Block(at.r, at.c + 1)) ensures b in Union(out) {
      assert b == Block(b.r, b.c) && at == Block(at.r, at.c);
    }
  }

  lemma SweepWraps(blocks: Raster<bool>, out: seq<seq<Block>>, rows: nat, cols: nat, r: nat)
    requires Shaped(blocks, rows, cols) && Swept(blocks, out, Block(r, cols))
    ensures Swept(blocks, out, Block(r + 1, 0))
  {
  }

  /** 4-connected components of a boolean grid of blocks, in row-major order of
      their first blocks. */
  method FindComponents(blocks: Raster<bool>, rows: nat, cols: nat) returns (out: seq<seq<Block>>)
    requires Shaped(blocks, rows, cols)
    ensures IsPartition(blocks, out) && RowMajor(out)
  {
    out := [];
    var seen := new bool[rows, cols]((r, c) => false);
    for r := 0 to rows
      invariant Marks(seen, Union(out)) && Swept(blocks, out, Block(r, 0))
    {
      for c := 0 to cols
        invariant Marks(seen, Union(out)) && Swept(blocks, out, Block(r, c))
      {
        if blocks[r][c] && !seen[r, c] {
          var comp := Flood(blocks, seen, Block(r, c), Union(out));
          SweepTakes(blocks, out, Block(r, c), comp);
          out := out + [comp];
        } else {
          SweepSkips(blocks, out, Block(r, c));
        }
      }
      SweepWraps(blocks, out, rows, cols, r);
    }
  }

  // ---- The components are the classes of 4-connectivity ----

  /** A path of neighbours, every step of it in `s`. */
  ghost predicate IsPath(s: set<Block>, p: seq<Block>, a: Block, b: Block) {
    && p != [] && p[0] == a && p[|p| - 1] == b
    && (forall i :: 0 <= i < |p| ==> p[i] in s)
    && (forall i :: 0 <= i < |p| - 1 ==> Adjacent(p[i], p[i + 1]))
  }

  ghost predicate Joined(s: set<Block>, a: Block, b: Block) {
    exists p :: IsPath(s, p, a, b)
  }

  lemma JoinedSelf(s: set<Block>, a: Block)
    requires a in s
    ensures Joined(s, a, a)
  {
    assert IsPath(s, [a], a, a);
  }

  lemma JoinedStep(s: set<Block>, a: Block, b: Block, c: Block)
    requires Joined(s, a, b) && Adjacent(b, c) && c in s
    ensures Joined(s, a, c)
  {
    var p :| IsPath(s, p, a, b);
    assert IsPath(s, p + [c], a, c);
  }

  lemma {:induction false} JoinedTrans(s: set<Block>, a: Block, b: Block, c: Block, q: seq<Block>)
    requires Joined(s, a, b) && IsPath(s, q, b, c)
    ensures Joined(s, a, c)
    decreases |q|
  {
    if |q| > 1 {
      assert IsPath(s, q[..|q| - 1], b, q[|q| - 2]);
      JoinedTrans(s, a, b, q[|q| - 2], q[..|q| - 1]);
      JoinedStep(s, a, q[|q| - 2], c);
    }
  }

  lemma {:induction false} JoinedSymmetric(s: set<Block>, a: Block, b: Block, p: seq<Block>)
    requires IsPath(s, p, a, b)
    ensures Joined(s, b, a)
    decreases |p|
  {
    JoinedSelf(s, a);
    if |p| > 1 {
      assert IsPath(s, p[..|p| - 1], a, p[|p| - 2]);
      JoinedSymmetric(s, a, p[|p| - 2], p[..|p| - 1]);
      var q :| IsPath(s, q, p[|p| - 2], a);
      assert IsPath(s, [b] + q, b, a);
    }
  }

  lemma {:induction false} JoinedToRoot(comp: seq<Block>, k: nat)
    requires Grown(comp) && k < |comp|
    ensures Joined(Elems(comp), comp[0], comp[k])
    decreases k
  {
    if k == 0 {
      JoinedSelf(Elems(comp), comp[0]);
    } else {
      assert HasParent(comp, k);
      var j :| 0 <= j < k && Adjacent(comp[j], comp[k]);
      JoinedToRoot(comp, j);
      JoinedStep(Elems(comp), comp[0], comp[j], comp[k]);
    }
  }

  /** Any two blocks of a component are joined by a path inside it. */
  lemma ComponentIsConnected(blocks: Raster<bool>, comp: seq<Block>, a: Block, b: Block)
    requires IsComponent(blocks, comp) && a in comp && b in comp
    ensures Joined(Elems(comp), a, b)
  {
    var i :| 0 <= i < |comp| && comp[i] == a;
    var j :| 0 <= j < |comp| && comp[j] == b;
    JoinedToRoot(comp, i);
    JoinedToRoot(comp, j);
    var p :| IsPath(Elems(comp), p, comp[0], a);
    JoinedSymmetric(Elems(comp), comp[0], a, p);
    var q :| IsPath(Elems(comp), q, comp[0], b);
    JoinedTrans(Elems(comp), a, comp[0], b, q);
  }

  /** A path of true blocks that starts in a component never leaves it. */
  lemma {:induction false} PathStaysInside(blocks: Raster<bool>, comp: seq<Block>, all: set<Block>, p: seq<Block>, a: Block, b: Block)
    requires IsComponent(blocks, comp) && AllOn(blocks, all)
    requires IsPath(all, p, a, b) && a in comp
    ensures b in comp
    decreases |p|
  {
    if |p| > 1 {
      assert IsPath(all, p[..|p| - 1], a, p[|p| - 2]);
      PathStaysInside(blocks, comp, all, p[..|p| - 1], a, p[|p| - 2]);
      assert Adjacent(p[|p| - 2], p[|p| - 1]);
      assert p[|p| - 2] in Elems(comp) && On(blocks, b);
    }
  }

  ghost function Trues(blocks: Raster<bool>): set<Block> {
    set r, c | 0 <= r < |blocks| && 0 <= c < |blocks[r]| && blocks[r][c] :: Block(r, c)
  }

  lemma {:induction false} PathWidens(s: set<Block>, t: set<Block>, p: seq<Block>, a: Block, b: Block)
    requires IsPath(s, p, a, b) && s <= t
    ensures IsPath(t, p, a, b)
  {
  }

  /** Two true blocks are in one component exactly when a path of true blocks joins
      them. */
  lemma ComponentsAreClasses(blocks: Raster<bool>, out: seq<seq<Block>>, i: nat, j: nat, a: Block, b: Block)
    requires IsPartition(blocks, out) && i < |out| && j < |out| && a in out[i] && b in out[j]
    ensures Joined(Trues(blocks), a, b) <==> i == j
  {
    assert AllOn(blocks, Trues(blocks));
    if Joined(Trues(blocks), a, b) {
      var p :| IsPath(Trues(blocks), p, a, b);
      PathStaysInside(blocks, out[i], Trues(blocks), p, a, b);
    }
    if i == j {
      ComponentIsConnected(blocks, out[i], a, b);
      var p :| IsPath(Elems(out[i]), p, a, b);
      forall x | x in Elems(out[i]) ensures x in Trues(blocks) {
        assert On(blocks, x) && x == Block(x.r, x.c);
      }
      PathWidens(Elems(out[i]), Trues(blocks), p, a, b);
    }
  }
}
