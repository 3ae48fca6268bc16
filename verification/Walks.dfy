/** Walks in a finite directed graph, shared by the two cycle searches of the repository. */
module Walks {
  import opened Prelude

  /** An adjacency map; a vertex without a row has no successors. */
  type Graph = map<string, seq<string>>

  ghost function Edges(graph: Graph): set<(string, string)> {
    set v, w | v in graph && w in graph[v] :: (v, w)
  }

  ghost function Vertices(graph: Graph): set<string> {
    graph.Keys + set v, w | v in graph && w in graph[v] :: w
  }

  /** Consecutive vertices of `p` are joined by an edge. */
  ghost predicate IsWalk<V(!new)>(edges: set<(V, V)>, p: seq<V>) {
    && |p| > 0
    && forall i, j :: 0 <= i && j == i + 1 && j < |p| ==> (p[i], p[j]) in edges
  }

  ghost predicate WalkFromTo<V(!new)>(edges: set<(V, V)>, u: V, v: V, p: seq<V>) {
    IsWalk(edges, p) && p[0] == u && p[|p| - 1] == v
  }

  /** A walk with at least one edge that ends where it starts; a self-loop is one. */
  ghost predicate ClosedWalk<V(!new)>(edges: set<(V, V)>, p: seq<V>) {
    IsWalk(edges, p) && |p| > 1 && p[0] == p[|p| - 1]
  }

  ghost predicate HasClosedWalk<V(!new)>(edges: set<(V, V)>) {
    exists p :: ClosedWalk(edges, p)
  }

  /** Some closed walk starts at a vertex that `root` reaches. */
  ghost predicate CycleReachableFrom<V(!new)>(edges: set<(V, V)>, root: V) {
    exists p, c :: ClosedWalk(edges, c) && WalkFromTo(edges, root, c[0], p)
  }

  /**
   * A finish order: every edge out of a listed vertex leads to a vertex listed strictly
   * earlier. Depth-first search produces one from the vertices it has left.
   */
  ghost predicate FinishOrder<V(!new)>(edges: set<(V, V)>, order: seq<V>) {
    forall i, w :: 0 <= i < |order| && (order[i], w) in edges ==> w in order[..i]
  }

  lemma FinishOrderExtend<V(!new)>(edges: set<(V, V)>, order: seq<V>, v: V)
    requires FinishOrder(edges, order)
    requires forall w :: (v, w) in edges ==> w in order
    ensures FinishOrder(edges, order + [v])
  {
    var more := order + [v];
    forall i, w | 0 <= i < |more| && (more[i], w) in edges
      ensures w in more[..i]
    {
      if i < |order| {
        assert more[..i] == order[..i];
      } else {
        assert more[..i] == order;
      }
    }
  }

  lemma WalkSuffix<V(!new)>(edges: set<(V, V)>, p: seq<V>, from: nat)
    requires IsWalk(edges, p) && from < |p|
    ensures IsWalk(edges, p[from..])
  {
  }

  lemma WalkExtend<V(!new)>(edges: set<(V, V)>, p: seq<V>, v: V)
    requires IsWalk(edges, p) && (p[|p| - 1], v) in edges
    ensures IsWalk(edges, p + [v])
  {
  }

  /** A walk that starts at position `i` of a finish order stays strictly below it. */
  lemma {:induction false} WalkDescends<V(!new)>(edges: set<(V, V)>, order: seq<V>, p: seq<V>, i: nat)
    requires FinishOrder(edges, order) && IsWalk(edges, p)
    requires i < |order| && p[0] == order[i]
    ensures forall k :: 1 <= k < |p| ==> p[k] in order[..i]
    decreases |p|
  {
    if |p| > 1 {
      assert (p[0], p[1]) in edges;
      var j :| 0 <= j < i && order[j] == p[1];
      WalkSuffix(edges, p, 1);
      WalkDescends(edges, order, p[1..], j);
      forall k | 1 <= k < |p|
        ensures p[k] in order[..i]
      {
        if k > 1 {
          assert p[k] == p[1..][k - 1];
          assert p[k] in order[..j];
        }
      }
    }
  }

  /** No closed walk starts inside a finish order. */
  lemma {:induction false} NoClosedWalkInFinishOrder<V(!new)>(edges: set<(V, V)>, order: seq<V>, p: seq<V>, i: nat)
    requires FinishOrder(edges, order) && i < |order|
    requires IsWalk(edges, p) && |p| > 1 && p[0] == order[i]
    ensures p[0] != p[|p| - 1]
    decreases i
  {
    WalkDescends(edges, order, p, i);
    if p[0] == p[|p| - 1] {
      var j :| 0 <= j < i && order[j] == p[0];
      NoClosedWalkInFinishOrder(edges, order, p, j);
    }
  }

  /** Hence no cycle can be reached from a vertex of a finish order. */
  lemma FinishOrderHasNoCycle<V(!new)>(edges: set<(V, V)>, order: seq<V>, root: V)
    requires FinishOrder(edges, order) && root in order
    ensures !CycleReachableFrom(edges, root)
  {
    forall p, c | ClosedWalk(edges, c) && WalkFromTo(edges, root, c[0], p)
      ensures false
    {
      var i :| 0 <= i < |order| && order[i] == root;
      WalkDescends(edges, order, p, i);
      assert c[0] in order;
      var j :| 0 <= j < |order| && order[j] == c[0];
      NoClosedWalkInFinishOrder(edges, order, c, j);
    }
  }

  /** A walk that meets a vertex twice contains a closed walk. */
  lemma RepeatGivesClosedWalk<V(!new)>(edges: set<(V, V)>, p: seq<V>, i: nat, j: nat)
    requires IsWalk(edges, p) && i < j < |p| && p[i] == p[j]
    ensures ClosedWalk(edges, p[i..j + 1])
  {
  }

  lemma {:induction false} DistinctFitsInSet<V>(p: seq<V>, s: set<V>)
    requires Distinct(p)
    requires forall v :: v in p ==> v in s
    ensures |p| <= |s|
    decreases |p|
  {
    if |p| > 0 {
      var last := p[|p| - 1];
      DistinctFitsInSet(p[..|p| - 1], s - {last});
      assert |s - {last}| == |s| - 1;
    }
  }

  /** A walk with more vertices than there are reaches a cycle from where it starts. */
  lemma LongWalkReachesCycle<V(!new)>(edges: set<(V, V)>, p: seq<V>, s: set<V>)
    requires IsWalk(edges, p) && |p| > |s|
    requires forall v :: v in p ==> v in s
    ensures CycleReachableFrom(edges, p[0])
  {
    if forall i, j :: 0 <= i < j < |p| ==> p[i] != p[j] {
      DistinctFitsInSet(p, s);
    } else {
      var i, j :| 0 <= i < j < |p| && p[i] == p[j];
      RepeatGivesClosedWalk(edges, p, i, j);
      assert WalkFromTo(edges, p[0], p[i..j + 1][0], p[..i + 1]);
    }
  }

  lemma ClosedWalkNeedsEdge<V(!new)>(edges: set<(V, V)>)
    ensures HasClosedWalk(edges) ==> edges != {}
  {
    if HasClosedWalk(edges) {
      var p :| ClosedWalk(edges, p);
      assert (p[0], p[1]) in edges;
    }
  }

  /** Fewer edges have no more closed walks. */
  lemma SubgraphStaysAcyclic<V(!new)>(edges: set<(V, V)>, fewer: set<(V, V)>)
    requires fewer <= edges && !HasClosedWalk(edges)
    ensures !HasClosedWalk(fewer)
  {
    forall p | ClosedWalk(fewer, p)
      ensures false
    {
      assert ClosedWalk(edges, p);
    }
  }

  /** Edges out of a vertex that nothing points to close no walk. */
  lemma SourceVertexStaysAcyclic<V(!new)>(edges: set<(V, V)>, more: set<(V, V)>, v: V)
    requires !HasClosedWalk(edges) && edges <= more
    requires forall a, b :: (a, b) in more ==> b != v
    requires forall a, b :: (a, b) in more && a != v ==> (a, b) in edges
    ensures !HasClosedWalk(more)
  {
    forall p | ClosedWalk(more, p)
      ensures false
    {
      forall i | 0 <= i < |p|
        ensures p[i] != v
      {
        if i > 0 {
          assert (p[i - 1], p[i]) in more;
        } else {
          assert (p[|p| - 2], p[|p| - 1]) in more;
        }
      }
      assert ClosedWalk(edges, p);
    }
  }
}
