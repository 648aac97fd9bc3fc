/** Finite directed graphs given by adjacency lists, as the agent compiler keeps them:
    a map from a node's name to the names it lists.  A list may repeat a name, and a node
    without an entry lists nothing. */
module Digraph {
  import opened Sequences

  type Edges = map<string, seq<string>>

  function Succ(edges: Edges, node: string): seq<string> {
    if node in edges then edges[node] else []
  }

  /** The hop from position `i` of a walk follows an edge. */
  ghost predicate Hop(edges: Edges, p: seq<string>, i: nat)
    requires i + 1 < |p|
  {
    p[i + 1] in Succ(edges, p[i])
  }

  ghost predicate IsPath(edges: Edges, p: seq<string>) {
    |p| >= 1 && forall i | 0 <= i < |p| - 1 :: Hop(edges, p, i)
  }

  /** A closed walk: at least one edge, ending where it starts. */
  ghost predicate IsCycle(edges: Edges, p: seq<string>) {
    IsPath(edges, p) && |p| >= 2 && p[0] == p[|p| - 1]
  }

  /** A closed walk that repeats no node except the one it starts and ends at. */
  ghost predicate IsSimpleCycle(edges: Edges, p: seq<string>) {
    IsCycle(edges, p) && Distinct(p[..|p| - 1])
  }

  ghost predicate PathFromTo(edges: Edges, p: seq<string>, a: string, b: string) {
    IsPath(edges, p) && p[0] == a && p[|p| - 1] == b
  }

  ghost predicate Reaches(edges: Edges, a: string, b: string) {
    exists p :: PathFromTo(edges, p, a, b)
  }

  /** Some cycle can be reached from one of the given nodes. */
  ghost predicate ReachesCycle(edges: Edges, nodes: seq<string>) {
    exists n, p :: n in nodes && IsCycle(edges, p) && Reaches(edges, n, p[0])
  }

  /** Every edge that leaves a listed node ends at a listed node. */
  ghost predicate Closed(edges: Edges, nodes: seq<string>) {
    forall u, v | u in nodes && v in Succ(edges, u) :: v in nodes
  }

  lemma ReachesSelf(edges: Edges, a: string)
    ensures Reaches(edges, a, a)
  {
    assert PathFromTo(edges, [a], a, a);
  }

  lemma SubPath(edges: Edges, p: seq<string>, i: nat, j: nat)
    requires IsPath(edges, p) && i < j <= |p|
    ensures IsPath(edges, p[i..j])
  {
    forall k | 0 <= k < j - i - 1 ensures Hop(edges, p[i..j], k) {
      assert Hop(edges, p, i + k);
    }
  }

  lemma JoinPaths(edges: Edges, p: seq<string>, q: seq<string>)
    requires IsPath(edges, p) && IsPath(edges, q) && q[0] in Succ(edges, p[|p| - 1])
    ensures IsPath(edges, p + q)
  {
    forall k | 0 <= k < |p + q| - 1 ensures Hop(edges, p + q, k) {
      if k < |p| - 1 {
        assert Hop(edges, p, k);
      } else if k >= |p| {
        assert Hop(edges, q, k - |p|);
      }
    }
  }

  lemma ReachesEdge(edges: Edges, a: string, b: string, c: string)
    requires Reaches(edges, a, b) && c in Succ(edges, b)
    ensures Reaches(edges, a, c)
  {
    var p :| PathFromTo(edges, p, a, b);
    JoinPaths(edges, p, [c]);
    assert PathFromTo(edges, p + [c], a, c);
  }

  lemma ReachesTransitive(edges: Edges, a: string, b: string, c: string)
    requires Reaches(edges, a, b) && Reaches(edges, b, c)
    ensures Reaches(edges, a, c)
  {
    var p :| PathFromTo(edges, p, a, b);
    var q :| PathFromTo(edges, q, b, c);
    if |q| > 1 {
      assert Hop(edges, q, 0);
      SubPath(edges, q, 1, |q|);
      JoinPaths(edges, p, q[1..|q|]);
      assert PathFromTo(edges, p + q[1..|q|], a, c);
    }
  }

  /** A set of nodes that is closed under edges contains everything its members reach. */
  lemma {:induction false} PathStaysInside(edges: Edges, inside: iset<string>, p: seq<string>)
    requires IsPath(edges, p) && p[0] in inside
    requires forall u, v | u in inside && v in Succ(edges, u) :: v in inside
    ensures forall i | 0 <= i < |p| :: p[i] in inside
    decreases |p|
  {
    if |p| > 1 {
      assert Hop(edges, p, 0);
      SubPath(edges, p, 1, |p|);
      PathStaysInside(edges, inside, p[1..|p|]);
      forall i | 0 <= i < |p| ensures p[i] in inside {
        if i > 0 { assert p[i] == p[1..|p|][i - 1]; }
      }
    }
  }

  lemma ReachStaysInside(edges: Edges, inside: iset<string>, a: string, b: string)
    requires a in inside && Reaches(edges, a, b)
    requires forall u, v | u in inside && v in Succ(edges, u) :: v in inside
    ensures b in inside
  {
    var p :| PathFromTo(edges, p, a, b);
    PathStaysInside(edges, inside, p);
  }

  /** Two graphs that agree on a closed list of nodes have the same paths below it. */
  lemma SamePath(edges: Edges, other: Edges, nodes: seq<string>, p: seq<string>)
    requires Closed(edges, nodes) && forall n | n in nodes :: Succ(edges, n) == Succ(other, n)
    requires IsPath(edges, p) && p[0] in nodes
    ensures IsPath(other, p) && p[|p| - 1] in nodes
  {
    PathStaysInside(edges, (iset n | n in nodes), p);
    forall i | 0 <= i < |p| - 1 ensures Hop(other, p, i) {
      assert Hop(edges, p, i);
      assert p[i] in (iset n | n in nodes);
    }
  }

  lemma SameReachesCycle(edges: Edges, other: Edges, nodes: seq<string>)
    requires Closed(edges, nodes) && forall n | n in nodes :: Succ(edges, n) == Succ(other, n)
    requires ReachesCycle(edges, nodes)
    ensures ReachesCycle(other, nodes)
  {
    var n, p :| n in nodes && IsCycle(edges, p) && Reaches(edges, n, p[0]);
    var q :| PathFromTo(edges, q, n, p[0]);
    SamePath(edges, other, nodes, q);
    SamePath(edges, other, nodes, p);
    assert PathFromTo(other, q, n, p[0]);
  }

  // ---- a rank that rules cycles out ----

  /** `inside` is closed under edges and every edge strictly lowers the rank. */
  ghost predicate Ranked(edges: Edges, inside: set<string>, rank: map<string, int>) {
    inside <= rank.Keys &&
    forall u, v | u in inside && v in Succ(edges, u) :: v in inside && rank[v] < rank[u]
  }

  lemma {:induction false} RankFallsAlong(edges: Edges, inside: set<string>, rank: map<string, int>, p: seq<string>)
    requires Ranked(edges, inside, rank) && IsPath(edges, p) && p[0] in inside
    ensures p[|p| - 1] in inside && rank[p[|p| - 1]] + |p| - 1 <= rank[p[0]]
    decreases |p|
  {
    if |p| > 1 {
      SubPath(edges, p, 0, |p| - 1);
      RankFallsAlong(edges, inside, rank, p[0..|p| - 1]);
      assert Hop(edges, p, |p| - 2);
    }
  }

  lemma RankedReachNoCycle(edges: Edges, inside: set<string>, rank: map<string, int>, nodes: seq<string>)
    requires Ranked(edges, inside, rank) && forall n | n in nodes :: n in inside
    ensures !ReachesCycle(edges, nodes)
  {
    forall n, p | n in nodes && IsCycle(edges, p) && Reaches(edges, n, p[0]) ensures false {
      var q :| PathFromTo(edges, q, n, p[0]);
      RankFallsAlong(edges, inside, rank, q);
      RankFallsAlong(edges, inside, rank, p);
    }
  }

  function FirstIndex(s: seq<string>, x: string): (i: nat)
    requires x in s
    ensures i < |s| && s[i] == x
  {
    if s[0] == x then 0 else 1 + FirstIndex(s[1..], x)
  }

  lemma FirstIndexLeast(s: seq<string>, x: string, j: nat)
    requires j < |s| && s[j] == x
    ensures FirstIndex(s, x) <= j
  {
    if s[0] != x {
      assert s[1..][j - 1] == x;
      FirstIndexLeast(s[1..], x, j - 1);
    }
  }

  /** Each node's successors stand strictly before it, as in an order of finishing. */
  ghost predicate SuccessorsFirst(edges: Edges, order: seq<string>) {
    forall i, v | 0 <= i < |order| && v in Succ(edges, order[i]) :: v in order[..i]
  }

  lemma SuccessorsFirstReachNoCycle(edges: Edges, order: seq<string>, nodes: seq<string>)
    requires SuccessorsFirst(edges, order) && forall n | n in nodes :: n in order
    ensures !ReachesCycle(edges, nodes)
  {
    var inside := set n | n in order;
    var rank := map n | n in inside :: FirstIndex(order, n);
    forall u, v | u in inside && v in Succ(edges, u) ensures v in inside && rank[v] < rank[u] {
      assert v in order[..FirstIndex(order, u)];
      var j :| 0 <= j < FirstIndex(order, u) && order[j] == v;
      FirstIndexLeast(order, v, j);
    }
    RankedReachNoCycle(edges, inside, rank, nodes);
  }

  /** Each node stands strictly after every listed node with an edge to it: a topological order. */
  ghost predicate PredecessorsFirst(edges: Edges, nodes: seq<string>, order: seq<string>) {
    forall i, u | 0 <= i < |order| && u in nodes && order[i] in Succ(edges, u) :: u in order[..i]
  }

  lemma PredecessorsFirstReachNoCycle(edges: Edges, nodes: seq<string>, order: seq<string>)
    requires Closed(edges, nodes) && PredecessorsFirst(edges, nodes, order)
    requires forall n | n in nodes :: n in order
    ensures !ReachesCycle(edges, nodes)
  {
    var inside := set n | n in nodes;
    var rank := map n | n in inside :: |order| - FirstIndex(order, n);
    forall u, v | u in inside && v in Succ(edges, u) ensures v in inside && rank[v] < rank[u] {
      assert u in order[..FirstIndex(order, v)];
      var j :| 0 <= j < FirstIndex(order, v) && order[j] == u;
      FirstIndexLeast(order, u, j);
    }
    RankedReachNoCycle(edges, inside, rank, nodes);
  }

  // ---- a walk that must close ----

  lemma {:induction false} DistinctFits(p: seq<string>, s: set<string>)
    requires Distinct(p) && forall x | x in p :: x in s
    ensures |p| <= |s|
  {
    if p != [] {
      var q := p[1..];
      forall x | x in q ensures x in s - {p[0]} {
        var i :| 0 <= i < |q| && q[i] == x;
        assert p[0] != p[i + 1];
      }
      assert Distinct(q) by { assert forall i | 0 <= i < |q| :: q[i] == p[i + 1]; }
      DistinctFits(q, s - {p[0]});
    }
  }

  ghost predicate HasPredecessor(edges: Edges, rest: set<string>, v: string) {
    exists u :: u in rest && v in Succ(edges, u)
  }

  lemma CloseWalk(edges: Edges, u: string, p: seq<string>) returns (cycle: seq<string>)
    requires IsPath(edges, p) && Distinct(p) && p[0] in Succ(edges, u) && u in p
    ensures IsSimpleCycle(edges, cycle) && cycle[0] == u
  {
    var j :| 0 <= j < |p| && p[j] == u;
    SubPath(edges, p, 0, j + 1);
    JoinPaths(edges, [u], p[0..j + 1]);
    cycle := [u] + p[0..j + 1];
    assert cycle[..|cycle| - 1] == [p[j]] + p[..j];
  }

  /** Walking backwards inside a finite set in which everyone has a predecessor must revisit a node. */
  lemma {:induction false} BackwardWalkCloses(edges: Edges, rest: set<string>, p: seq<string>)
    returns (cycle: seq<string>)
    requires forall v {:trigger HasPredecessor(edges, rest, v)} | v in rest :: HasPredecessor(edges, rest, v)
    requires IsPath(edges, p) && Distinct(p) && forall x | x in p :: x in rest
    ensures IsSimpleCycle(edges, cycle) && cycle[0] in rest
    decreases |rest| - |p|
  {
    assert HasPredecessor(edges, rest, p[0]);
    var u :| u in rest && p[0] in Succ(edges, u);
    if u in p {
      cycle := CloseWalk(edges, u, p);
    } else {
      var q := [u] + p;
      JoinPaths(edges, [u], p);
      DistinctFits(q, rest);
      cycle := BackwardWalkCloses(edges, rest, q);
    }
  }
}
