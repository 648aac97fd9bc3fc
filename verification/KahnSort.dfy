/** Kahn's algorithm with in-degree counts (`pkg/agent/compiler.go`, `kahnTopologicalSort`).
    The proof counts edges with repetition, so neither a name listed twice in `nodes` nor an
    agent listed twice by its parent disturbs it. */
module KahnSort {
  import opened Digraph
  import opened Sequences

  /** A Go map of counters: a missing key reads as zero. */
  function Degree(inDegree: map<string, int>, node: string): int {
    if node in inDegree then inDegree[node] else 0
  }

  /** How often `u` lists `v`. */
  function EdgeCount(edges: Edges, u: string, v: string): nat {
    multiset(Succ(edges, u))[v]
  }

  /** The number of edges, counted with repetition, from the listed nodes to `v`. */
  function InCount(edges: Edges, us: seq<string>, v: string): nat {
    if us == [] then 0
    else InCount(edges, us[..|us| - 1], v) + EdgeCount(edges, us[|us| - 1], v)
  }

  lemma InCountAppend(edges: Edges, us: seq<string>, u: string, v: string)
    ensures InCount(edges, us + [u], v) == InCount(edges, us, v) + EdgeCount(edges, u, v)
  {
    assert (us + [u])[..|us|] == us;
  }

  lemma WithoutThenLast(us: seq<string>, j: nat)
    requires j < |us| - 1
    ensures var front := us[..|us| - 1];
            us[..j] + us[j + 1..] == (front[..j] + front[j + 1..]) + [us[|us| - 1]] && front[j] == us[j]
  {
  }

  lemma {:induction false} InCountWithout(edges: Edges, us: seq<string>, j: nat, v: string)
    requires j < |us|
    ensures InCount(edges, us, v) == InCount(edges, us[..j] + us[j + 1..], v) + EdgeCount(edges, us[j], v)
    decreases |us|
  {
    var front, last := us[..|us| - 1], us[|us| - 1];
    if j == |front| {
      assert us[..j] + us[j + 1..] == front;
    } else {
      InCountWithout(edges, front, j, v);
      WithoutThenLast(us, j);
      InCountAppend(edges, front[..j] + front[j + 1..], last, v);
    }
  }

  lemma RemoveFromBoth(a: seq<string>, b: seq<string>) returns (j: nat)
    requires a != [] && multiset(a) <= multiset(b)
    ensures j < |b| && b[j] == a[|a| - 1]
    ensures multiset(b) == multiset(b[..j] + b[j + 1..]) + multiset{b[j]}
    ensures multiset(a) == multiset(a[..|a| - 1]) + multiset{b[j]}
    ensures multiset(a[..|a| - 1]) <= multiset(b[..j] + b[j + 1..])
  {
    assert a == a[..|a| - 1] + [a[|a| - 1]];
    assert a[|a| - 1] in multiset(b);
    j :| 0 <= j < |b| && b[j] == a[|a| - 1];
    assert b == b[..j] + [b[j]] + b[j + 1..];
    CancelOne(multiset(a[..|a| - 1]), multiset(b[..j] + b[j + 1..]), b[j]);
  }

  lemma {:induction false} InCountMonotone(edges: Edges, a: seq<string>, b: seq<string>, v: string)
    requires multiset(a) <= multiset(b)
    ensures InCount(edges, a, v) <= InCount(edges, b, v)
    decreases |a|
  {
    if a != [] {
      var j := RemoveFromBoth(a, b);
      InCountMonotone(edges, a[..|a| - 1], b[..j] + b[j + 1..], v);
      InCountWithout(edges, b, j, v);
    }
  }

  lemma AppendWithin(a: seq<string>, b: seq<string>, u: string)
    requires multiset(a) <= multiset(b) && multiset(a)[u] < multiset(b)[u]
    ensures multiset(a + [u]) <= multiset(b)
  {
  }

  lemma InCountStrict(edges: Edges, a: seq<string>, b: seq<string>, u: string, v: string)
    requires multiset(a) <= multiset(b) && multiset(a)[u] < multiset(b)[u] && v in Succ(edges, u)
    ensures InCount(edges, a, v) < InCount(edges, b, v)
  {
    AppendWithin(a, b, u);
    InCountMonotone(edges, a + [u], b, v);
    assert (a + [u])[..|a|] == a;
  }

  lemma {:induction false} InCountGap(edges: Edges, a: seq<string>, b: seq<string>, v: string) returns (u: string)
    requires multiset(a) <= multiset(b) && InCount(edges, a, v) < InCount(edges, b, v)
    ensures multiset(a)[u] < multiset(b)[u] && v in Succ(edges, u)
    decreases |b|
  {
    if a == [] {
      u := b[|b| - 1];
      if v !in Succ(edges, u) {
        assert b == b[..|b| - 1] + [u];
        u := InCountGap(edges, [], b[..|b| - 1], v);
      }
    } else {
      var j := RemoveFromBoth(a, b);
      InCountWithout(edges, b, j, v);
      u := InCountGap(edges, a[..|a| - 1], b[..j] + b[j + 1..], v);
    }
  }

  method CountNeighbors(neighbors: seq<string>, before: map<string, int>) returns (inDegree: map<string, int>)
    ensures forall v :: Degree(inDegree, v) == Degree(before, v) + multiset(neighbors)[v]
  {
    inDegree := before;
    for k := 0 to |neighbors|
      invariant forall v :: Degree(inDegree, v) == Degree(before, v) + multiset(neighbors[..k])[v]
    {
      assert neighbors[..k + 1] == neighbors[..k] + [neighbors[k]];
      inDegree := inDegree[neighbors[k] := Degree(inDegree, neighbors[k]) + 1];
    }
    assert neighbors[..|neighbors|] == neighbors;
  }

  method CountInDegrees(nodes: seq<string>, edges: Edges) returns (inDegree: map<string, int>)
    ensures forall v :: Degree(inDegree, v) == InCount(edges, nodes, v)
  {
    inDegree := map[];
    for i := 0 to |nodes|
      invariant forall v :: Degree(inDegree, v) == InCount(edges, nodes[..i], v)
    {
      if nodes[i] !in inDegree {
        inDegree := inDegree[nodes[i] := 0];
      }
      inDegree := CountNeighbors(Succ(edges, nodes[i]), inDegree);
      assert nodes[..i + 1][..i] == nodes[..i];
    }
    assert nodes[..|nodes|] == nodes;
  }

  /** The counters after every node in `done` and the neighbours in `partial` have been subtracted. */
  ghost predicate Balanced(inDegree: map<string, int>, edges: Edges, nodes: seq<string>, done: seq<string>, partial: seq<string>) {
    forall v {:trigger Degree(inDegree, v)} ::
      Degree(inDegree, v) == InCount(edges, nodes, v) - InCount(edges, done, v) - multiset(partial)[v]
  }

  /** The nodes enqueued so far are exactly the listed ones whose counter is zero. */
  ghost predicate EnqueuedAtZero(inDegree: map<string, int>, nodes: seq<string>, enqueued: seq<string>) {
    && multiset(enqueued) <= multiset(nodes)
    && (forall v {:trigger Degree(inDegree, v)} | v in enqueued :: Degree(inDegree, v) == 0)
    && (forall v {:trigger Degree(inDegree, v)} | v in nodes && Degree(inDegree, v) == 0 :: v in enqueued)
  }

  lemma ZeroMeansAllBefore(edges: Edges, nodes: seq<string>, done: seq<string>, v: string)
    requires multiset(done) <= multiset(nodes) && InCount(edges, nodes, v) == InCount(edges, done, v)
    ensures forall u | u in nodes && v in Succ(edges, u) :: u in done
  {
    forall u | u in nodes && v in Succ(edges, u) ensures u in done {
      if u !in done {
        assert u in multiset(nodes) && u !in multiset(done);
        InCountStrict(edges, done, nodes, u, v);
      }
    }
  }

  function Lessen(inDegree: map<string, int>, v: string): map<string, int> {
    inDegree[v := Degree(inDegree, v) - 1]
  }

  lemma BalancedStep(edges: Edges, nodes: seq<string>, done: seq<string>, succ: seq<string>, k: nat, inDegree: map<string, int>)
    requires k < |succ| && Balanced(inDegree, edges, nodes, done, succ[..k])
    ensures Balanced(Lessen(inDegree, succ[k]), edges, nodes, done, succ[..k + 1])
  {
    assert succ[..k + 1] == succ[..k] + [succ[k]];
    forall v ensures Degree(Lessen(inDegree, succ[k]), v)
                     == InCount(edges, nodes, v) - InCount(edges, done, v) - multiset(succ[..k + 1])[v]
    {
      assert Degree(inDegree, v) == InCount(edges, nodes, v) - InCount(edges, done, v) - multiset(succ[..k])[v];
    }
  }

  lemma PrefixCountsLess(s: seq<string>, k: nat)
    requires k < |s|
    ensures multiset(s[..k])[s[k]] < multiset(s)[s[k]]
  {
    assert s == s[..k] + [s[k]] + s[k + 1..];
  }

  /** A counter is positive as long as an edge to its node is still to be subtracted. */
  lemma PositiveBefore(edges: Edges, nodes: seq<string>, done: seq<string>, current: string, k: nat, inDegree: map<string, int>)
    requires k < |Succ(edges, current)| && Balanced(inDegree, edges, nodes, done, Succ(edges, current)[..k])
    requires multiset(done + [current]) <= multiset(nodes)
    ensures Degree(inDegree, Succ(edges, current)[k]) >= 1
  {
    var succ := Succ(edges, current);
    InCountAppend(edges, done, current, succ[k]);
    InCountMonotone(edges, done + [current], nodes, succ[k]);
    PrefixCountsLess(succ, k);
  }

  /** A node whose counter drops to zero is enqueued, and it was not before. */
  lemma EnqueueStep(nodes: seq<string>, v: string, inDegree: map<string, int>, enqueued: seq<string>)
    requires EnqueuedAtZero(inDegree, nodes, enqueued) && v in nodes && Degree(inDegree, v) >= 1
    ensures var less := Lessen(inDegree, v);
            EnqueuedAtZero(less, nodes, if Degree(less, v) == 0 then enqueued + [v] else enqueued)
  {
    var less := Lessen(inDegree, v);
    assert v !in enqueued;
    var enqueued' := if Degree(less, v) == 0 then enqueued + [v] else enqueued;
    if Degree(less, v) == 0 {
      assert v in multiset(nodes) && v !in multiset(enqueued);
      AppendWithin(enqueued, nodes, v);
    }
    forall u | u in enqueued' ensures Degree(less, u) == 0 {
      if u != v { assert Degree(inDegree, u) == 0; }
    }
    forall u | u in nodes && Degree(less, u) == 0 ensures u in enqueued' {
      if u != v { assert Degree(inDegree, u) == 0; }
    }
  }

  lemma PrefixWithin(a: seq<string>, b: seq<string>, c: seq<string>)
    requires a <= b && multiset(b) <= multiset(c)
    ensures multiset(a) <= multiset(c)
    ensures forall x | x in a :: x in c
  {
    assert b == a + b[|a|..];
    forall x | x in a ensures x in c { assert x in multiset(b); }
  }

  method Roots(nodes: seq<string>, inDegree: map<string, int>) returns (queue: seq<string>)
    ensures EnqueuedAtZero(inDegree, nodes, queue)
  {
    queue := [];
    for i := 0 to |nodes|
      invariant EnqueuedAtZero(inDegree, nodes[..i], queue)
    {
      assert nodes[..i + 1] == nodes[..i] + [nodes[i]];
      if Degree(inDegree, nodes[i]) == 0 {
        queue := queue + [nodes[i]];
      }
    }
    assert nodes[..|nodes|] == nodes;
  }

  /** Takes `current`'s edges out of the counters and appends what drops to zero to the queue. */
  method Release(ghost nodes: seq<string>, edges: Edges, ghost done: seq<string>, current: string,
                 inDegree: map<string, int>, queue: seq<string>)
    returns (inDegree': map<string, int>, queue': seq<string>)
    requires Closed(edges, nodes) && Balanced(inDegree, edges, nodes, done, [])
    requires EnqueuedAtZero(inDegree, nodes, done + [current] + queue)
    ensures Balanced(inDegree', edges, nodes, done + [current], [])
    ensures EnqueuedAtZero(inDegree', nodes, done + [current] + queue')
  {
    inDegree', queue' := inDegree, queue;
    var neighbors := Succ(edges, current);
    ghost var enqueued := done + [current] + queue;
    for k := 0 to |neighbors|
      invariant Balanced(inDegree', edges, nodes, done, neighbors[..k])
      invariant EnqueuedAtZero(inDegree', nodes, enqueued)
      invariant enqueued == done + [current] + queue'
    {
      PrefixWithin(done + [current], enqueued, nodes);
      PositiveBefore(edges, nodes, done, current, k, inDegree');
      BalancedStep(edges, nodes, done, neighbors, k, inDegree');
      EnqueueStep(nodes, neighbors[k], inDegree', enqueued);
      inDegree' := Lessen(inDegree', neighbors[k]);
      if Degree(inDegree', neighbors[k]) == 0 {
        enqueued := enqueued + [neighbors[k]];
        queue' := queue' + [neighbors[k]];
      }
    }
    AllReleased(edges, nodes, done, current, inDegree');
  }

  lemma AllReleased(edges: Edges, nodes: seq<string>, done: seq<string>, current: string, inDegree: map<string, int>)
    requires Balanced(inDegree, edges, nodes, done, Succ(edges, current)[..|Succ(edges, current)|])
    ensures Balanced(inDegree, edges, nodes, done + [current], [])
  {
    var succ := Succ(edges, current);
    assert succ[..|succ|] == succ;
    forall v ensures Degree(inDegree, v) == InCount(edges, nodes, v) - InCount(edges, done + [current], v) {
      InCountAppend(edges, done, current, v);
    }
  }

  /** Everyone with an edge to the node at the head of the queue has been sorted already. */
  lemma ReadyToTake(edges: Edges, nodes: seq<string>, done: seq<string>, current: string, queue: seq<string>, inDegree: map<string, int>)
    requires Balanced(inDegree, edges, nodes, done, [])
    requires EnqueuedAtZero(inDegree, nodes, done + [current] + queue)
    requires PredecessorsFirst(edges, nodes, done)
    ensures PredecessorsFirst(edges, nodes, done + [current])
  {
    assert current in done + [current] + queue;
    assert Degree(inDegree, current) == 0;
    PrefixWithin(done, done + [current] + queue, nodes);
    ZeroMeansAllBefore(edges, nodes, done, current);
    var order := done + [current];
    forall i, u | 0 <= i < |order| && u in nodes && order[i] in Succ(edges, u) ensures u in order[..i] {
      assert order[..i] == done[..i];
    }
  }

  /** Taking the head of the queue. */
  lemma TakeHead(edges: Edges, nodes: seq<string>, sorted: seq<string>, queue: seq<string>, inDegree: map<string, int>)
    requires queue != [] && Balanced(inDegree, edges, nodes, sorted, [])
    requires EnqueuedAtZero(inDegree, nodes, sorted + queue) && PredecessorsFirst(edges, nodes, sorted)
    ensures EnqueuedAtZero(inDegree, nodes, sorted + [queue[0]] + queue[1..])
    ensures PredecessorsFirst(edges, nodes, sorted + [queue[0]])
  {
    assert sorted + queue == sorted + [queue[0]] + queue[1..];
    ReadyToTake(edges, nodes, sorted, queue[0], queue[1..], inDegree);
  }

  lemma LeftOverHasMore(edges: Edges, nodes: seq<string>, sorted: seq<string>, inDegree: map<string, int>)
    requires Balanced(inDegree, edges, nodes, sorted, []) && EnqueuedAtZero(inDegree, nodes, sorted)
    ensures forall v | v in nodes && v !in sorted :: InCount(edges, sorted, v) < InCount(edges, nodes, v)
  {
    forall v | v in nodes && v !in sorted ensures InCount(edges, sorted, v) < InCount(edges, nodes, v) {
      assert Degree(inDegree, v) != 0;
      InCountMonotone(edges, sorted, nodes, v);
    }
  }

  lemma WithinLength(a: seq<string>, b: seq<string>)
    requires multiset(a) <= multiset(b)
    ensures |a| <= |b|
    ensures |a| == |b| ==> multiset(a) == multiset(b)
  {
    assert multiset(b) == multiset(a) + (multiset(b) - multiset(a));
    assert |multiset(b)| == |b| && |multiset(a)| == |a|;
  }

  /** A complete order proves the graph acyclic, even when `nodes` lists a name twice. */
  lemma CompleteOrderMeansAcyclic(edges: Edges, nodes: seq<string>, sorted: seq<string>)
    requires Closed(edges, nodes) && multiset(sorted) <= multiset(nodes) && |sorted| >= |nodes|
    requires PredecessorsFirst(edges, nodes, sorted)
    ensures !ReachesCycle(edges, nodes)
  {
    WithinLength(sorted, nodes);
    forall n | n in nodes ensures n in sorted { assert n in multiset(nodes); }
    PredecessorsFirstReachNoCycle(edges, nodes, sorted);
  }

  lemma DistinctWithin(a: seq<string>, b: seq<string>)
    requires Distinct(a) && forall x | x in a :: x in b
    ensures |a| <= |b|
  {
    forall x ensures multiset(a)[x] <= multiset(b)[x] {
      DistinctCount(a, x);
      if x in multiset(a) { assert x in a && x in multiset(b); }
    }
    WithinLength(a, b);
  }

  lemma SomeLeftOver(nodes: seq<string>, sorted: seq<string>) returns (v: string)
    requires Distinct(nodes) && |sorted| < |nodes|
    ensures v in nodes && v !in sorted
  {
    if forall x | x in nodes :: x in sorted { DistinctWithin(nodes, sorted); }
    v :| v in nodes && v !in sorted;
  }

  /** For distinct nodes an incomplete order proves a cycle: everyone left over has a left-over predecessor. */
  lemma IncompleteOrderMeansCycle(edges: Edges, nodes: seq<string>, sorted: seq<string>)
    requires Distinct(nodes) && multiset(sorted) <= multiset(nodes) && |sorted| < |nodes|
    requires forall v | v in nodes && v !in sorted :: InCount(edges, sorted, v) < InCount(edges, nodes, v)
    ensures ReachesCycle(edges, nodes)
  {
    var rest := set v | v in nodes && v !in sorted;
    forall v | v in rest ensures HasPredecessor(edges, rest, v) {
      var u := InCountGap(edges, sorted, nodes, v);
      DistinctCount(nodes, u);
      assert u in multiset(nodes) && u !in multiset(sorted);
      assert u in rest;
    }
    var first := SomeLeftOver(nodes, sorted);
    var cycle := BackwardWalkCloses(edges, rest, [first]);
    ReachesSelf(edges, cycle[0]);
  }

  lemma OrderDecides(edges: Edges, nodes: seq<string>, sorted: seq<string>, inDegree: map<string, int>)
    requires Closed(edges, nodes) && PredecessorsFirst(edges, nodes, sorted)
    requires Balanced(inDegree, edges, nodes, sorted, []) && EnqueuedAtZero(inDegree, nodes, sorted)
    ensures |sorted| >= |nodes| ==> !ReachesCycle(edges, nodes)
    ensures Distinct(nodes) && |sorted| < |nodes| ==> ReachesCycle(edges, nodes)
  {
    LeftOverHasMore(edges, nodes, sorted, inDegree);
    if |sorted| >= |nodes| {
      CompleteOrderMeansAcyclic(edges, nodes, sorted);
    } else if Distinct(nodes) {
      IncompleteOrderMeansCycle(edges, nodes, sorted);
    }
  }

  /** Kahn's queue loop: the nodes in the order in which their counters reached zero. */
  method KahnOrder(nodes: seq<string>, edges: Edges) returns (sorted: seq<string>)
    requires Closed(edges, nodes)
    ensures multiset(sorted) <= multiset(nodes)
    ensures PredecessorsFirst(edges, nodes, sorted)
    ensures |sorted| >= |nodes| ==> !ReachesCycle(edges, nodes)
    ensures Distinct(nodes) && |sorted| < |nodes| ==> ReachesCycle(edges, nodes)
  {
    var inDegree := CountInDegrees(nodes, edges);
    var queue := Roots(nodes, inDegree);
    sorted := [];
    assert sorted + queue == queue;
    WithinLength(queue, nodes);
    while |queue| > 0
      invariant Balanced(inDegree, edges, nodes, sorted, [])
      invariant EnqueuedAtZero(inDegree, nodes, sorted + queue)
      invariant PredecessorsFirst(edges, nodes, sorted)
      invariant |sorted| + |queue| <= |nodes|
      decreases |nodes| - |sorted|
    {
      TakeHead(edges, nodes, sorted, queue, inDegree);
      var current := queue[0];
      ghost var done := sorted;
      queue := queue[1..];
      sorted := sorted + [current];
      inDegree, queue := Release(nodes, edges, done, current, inDegree, queue);
      WithinLength(sorted + queue, nodes);
    }
    assert sorted + queue == sorted;
    OrderDecides(edges, nodes, sorted, inDegree);
  }
}
