/** Workflow specs without routers (`pkg/workflow/spec.go`, `pkg/workflow/compiler.go`): every node
    has one successor, so a run is a walk that either ends soon or goes round for ever. */
module StaticRouting {
  import opened GraphExec
  import opened Workflow
  import Digraph
  import Sequences

  // ---- walking along a map of successors ----

  type Hops = map<string, string>

  /** Every successor is a node again or the sentinel. */
  ghost predicate ClosedHops(hops: Hops) {
    END !in hops && forall p | p in hops :: hops[p] == END || hops[p] in hops
  }

  function Follow(hops: Hops, p: string): string {
    if p in hops then hops[p] else END
  }

  /** Where the walk stands after `k` hops. */
  function Position(hops: Hops, entry: string, k: nat): string {
    if k == 0 then entry else Follow(hops, Position(hops, entry, k - 1))
  }

  lemma PositionKnown(hops: Hops, entry: string, k: nat)
    requires ClosedHops(hops) && (entry == END || entry in hops)
    ensures Position(hops, entry, k) == END || Position(hops, entry, k) in hops
  {
    if k > 0 { PositionKnown(hops, entry, k - 1); }
  }

  lemma EndStays(hops: Hops, entry: string, i: nat, k: nat)
    requires END !in hops && i <= k && Position(hops, entry, i) == END
    ensures Position(hops, entry, k) == END
  {
    if i < k { EndStays(hops, entry, i, k - 1); }
  }

  lemma RepeatsOn(hops: Hops, entry: string, i: nat, j: nat, k: nat)
    requires Position(hops, entry, i) == Position(hops, entry, j)
    ensures Position(hops, entry, i + k) == Position(hops, entry, j + k)
  {
    if k > 0 { RepeatsOn(hops, entry, i, j, k - 1); }
  }

  /** Once a node has repeated, the sentinel is out of reach for good. */
  lemma RepeatNeverEnds(hops: Hops, entry: string, i: nat, j: nat, m: nat)
    requires END !in hops && i < j && Position(hops, entry, i) == Position(hops, entry, j) != END
    ensures Position(hops, entry, m) != END
    decreases m
  {
    if m <= j {
      if Position(hops, entry, m) == END { EndStays(hops, entry, m, j); }
    } else {
      RepeatNeverEnds(hops, entry, i, j, m - (j - i));
      RepeatsOn(hops, entry, i, j, m - j);
    }
  }

  function Positions(hops: Hops, entry: string, n: nat): (ps: seq<string>)
    ensures |ps| == n && forall k | 0 <= k < n :: ps[k] == Position(hops, entry, k)
  {
    if n == 0 then [] else Positions(hops, entry, n - 1) + [Position(hops, entry, n - 1)]
  }

  /** A walk longer than the number of nodes meets one of them twice. */
  lemma SomeNodeRepeats(hops: Hops, entry: string, n: nat) returns (i: nat, j: nat)
    requires ClosedHops(hops) && (entry == END || entry in hops) && n >= |hops.Keys| && Position(hops, entry, n) != END
    ensures i < j <= n && Position(hops, entry, i) == Position(hops, entry, j) != END
  {
    var ps := Positions(hops, entry, n + 1);
    forall k | 0 <= k <= n ensures ps[k] in hops.Keys && ps[k] != END {
      PositionKnown(hops, entry, k);
      if ps[k] == END { EndStays(hops, entry, k, n); }
    }
    if Sequences.Distinct(ps) { Digraph.DistinctFits(ps, hops.Keys); }
    i, j :| 0 <= i < j < |ps| && ps[i] == ps[j];
  }

  // ---- the successors of a spec ----

  ghost predicate Static(spec: Spec) {
    forall i | 0 <= i < |spec.nodes| :: spec.nodes[i].router.None?
  }

  /** The successor of each node among the first `n`, a node named like the sentinel aside. */
  function HopsOf(spec: Spec, n: nat): Hops
    requires n <= |spec.nodes|
  {
    if n == 0 then map[]
    else if spec.nodes[n - 1].id == END then HopsOf(spec, n - 1)
    else HopsOf(spec, n - 1)[spec.nodes[n - 1].id := NextHop(spec, n - 1)]
  }

  lemma HopsHave(spec: Spec, n: nat, i: nat)
    requires Accepted(spec) && i < n <= |spec.nodes| && spec.nodes[i].id != END
    ensures spec.nodes[i].id in HopsOf(spec, n) && HopsOf(spec, n)[spec.nodes[i].id] == NextHop(spec, i)
  {
    if i < n - 1 {
      HopsHave(spec, n - 1, i);
      assert spec.nodes[i].id != spec.nodes[n - 1].id;
    }
  }

  lemma HopsOnly(spec: Spec, n: nat)
    requires n <= |spec.nodes|
    ensures forall id | id in HopsOf(spec, n) :: id != END && exists i :: 0 <= i < n && spec.nodes[i].id == id
    ensures |HopsOf(spec, n).Keys| <= n
  {
    if n > 0 {
      HopsOnly(spec, n - 1);
      assert HopsOf(spec, n).Keys <= HopsOf(spec, n - 1).Keys + {spec.nodes[n - 1].id};
    }
  }

  /** The map holds, for every node but one named like the sentinel, the successor that the spec
      declares: its `next`, else the node after it, else the end. */
  ghost predicate FollowsSpec(spec: Spec, hops: Hops) {
    && hops.Keys == (set i: nat | i < |spec.nodes| && spec.nodes[i].id != END :: spec.nodes[i].id)
    && forall i: nat | i < |spec.nodes| && spec.nodes[i].id != END :: spec.nodes[i].id in hops && DeclaredHop(spec, i, hops[spec.nodes[i].id])
  }

  ghost predicate DeclaredHop(spec: Spec, i: nat, next: string)
    requires i < |spec.nodes|
  {
    && (spec.nodes[i].next != "" ==> next == spec.nodes[i].next)
    && (spec.nodes[i].next == "" && i + 1 < |spec.nodes| ==> next == spec.nodes[i + 1].id)
    && (spec.nodes[i].next == "" && i + 1 == |spec.nodes| ==> next == END)
  }

  lemma HopsOfFollows(spec: Spec)
    requires Accepted(spec)
    ensures FollowsSpec(spec, HopsOf(spec, |spec.nodes|))
  {
    HopsOnly(spec, |spec.nodes|);
    forall i: nat | i < |spec.nodes| && spec.nodes[i].id != END
      ensures spec.nodes[i].id in HopsOf(spec, |spec.nodes|)
      ensures DeclaredHop(spec, i, HopsOf(spec, |spec.nodes|)[spec.nodes[i].id])
    {
      HopsHave(spec, |spec.nodes|, i);
    }
  }

  lemma SameHops(spec: Spec, a: Hops, b: Hops)
    requires FollowsSpec(spec, a) && FollowsSpec(spec, b)
    ensures a == b
  {
    forall id | id in a ensures a[id] == b[id] {
      var i: nat :| i < |spec.nodes| && spec.nodes[i].id != END && spec.nodes[i].id == id;
      assert DeclaredHop(spec, i, a[id]) && DeclaredHop(spec, i, b[id]);
    }
  }

  lemma HopKnown(spec: Spec, i: nat)
    requires Accepted(spec) && i < |spec.nodes|
    ensures NextHop(spec, i) == END || NextHop(spec, i) in HopsOf(spec, |spec.nodes|)
  {
    var n := |spec.nodes|;
    if spec.nodes[i].next != "" {
      assert KnownNext(spec, spec.nodes[i]);
      if spec.nodes[i].next != END {
        var j :| 0 <= j < n && spec.nodes[j].id == spec.nodes[i].next;
        HopsHave(spec, n, j);
      }
    } else if i < n - 1 && spec.nodes[i + 1].id != END {
      HopsHave(spec, n, i + 1);
    }
  }

  lemma HopsClosed(spec: Spec)
    requires Accepted(spec)
    ensures ClosedHops(HopsOf(spec, |spec.nodes|))
    ensures spec.nodes[0].id == END || spec.nodes[0].id in HopsOf(spec, |spec.nodes|)
  {
    var n := |spec.nodes|;
    HopsOnly(spec, n);
    forall id | id in HopsOf(spec, n) ensures HopsOf(spec, n)[id] == END || HopsOf(spec, n)[id] in HopsOf(spec, n) {
      var i :| 0 <= i < n && spec.nodes[i].id == id;
      HopsHave(spec, n, i);
      HopKnown(spec, i);
    }
    if spec.nodes[0].id != END { HopsHave(spec, n, 0); }
  }

  // ---- runs follow the walk ----

  /** The compiled nodes route along `hops`, whatever the state. */
  ghost predicate RoutesAlong<S(!new)>(nodes: map<string, Node<S>>, hops: Hops) {
    forall id | id in hops :: id in nodes && nodes[id].router.Some?
      && forall t: nat, s :: nodes[id].router.value(t, s) == Goto(hops[id], s)
  }

  lemma CompiledRoutesAlong<S(!new)>(spec: Spec, regs: Registries<S>, nodes: map<string, Node<S>>)
    requires Accepted(spec) && Static(spec) && CompiledTo(spec, regs, nodes)
    ensures RoutesAlong(nodes, HopsOf(spec, |spec.nodes|))
  {
    var hops := HopsOf(spec, |spec.nodes|);
    HopsOnly(spec, |spec.nodes|);
    forall id | id in hops
      ensures id in nodes && nodes[id].router.Some?
      ensures forall t: nat, s :: nodes[id].router.value(t, s) == Goto(hops[id], s)
    {
      var i :| 0 <= i < |spec.nodes| && spec.nodes[i].id == id;
      HopsHave(spec, |spec.nodes|, i);
      assert nodes[id] == BuiltNode(spec, i, regs);
    }
  }

  /** Whatever fails or is cancelled, the executor stands where the walk stands, or has halted
      because of a cancellation, a failing node, or the end of the walk. */
  ghost predicate OnTrack<S>(hops: Hops, entry: string, k: nat, c: Config<S>) {
    match c
    case At(node, _) => node == Position(hops, entry, k) && node != END
    case Halted(result) => result.Cancelled? || result.NodeFailed? || (result.Finished? && Position(hops, entry, k) == END)
  }

  lemma OneHop<S(!new)>(nodes: map<string, Node<S>>, cancelled: nat -> bool, hops: Hops, tick: nat, p: string, state: S)
    requires RoutesAlong(nodes, hops) && p in hops
    ensures Step(nodes, cancelled, tick, At(p, state))
         == if cancelled(tick) then Halted(Cancelled(state))
            else match nodes[p].run(tick, state)
              case Fail(left, error) => Halted(NodeFailed(left, p, error))
              case Ok(out) => Arrive(hops[p], out)
  {
  }

  lemma {:induction false} StaysOnTrack<S(!new)>(nodes: map<string, Node<S>>, cancelled: nat -> bool, hops: Hops,
                                                 entry: string, input: S, k: nat)
    requires ClosedHops(hops) && RoutesAlong(nodes, hops) && (entry == END || entry in hops)
    ensures OnTrack(hops, entry, k, RunFor(nodes, cancelled, 0, Arrive(entry, input), k))
    ensures (forall t: nat :: !cancelled(t)) && (forall id, t: nat, s | id in hops :: nodes[id].run(t, s).Ok?) ==>
              var c := RunFor(nodes, cancelled, 0, Arrive(entry, input), k);
              c.Halted? ==> c.result.Finished?
  {
    if k > 0 {
      StaysOnTrack(nodes, cancelled, hops, entry, input, k - 1);
      RunForSplit(nodes, cancelled, 0, Arrive(entry, input), k - 1, 1);
      PositionKnown(hops, entry, k - 1);
      var c := RunFor(nodes, cancelled, 0, Arrive(entry, input), k - 1);
      if c.At? {
        OneHop(nodes, cancelled, hops, k - 1, c.node, c.state);
        assert RunFor(nodes, cancelled, k - 1, c, 1) == Step(nodes, cancelled, k - 1, c);
      }
    }
  }

  /** Safety: no run of an accepted spec without routers ever names an unknown node. */
  lemma NeverUnknownNode<S(!new)>(spec: Spec, regs: Registries<S>, nodes: map<string, Node<S>>,
                                  cancelled: nat -> bool, input: S, k: nat)
    requires Accepted(spec) && Static(spec) && CompiledTo(spec, regs, nodes)
    ensures var c := RunFor(nodes, cancelled, 0, Start(spec.nodes[0].id, input), k);
            c.Halted? ==> c.result.Finished? || c.result.Cancelled? || c.result.NodeFailed?
  {
    HopsClosed(spec);
    CompiledRoutesAlong(spec, regs, nodes);
    StaysOnTrack(nodes, cancelled, HopsOf(spec, |spec.nodes|), spec.nodes[0].id, input, k);
  }

  /** With runnables that never fail and no cancellation, a run of an accepted spec without routers
      finishes within as many node executions as there are nodes, or meets a node twice within them
      and then runs for ever. */
  lemma EndsSoonOrNever<S(!new)>(spec: Spec, regs: Registries<S>, nodes: map<string, Node<S>>, cancelled: nat -> bool,
                                 input: S, hops: Hops)
    requires Accepted(spec) && Static(spec) && CompiledTo(spec, regs, nodes) && FollowsSpec(spec, hops)
    requires forall t: nat :: !cancelled(t)
    requires forall id, t: nat, s | id in nodes :: nodes[id].run(t, s).Ok?
    ensures var entry, n := spec.nodes[0].id, |spec.nodes|;
            if Position(hops, entry, n) == END
            then RunFor(nodes, cancelled, 0, Start(entry, input), n).Halted?
                 && RunFor(nodes, cancelled, 0, Start(entry, input), n).result.Finished?
            else (exists i: nat, j: nat :: i < j <= n && Position(hops, entry, i) == Position(hops, entry, j))
                 && forall k: nat :: RunFor(nodes, cancelled, 0, Start(entry, input), k).At?
  {
    var entry, n := spec.nodes[0].id, |spec.nodes|;
    HopsOfFollows(spec);
    SameHops(spec, hops, HopsOf(spec, n));
    HopsClosed(spec);
    HopsOnly(spec, n);
    CompiledRoutesAlong(spec, regs, nodes);
    StaysOnTrack(nodes, cancelled, hops, entry, input, n);
    if Position(hops, entry, n) != END {
      var i, j := SomeNodeRepeats(hops, entry, n);
      forall k: nat ensures RunFor(nodes, cancelled, 0, Start(entry, input), k).At? {
        RepeatNeverEnds(hops, entry, i, j, k);
        StaysOnTrack(nodes, cancelled, hops, entry, input, k);
      }
    }
  }
}
