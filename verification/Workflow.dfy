/** Workflow specs: validation (`pkg/workflow/spec.go`) and compilation to a graph
    (`pkg/workflow/compiler.go`). */
module Workflow {
  import opened Wrappers
  import opened GraphExec
  import Chain

  datatype RouterRef = RouterRef(kind: string, name: string)

  datatype NodeSpec = NodeSpec(id: string, runnableType: string, runnableName: string, next: string, router: Option<RouterRef>)

  datatype Spec = Spec(name: string, nodes: seq<NodeSpec>)

  // ---- Parse ----

  datatype ParseError =
    | NameRequired
    | NoNodes
    | MissingId(index: nat)
    | DuplicateId(id: string)
    | MissingType(id: string)
    | UnknownNext(id: string, next: string)

  ghost predicate KnownNext(spec: Spec, n: NodeSpec) {
    n.next == "" || n.next == END || exists j :: 0 <= j < |spec.nodes| && spec.nodes[j].id == n.next
  }

  ghost predicate Accepted(spec: Spec) {
    && spec.name != "" && |spec.nodes| > 0
    && (forall i | 0 <= i < |spec.nodes| :: spec.nodes[i].id != "" && spec.nodes[i].runnableType != "")
    && (forall i, j | 0 <= i < j < |spec.nodes| :: spec.nodes[i].id != spec.nodes[j].id)
    && (forall i | 0 <= i < |spec.nodes| :: KnownNext(spec, spec.nodes[i]))
  }

  /** The first `n` nodes have ids, all different, and types. */
  ghost predicate SoundUpTo(spec: Spec, n: nat) {
    && n <= |spec.nodes|
    && (forall i | 0 <= i < n :: spec.nodes[i].id != "" && spec.nodes[i].runnableType != "")
    && (forall i, j | 0 <= i < j < n :: spec.nodes[i].id != spec.nodes[j].id)
  }

  ghost predicate RepeatsAt(spec: Spec, i: nat) {
    i < |spec.nodes| && exists j :: 0 <= j < i && spec.nodes[j].id == spec.nodes[i].id
  }

  /** The first thing wrong with node `i`, the nodes before it being sound. */
  ghost predicate FaultAt(spec: Spec, i: nat, e: ParseError) {
    && SoundUpTo(spec, i) && i < |spec.nodes|
    && var n := spec.nodes[i];
       e == if n.id == "" then MissingId(i) else if RepeatsAt(spec, i) then DuplicateId(n.id) else MissingType(n.id)
  }

  ghost predicate DanglesAt(spec: Spec, i: nat) {
    i < |spec.nodes| && !KnownNext(spec, spec.nodes[i]) && forall j | 0 <= j < i :: KnownNext(spec, spec.nodes[j])
  }

  /** The first thing wrong with a spec: its name, its nodes one by one, then the targets one by one. */
  ghost predicate FirstFault(spec: Spec, e: ParseError) {
    if spec.name == "" then e == NameRequired
    else if spec.nodes == [] then e == NoNodes
    else if SoundUpTo(spec, |spec.nodes|) then
      exists i: nat :: DanglesAt(spec, i) && e == UnknownNext(spec.nodes[i].id, spec.nodes[i].next)
    else exists i: nat :: !SoundUpTo(spec, i + 1) && FaultAt(spec, i, e)
  }

  /** A spec that is not accepted has exactly one first fault. */
  lemma FaultIsOne(spec: Spec, e: ParseError, f: ParseError)
    requires FirstFault(spec, e)
    ensures !Accepted(spec) && (FirstFault(spec, f) <==> f == e)
  {
    if FirstFault(spec, f) && spec.name != "" && spec.nodes != [] {
      if SoundUpTo(spec, |spec.nodes|) {
        var i: nat :| DanglesAt(spec, i) && e == UnknownNext(spec.nodes[i].id, spec.nodes[i].next);
        var j: nat :| DanglesAt(spec, j) && f == UnknownNext(spec.nodes[j].id, spec.nodes[j].next);
        assert i == j;
      } else {
        var i: nat :| !SoundUpTo(spec, i + 1) && FaultAt(spec, i, e);
        var j: nat :| !SoundUpTo(spec, j + 1) && FaultAt(spec, j, f);
        assert i == j;
      }
    }
  }

  /** The validation loops of `Parse`. */
  method Parse(spec: Spec) returns (error: Option<ParseError>)
    ensures error.None? <==> Accepted(spec)
    ensures error.Some? ==> FirstFault(spec, error.value)
  {
    if spec.name == "" {
      return Some(NameRequired);
    }
    if |spec.nodes| == 0 {
      return Some(NoNodes);
    }
    var ids := {};
    for i := 0 to |spec.nodes|
      invariant ids == set j | 0 <= j < i :: spec.nodes[j].id
      invariant SoundUpTo(spec, i)
    {
      var n := spec.nodes[i];
      if n.id == "" {
        assert FaultAt(spec, i, MissingId(i));
        return Some(MissingId(i));
      }
      if n.id in ids {
        assert RepeatsAt(spec, i);
        assert FaultAt(spec, i, DuplicateId(n.id));
        return Some(DuplicateId(n.id));
      }
      ids := ids + {n.id};
      if n.runnableType == "" {
        assert FaultAt(spec, i, MissingType(n.id));
        return Some(MissingType(n.id));
      }
    }
    for i := 0 to |spec.nodes|
      invariant forall j | 0 <= j < i :: KnownNext(spec, spec.nodes[j])
    {
      var n := spec.nodes[i];
      if n.next != "" && n.next != END {
        if n.next !in ids {
          assert DanglesAt(spec, i);
          return Some(UnknownNext(n.id, n.next));
        }
      }
      assert KnownNext(spec, n);
    }
    return None;
  }

  // ---- Compile ----

  /** What the registries make of a node: a missing entry is a compile error. */
  datatype Registries<!S> = Registries(runnable: NodeSpec -> Option<Runnable<S>>, router: RouterRef -> Option<Router<S>>)

  function NextHop(spec: Spec, i: nat): string
    requires i < |spec.nodes|
  {
    if spec.nodes[i].next != "" then spec.nodes[i].next
    else if i == |spec.nodes| - 1 then END
    else spec.nodes[i + 1].id
  }

  function FixedRouter<S>(next: string): Router<S> {
    (_, state) => Goto(next, state)
  }

  function BuildRouter<S>(spec: Spec, i: nat, regs: Registries<S>): Option<Router<S>>
    requires i < |spec.nodes|
  {
    match spec.nodes[i].router
    case Some(ref) => regs.router(ref)
    case None => Some(FixedRouter(NextHop(spec, i)))
  }

  predicate Buildable<S>(spec: Spec, i: nat, regs: Registries<S>)
    requires i < |spec.nodes|
  {
    regs.runnable(spec.nodes[i]).Some? && BuildRouter(spec, i, regs).Some?
  }

  function BuiltNode<S>(spec: Spec, i: nat, regs: Registries<S>): Node<S>
    requires i < |spec.nodes| && Buildable(spec, i, regs)
  {
    Node(spec.nodes[i].id, regs.runnable(spec.nodes[i]).value, BuildRouter(spec, i, regs))
  }

  ghost predicate AllBuildable<S>(spec: Spec, regs: Registries<S>) {
    forall i: nat {:trigger Buildable(spec, i, regs)} | i < |spec.nodes| :: Buildable(spec, i, regs)
  }

  /** The node map of the compiled graph. */
  ghost predicate CompiledTo<S>(spec: Spec, regs: Registries<S>, nodes: map<string, Node<S>>) {
    && AllBuildable(spec, regs)
    && nodes.Keys == (set i: nat | i < |spec.nodes| :: spec.nodes[i].id)
    && forall i: nat {:trigger BuiltNode(spec, i, regs)} | i < |spec.nodes| ::
         && Buildable(spec, i, regs)
         && spec.nodes[i].id in nodes && nodes[spec.nodes[i].id] == BuiltNode(spec, i, regs)
  }

  /** A node runs and routes as the spec declares: by the registry's router if it names one, else to its
      `next`, else to the node after it, and from the last node to the end. */
  ghost predicate BuiltAsDeclared<S(!new)>(spec: Spec, i: nat, regs: Registries<S>, node: Node<S>)
    requires i < |spec.nodes|
  {
    var n := spec.nodes[i];
    && node.id == n.id && regs.runnable(n) == Some(node.run) && node.router.Some?
    && (n.router.Some? ==> regs.router(n.router.value) == node.router)
    && (n.router.None? && n.next != "" ==> RoutesTo(node, n.next))
    && (n.router.None? && n.next == "" && i + 1 < |spec.nodes| ==> RoutesTo(node, spec.nodes[i + 1].id))
    && (n.router.None? && n.next == "" && i + 1 == |spec.nodes| ==> RoutesTo(node, END))
  }

  ghost predicate RoutesTo<S(!new)>(node: Node<S>, next: string) {
    node.router.Some? && forall t: nat, s :: node.router.value(t, s) == Goto(next, s)
  }

  /** The node map of the graph that the spec declares. */
  ghost predicate AsDeclared<S(!new)>(spec: Spec, regs: Registries<S>, nodes: map<string, Node<S>>) {
    && nodes.Keys == (set i: nat | i < |spec.nodes| :: spec.nodes[i].id)
    && forall i: nat | i < |spec.nodes| :: spec.nodes[i].id in nodes && BuiltAsDeclared(spec, i, regs, nodes[spec.nodes[i].id])
  }

  lemma CompiledAsDeclared<S(!new)>(spec: Spec, regs: Registries<S>, nodes: map<string, Node<S>>)
    requires CompiledTo(spec, regs, nodes)
    ensures AsDeclared(spec, regs, nodes)
  {
    forall i: nat | i < |spec.nodes|
      ensures spec.nodes[i].id in nodes && BuiltAsDeclared(spec, i, regs, nodes[spec.nodes[i].id])
    {
      assert nodes[spec.nodes[i].id] == BuiltNode(spec, i, regs);
    }
  }

  /** What the executor does at a node of the compiled graph once its runnable has returned `out`. */
  lemma DeclaredStep<S(!new)>(spec: Spec, regs: Registries<S>, nodes: map<string, Node<S>>,
                              cancelled: nat -> bool, i: nat, tick: nat, state: S, out: S)
    requires CompiledTo(spec, regs, nodes) && i < |spec.nodes| && !cancelled(tick)
    requires regs.runnable(spec.nodes[i]).Some? && regs.runnable(spec.nodes[i]).value(tick, state) == Ok(out)
    ensures var n := spec.nodes[i];
            var c := Step(nodes, cancelled, tick, At(n.id, state));
            && (n.router.None? && n.next != "" ==> c == Arrive(n.next, out))
            && (n.router.None? && n.next == "" && i + 1 < |spec.nodes| ==> c == Arrive(spec.nodes[i + 1].id, out))
            && (n.router.None? && n.next == "" && i + 1 == |spec.nodes| ==> c == Halted(Finished(out)))
            && (n.router.Some? ==> regs.router(n.router.value).Some?)
            && (n.router.Some? ==>
                  match regs.router(n.router.value).value(tick, out)
                  case Goto(next, after) => c == Arrive(next, after)
                  case RouteFail(left, error) => c == Halted(RouterFailed(left, n.id, error)))
  {
    CompiledAsDeclared(spec, regs, nodes);
    assert BuiltAsDeclared(spec, i, regs, nodes[spec.nodes[i].id]);
  }

  datatype CompileError = EmptySpec | RunnableMissing(id: string) | RouterMissing(id: string) | DuplicateNode(id: string)

  /** Node `i` is the first that cannot be built: its runnable is not registered, or else its router. */
  ghost predicate FirstMissing<S>(spec: Spec, regs: Registries<S>, i: nat, e: CompileError) {
    && i < |spec.nodes| && (forall j: nat | j < i :: Buildable(spec, j, regs))
    && var n := spec.nodes[i];
       if regs.runnable(n).None? then e == RunnableMissing(n.id)
       else n.router.Some? && regs.router(n.router.value).None? && e == RouterMissing(n.id)
  }

  method BuildNodes<S>(spec: Spec, regs: Registries<S>) returns (nodes: seq<Node<S>>, error: Option<CompileError>)
    ensures error.None? <==> AllBuildable(spec, regs)
    ensures error.None? ==> |nodes| == |spec.nodes| && forall i: nat | i < |nodes| :: nodes[i] == BuiltNode(spec, i, regs)
    ensures error.Some? ==> exists i: nat :: FirstMissing(spec, regs, i, error.value)
  {
    nodes := [];
    for i := 0 to |spec.nodes|
      invariant |nodes| == i
      invariant forall j: nat | j < i :: Buildable(spec, j, regs) && nodes[j] == BuiltNode(spec, j, regs)
    {
      var runnable := regs.runnable(spec.nodes[i]);
      if runnable.None? {
        assert !Buildable(spec, i, regs);
        assert FirstMissing(spec, regs, i, RunnableMissing(spec.nodes[i].id));
        return [], Some(RunnableMissing(spec.nodes[i].id));
      }
      var router := BuildRouter(spec, i, regs);
      if router.None? {
        assert !Buildable(spec, i, regs);
        assert FirstMissing(spec, regs, i, RouterMissing(spec.nodes[i].id));
        return [], Some(RouterMissing(spec.nodes[i].id));
      }
      nodes := nodes + [Node(spec.nodes[i].id, runnable.value, router)];
    }
    error := None;
  }

  /** `CompileContext`.  For an accepted spec the only way to fail is a missing registry entry. */
  method Compile<S(!new)>(spec: Spec, regs: Registries<S>) returns (g: Graph<S>, error: Option<CompileError>)
    ensures fresh(g)
    ensures error.None? ==> |spec.nodes| > 0 && CompiledTo(spec, regs, g.nodes) && g.entryPoint == spec.nodes[0].id
    ensures error.None? ==> AsDeclared(spec, regs, g.nodes)
    ensures Accepted(spec) ==> (error.None? <==> AllBuildable(spec, regs))
    ensures Accepted(spec) && error.Some? ==> exists i: nat :: FirstMissing(spec, regs, i, error.value)
  {
    g := new Graph(spec.name);
    if |spec.nodes| == 0 {
      return g, Some(EmptySpec);
    }
    var nodes, failed := BuildNodes(spec, regs);
    if failed.Some? {
      return g, failed;
    }
    for i := 0 to |nodes|
      invariant fresh(g)
      invariant g.nodes.Keys == set j: nat | j < i :: spec.nodes[j].id
      invariant forall j: nat | j < i :: spec.nodes[j].id in g.nodes && g.nodes[spec.nodes[j].id] == BuiltNode(spec, j, regs)
    {
      var added := g.AddNode(nodes[i]);
      if !added {
        return g, Some(DuplicateNode(nodes[i].id));
      }
    }
    g.SetEntry(nodes[0].id);
    CompiledAsDeclared(spec, regs, g.nodes);
    error := None;
  }

  // ---- a linear spec is a chain ----

  ghost predicate Linear(spec: Spec) {
    forall i | 0 <= i < |spec.nodes| :: spec.nodes[i].next == "" && spec.nodes[i].router.None?
  }

  function ChainStepAt<S>(spec: Spec, regs: Registries<S>, i: nat): Chain.ChainStep<S>
    requires i < |spec.nodes| && Buildable(spec, i, regs)
  {
    Chain.ChainStep(spec.nodes[i].id, regs.runnable(spec.nodes[i]).value)
  }

  /** The same runnables, in the same order, as the steps of a chain. */
  function ChainSteps<S>(spec: Spec, regs: Registries<S>): (steps: seq<Chain.ChainStep<S>>)
    requires AllBuildable(spec, regs)
    ensures |steps| == |spec.nodes| && forall i: nat | i < |steps| :: steps[i] == ChainStepAt(spec, regs, i)
  {
    seq(|spec.nodes|, (i: nat) requires i < |spec.nodes| && AllBuildable(spec, regs) => ChainStepAt(spec, regs, i))
  }

  function AsGraphResult<S>(r: Chain.ChainResult<S>): RunResult<S> {
    match r
    case Completed(state) => Finished(state)
    case Interrupted(state) => Cancelled(state)
    case StepFailed(state, step, error) => NodeFailed(state, step, error)
  }

  /** The number of nodes before the first one that bears the name of the sentinel. */
  function LiveLength(nodes: seq<NodeSpec>): (n: nat)
    ensures n <= |nodes| && forall i | 0 <= i < n :: nodes[i].id != END
    ensures n < |nodes| ==> nodes[n].id == END
  {
    if |nodes| == 0 || nodes[0].id == END then 0 else 1 + LiveLength(nodes[1..])
  }

  function IdAt(spec: Spec, i: nat): string {
    if i < |spec.nodes| then spec.nodes[i].id else END
  }

  lemma LinearStep<S>(spec: Spec, regs: Registries<S>, nodes: map<string, Node<S>>,
                      cancelled: nat -> bool, i: nat, tick: nat, state: S)
    requires Linear(spec) && CompiledTo(spec, regs, nodes) && i < |spec.nodes|
    ensures Step(nodes, cancelled, tick, At(spec.nodes[i].id, state))
         == if cancelled(tick) then Halted(Cancelled(state))
            else match ChainStepAt(spec, regs, i).run(tick, state)
              case Fail(left, error) => Halted(NodeFailed(left, spec.nodes[i].id, error))
              case Ok(out) => Arrive(IdAt(spec, i + 1), out)
  {
    assert nodes[spec.nodes[i].id] == BuiltNode(spec, i, regs);
    assert NextHop(spec, i) == IdAt(spec, i + 1);
  }

  lemma {:induction false} LinearFrom<S>(spec: Spec, regs: Registries<S>, nodes: map<string, Node<S>>,
                                         cancelled: nat -> bool, i: nat, tick: nat, state: S)
    requires Linear(spec) && CompiledTo(spec, regs, nodes)
    requires i <= LiveLength(spec.nodes)
    ensures RunFor(nodes, cancelled, tick, Arrive(IdAt(spec, i), state), LiveLength(spec.nodes) - i)
            == Halted(AsGraphResult(Chain.RunSteps(ChainSteps(spec, regs)[i..LiveLength(spec.nodes)], cancelled, tick, state)))
    decreases |spec.nodes| - i
  {
    var live := LiveLength(spec.nodes);
    var steps := ChainSteps(spec, regs)[i..live];
    if i < live {
      LinearStep(spec, regs, nodes, cancelled, i, tick, state);
      assert Arrive(IdAt(spec, i), state) == At(spec.nodes[i].id, state);
      assert steps[0] == ChainStepAt(spec, regs, i);
      if !cancelled(tick) {
        assert steps[1..] == ChainSteps(spec, regs)[i + 1..live];
        var out := steps[0].run(tick, state);
        if out.Ok? {
          LinearFrom(spec, regs, nodes, cancelled, i + 1, tick + 1, out.value);
        }
      }
    }
  }

  /** For every accepted spec without `next` and `router`, the compiled graph behaves, for every
      runnable, every cancellation and every input, as the chain of the nodes before the first
      one named like the sentinel: same final state, same failing step, same state on error. */
  lemma LinearSpecRunsAsChain<S>(spec: Spec, regs: Registries<S>, nodes: map<string, Node<S>>,
                                 cancelled: nat -> bool, input: S, limit: nat)
    requires Accepted(spec) && Linear(spec) && CompiledTo(spec, regs, nodes)
    requires limit >= LiveLength(spec.nodes)
    ensures RunFor(nodes, cancelled, 0, Start(spec.nodes[0].id, input), limit)
         == Halted(AsGraphResult(Chain.RunSteps(ChainSteps(spec, regs)[..LiveLength(spec.nodes)], cancelled, 0, input)))
  {
    var live := LiveLength(spec.nodes);
    assert ChainSteps(spec, regs)[0..live] == ChainSteps(spec, regs)[..live];
    LinearFrom(spec, regs, nodes, cancelled, 0, 0, input);
    ResultIsStable(nodes, cancelled, 0, Start(spec.nodes[0].id, input), live, limit);
  }

  ghost predicate SameAsChain<S(!new)>(spec: Spec, regs: Registries<S>, nodes: map<string, Node<S>>)
    requires |spec.nodes| > 0 && AllBuildable(spec, regs)
  {
    forall cancelled: nat -> bool, input: S ::
      RunFor(nodes, cancelled, 0, Start(spec.nodes[0].id, input), |spec.nodes|)
      == Halted(AsGraphResult(Chain.RunSteps(ChainSteps(spec, regs), cancelled, 0, input)))
  }

  lemma NoSentinelSameAsChain<S(!new)>(spec: Spec, regs: Registries<S>, nodes: map<string, Node<S>>)
    requires Accepted(spec) && Linear(spec) && CompiledTo(spec, regs, nodes)
    requires forall i | 0 <= i < |spec.nodes| :: spec.nodes[i].id != END
    ensures SameAsChain(spec, regs, nodes)
  {
    assert LiveLength(spec.nodes) == |spec.nodes|;
    assert ChainSteps(spec, regs)[..|spec.nodes|] == ChainSteps(spec, regs);
    forall cancelled: nat -> bool, input: S
      ensures RunFor(nodes, cancelled, 0, Start(spec.nodes[0].id, input), |spec.nodes|)
              == Halted(AsGraphResult(Chain.RunSteps(ChainSteps(spec, regs), cancelled, 0, input)))
    {
      LinearSpecRunsAsChain(spec, regs, nodes, cancelled, input, |spec.nodes|);
    }
  }

  // A node named like the sentinel breaks the law: the graph ends there and the chain does not.

  /** One runnable for every node: it fails as soon as more nodes have run than come before the sentinel. */
  function FailLate<S(!new)>(left: S, live: nat): Runnable<S> {
    (tick, s) => if tick >= live then Fail(left, "reached") else Ok(s)
  }

  function FailAtSentinel<S(!new)>(left: S, live: nat): Registries<S> {
    Registries(_ => Some(FailLate(left, live)), _ => None)
  }

  /** The compiled node map, built from the first `n` nodes. */
  function GraphOf<S(!new)>(spec: Spec, regs: Registries<S>, n: nat): map<string, Node<S>>
    requires AllBuildable(spec, regs) && n <= |spec.nodes|
  {
    if n == 0 then map[] else
      assert Buildable(spec, n - 1, regs);
      GraphOf(spec, regs, n - 1)[spec.nodes[n - 1].id := BuiltNode(spec, n - 1, regs)]
  }

  /** No later node among the first `n` bears the node's id. */
  predicate LastWithId(spec: Spec, i: nat, n: nat)
    requires i < n <= |spec.nodes|
  {
    forall j | i < j < n :: spec.nodes[j].id != spec.nodes[i].id
  }

  lemma {:induction false} GraphOfHas<S(!new)>(spec: Spec, regs: Registries<S>, n: nat, i: nat)
    requires AllBuildable(spec, regs) && i < n <= |spec.nodes| && LastWithId(spec, i, n)
    ensures Buildable(spec, i, regs)
    ensures spec.nodes[i].id in GraphOf(spec, regs, n) && GraphOf(spec, regs, n)[spec.nodes[i].id] == BuiltNode(spec, i, regs)
  {
    assert Buildable(spec, i, regs);
    if i < n - 1 {
      GraphOfHas(spec, regs, n - 1, i);
      assert Buildable(spec, n - 1, regs);
    }
  }

  lemma {:induction false} GraphOfOnly<S(!new)>(spec: Spec, regs: Registries<S>, n: nat, id: string)
    requires AllBuildable(spec, regs) && n <= |spec.nodes| && id in GraphOf(spec, regs, n)
    ensures exists i :: 0 <= i < n && spec.nodes[i].id == id
  {
    if id != spec.nodes[n - 1].id { GraphOfOnly(spec, regs, n - 1, id); }
  }

  lemma GraphOfIsCompiled<S(!new)>(spec: Spec, regs: Registries<S>)
    requires Accepted(spec) && AllBuildable(spec, regs)
    ensures CompiledTo(spec, regs, GraphOf(spec, regs, |spec.nodes|))
  {
    var nodes := GraphOf(spec, regs, |spec.nodes|);
    forall i: nat | i < |spec.nodes|
      ensures Buildable(spec, i, regs) && spec.nodes[i].id in nodes && nodes[spec.nodes[i].id] == BuiltNode(spec, i, regs)
    {
      GraphOfHas(spec, regs, |spec.nodes|, i);
    }
    forall id | id in nodes ensures id in (set i: nat | i < |spec.nodes| :: spec.nodes[i].id) {
      GraphOfOnly(spec, regs, |spec.nodes|, id);
    }
  }

  lemma {:induction false} ChainReachesSentinel<S(!new)>(spec: Spec, regs: Registries<S>, left: S, never: nat -> bool,
                                                         i: nat, state: S)
    requires Linear(spec) && AllBuildable(spec, regs) && regs == FailAtSentinel(left, LiveLength(spec.nodes)) && (forall t :: !never(t))
    requires i <= LiveLength(spec.nodes) < |spec.nodes|
    ensures Chain.RunSteps(ChainSteps(spec, regs)[i..], never, i, state).StepFailed?
    decreases |spec.nodes| - i
  {
    assert Buildable(spec, i, regs);
    if i < LiveLength(spec.nodes) {
      assert ChainSteps(spec, regs)[i..][1..] == ChainSteps(spec, regs)[i + 1..];
      ChainReachesSentinel(spec, regs, left, never, i + 1, state);
    }
  }

  lemma SentinelNodeDiffers<S(!new)>(spec: Spec, input: S)
    requires Accepted(spec) && Linear(spec) && exists i :: 0 <= i < |spec.nodes| && spec.nodes[i].id == END
    ensures exists regs: Registries<S>, nodes :: CompiledTo(spec, regs, nodes) && !SameAsChain(spec, regs, nodes)
  {
    var regs := FailAtSentinel(input, LiveLength(spec.nodes));
    forall i: nat | i < |spec.nodes| ensures Buildable(spec, i, regs) {}
    var nodes := GraphOf(spec, regs, |spec.nodes|);
    GraphOfIsCompiled(spec, regs);
    SentinelNodeDiffersFor(spec, regs, nodes, _ => false, input);
  }

  lemma SentinelNodeDiffersFor<S(!new)>(spec: Spec, regs: Registries<S>, nodes: map<string, Node<S>>,
                                        never: nat -> bool, input: S)
    requires Accepted(spec) && Linear(spec) && LiveLength(spec.nodes) < |spec.nodes|
    requires CompiledTo(spec, regs, nodes) && regs == FailAtSentinel(input, LiveLength(spec.nodes)) && forall t :: !never(t)
    ensures !SameAsChain(spec, regs, nodes)
  {
    LinearSpecRunsAsChain(spec, regs, nodes, never, input, |spec.nodes|);
    PrefixCompletes(spec, regs, input, never, 0, input);
    ChainReachesSentinel(spec, regs, input, never, 0, input);
    assert ChainSteps(spec, regs)[0..] == ChainSteps(spec, regs);
    assert ChainSteps(spec, regs)[0..LiveLength(spec.nodes)] == ChainSteps(spec, regs)[..LiveLength(spec.nodes)];
  }

  lemma {:induction false} PrefixCompletes<S(!new)>(spec: Spec, regs: Registries<S>, left: S, never: nat -> bool,
                                                    i: nat, state: S)
    requires Linear(spec) && AllBuildable(spec, regs) && regs == FailAtSentinel(left, LiveLength(spec.nodes)) && (forall t :: !never(t))
    requires i <= LiveLength(spec.nodes)
    ensures Chain.RunSteps(ChainSteps(spec, regs)[i..LiveLength(spec.nodes)], never, i, state) == Chain.Completed(state)
    decreases |spec.nodes| - i
  {
    if i < LiveLength(spec.nodes) {
      assert Buildable(spec, i, regs);
      var live := ChainSteps(spec, regs)[i..LiveLength(spec.nodes)];
      assert live[1..] == ChainSteps(spec, regs)[i + 1..LiveLength(spec.nodes)];
      PrefixCompletes(spec, regs, left, never, i + 1, state);
    }
  }

  /** A linear accepted spec means its chain, whatever the runnables, exactly when no node bears the sentinel's name. */
  lemma LinearMeansChainIffNoSentinel<S(!new)>(spec: Spec, input: S)
    requires Accepted(spec) && Linear(spec)
    ensures (forall regs: Registries<S>, nodes | CompiledTo(spec, regs, nodes) :: SameAsChain(spec, regs, nodes))
            <==> (forall i | 0 <= i < |spec.nodes| :: spec.nodes[i].id != END)
  {
    if forall i | 0 <= i < |spec.nodes| :: spec.nodes[i].id != END {
      forall regs: Registries<S>, nodes | CompiledTo(spec, regs, nodes) ensures SameAsChain(spec, regs, nodes) {
        NoSentinelSameAsChain(spec, regs, nodes);
      }
    } else {
      SentinelNodeDiffers(spec, input);
    }
  }
}
