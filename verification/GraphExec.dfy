/** The graph executor (`pkg/graph/graph.go`).  Node runnables are arbitrary: a runnable is a
    function of the state and of the tick at which it runs, so that two runs of one node may
    answer differently.  Cancellation is an oracle polled once per tick. */
module GraphExec {
  import opened Wrappers

  /** The sentinel that ends a run. */
  const END := "__end__"

  /** A runnable either returns a new state or fails, having left its input as `left`. */
  datatype Outcome<S> = Ok(value: S) | Fail(left: S, error: string)

  /** A router names the next node; it may have changed the maps inside the state. */
  datatype Routing<S> = Goto(next: string, state: S) | RouteFail(left: S, error: string)

  type Runnable<!S> = (nat, S) -> Outcome<S>
  type Router<!S> = (nat, S) -> Routing<S>

  datatype Node<!S> = Node(id: string, run: Runnable<S>, router: Option<Router<S>>)

  /** How an invocation ends, with the state it returns. */
  datatype RunResult<S> =
    | Finished(state: S)
    | NoEntry(state: S)
    | Cancelled(state: S)
    | UnknownNode(state: S, node: string)
    | NodeFailed(state: S, node: string, error: string)
    | RouterFailed(state: S, node: string, error: string)

  datatype Config<S> = At(node: string, state: S) | Halted(result: RunResult<S>)

  function Arrive<S>(node: string, state: S): Config<S> {
    if node == END then Halted(Finished(state)) else At(node, state)
  }

  function Start<S>(entry: string, input: S): Config<S> {
    if entry == "" then Halted(NoEntry(input)) else Arrive(entry, input)
  }

  /** One pass through the executor's loop. */
  function Step<S>(nodes: map<string, Node<S>>, cancelled: nat -> bool, tick: nat, c: Config<S>): Config<S>
    requires c.At?
  {
    if cancelled(tick) then Halted(Cancelled(c.state))
    else if c.node !in nodes then Halted(UnknownNode(c.state, c.node))
    else
      var node := nodes[c.node];
      match node.run(tick, c.state)
      case Fail(left, error) => Halted(NodeFailed(left, c.node, error))
      case Ok(out) =>
        if node.router.None? then Halted(Finished(out))
        else
          match node.router.value(tick, out)
          case RouteFail(left, error) => Halted(RouterFailed(left, c.node, error))
          case Goto(next, state) => Arrive(next, state)
  }

  /** The configuration after at most `n` node executions, the first of them at `tick`. */
  function RunFor<S>(nodes: map<string, Node<S>>, cancelled: nat -> bool, tick: nat, c: Config<S>, n: nat): Config<S>
    decreases n
  {
    if n == 0 || c.Halted? then c
    else RunFor(nodes, cancelled, tick + 1, Step(nodes, cancelled, tick, c), n - 1)
  }

  /** Why a turn of the executor ends the run, or where it goes on: each outcome exactly for its reason,
      and with the state that belongs to it. */
  lemma WhyHalted<S>(nodes: map<string, Node<S>>, cancelled: nat -> bool, tick: nat, node: string, state: S)
    ensures var c := Step(nodes, cancelled, tick, At(node, state));
            && RunFor(nodes, cancelled, tick, At(node, state), 1) == c
            && (c == Halted(Cancelled(state)) <==> cancelled(tick))
            && (c == Halted(UnknownNode(state, node)) <==> !cancelled(tick) && node !in nodes)
            && (!cancelled(tick) && node in nodes ==>
                  var n, out := nodes[node], nodes[node].run(tick, state);
                  && (out.Fail? ==> c == Halted(NodeFailed(out.left, node, out.error)))
                  && (out.Ok? && n.router.None? ==> c == Halted(Finished(out.value)))
                  && (out.Ok? && n.router.Some? ==>
                        var routing := n.router.value(tick, out.value);
                        && (routing.RouteFail? ==> c == Halted(RouterFailed(routing.left, node, routing.error)))
                        && (routing.Goto? && routing.next == END ==> c == Halted(Finished(routing.state)))
                        && (routing.Goto? && routing.next != END ==> c == At(routing.next, routing.state))))
  {
    assert RunFor(nodes, cancelled, tick, At(node, state), 1)
        == RunFor(nodes, cancelled, tick + 1, Step(nodes, cancelled, tick, At(node, state)), 0);
  }

  lemma {:induction false} RunForSplit<S>(nodes: map<string, Node<S>>, cancelled: nat -> bool, tick: nat, c: Config<S>, m: nat, n: nat)
    ensures RunFor(nodes, cancelled, tick, c, m + n)
         == RunFor(nodes, cancelled, tick + m, RunFor(nodes, cancelled, tick, c, m), n)
    decreases m
  {
    if m > 0 && c.At? {
      RunForSplit(nodes, cancelled, tick + 1, Step(nodes, cancelled, tick, c), m - 1, n);
    }
  }

  /** A run has one result: giving it longer does not change it. */
  lemma ResultIsStable<S>(nodes: map<string, Node<S>>, cancelled: nat -> bool, tick: nat, c: Config<S>, m: nat, n: nat)
    requires RunFor(nodes, cancelled, tick, c, m).Halted? && m <= n
    ensures RunFor(nodes, cancelled, tick, c, n) == RunFor(nodes, cancelled, tick, c, m)
  {
    RunForSplit(nodes, cancelled, tick, c, m, n - m);
  }

  class Graph<!S> {
    const name: string
    var nodes: map<string, Node<S>>
    var entryPoint: string

    constructor (name: string)
      ensures this.name == name && nodes == map[] && entryPoint == ""
    {
      this.name, nodes, entryPoint := name, map[], "";
    }

    /** Refuses a duplicate id, where the original panics. */
    method AddNode(n: Node<S>) returns (added: bool)
      modifies this`nodes
      ensures added <==> n.id !in old(nodes)
      ensures nodes == if added then old(nodes)[n.id := n] else old(nodes)
    {
      if n.id in nodes {
        return false;
      }
      nodes := nodes[n.id := n];
      return true;
    }

    method SetEntry(nodeID: string)
      modifies this`entryPoint
      ensures entryPoint == nodeID
    {
      entryPoint := nodeID;
    }

    /** The executor's loop, given up after `limit` node executions: a graph with a cycle may run
        for ever, so `None` means that the run has not ended by then. */
    method Invoke(input: S, cancelled: nat -> bool, limit: nat) returns (r: Option<RunResult<S>>)
      ensures var c := RunFor(nodes, cancelled, 0, Start(entryPoint, input), limit);
              r == if c.Halted? then Some(c.result) else None
      ensures entryPoint == "" ==> r == Some(NoEntry(input))
      ensures entryPoint == END ==> r == Some(Finished(input))
    {
      if entryPoint == "" {
        return Some(NoEntry(input));
      }
      var current := entryPoint;
      var currentInput := input;
      var tick := 0;
      while current != END && tick < limit
        invariant 0 <= tick <= limit
        invariant RunFor(nodes, cancelled, 0, Start(entryPoint, input), limit)
               == RunFor(nodes, cancelled, tick, Arrive(current, currentInput), limit - tick)
      {
        if cancelled(tick) {
          return Some(Cancelled(currentInput));
        }
        if current !in nodes {
          return Some(UnknownNode(currentInput, current));
        }
        var node := nodes[current];
        var out := node.run(tick, currentInput);
        if out.Fail? {
          return Some(NodeFailed(out.left, current, out.error));
        }
        if node.router.None? {
          return Some(Finished(out.value));
        }
        var routing := node.router.value(tick, out.value);
        if routing.RouteFail? {
          return Some(RouterFailed(routing.left, current, routing.error));
        }
        currentInput := routing.state;
        current := routing.next;
        tick := tick + 1;
      }
      return if current == END then Some(Finished(currentInput)) else None;
    }
  }
}
