/** Compile-time resolution of the agents an agent may delegate to (`pkg/agent/compiler.go`,
    `resolveAgentsTopological`): a breadth-first closure over the resolver, then Kahn's algorithm,
    then the search for the cycle to report. */
module AgentResolver {
  import opened Wrappers
  import opened Digraph
  import opened KahnSort
  import opened CycleFinder
  import opened Sequences

  /** `kahnTopologicalSort`: a cycle to report, or nothing when the graph is acyclic. */
  method KahnTopologicalSort(nodes: seq<string>, edges: Edges) returns (cycle: Option<seq<string>>)
    requires Closed(edges, nodes)
    ensures cycle.Some? <==> ReachesCycle(edges, nodes)
    ensures cycle.Some? ==> IsSimpleCycle(edges, cycle.value)
    ensures cycle.Some? ==> exists n :: n in nodes && Reaches(edges, n, cycle.value[0])
  {
    var sorted := KahnOrder(nodes, edges);
    if |sorted| < |nodes| {
      cycle := FindCycle(nodes, edges);
    } else {
      cycle := None;
    }
  }

  /** What resolution reads of a compiled agent: the agents its spec lists. */
  datatype CompiledAgent = CompiledAgent(name: string, agentNames: seq<string>)

  /** The agents a resolver knows; any other name is an error. */
  type Registry = map<string, CompiledAgent>

  datatype Resolution =
    | Resolved(agents: map<string, CompiledAgent>)
    | CycleFound(cycle: seq<string>)
    | NotFound(name: string)

  /** The dependency graph that resolution builds.  The parent lists `agentNames`, unless it is in
      its own list: then it is resolved like any other agent and the registry's entry wins. */
  function Dependencies(registry: Registry, parent: string, agentNames: seq<string>): Edges {
    var declared := map n | n in registry :: registry[n].agentNames;
    if parent in agentNames then declared else declared[parent := agentNames]
  }

  ghost predicate ReachedFrom(edges: Edges, starts: seq<string>, n: string) {
    exists s :: s in starts && Reaches(edges, s, n)
  }

  /** The names resolution has to look up: everything below the parent, and not the parent itself
      unless the parent lists itself. */
  ghost predicate Needed(registry: Registry, parent: string, agentNames: seq<string>, n: string) {
    && ReachedFrom(Dependencies(registry, parent, agentNames), agentNames, n)
    && (n == parent ==> parent in agentNames)
  }

  /** The agents are exactly the needed names, each as the registry has it. */
  ghost predicate Complete(registry: Registry, parent: string, agentNames: seq<string>, agents: map<string, CompiledAgent>) {
    && (forall n :: n in agents <==> Needed(registry, parent, agentNames, n))
    && (forall n | n in agents :: n in registry && agents[n] == registry[n])
  }

  /** The loop invariant of the closure. */
  ghost predicate Exploring(registry: Registry, parent: string, agentNames: seq<string>,
                            agents: map<string, CompiledAgent>, visited: set<string>, queue: seq<string>)
  {
    && (forall n | n in agents :: n in registry && agents[n] == registry[n] && Needed(registry, parent, agentNames, n))
    && (forall n | n in queue :: Needed(registry, parent, agentNames, n))
    && (forall n | n in agentNames :: n in agents || n in queue)
    && (forall n | n in visited :: n == parent || n in agents || n in queue)
    && (forall n, sub | n in agents && sub in registry[n].agentNames :: sub in visited)
    && parent in visited
  }

  lemma NeededSub(registry: Registry, parent: string, agentNames: seq<string>, n: string, sub: string)
    requires Needed(registry, parent, agentNames, n) && n in registry && sub in registry[n].agentNames && sub != parent
    ensures Needed(registry, parent, agentNames, sub)
  {
    var edges := Dependencies(registry, parent, agentNames);
    var s :| s in agentNames && Reaches(edges, s, n);
    assert sub in Succ(edges, n);
    ReachesEdge(edges, s, n, sub);
  }

  /** When the queue runs empty, the agents are exactly the needed names. */
  lemma ClosureComplete(registry: Registry, parent: string, agentNames: seq<string>,
                        agents: map<string, CompiledAgent>, visited: set<string>, n: string)
    requires Exploring(registry, parent, agentNames, agents, visited, [])
    ensures n in agents <==> Needed(registry, parent, agentNames, n)
  {
    var edges := Dependencies(registry, parent, agentNames);
    if Needed(registry, parent, agentNames, n) {
      var s :| s in agentNames && Reaches(edges, s, n);
      var inside := iset m | m in agents || (m == parent && parent !in agentNames);
      forall u, v | u in inside && v in Succ(edges, u) ensures v in inside {
        if u in agents && !(u == parent && parent !in agentNames) {
          assert v in registry[u].agentNames;
          assert v in visited;
        }
      }
      ReachStaysInside(edges, inside, s, n);
    }
  }

  function AllNames(registry: Registry, parent: string, agentNames: seq<string>): set<string> {
    {parent} + (set n | n in agentNames) + (set n, sub | n in registry && sub in registry[n].agentNames :: sub)
  }

  method EnqueueNew(subs: seq<string>, visited: set<string>, queue: seq<string>, ghost names: set<string>)
    returns (visited': set<string>, queue': seq<string>)
    requires visited <= names && forall s | s in subs :: s in names
    ensures queue <= queue' && visited' == visited + (set s | s in subs) && visited' <= names
    ensures forall n :: n in queue' <==> n in queue || (n in subs && n !in visited)
    ensures |names - visited'| + |queue'| == |names - visited| + |queue|
  {
    visited', queue' := visited, queue;
    for k := 0 to |subs|
      invariant visited' == visited + (set s | s in subs[..k]) && visited' <= names
      invariant queue <= queue'
      invariant forall n :: n in queue' <==> n in queue || (n in subs[..k] && n !in visited)
      invariant |names - visited'| + |queue'| == |names - visited| + |queue|
    {
      assert subs[..k + 1] == subs[..k] + [subs[k]];
      if subs[k] !in visited' {
        assert names - visited' == (names - (visited' + {subs[k]})) + {subs[k]};
        visited' := visited' + {subs[k]};
        queue' := queue' + [subs[k]];
      }
    }
    assert subs[..|subs|] == subs;
  }

  lemma ExploredOne(registry: Registry, parent: string, agentNames: seq<string>,
                    agents: map<string, CompiledAgent>, visited: set<string>, queue: seq<string>,
                    visited': set<string>, queue': seq<string>)
    requires queue != [] && queue[0] in registry && Exploring(registry, parent, agentNames, agents, visited, queue)
    requires visited' == visited + (set s | s in registry[queue[0]].agentNames)
    requires forall n :: n in queue' <==> n in queue[1..] || (n in registry[queue[0]].agentNames && n !in visited)
    ensures Exploring(registry, parent, agentNames, agents[queue[0] := registry[queue[0]]], visited', queue')
  {
    assert forall n :: n in queue <==> n == queue[0] || n in queue[1..];
    QueuedAreNeeded(registry, parent, agentNames, visited, queue, queue');
  }

  lemma QueuedAreNeeded(registry: Registry, parent: string, agentNames: seq<string>,
                        visited: set<string>, queue: seq<string>, queue': seq<string>)
    requires queue != [] && queue[0] in registry && parent in visited
    requires forall n | n in queue :: Needed(registry, parent, agentNames, n)
    requires forall n :: n in queue' <==> n in queue[1..] || (n in registry[queue[0]].agentNames && n !in visited)
    ensures forall n | n in queue' :: Needed(registry, parent, agentNames, n)
  {
    forall n | n in queue' ensures Needed(registry, parent, agentNames, n) {
      if n in queue[1..] {
        assert n in queue;
      } else {
        NeededSub(registry, parent, agentNames, queue[0], n);
      }
    }
  }

  method Explore(registry: Registry, parent: string, agentNames: seq<string>)
    returns (agents: map<string, CompiledAgent>, missing: Option<string>)
    ensures missing.Some? ==> missing.value !in registry && Needed(registry, parent, agentNames, missing.value)
    ensures missing.None? ==> Complete(registry, parent, agentNames, agents)
  {
    agents := map[];
    var visited := {parent};
    var queue := agentNames;
    ghost var names := AllNames(registry, parent, agentNames);
    forall n | n in queue ensures Needed(registry, parent, agentNames, n) {
      ReachesSelf(Dependencies(registry, parent, agentNames), n);
    }
    while |queue| > 0
      invariant Exploring(registry, parent, agentNames, agents, visited, queue)
      invariant visited <= names
      decreases |names - visited| + |queue|
    {
      var name := queue[0];
      ghost var before := queue;
      queue := queue[1..];
      assert forall n :: n in before <==> n == name || n in queue;
      if name !in agents {
        if name !in registry {
          return agents, Some(name);
        }
        ghost var seen, rest := visited, queue;
        visited, queue := EnqueueNew(registry[name].agentNames, visited, queue, names);
        ExploredOne(registry, parent, agentNames, agents, seen, before, visited, queue);
        agents := agents[name := registry[name]];
      }
    }
    forall n ensures n in agents <==> Needed(registry, parent, agentNames, n) {
      ClosureComplete(registry, parent, agentNames, agents, visited, n);
    }
    missing := None;
  }

  lemma NoAgentsNoCycle(registry: Registry, parent: string)
    ensures !ReachesCycle(Dependencies(registry, parent, []), [parent] + [])
  {
    RankedReachNoCycle(Dependencies(registry, parent, []), {parent}, map[parent := 0], [parent] + []);
  }

  /** The map `deps` agrees with the graph on the nodes, and no edge leaves them. */
  ghost predicate Agrees(deps: Edges, graph: Edges, nodes: seq<string>) {
    Closed(deps, nodes) && forall n | n in nodes :: Succ(deps, n) == Succ(graph, n)
  }

  lemma SubsResolved(registry: Registry, parent: string, agentNames: seq<string>, agents: map<string, CompiledAgent>)
    requires Complete(registry, parent, agentNames, agents)
    ensures forall n | n in agentNames :: n in agents
    ensures forall n, sub | n in agents && sub in registry[n].agentNames :: sub == parent || sub in agents
  {
    forall n | n in agentNames ensures n in agents {
      ReachesSelf(Dependencies(registry, parent, agentNames), n);
      assert Needed(registry, parent, agentNames, n);
    }
    forall n, sub | n in agents && sub in registry[n].agentNames && sub != parent ensures sub in agents {
      NeededSub(registry, parent, agentNames, n, sub);
    }
  }

  /** The map handed to Kahn's algorithm is closed and agrees with the dependency graph. */
  lemma HandedOver(registry: Registry, parent: string, agentNames: seq<string>,
                   agents: map<string, CompiledAgent>, nodes: seq<string>, deps: Edges)
    requires Complete(registry, parent, agentNames, agents)
    requires deps == map[parent := agentNames] + map n | n in agents :: agents[n].agentNames
    requires forall n :: n in nodes <==> n == parent || n in agents
    ensures Agrees(deps, Dependencies(registry, parent, agentNames), nodes)
  {
    SubsResolved(registry, parent, agentNames, agents);
    forall n | n in nodes
      ensures Succ(deps, n) == Succ(Dependencies(registry, parent, agentNames), n)
      ensures forall v | v in Succ(deps, n) :: v in nodes
    {
      HandedOverAt(registry, parent, agentNames, agents, deps, n);
    }
  }

  lemma HandedOverAt(registry: Registry, parent: string, agentNames: seq<string>,
                     agents: map<string, CompiledAgent>, deps: Edges, n: string)
    requires Complete(registry, parent, agentNames, agents) && (n == parent || n in agents)
    requires forall name | name in agentNames :: name in agents
    requires deps == map[parent := agentNames] + map n | n in agents :: agents[n].agentNames
    ensures Succ(deps, n) == Succ(Dependencies(registry, parent, agentNames), n)
    ensures Succ(deps, n) == if n in agents then registry[n].agentNames else agentNames
  {
    if n in agents {
      assert Needed(registry, parent, agentNames, n);
      assert agents[n] == registry[n] && deps[n] == registry[n].agentNames;
    } else {
      assert deps[n] == agentNames;
    }
  }

  /** Everything the nodes reach lies below the parent, since every agent does. */
  lemma BelowParent(registry: Registry, parent: string, agentNames: seq<string>,
                    agents: map<string, CompiledAgent>, n: string, m: string)
    requires Complete(registry, parent, agentNames, agents) && (n == parent || n in agents)
    requires Reaches(Dependencies(registry, parent, agentNames), n, m)
    ensures ReachedFrom(Dependencies(registry, parent, agentNames), [parent] + agentNames, m)
  {
    if n == parent {
      assert parent in [parent] + agentNames;
    } else {
      assert Needed(registry, parent, agentNames, n);
      var s :| s in agentNames && Reaches(Dependencies(registry, parent, agentNames), s, n);
      ReachesTransitive(Dependencies(registry, parent, agentNames), s, n, m);
      assert s in [parent] + agentNames;
    }
  }

  /** What the search says about the handed-over map holds of the dependency graph below the parent. */
  lemma HandedBack(registry: Registry, parent: string, agentNames: seq<string>,
                   agents: map<string, CompiledAgent>, nodes: seq<string>, deps: Edges, cycle: Option<seq<string>>)
    requires Complete(registry, parent, agentNames, agents)
    requires forall n :: n in nodes <==> n == parent || n in agents
    requires Agrees(deps, Dependencies(registry, parent, agentNames), nodes)
    requires cycle.Some? <==> ReachesCycle(deps, nodes)
    requires cycle.Some? ==> IsSimpleCycle(deps, cycle.value)
    requires cycle.Some? ==> exists n :: n in nodes && Reaches(deps, n, cycle.value[0])
    ensures var graph := Dependencies(registry, parent, agentNames);
            && (cycle.Some? <==> ReachesCycle(graph, [parent] + agentNames))
            && (cycle.Some? ==> IsSimpleCycle(graph, cycle.value) && ReachedFrom(graph, [parent] + agentNames, cycle.value[0]))
  {
    if cycle.Some? {
      var n :| n in nodes && Reaches(deps, n, cycle.value[0]);
      CycleHandedBack(registry, parent, agentNames, agents, nodes, deps, cycle.value, n);
    }
    if ReachesCycle(Dependencies(registry, parent, agentNames), [parent] + agentNames) {
      CycleHandedOver(registry, parent, agentNames, agents, nodes, deps);
    }
  }

  lemma CycleHandedBack(registry: Registry, parent: string, agentNames: seq<string>,
                        agents: map<string, CompiledAgent>, nodes: seq<string>, deps: Edges, cycle: seq<string>, n: string)
    requires Complete(registry, parent, agentNames, agents) && (n == parent || n in agents) && n in nodes
    requires Agrees(deps, Dependencies(registry, parent, agentNames), nodes)
    requires IsSimpleCycle(deps, cycle) && Reaches(deps, n, cycle[0])
    ensures var graph := Dependencies(registry, parent, agentNames);
            && IsSimpleCycle(graph, cycle) && ReachedFrom(graph, [parent] + agentNames, cycle[0])
            && ReachesCycle(graph, [parent] + agentNames)
  {
    var graph := Dependencies(registry, parent, agentNames);
    var path :| PathFromTo(deps, path, n, cycle[0]);
    SamePath(deps, graph, nodes, path);
    SamePath(deps, graph, nodes, cycle);
    assert PathFromTo(graph, path, n, cycle[0]);
    BelowParent(registry, parent, agentNames, agents, n, cycle[0]);
  }

  lemma CycleHandedOver(registry: Registry, parent: string, agentNames: seq<string>,
                        agents: map<string, CompiledAgent>, nodes: seq<string>, deps: Edges)
    requires Complete(registry, parent, agentNames, agents)
    requires forall n :: n in nodes <==> n == parent || n in agents
    requires Agrees(deps, Dependencies(registry, parent, agentNames), nodes)
    requires ReachesCycle(Dependencies(registry, parent, agentNames), [parent] + agentNames)
    ensures ReachesCycle(deps, nodes)
  {
    var graph := Dependencies(registry, parent, agentNames);
    SubsResolved(registry, parent, agentNames, agents);
    var s, p :| s in [parent] + agentNames && IsCycle(graph, p) && Reaches(graph, s, p[0]);
    assert s == parent || s in agentNames;
    assert s in nodes && IsCycle(graph, p) && Reaches(graph, s, p[0]);
    SameReachesCycle(graph, deps, nodes);
  }

  /** Go iterates over a map in any order. */
  method AnyOrder(keys: set<string>) returns (order: seq<string>)
    ensures forall n :: n in order <==> n in keys
    ensures Distinct(order)
  {
    order := [];
    var rest := keys;
    while rest != {}
      invariant rest <= keys && Distinct(order)
      invariant forall n :: n in order <==> n in keys - rest
      decreases rest
    {
      var n :| n in rest;
      assert n !in order;
      rest := rest - {n};
      order := order + [n];
    }
  }

  /** `resolveAgentsTopological`. */
  method ResolveAgents(registry: Registry, parent: string, agentNames: seq<string>) returns (r: Resolution)
    // a missing name is reported exactly when a needed name is unknown
    ensures r.NotFound? <==> exists n :: Needed(registry, parent, agentNames, n) && n !in registry
    ensures r.NotFound? ==> Needed(registry, parent, agentNames, r.name) && r.name !in registry
    // otherwise a cycle is reported exactly when the dependency graph has one below the parent
    ensures !r.NotFound? ==>
      (r.CycleFound? <==> ReachesCycle(Dependencies(registry, parent, agentNames), [parent] + agentNames))
    ensures r.CycleFound? ==> IsSimpleCycle(Dependencies(registry, parent, agentNames), r.cycle)
    ensures r.CycleFound? ==> ReachedFrom(Dependencies(registry, parent, agentNames), [parent] + agentNames, r.cycle[0])
    // on success the agents are exactly the needed names, each as the registry has it
    ensures r.Resolved? ==> Complete(registry, parent, agentNames, r.agents)
  {
    if |agentNames| == 0 {
      NoAgentsNoCycle(registry, parent);
      return Resolved(map[]);
    }
    var agents, missing := Explore(registry, parent, agentNames);
    if missing.Some? {
      return NotFound(missing.value);
    }
    var deps := map[parent := agentNames];
    deps := deps + map n | n in agents :: agents[n].agentNames;
    var names := AnyOrder(agents.Keys);
    var allNodes := [parent] + names;
    HandedOver(registry, parent, agentNames, agents, allNodes, deps);
    var cycle := KahnTopologicalSort(allNodes, deps);
    HandedBack(registry, parent, agentNames, agents, allNodes, deps, cycle);
    if cycle.Some? {
      return CycleFound(cycle.value);
    }
    return Resolved(agents);
  }

  // ---- what the spec declares, against what resolution looks at ----

  function Registered(registry: Registry): Edges {
    map n | n in registry :: registry[n].agentNames
  }

  /** The graph the specs declare: the parent lists `agentNames`, whatever the resolver has under its name. */
  function Declared(registry: Registry, parent: string, agentNames: seq<string>): Edges {
    Registered(registry)[parent := agentNames]
  }

  /** Resolution reports a declared cycle, and only a declared cycle, exactly when the parent is not
      in its own list or the agents already registered form a cycle below that list without it. */
  lemma ReportsDeclaredCycles(registry: Registry, parent: string, agentNames: seq<string>)
    ensures var starts := [parent] + agentNames;
            (ReachesCycle(Dependencies(registry, parent, agentNames), starts)
             <==> ReachesCycle(Declared(registry, parent, agentNames), starts))
            <==> (parent !in agentNames || ReachesCycle(Registered(registry), agentNames))
  {
    if parent in agentNames {
      var declared := Declared(registry, parent, agentNames);
      assert Hop(declared, [parent, parent], 0);
      assert IsCycle(declared, [parent, parent]);
      ReachesSelf(declared, parent);
      assert parent in [parent] + agentNames;
      forall n ensures n in [parent] + agentNames <==> n in agentNames {}
      assert ReachesCycle(Registered(registry), [parent] + agentNames) <==> ReachesCycle(Registered(registry), agentNames);
    } else {
      assert Dependencies(registry, parent, agentNames) == Declared(registry, parent, agentNames);
    }
  }

  /** An agent that lists itself is accepted when the resolver still holds an older version that does not. */
  lemma StaleSelfListingAccepted()
    ensures var registry := map["p" := CompiledAgent("p", [])];
            && ReachesCycle(Declared(registry, "p", ["p"]), ["p"] + ["p"])
            && !ReachesCycle(Dependencies(registry, "p", ["p"]), ["p"] + ["p"])
  {
    var registry := map["p" := CompiledAgent("p", [])];
    RankedReachNoCycle(Registered(registry), {"p"}, map["p" := 0], ["p"]);
    ReportsDeclaredCycles(registry, "p", ["p"]);
    RankedReachNoCycle(Registered(registry), {"p"}, map["p" := 0], ["p"] + ["p"]);
  }
}
