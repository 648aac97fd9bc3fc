/** The depth-first search that extracts the cycle to report (`pkg/agent/compiler.go`, `findCycleDFS`). */
module CycleFinder {
  import opened Wrappers
  import opened Digraph
  import opened Sequences

  function Elements(s: seq<string>): set<string> {
    set x | x in s
  }

  /** What holds whenever the search is between two calls: the stack is a simple path, and every
      visited node is either on it or finished with all its successors finished before it. */
  ghost predicate Consistent(edges: Edges, visited: set<string>, recStack: set<string>, path: seq<string>, finished: seq<string>) {
    && recStack == Elements(path)
    && Distinct(path) && (path == [] || IsPath(edges, path))
    && visited == recStack + Elements(finished)
    && recStack !! Elements(finished)
    && SuccessorsFirst(edges, finished)
  }

  lemma Push(edges: Edges, visited: set<string>, recStack: set<string>, path: seq<string>, finished: seq<string>, node: string)
    requires Consistent(edges, visited, recStack, path, finished) && node !in visited
    requires path == [] || node in Succ(edges, path[|path| - 1])
    ensures Consistent(edges, visited + {node}, recStack + {node}, path + [node], finished)
  {
    if path != [] { JoinPaths(edges, path, [node]); }
  }

  lemma Pop(edges: Edges, visited: set<string>, recStack: set<string>, path: seq<string>, finished: seq<string>)
    requires Consistent(edges, visited, recStack, path, finished) && path != []
    requires forall v | v in Succ(edges, path[|path| - 1]) :: v in finished
    ensures var node := path[|path| - 1];
            Consistent(edges, visited, recStack - {node}, path[..|path| - 1], finished + [node])
  {
    var node, below := path[|path| - 1], path[..|path| - 1];
    assert path == below + [node];
    if below != [] { SubPath(edges, path, 0, |below|); assert path[0..|below|] == below; }
    assert Elements(path) == Elements(below) + {node};
    assert Elements(finished + [node]) == Elements(finished) + {node};
    forall i, v | 0 <= i <= |finished| && v in Succ(edges, (finished + [node])[i]) ensures v in (finished + [node])[..i] {
      assert (finished + [node])[..i] == finished[..i];
    }
  }

  method IndexOf(path: seq<string>, node: string) returns (index: int)
    ensures index == -1 <==> node !in path
    ensures index != -1 ==> 0 <= index < |path| && path[index] == node
  {
    for i := 0 to |path|
      invariant node !in path[..i]
    {
      if path[i] == node {
        return i;
      }
    }
    return -1;
  }

  /** The variables that the recursive closure of `findCycleDFS` captures.  The ghost list
      `finished` holds the nodes whose call has returned, in that order. */
  class CycleSearch {
    const edges: Edges
    var visited: set<string>
    var recStack: set<string>
    var path: seq<string>
    ghost var finished: seq<string>

    ghost predicate Valid()
      reads this
    {
      Consistent(edges, visited, recStack, path, finished)
    }

    constructor (edges: Edges)
      ensures Valid() && fresh(this)
      ensures this.edges == edges && visited == {} && path == [] && finished == []
    {
      this.edges := edges;
      visited, recStack, path, finished := {}, {}, [], [];
    }

    /** `names` bounds the recursion: a finite set that contains every name the search can meet. */
    method Dfs(node: string, ghost names: set<string>) returns (found: bool)
      requires Valid() && node !in visited && node in names && visited <= names
      requires path == [] || node in Succ(edges, path[|path| - 1])
      requires ClosedSet(edges, names)
      modifies this
      ensures !found ==> Valid() && path == old(path) && visited <= names
      ensures !found ==> old(finished) <= finished && old(visited) <= visited && node in finished
      ensures found ==> IsSimpleCycle(edges, path) && Reaches(edges, (old(path) + [node])[0], path[0])
      decreases names - visited
    {
      Push(edges, visited, recStack, path, finished, node);
      visited := visited + {node};
      recStack := recStack + {node};
      path := path + [node];
      ghost var stack := path;

      var neighbors := Succ(edges, node);
      for k := 0 to |neighbors|
        invariant Valid() && path == stack && visited <= names
        invariant old(finished) <= finished && old(visited) + {node} <= visited
        invariant forall j | 0 <= j < k :: neighbors[j] in finished
      {
        var neighbor := neighbors[k];
        if neighbor !in visited {
          var deeper := Dfs(neighbor, names);
          if deeper {
            return true;
          }
        } else if neighbor in recStack {
          var cycleStart := IndexOf(path, neighbor);
          if cycleStart >= 0 {
            CloseStack(edges, path, cycleStart);
            path := path[cycleStart..] + [neighbor];
            return true;
          }
        }
      }

      Pop(edges, visited, recStack, path, finished);
      path := path[..|path| - 1];
      recStack := recStack - {node};
      finished := finished + [node];
      return false;
    }
  }

  ghost predicate ClosedSet(edges: Edges, names: set<string>) {
    forall u, v | u in names && v in Succ(edges, u) :: v in names
  }

  lemma CloseStack(edges: Edges, stack: seq<string>, start: nat)
    requires IsPath(edges, stack) && Distinct(stack) && start < |stack|
    requires stack[start] in Succ(edges, stack[|stack| - 1])
    ensures IsSimpleCycle(edges, stack[start..] + [stack[start]])
    ensures Reaches(edges, stack[0], stack[start])
  {
    SubPath(edges, stack, start, |stack|);
    assert stack[start..|stack|] == stack[start..];
    JoinPaths(edges, stack[start..], [stack[start]]);
    assert (stack[start..] + [stack[start]])[..|stack| - start] == stack[start..];
    SubPath(edges, stack, 0, start + 1);
    assert PathFromTo(edges, stack[0..start + 1], stack[0], stack[start]);
  }

  /** Every name the search can meet. */
  ghost function Names(edges: Edges, nodes: seq<string>): set<string> {
    (set n | n in nodes) + edges.Keys + (set u, v | u in edges.Keys && v in edges[u] :: v)
  }

  /** The search answers exactly when a cycle can be reached, with a closed simple cycle that can. */
  method FindCycle(nodes: seq<string>, edges: Edges) returns (cycle: Option<seq<string>>)
    ensures cycle.Some? <==> ReachesCycle(edges, nodes)
    ensures cycle.Some? ==> IsSimpleCycle(edges, cycle.value)
    ensures cycle.Some? ==> exists n :: n in nodes && Reaches(edges, n, cycle.value[0])
  {
    ghost var names := Names(edges, nodes);
    var search := new CycleSearch(edges);
    for i := 0 to |nodes|
      invariant fresh(search) && search.edges == edges
      invariant search.Valid() && search.path == [] && search.visited <= names
      invariant forall j | 0 <= j < i :: nodes[j] in search.finished
    {
      if nodes[i] !in search.visited {
        search.path := [];
        assert search.path + [nodes[i]] == [nodes[i]];
        var found := search.Dfs(nodes[i], names);
        if found {
          assert IsCycle(edges, search.path) && nodes[i] in nodes;
          return Some(search.path);
        }
      }
    }
    SuccessorsFirstReachNoCycle(edges, search.finished, nodes);
    return None;
  }
}
