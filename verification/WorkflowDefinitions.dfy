/**
 * Workflow definitions: structural validation and the recursive cycle detector of the
 * workflow engine. A state set or adjacency set of the source is a sequence here, in its
 * insertion order, because the loops walk it in that order.
 */
module WorkflowDefinitions {
  import opened Prelude
  import opened Walks

  datatype State = State(id: string, caption: string, isTerminal: bool)

  datatype Action = Action(id: string, blocksTransition: bool)

  datatype Transition = Transition(
    id: string, caption: string, fromState: string, toState: string,
    allowedRoles: seq<string>, allowedUsers: seq<string>,
    conditions: seq<string>, actions: seq<Action>)

  datatype Definition = Definition(states: seq<State>, transitions: seq<Transition>)

  datatype Validation = NoStates | NoTransitions | UnknownState(id: string) | Accepted(hasCycle: bool)

  /** The transition relation between the listed states. */
  ghost function TransitionEdges(transitions: seq<Transition>, stateIds: seq<string>): set<(string, string)> {
    set t | t in transitions && t.fromState in stateIds :: (t.fromState, t.toState)
  }

  /** The sets of a search agree with its path and with the order in which it left vertices. */
  ghost predicate Searching(
    graph: Graph, stack: set<string>, visited: set<string>, path: seq<string>, finished: seq<string>)
  {
    && (forall v :: v in stack <==> v in path)
    && (forall v :: v in visited <==> v in path || v in finished)
    && (path != [] ==> IsWalk(Edges(graph), path))
    && FinishOrder(Edges(graph), finished)
  }

  lemma EnterVertex(
    graph: Graph, stack: set<string>, visited: set<string>, path: seq<string>, finished: seq<string>, v: string)
    requires Searching(graph, stack, visited, path, finished)
    requires path != [] ==> (path[|path| - 1], v) in Edges(graph)
    ensures Searching(graph, stack + {v}, visited + {v}, path + [v], finished)
  {
  }

  lemma LeaveVertex(
    graph: Graph, stack: set<string>, visited: set<string>, path: seq<string>, finished: seq<string>, v: string)
    requires Searching(graph, stack + {v}, visited, path + [v], finished)
    requires v !in stack && (forall u :: u in stack <==> u in path) && (path != [] ==> IsWalk(Edges(graph), path))
    requires forall w :: (v, w) in Edges(graph) ==> w in finished
    ensures Searching(graph, stack, visited, path, finished + [v])
  {
    FinishOrderExtend(Edges(graph), finished, v);
  }

  /** One depth-first search: the `visited` and `stack` sets that its recursive calls share. */
  class CycleSearch {
    var visited: set<string>
    var stack: set<string>
    ghost var path: seq<string>      // the vertices on `stack`, outermost first
    ghost var finished: seq<string>  // the vertices already left, in finish order

    ghost predicate Valid(graph: Graph)
      reads this
    {
      Searching(graph, stack, visited, path, finished)
    }

    constructor ()
      ensures forall graph :: Valid(graph)
      ensures visited == {} && path == [] && finished == []
    {
      visited, stack := {}, {};
      path, finished := [], [];
    }

    /** Closing the current path back to one of its vertices gives a closed walk. */
    lemma BackEdgeClosesWalk(graph: Graph, v: string)
      requires Valid(graph) && path != [] && v in path
      requires (path[|path| - 1], v) in Edges(graph)
      ensures HasClosedWalk(Edges(graph))
    {
      var i :| 0 <= i < |path| && path[i] == v;
      WalkSuffix(Edges(graph), path, i);
      WalkExtend(Edges(graph), path[i..], v);
      assert ClosedWalk(Edges(graph), path[i..] + [v]);
    }

    method HasCycleDFS(node: string, graph: Graph) returns (found: bool)
      requires Valid(graph)
      requires node in Vertices(graph) && node !in visited
      requires path != [] ==> (path[|path| - 1], node) in Edges(graph)
      modifies this
      ensures found ==> HasClosedWalk(Edges(graph))
      ensures !found ==> Valid(graph) && path == old(path) && stack == old(stack)
      ensures !found ==> node in finished && old(finished) <= finished
      ensures old(visited) <= visited
      decreases Vertices(graph) - visited
    {
      EnterVertex(graph, stack, visited, path, finished, node);
      visited := visited + {node};
      stack := stack + {node};
      path := path + [node];

      var neighbors := if node in graph then graph[node] else [];
      for i := 0 to |neighbors|
        invariant Valid(graph)
        invariant path == old(path) + [node] && stack == old(stack) + {node}
        invariant old(finished) <= finished
        invariant old(visited) + {node} <= visited
        invariant forall k :: 0 <= k < i ==> neighbors[k] in finished
      {
        var neighbor := neighbors[i];
        assert (node, neighbor) in Edges(graph);
        if neighbor !in visited {
          var deeper := HasCycleDFS(neighbor, graph);
          if deeper {
            return true;
          }
        } else if neighbor in stack {
          BackEdgeClosesWalk(graph, neighbor);
          return true;
        }
      }

      LeaveVertex(graph, old(stack), visited, old(path), finished, node);
      stack := stack - {node};
      path := path[..|path| - 1];
      finished := finished + [node];
      return false;
    }
  }

  /** The adjacency map: one row per state, one entry per distinct target. */
  method BuildGraph(transitions: seq<Transition>, stateIds: seq<string>) returns (graph: Graph)
    ensures graph.Keys == set s | s in stateIds
    ensures Edges(graph) == TransitionEdges(transitions, stateIds)
  {
    graph := map[];
    for i := 0 to |stateIds|
      invariant graph.Keys == set s | s in stateIds[..i]
      invariant forall v :: v in graph ==> graph[v] == []
    {
      graph := graph[stateIds[i] := []];
    }
    assert stateIds[..|stateIds|] == stateIds;
    for i := 0 to |transitions|
      invariant graph.Keys == set s | s in stateIds
      invariant Edges(graph) == TransitionEdges(transitions[..i], stateIds)
    {
      var t := transitions[i];
      ghost var before := graph;
      if t.fromState in graph && t.toState !in graph[t.fromState] {
        graph := graph[t.fromState := graph[t.fromState] + [t.toState]];
      }
      EdgesAfterAdd(before, graph, t);
      assert transitions[..i + 1] == transitions[..i] + [t];
    }
    assert transitions[..|transitions|] == transitions;
  }

  lemma EdgesAfterAdd(before: Graph, after: Graph, t: Transition)
    requires after == if t.fromState in before && t.toState !in before[t.fromState]
                      then before[t.fromState := before[t.fromState] + [t.toState]] else before
    ensures Edges(after) == Edges(before) + if t.fromState in before then {(t.fromState, t.toState)} else {}
  {
    forall v, w
      ensures (v, w) in Edges(after) <==>
              (v, w) in Edges(before) || (t.fromState in before && v == t.fromState && w == t.toState)
    {
    }
  }

  /** The detector answers exactly whether the transition relation has a closed walk. */
  method DetectCycle(transitions: seq<Transition>, stateIds: seq<string>) returns (hasCycle: bool)
    ensures hasCycle <==> HasClosedWalk(TransitionEdges(transitions, stateIds))
  {
    var graph := BuildGraph(transitions, stateIds);
    for i := 0 to |stateIds|
      invariant forall k :: 0 <= k < i ==> !CycleReachableFrom(Edges(graph), stateIds[k])
    {
      var search := new CycleSearch();
      var found := search.HasCycleDFS(stateIds[i], graph);
      if found {
        return true;
      }
      FinishOrderHasNoCycle(Edges(graph), search.finished, stateIds[i]);
    }
    if HasClosedWalk(Edges(graph)) {
      CycleIsReachableFromSomeStart(Edges(graph), stateIds);
    }
    return false;
  }

  /** Every closed walk starts at a vertex with an outgoing edge, so checking those is enough. */
  lemma CycleIsReachableFromSomeStart(edges: set<(string, string)>, starts: seq<string>)
    requires forall v, w :: (v, w) in edges ==> v in starts
    requires HasClosedWalk(edges)
    ensures exists k :: 0 <= k < |starts| && CycleReachableFrom(edges, starts[k])
  {
    var c :| ClosedWalk(edges, c);
    assert (c[0], c[1]) in edges;
    var k :| 0 <= k < |starts| && starts[k] == c[0];
    assert WalkFromTo(edges, c[0], c[0], [c[0]]);
    assert CycleReachableFrom(edges, starts[k]);
  }

  /** The ids of the states, each once, in first-occurrence order. */
  method StateIds(states: seq<State>) returns (ids: seq<string>)
    ensures forall id :: id in ids <==> exists s :: s in states && s.id == id
    ensures Distinct(ids)
  {
    ids := [];
    for i := 0 to |states|
      invariant forall id :: id in ids <==> exists s :: s in states[..i] && s.id == id
      invariant Distinct(ids)
    {
      if states[i].id !in ids {
        DistinctExtend(ids, states[i].id);
        ids := ids + [states[i].id];
      }
      assert states[..i + 1] == states[..i] + [states[i]];
    }
    assert states[..|states|] == states;
  }

  ghost predicate KnowsState(def: Definition, id: string) {
    exists s :: s in def.states && s.id == id
  }

  ghost predicate WellFormed(def: Definition) {
    && |def.states| > 0
    && forall t :: t in def.transitions ==> KnowsState(def, t.fromState) && KnowsState(def, t.toState)
  }

  ghost function AllEdges(def: Definition): set<(string, string)> {
    set t | t in def.transitions :: (t.fromState, t.toState)
  }

  /**
   * Acceptance means well-formedness, and the warning flag is exact on the whole transition
   * relation. A cyclic definition is still accepted: the source only logs a warning.
   */
  method ValidateWorkflowDefinition(states: Option<seq<State>>, transitions: Option<seq<Transition>>)
    returns (result: Validation)
    ensures result.NoStates? <==> states.None? || states.value == []
    ensures result.NoTransitions? <==> states.Some? && states.value != [] && transitions.None?
    ensures result.Accepted? <==>
            states.Some? && transitions.Some? && WellFormed(Definition(states.value, transitions.value))
    ensures result.Accepted? ==>
              (result.hasCycle <==> HasClosedWalk(AllEdges(Definition(states.value, transitions.value))))
    ensures result.UnknownState? ==>
              && !KnowsState(Definition(states.value, transitions.value), result.id)
              && exists t :: t in transitions.value && (t.fromState == result.id || t.toState == result.id)
  {
    if states.None? || |states.value| == 0 {
      return NoStates;
    }
    if transitions.None? {
      return NoTransitions;
    }
    ghost var def := Definition(states.value, transitions.value);
    var stateIds := StateIds(states.value);
    for i := 0 to |transitions.value|
      invariant forall k :: 0 <= k < i ==> KnowsState(def, transitions.value[k].fromState)
      invariant forall k :: 0 <= k < i ==> KnowsState(def, transitions.value[k].toState)
    {
      var t := transitions.value[i];
      if t.fromState !in stateIds {
        return UnknownState(t.fromState);
      }
      if t.toState !in stateIds {
        return UnknownState(t.toState);
      }
    }
    assert TransitionEdges(transitions.value, stateIds) == AllEdges(def);
    var hasCycle := DetectCycle(transitions.value, stateIds);
    return Accepted(hasCycle);
  }
}
