/**
 * Project tasks and their dependency rows. A row (dependent, prerequisite) says that the
 * dependent task waits for the prerequisite.
 */
module TaskDependencies {
  import opened Prelude
  import opened Selections
  import opened Walks

  datatype Dependency = Dependency(dependent: string, prerequisite: string)

  /** `projects` maps a project to whether it is still live; deletion only marks the row. */
  datatype Board = Board(projects: map<string, bool>, tasks: map<string, string>, dependencies: seq<Dependency>)

  datatype Outcome = Done | NotFound | InvalidPrerequisites | WouldCycle | UnknownProject

  /** The placeholder id under which a task is searched before its row exists. */
  const NEW_TASK := "new-task"

  ghost function DependencyEdges(rows: seq<Dependency>): set<(string, string)> {
    set d | d in rows :: (d.dependent, d.prerequisite)
  }

  /** What the search sees: the rows of the project's own tasks and the proposed new ones. */
  ghost function SearchEdges(b: Board, projectId: string, dependsOn: seq<string>): set<(string, string)> {
    (set d | d in b.dependencies && d.dependent != NEW_TASK
             && d.dependent in b.tasks && b.tasks[d.dependent] == projectId :: (d.dependent, d.prerequisite))
    + (set p | p in dependsOn :: (NEW_TASK, p))
  }

  // ---------------------------------------------------------------------------------------
  // The search

  /** The `visiting` and `visited` sets closed over by the recursive search. */
  class DependencySearch {
    var visiting: set<string>
    var visited: set<string>
    ghost var path: seq<string>      // the vertices being visited, outermost first
    ghost var finished: seq<string>  // the visited vertices in finish order

    ghost predicate Valid(graph: Graph, root: string)
      reads this
    {
      && (forall v :: v in visiting <==> v in path)
      && (forall v :: v in visited <==> v in finished)
      && (path != [] ==> path[0] == root && IsWalk(Edges(graph), path))
      && FinishOrder(Edges(graph), finished)
    }

    constructor ()
      ensures forall graph, root :: Valid(graph, root)
      ensures path == []
    {
      visiting, visited := {}, {};
      path, finished := [], [];
    }

    lemma BackEdgeIsReachableCycle(graph: Graph, root: string, v: string)
      requires Valid(graph, root) && path != [] && v in path
      requires (path[|path| - 1], v) in Edges(graph)
      ensures CycleReachableFrom(Edges(graph), root)
    {
      var i :| 0 <= i < |path| && path[i] == v;
      WalkSuffix(Edges(graph), path, i);
      WalkExtend(Edges(graph), path[i..], v);
      assert ClosedWalk(Edges(graph), path[i..] + [v]);
      assert WalkFromTo(Edges(graph), root, v, path[..i + 1]);
      assert (path[i..] + [v])[0] == v;
    }

    method Dfs(node: string, graph: Graph, ghost root: string) returns (found: bool)
      requires Valid(graph, root)
      requires node in Vertices(graph)
      requires if path == [] then node == root else (path[|path| - 1], node) in Edges(graph)
      modifies this
      ensures found ==> CycleReachableFrom(Edges(graph), root)
      ensures !found ==> Valid(graph, root) && path == old(path) && visiting == old(visiting)
      ensures !found ==> node in finished && old(finished) <= finished
      decreases Vertices(graph) - (visiting + visited)
    {
      if node in visiting {
        BackEdgeIsReachableCycle(graph, root, node);
        return true;
      }
      if node in visited {
        return false;
      }
      visiting := visiting + {node};
      path := path + [node];

      var successors := if node in graph then graph[node] else [];
      for i := 0 to |successors|
        invariant Valid(graph, root)
        invariant path == old(path) + [node] && visiting == old(visiting) + {node}
        invariant old(finished) <= finished
        invariant forall k :: 0 <= k < i ==> successors[k] in finished
      {
        assert (node, successors[i]) in Edges(graph);
        var deeper := Dfs(successors[i], graph, root);
        if deeper {
          return true;
        }
      }

      visiting := visiting - {node};
      visited := visited + {node};
      FinishOrderExtend(Edges(graph), finished, node);
      path := old(path);
      finished := finished + [node];
      return false;
    }
  }

  lemma EdgesAfterPush(before: Graph, after: Graph, v: string, w: string)
    requires after == before[v := (if v in before then before[v] else []) + [w]]
    ensures Edges(after) == Edges(before) + {(v, w)}
  {
    forall a, b
      ensures (a, b) in Edges(after) <==> (a, b) in Edges(before) || (a == v && b == w)
    {
    }
  }

  /** The rows of `dependencies` whose dependent task belongs to the project. */
  ghost function ProjectEdges(b: Board, projectId: string, rows: seq<Dependency>): set<(string, string)> {
    set d | d in rows && d.dependent in b.tasks && b.tasks[d.dependent] == projectId :: (d.dependent, d.prerequisite)
  }

  method BuildGraph(b: Board, projectId: string, dependsOn: seq<string>) returns (graph: Graph)
    ensures Edges(graph) == SearchEdges(b, projectId, dependsOn)
    ensures NEW_TASK in graph
  {
    graph := map[];
    for i := 0 to |b.dependencies|
      invariant Edges(graph) == ProjectEdges(b, projectId, b.dependencies[..i])
    {
      var d := b.dependencies[i];
      assert b.dependencies[..i + 1] == b.dependencies[..i] + [d];
      if d.dependent in b.tasks && b.tasks[d.dependent] == projectId {
        var list := if d.dependent in graph then graph[d.dependent] else [];
        EdgesAfterPush(graph, graph[d.dependent := list + [d.prerequisite]], d.dependent, d.prerequisite);
        graph := graph[d.dependent := list + [d.prerequisite]];
      }
    }
    assert b.dependencies[..|b.dependencies|] == b.dependencies;
    ghost var before := graph;
    graph := graph[NEW_TASK := dependsOn];
    forall v, w
      ensures (v, w) in Edges(graph) <==> (v, w) in SearchEdges(b, projectId, dependsOn)
    {
      if v != NEW_TASK {
        assert (v, w) in Edges(graph) <==> (v, w) in Edges(before);
      }
    }
  }

  /** Exact on any rows whatever, for the cycles that the new task can reach. */
  method WouldCreateCycle(b: Board, projectId: string, dependsOn: seq<string>) returns (cycle: bool)
    ensures cycle <==> CycleReachableFrom(SearchEdges(b, projectId, dependsOn), NEW_TASK)
  {
    var graph := BuildGraph(b, projectId, dependsOn);
    var search := new DependencySearch();
    cycle := search.Dfs(NEW_TASK, graph, NEW_TASK);
    if !cycle {
      FinishOrderHasNoCycle(Edges(graph), search.finished, NEW_TASK);
    }
  }

  // ---------------------------------------------------------------------------------------
  // The operations

  /** The rows that a lookup of the requested prerequisites in the project returns. */
  function Prerequisites(b: Board, projectId: string, dependsOn: seq<string>): set<string> {
    set t | t in dependsOn && t in b.tasks && b.tasks[t] == projectId
  }

  ghost predicate ValidPrerequisites(b: Board, projectId: string, dependsOn: seq<string>) {
    && Distinct(dependsOn)
    && (forall t :: t in dependsOn ==> t in b.tasks && b.tasks[t] == projectId)
  }

  lemma {:induction false} ElementCount(s: seq<string>)
    ensures |set t | t in s| <= |s|
    ensures |set t | t in s| == |s| <==> Distinct(s)
  {
    if |s| > 0 {
      var front, last := s[..|s| - 1], s[|s| - 1];
      ElementCount(front);
      assert s == front + [last];
      assert (set t | t in s) == (set t | t in front) + {last};
      if last in front {
        var k :| 0 <= k < |front| && front[k] == last;
        assert s[k] == s[|s| - 1];
        assert (set t | t in s) == (set t | t in front);
      } else {
        assert |(set t | t in front) + {last}| == |set t | t in front| + 1;
        if Distinct(front) {
          DistinctExtend(front, last);
        } else {
          var i, j :| 0 <= i < j < |front| && front[i] == front[j];
          assert s[i] == s[j];
        }
      }
    }
  }

  /** Comparing two counts accepts exactly distinct prerequisites of the same project. */
  lemma CountCheckIsExact(b: Board, projectId: string, dependsOn: seq<string>)
    ensures |Prerequisites(b, projectId, dependsOn)| == |dependsOn| <==> ValidPrerequisites(b, projectId, dependsOn)
  {
    var found, all := Prerequisites(b, projectId, dependsOn), set t | t in dependsOn;
    ElementCount(dependsOn);
    SubsetCount(found, all);
    if found == all {
      forall t | t in dependsOn
        ensures t in b.tasks && b.tasks[t] == projectId
      {
        assert t in found;
      }
    }
  }

  lemma SubsetCount(small: set<string>, big: set<string>)
    requires small <= big
    ensures |small| <= |big| && (|small| == |big| <==> small == big)
  {
    assert big == small + (big - small);
    assert |big| == |small| + |big - small|;
  }

  function NewRows(id: string, dependsOn: seq<string>): seq<Dependency> {
    seq(|dependsOn|, i requires 0 <= i < |dependsOn| => Dependency(id, dependsOn[i]))
  }

  /** The rows that touch none of `gone`. */
  function Without(rows: seq<Dependency>, gone: set<string>): (kept: seq<Dependency>)
    ensures forall d :: d in kept <==> d in rows && d.dependent !in gone && d.prerequisite !in gone
  {
    if |rows| == 0 then [] else
    var front, d := Without(rows[..|rows| - 1], gone), rows[|rows| - 1];
    if d.dependent in gone || d.prerequisite in gone then front else front + [d]
  }

  ghost predicate Rejected(b: Board, projectId: string, dependsOn: seq<string>) {
    && dependsOn != []
    && (!ValidPrerequisites(b, projectId, dependsOn)
        || CycleReachableFrom(SearchEdges(b, projectId, dependsOn), NEW_TASK))
  }

  datatype Op =
    | CreateProject(projectId: string)
    | CreateTask(taskId: string, projectId: string, dependsOn: seq<string>)
    | DeleteTask(taskId: string)
    | DeleteProject(projectId: string)

  /** The board after one operation; a refused operation changes nothing. */
  ghost function Apply(b: Board, op: Op): Board {
    match op
    case CreateProject(p) => b.(projects := b.projects[p := true])
    case CreateTask(id, p, dependsOn) =>
      if Rejected(b, p, dependsOn) || p !in b.projects then b
      else b.(tasks := b.tasks[id := p], dependencies := b.dependencies + NewRows(id, dependsOn))
    case DeleteTask(id) =>
      if id !in b.tasks then b
      else b.(tasks := b.tasks - {id}, dependencies := Without(b.dependencies, {id}))
    case DeleteProject(p) =>
      if p !in b.projects || !b.projects[p] then b
      else
        var gone := set t | t in b.tasks && b.tasks[t] == p;
        Board(b.projects[p := false], b.tasks - gone, Without(b.dependencies, gone))
  }

  /** What an accepted task adds: itself, in its project, and one dependency for every prerequisite. */
  ghost predicate Adds(b: Board, id: string, projectId: string, dependsOn: seq<string>, after: Board) {
    && after.tasks == b.tasks[id := projectId] && after.projects == b.projects
    && |after.dependencies| == |b.dependencies| + |dependsOn|
    && after.dependencies[..|b.dependencies|] == b.dependencies
    && (forall i :: 0 <= i < |dependsOn| ==>
          after.dependencies[|b.dependencies| + i] == Dependency(id, dependsOn[i]))
    && forall d :: d in after.dependencies <==>
         d in b.dependencies || (d.dependent == id && d.prerequisite in dependsOn)
  }

  lemma CreationAdds(b: Board, id: string, projectId: string, dependsOn: seq<string>)
    ensures Adds(b, id, projectId, dependsOn,
                 b.(tasks := b.tasks[id := projectId], dependencies := b.dependencies + NewRows(id, dependsOn)))
  {
    var added := NewRows(id, dependsOn);
    forall d: Dependency | d.dependent == id && d.prerequisite in dependsOn
      ensures d in added
    {
      var i :| 0 <= i < |dependsOn| && dependsOn[i] == d.prerequisite;
      assert added[i] == d;
    }
    forall d | d in added
      ensures d.dependent == id && d.prerequisite in dependsOn
    {
    }
  }

  ghost function Spares(gone: set<string>): Dependency -> bool {
    (d: Dependency) => d.dependent !in gone && d.prerequisite !in gone
  }

  /** What a deletion takes away: the tasks, and every row that names one of them on either side. */
  ghost predicate Removes(b: Board, gone: set<string>, after: Board) {
    && (forall t :: t in after.tasks <==> t in b.tasks && t !in gone)
    && (forall t :: t in after.tasks ==> after.tasks[t] == b.tasks[t])
    && IsFiltered(b.dependencies, Spares(gone), after.dependencies)
  }

  lemma {:induction false} WithoutIsFiltered(rows: seq<Dependency>, gone: set<string>)
    ensures IsFiltered(rows, Spares(gone), Without(rows, gone))
  {
    if |rows| == 0 {
      NothingIsFiltered(Spares(gone));
    } else {
      var front, d := rows[..|rows| - 1], rows[|rows| - 1];
      assert rows == front + [d];
      WithoutIsFiltered(front, gone);
      FilteredAppend(front, Spares(gone), Without(front, gone), d);
    }
  }

  /** A deleted project loses its live mark, its tasks and every row that names one of them. */
  ghost predicate RemovesProject(b: Board, projectId: string, after: Board) {
    && Removes(b, (set t | t in b.tasks && b.tasks[t] == projectId), after)
    && after.projects == b.projects[projectId := false]
  }

  lemma DeletionRemoves(b: Board, projectId: string, gone: set<string>, after: Board)
    requires gone == set t | t in b.tasks && b.tasks[t] == projectId
    requires after == Board(b.projects[projectId := false], b.tasks - gone, Without(b.dependencies, gone))
    ensures RemovesProject(b, projectId, after)
  {
    WithoutIsFiltered(b.dependencies, gone);
  }

  class ProjectService {
    var board: Board

    constructor ()
      ensures board == Board(map[], map[], [])
    {
      board := Board(map[], map[], []);
    }

    method CreateTask(taskId: string, projectId: string, dependsOn: seq<string>) returns (outcome: Outcome)
      modifies this
      ensures board == Apply(old(board), Op.CreateTask(taskId, projectId, dependsOn))
      ensures outcome ==
              if dependsOn != [] && !ValidPrerequisites(old(board), projectId, dependsOn) then InvalidPrerequisites
              else if Rejected(old(board), projectId, dependsOn) then WouldCycle
              else if projectId in old(board).projects then Done else UnknownProject
      ensures outcome == Done ==> Adds(old(board), taskId, projectId, dependsOn, board)
      ensures outcome != Done ==> board == old(board)
    {
      CountCheckIsExact(board, projectId, dependsOn);
      if |dependsOn| > 0 && |Prerequisites(board, projectId, dependsOn)| != |dependsOn| {
        return InvalidPrerequisites;
      }
      if |dependsOn| > 0 {
        var cycle := WouldCreateCycle(board, projectId, dependsOn);
        if cycle {
          return WouldCycle;
        }
      }
      if projectId !in board.projects {
        return UnknownProject;
      }
      CreationAdds(board, taskId, projectId, dependsOn);
      board := board.(tasks := board.tasks[taskId := projectId],
                      dependencies := board.dependencies + NewRows(taskId, dependsOn));
      return Done;
    }

    method DeleteTask(taskId: string) returns (outcome: Outcome)
      modifies this
      ensures board == Apply(old(board), Op.DeleteTask(taskId))
      ensures outcome == (if taskId in old(board).tasks then Done else NotFound)
      ensures if outcome == Done then Removes(old(board), {taskId}, board) && board.projects == old(board).projects
              else board == old(board)
    {
      if taskId !in board.tasks {
        return NotFound;
      }
      WithoutIsFiltered(board.dependencies, {taskId});
      board := board.(tasks := board.tasks - {taskId}, dependencies := Without(board.dependencies, {taskId}));
      return Done;
    }

    method DeleteProject(projectId: string) returns (outcome: Outcome)
      modifies this
      ensures board == Apply(old(board), Op.DeleteProject(projectId))
      ensures outcome == if projectId in old(board).projects && old(board).projects[projectId] then Done else NotFound
      ensures if outcome == Done then RemovesProject(old(board), projectId, board) else board == old(board)
    {
      if projectId !in board.projects || !board.projects[projectId] {
        return NotFound;
      }
      var taskIds := set t | t in board.tasks && board.tasks[t] == projectId;
      ghost var after := Board(
        board.projects[projectId := false], board.tasks - taskIds, Without(board.dependencies, taskIds));
      DeletionRemoves(board, projectId, taskIds, after);
      if |taskIds| > 0 {
        board := board.(dependencies := Without(board.dependencies, taskIds));
      } else {
        WithoutNothing(board.dependencies);
        assert taskIds == {};
      }
      board := board.(projects := board.projects[projectId := false], tasks := board.tasks - taskIds);
      return Done;
    }
  }

  lemma {:induction false} WithoutNothing(rows: seq<Dependency>)
    ensures Without(rows, {}) == rows
  {
    if |rows| > 0 {
      WithoutNothing(rows[..|rows| - 1]);
    }
  }

  // ---------------------------------------------------------------------------------------
  // What every run keeps

  /** Dependencies form a DAG inside single projects, between existing tasks, with no row twice. */
  ghost predicate Inv(b: Board) {
    && !HasClosedWalk(DependencyEdges(b.dependencies))
    && (forall d :: d in b.dependencies ==>
          && d.dependent in b.tasks && d.prerequisite in b.tasks
          && b.tasks[d.dependent] == b.tasks[d.prerequisite])
    && Distinct(b.dependencies)
    && (forall t :: t in b.tasks ==> b.tasks[t] in b.projects)
    && NEW_TASK !in b.tasks
  }

  /** Generated ids are new and never the placeholder. */
  ghost predicate Fresh(b: Board, op: Op) {
    && (op.CreateProject? ==> op.projectId !in b.projects)
    && (op.CreateTask? ==> op.taskId !in b.tasks && op.taskId != NEW_TASK)
  }

  /** On a board that keeps the invariant, the cycle check never fires. */
  lemma CycleCheckNeverFires(b: Board, projectId: string, dependsOn: seq<string>)
    requires Inv(b) && ValidPrerequisites(b, projectId, dependsOn)
    ensures !CycleReachableFrom(SearchEdges(b, projectId, dependsOn), NEW_TASK)
  {
    var edges, searched := DependencyEdges(b.dependencies), SearchEdges(b, projectId, dependsOn);
    forall a, w | (a, w) in edges + searched
      ensures w != NEW_TASK
    {
    }
    SourceVertexStaysAcyclic(edges, edges + searched, NEW_TASK);
    SubgraphStaysAcyclic(edges + searched, searched);
  }

  lemma {:induction false} WithoutKeepsDistinct(rows: seq<Dependency>, gone: set<string>)
    requires Distinct(rows)
    ensures Distinct(Without(rows, gone))
  {
    if |rows| > 0 {
      var front := rows[..|rows| - 1];
      WithoutKeepsDistinct(front, gone);
      var kept, last := Without(front, gone), rows[|rows| - 1];
      assert last !in front;
      DistinctExtend(kept, last);
    }
  }

  lemma RemovalKeepsInv(b: Board, gone: set<string>, projects: map<string, bool>)
    requires Inv(b) && b.projects.Keys == projects.Keys
    ensures Inv(Board(projects, b.tasks - gone, Without(b.dependencies, gone)))
  {
    var kept := Without(b.dependencies, gone);
    assert DependencyEdges(kept) <= DependencyEdges(b.dependencies);
    SubgraphStaysAcyclic(DependencyEdges(b.dependencies), DependencyEdges(kept));
    WithoutKeepsDistinct(b.dependencies, gone);
  }

  lemma CreationKeepsInv(b: Board, id: string, projectId: string, dependsOn: seq<string>)
    requires Inv(b) && id !in b.tasks && id != NEW_TASK && projectId in b.projects
    requires ValidPrerequisites(b, projectId, dependsOn)
    ensures Inv(b.(tasks := b.tasks[id := projectId], dependencies := b.dependencies + NewRows(id, dependsOn)))
  {
    var rows, added := b.dependencies, NewRows(id, dependsOn);
    var edges, more := DependencyEdges(rows), DependencyEdges(rows + added);
    forall d | d in added
      ensures d.dependent == id && d.prerequisite in dependsOn
    {
    }
    assert forall d :: d in rows ==> d in rows + added;
    SourceVertexStaysAcyclic(edges, more, id);
    forall i, j | 0 <= i < j < |rows + added|
      ensures (rows + added)[i] != (rows + added)[j]
    {
      if i < |rows| <= j {
        assert rows[i].dependent in b.tasks;
      }
    }
  }

  lemma StepKeepsInv(b: Board, op: Op)
    requires Inv(b) && Fresh(b, op)
    ensures Inv(Apply(b, op))
  {
    match op
    case CreateProject(p) =>
    case CreateTask(id, p, dependsOn) =>
      if !Rejected(b, p, dependsOn) && p in b.projects {
        CreationKeepsInv(b, id, p, dependsOn);
      }
    case DeleteTask(id) => RemovalKeepsInv(b, {id}, b.projects);
    case DeleteProject(p) =>
      if p in b.projects {
        RemovalKeepsInv(b, (set t | t in b.tasks && b.tasks[t] == p), b.projects[p := false]);
      }
  }

  /** The board after `ops`, starting from no rows at all. */
  ghost function Run(ops: seq<Op>): Board {
    if |ops| == 0 then Board(map[], map[], []) else Apply(Run(ops[..|ops| - 1]), ops[|ops| - 1])
  }

  ghost predicate FreshIds(ops: seq<Op>) {
    forall i :: 0 <= i < |ops| ==> Fresh(Run(ops[..i]), ops[i])
  }

  lemma {:induction false} RunKeepsInv(ops: seq<Op>)
    requires FreshIds(ops)
    ensures Inv(Run(ops))
  {
    if |ops| == 0 {
      ClosedWalkNeedsEdge(DependencyEdges([]));
    } else {
      var front := ops[..|ops| - 1];
      assert forall i :: 0 <= i < |front| ==> front[..i] == ops[..i];
      RunKeepsInv(front);
      StepKeepsInv(Run(front), ops[|ops| - 1]);
    }
  }

  /** So after any run a task is refused only for its prerequisites, never for a cycle. */
  lemma ReachableRejection(ops: seq<Op>, projectId: string, dependsOn: seq<string>)
    requires FreshIds(ops)
    ensures Rejected(Run(ops), projectId, dependsOn) <==>
            dependsOn != [] && !ValidPrerequisites(Run(ops), projectId, dependsOn)
  {
    RunKeepsInv(ops);
    if ValidPrerequisites(Run(ops), projectId, dependsOn) {
      CycleCheckNeverFires(Run(ops), projectId, dependsOn);
    }
  }
}
