/**
 * Workflow instances: a document moves through the states of a definition that stays frozen
 * for the life of the instance. Conditions and actions are abstract: a request carries the
 * verdict of every condition and the success of every action.
 */
module WorkflowInstances {
  import opened Walks
  import opened WorkflowDefinitions

  datatype User = User(id: string, roles: seq<string>)

  datatype Request = Request(caption: string, user: User, holds: string -> bool, succeeds: Action -> bool)

  datatype HistoryRow = HistoryRow(
    fromState: string, toState: string, transitionId: string, transitionCaption: string, approvedBy: string)

  datatype Instance = Instance(current: string, currentCaption: string, history: seq<HistoryRow>)

  datatype Outcome = Moved | NotAvailable | NotAuthorized | ConditionsNotMet | ActionBlocked | TargetMissing

  /** `t` is the first transition with this caption out of this state. */
  ghost predicate IsFirstMatch(ts: seq<Transition>, caption: string, fromState: string, k: int) {
    && 0 <= k < |ts|
    && ts[k].caption == caption && ts[k].fromState == fromState
    && forall j :: 0 <= j < k ==> !(ts[j].caption == caption && ts[j].fromState == fromState)
  }

  predicate Authorized(t: Transition, user: User) {
    || t.allowedRoles == []
    || (exists role :: role in user.roles && role in t.allowedRoles)
    || user.id in t.allowedUsers
  }

  predicate ConditionsHold(t: Transition, holds: string -> bool) {
    forall c :: c in t.conditions ==> holds(c)
  }

  predicate NotBlocked(t: Transition, succeeds: Action -> bool) {
    forall a :: a in t.actions && a.blocksTransition ==> succeeds(a)
  }

  ghost function RowOf(t: Transition, user: User): HistoryRow {
    HistoryRow(t.fromState, t.toState, t.id, t.caption, user.id)
  }

  /** What one request does; every clause but the first leaves the instance alone. */
  ghost predicate Executes(def: Definition, before: Instance, req: Request, outcome: Outcome, after: Instance) {
    if exists k :: IsFirstMatch(def.transitions, req.caption, before.current, k) then
      var k :| IsFirstMatch(def.transitions, req.caption, before.current, k);
      var t := def.transitions[k];
      if !Authorized(t, req.user) then outcome == NotAuthorized && after == before
      else if !ConditionsHold(t, req.holds) then outcome == ConditionsNotMet && after == before
      else if !NotBlocked(t, req.succeeds) then outcome == ActionBlocked && after == before
      else if !KnowsState(def, t.toState) then outcome == TargetMissing && after == before
      else
        && outcome == Moved
        && after.current == t.toState
        && (exists s :: s in def.states && s.id == t.toState && s.caption == after.currentCaption)
        && after.history == before.history + [RowOf(t, req.user)]
    else
      outcome == NotAvailable && after == before
  }

  lemma FirstMatchIsUnique(ts: seq<Transition>, caption: string, fromState: string, i: int, j: int)
    requires IsFirstMatch(ts, caption, fromState, i) && IsFirstMatch(ts, caption, fromState, j)
    ensures i == j
  {
    if i < j {
      assert false;
    }
  }

  /** Neither one of the user's roles nor the user is on the transition's lists, and it has roles listed. */
  ghost predicate Excludes(t: Transition, user: User) {
    && |t.allowedRoles| > 0
    && (forall i, j :: 0 <= i < |user.roles| && 0 <= j < |t.allowedRoles| ==> user.roles[i] != t.allowedRoles[j])
    && forall j :: 0 <= j < |t.allowedUsers| ==> t.allowedUsers[j] != user.id
  }

  /** Exactly who is refused, and what stops a transition that the user may request. */
  lemma RefusedIff(def: Definition, before: Instance, req: Request, outcome: Outcome, after: Instance, k: nat)
    requires Executes(def, before, req, outcome, after)
    requires IsFirstMatch(def.transitions, req.caption, before.current, k)
    ensures var t := def.transitions[k];
            && (outcome == NotAuthorized <==> Excludes(t, req.user))
            && (outcome == ConditionsNotMet <==>
                  !Excludes(t, req.user) && exists c :: c in t.conditions && !req.holds(c))
            && (outcome == Moved <==>
                  && !Excludes(t, req.user)
                  && (forall c :: c in t.conditions ==> req.holds(c))
                  && (forall a :: a in t.actions && !req.succeeds(a) ==> !a.blocksTransition)
                  && exists s :: s in def.states && s.id == t.toState)
            && (outcome != Moved ==> after == before)
  {
    var t := def.transitions[k];
    var j :| IsFirstMatch(def.transitions, req.caption, before.current, j);
    forall j | IsFirstMatch(def.transitions, req.caption, before.current, j)
      ensures j == k
    {
      FirstMatchIsUnique(def.transitions, req.caption, before.current, j, k);
    }
    ExcludedIff(t, req.user);
  }

  lemma ExcludedIff(t: Transition, user: User)
    ensures Authorized(t, user) <==> !Excludes(t, user)
  {
    if role :| role in user.roles && role in t.allowedRoles {
      var i :| 0 <= i < |user.roles| && user.roles[i] == role;
      var j :| 0 <= j < |t.allowedRoles| && t.allowedRoles[j] == role;
      assert user.roles[i] == t.allowedRoles[j];
    }
    if !Excludes(t, user) && t.allowedRoles != [] && user.id !in t.allowedUsers {
      var i, j :| 0 <= i < |user.roles| && 0 <= j < |t.allowedRoles| && user.roles[i] == t.allowedRoles[j];
      assert user.roles[i] in user.roles && user.roles[i] in t.allowedRoles;
    }
  }

  class WorkflowInstance {
    var current: string
    var currentCaption: string
    var history: seq<HistoryRow>

    ghost function View(): Instance
      reads this
    {
      Instance(current, currentCaption, history)
    }

    /** A new instance starts in the first listed state with an empty history. */
    constructor Initialize(def: Definition)
      requires |def.states| > 0
      ensures current == def.states[0].id && currentCaption == def.states[0].caption && history == []
    {
      current := def.states[0].id;
      currentCaption := def.states[0].caption;
      history := [];
    }

    method ExecuteTransition(def: Definition, req: Request) returns (outcome: Outcome)
      modifies this
      ensures Executes(def, old(View()), req, outcome, View())
    {
      var k := 0;
      while k < |def.transitions| &&
            !(def.transitions[k].caption == req.caption && def.transitions[k].fromState == current)
        invariant k <= |def.transitions|
        invariant forall j :: 0 <= j < k ==>
                    !(def.transitions[j].caption == req.caption && def.transitions[j].fromState == current)
      {
        k := k + 1;
      }
      if k == |def.transitions| {
        return NotAvailable;
      }
      var t := def.transitions[k];
      assert IsFirstMatch(def.transitions, req.caption, current, k);
      forall j | IsFirstMatch(def.transitions, req.caption, current, j)
        ensures j == k
      {
        FirstMatchIsUnique(def.transitions, req.caption, current, j, k);
      }
      if !Authorized(t, req.user) {
        return NotAuthorized;
      }
      if !ConditionsHold(t, req.holds) {
        return ConditionsNotMet;
      }
      var s := 0;
      while s < |def.states| && def.states[s].id != t.toState
        invariant s <= |def.states|
        invariant forall j :: 0 <= j < s ==> def.states[j].id != t.toState
      {
        s := s + 1;
      }
      if !NotBlocked(t, req.succeeds) {
        return ActionBlocked;
      }
      if s == |def.states| {
        return TargetMissing;
      }
      assert def.states[s] in def.states;
      current := t.toState;
      currentCaption := def.states[s].caption;
      history := history + [HistoryRow(t.fromState, t.toState, t.id, t.caption, req.user.id)];
      return Moved;
    }
  }

  // ---------------------------------------------------------------------------------------
  // Runs

  ghost predicate Leads(def: Definition, before: Instance, req: Request, after: Instance) {
    exists outcome :: Executes(def, before, req, outcome, after)
  }

  ghost predicate Follows(def: Definition, reqs: seq<Request>, trace: seq<Instance>, i: int) {
    && 0 <= i < |reqs| && i + 1 < |trace|
    && Leads(def, trace[i], reqs[i], trace[i + 1])
  }

  /** `trace` lists the instance after initialisation and after each request. */
  ghost predicate IsRun(def: Definition, reqs: seq<Request>, trace: seq<Instance>) {
    && |def.states| > 0
    && |trace| == |reqs| + 1
    && trace[0] == Instance(def.states[0].id, def.states[0].caption, [])
    && forall i :: 0 <= i < |reqs| ==> Follows(def, reqs, trace, i)
  }

  /** No earlier transition with the same label and source state hides the one at `k`. */
  ghost predicate CanFire(def: Definition, k: int) {
    && 0 <= k < |def.transitions|
    && IsFirstMatch(def.transitions, def.transitions[k].caption, def.transitions[k].fromState, k)
  }

  /** The moves that some request can make. */
  ghost function FiringEdges(def: Definition): set<(string, string)> {
    set k | 0 <= k < |def.transitions| && CanFire(def, k) ::
      (def.transitions[k].fromState, def.transitions[k].toState)
  }

  /** They are transitions, and all of them when no label is used twice in one state. */
  lemma FiringEdgesAreTransitions(def: Definition)
    ensures FiringEdges(def) <= AllEdges(def)
    ensures (forall i, j :: 0 <= i < j < |def.transitions| ==>
               || def.transitions[i].caption != def.transitions[j].caption
               || def.transitions[i].fromState != def.transitions[j].fromState)
            ==> FiringEdges(def) == AllEdges(def)
  {
    var ts := def.transitions;
    forall k | 0 <= k < |ts| && CanFire(def, k)
      ensures (ts[k].fromState, ts[k].toState) in AllEdges(def)
    {
      assert ts[k] in ts;
    }
    if forall i, j :: 0 <= i < j < |ts| ==> ts[i].caption != ts[j].caption || ts[i].fromState != ts[j].fromState {
      forall t | t in ts
        ensures (t.fromState, t.toState) in FiringEdges(def)
      {
        var k :| 0 <= k < |ts| && ts[k] == t;
        assert CanFire(def, k);
      }
    }
  }

  /** The states an instance has been in, oldest first. */
  ghost function Trail(def: Definition, inst: Instance): seq<string>
    requires |def.states| > 0
  {
    [def.states[0].id] + seq(|inst.history|, i requires 0 <= i < |inst.history| => inst.history[i].toState)
  }

  /** The history is a walk of the definition from its first state to the current one. */
  ghost predicate HistoryIsWalk(def: Definition, inst: Instance)
    requires |def.states| > 0
  {
    && WalkFromTo(FiringEdges(def), def.states[0].id, inst.current, Trail(def, inst))
    && forall i :: 0 <= i < |inst.history| ==> inst.history[i].fromState == Trail(def, inst)[i]
  }

  /** The transition behind a move. */
  lemma MoveOf(def: Definition, before: Instance, req: Request, after: Instance) returns (k: nat)
    requires Executes(def, before, req, Moved, after)
    ensures CanFire(def, k) && before.current == def.transitions[k].fromState
    ensures after.current == def.transitions[k].toState
    ensures after.history == before.history + [RowOf(def.transitions[k], req.user)]
  {
    k :| IsFirstMatch(def.transitions, req.caption, before.current, k) &&
         after.history == before.history + [RowOf(def.transitions[k], req.user)] &&
         after.current == def.transitions[k].toState;
  }

  lemma MoveKeepsHistory(def: Definition, before: Instance, k: nat, user: User, after: Instance)
    requires |def.states| > 0 && HistoryIsWalk(def, before)
    requires CanFire(def, k) && before.current == def.transitions[k].fromState
    requires after.current == def.transitions[k].toState
    requires after.history == before.history + [RowOf(def.transitions[k], user)]
    ensures HistoryIsWalk(def, after)
  {
    var t := def.transitions[k];
    assert (t.fromState, t.toState) in FiringEdges(def);
    assert Trail(def, after) == Trail(def, before) + [t.toState];
    WalkExtend(FiringEdges(def), Trail(def, before), t.toState);
  }

  lemma StepKeepsHistory(def: Definition, before: Instance, req: Request, after: Instance)
    requires |def.states| > 0
    requires HistoryIsWalk(def, before) && Leads(def, before, req, after)
    ensures HistoryIsWalk(def, after)
  {
    if after != before {
      var k := MoveOf(def, before, req, after);
      MoveKeepsHistory(def, before, k, req.user, after);
    }
  }

  /** Every instance of every run has a history that is a walk from the first state. */
  lemma {:induction false} RunHistoryIsWalk(def: Definition, reqs: seq<Request>, trace: seq<Instance>, n: nat)
    requires IsRun(def, reqs, trace) && n < |trace|
    ensures HistoryIsWalk(def, trace[n])
    decreases n
  {
    if n == 0 {
      assert Trail(def, trace[0]) == [def.states[0].id];
    } else {
      RunHistoryIsWalk(def, reqs, trace, n - 1);
      assert Follows(def, reqs, trace, n - 1);
      StepKeepsHistory(def, trace[n - 1], reqs[n - 1], trace[n]);
    }
  }

  // ---------------------------------------------------------------------------------------
  // How long runs can be

  ghost function StateIdSet(def: Definition): set<string> {
    set s | s in def.states :: s.id
  }

  lemma TrailStaysInside(def: Definition, inst: Instance)
    requires WellFormed(def) && HistoryIsWalk(def, inst)
    ensures forall v :: v in Trail(def, inst) ==> v in StateIdSet(def)
  {
    var trail := Trail(def, inst);
    forall v | v in trail
      ensures v in StateIdSet(def)
    {
      var i :| 0 <= i < |trail| && trail[i] == v;
      if i == 0 {
        assert def.states[0] in def.states;
      } else {
        assert (trail[i - 1], trail[i]) in FiringEdges(def);
        FiringEdgesAreTransitions(def);
        var t :| t in def.transitions && t.toState == v;
        assert KnowsState(def, t.toState);
      }
    }
  }

  /** A run that makes as many moves as there are states reaches a cycle. */
  lemma LongRunReachesCycle(def: Definition, reqs: seq<Request>, trace: seq<Instance>, n: nat)
    requires WellFormed(def) && IsRun(def, reqs, trace) && n < |trace|
    requires |trace[n].history| >= |StateIdSet(def)|
    ensures CycleReachableFrom(FiringEdges(def), def.states[0].id)
  {
    RunHistoryIsWalk(def, reqs, trace, n);
    TrailStaysInside(def, trace[n]);
    LongWalkReachesCycle(FiringEdges(def), Trail(def, trace[n]), StateIdSet(def));
  }

  /** With no cycle in a validated definition, a run makes at most |states| - 1 moves. */
  lemma AcyclicRunIsBounded(def: Definition, reqs: seq<Request>, trace: seq<Instance>, n: nat)
    requires WellFormed(def) && !HasClosedWalk(AllEdges(def))
    requires IsRun(def, reqs, trace) && n < |trace|
    ensures |trace[n].history| <= |StateIdSet(def)| - 1
  {
    FiringEdgesAreTransitions(def);
    SubgraphStaysAcyclic(AllEdges(def), FiringEdges(def));
    if |trace[n].history| >= |StateIdSet(def)| {
      LongRunReachesCycle(def, reqs, trace, n);
    }
  }

  /** A cycle that a state reaches leaves the walks from it unbounded. */
  lemma {:induction false} ReachableCycleAllowsLongWalks(edges: set<(string, string)>, root: string, n: nat)
    requires CycleReachableFrom(edges, root)
    ensures exists p :: IsWalk(edges, p) && p[0] == root && |p| == n + 1
    decreases n
  {
    if n == 0 {
      assert IsWalk(edges, [root]);
    } else {
      var p, c :| ClosedWalk(edges, c) && WalkFromTo(edges, root, c[0], p);
      var next := if |p| > 1 then p[1] else c[1];
      assert (root, next) in edges;
      NextReachesCycle(edges, root, p, c);
      ReachableCycleAllowsLongWalks(edges, next, n - 1);
      var q :| IsWalk(edges, q) && q[0] == next && |q| == n;
      assert IsWalk(edges, [root] + q);
    }
  }

  lemma NextReachesCycle(edges: set<(string, string)>, root: string, p: seq<string>, c: seq<string>)
    requires ClosedWalk(edges, c) && WalkFromTo(edges, root, c[0], p)
    ensures CycleReachableFrom(edges, if |p| > 1 then p[1] else c[1])
  {
    if |p| > 1 {
      assert WalkFromTo(edges, p[1], c[0], p[1..]);
    } else {
      assert WalkFromTo(edges, c[1], c[0], c[1..]);
    }
  }

  /** A request by somebody with the right roles, when all conditions hold and all actions succeed. */
  ghost function WillingRequest(t: Transition): Request {
    Request(t.caption, User("", t.allowedRoles), _ => true, _ => true)
  }

  lemma TransitionFires(def: Definition, inst: Instance, k: int) returns (after: Instance)
    requires WellFormed(def) && CanFire(def, k) && inst.current == def.transitions[k].fromState
    ensures Executes(def, inst, WillingRequest(def.transitions[k]), Moved, after)
    ensures after.current == def.transitions[k].toState
    ensures after.history == inst.history + [RowOf(def.transitions[k], WillingRequest(def.transitions[k]).user)]
  {
    var t := def.transitions[k];
    var req := WillingRequest(t);
    assert Authorized(t, req.user) by {
      assert t.allowedRoles != [] ==> t.allowedRoles[0] in req.user.roles;
    }
    assert t in def.transitions && KnowsState(def, t.toState);
    var s :| s in def.states && s.id == t.toState;
    after := Instance(t.toState, s.caption, inst.history + [RowOf(t, req.user)]);
    forall j | IsFirstMatch(def.transitions, req.caption, inst.current, j)
      ensures j == k
    {
      FirstMatchIsUnique(def.transitions, req.caption, inst.current, j, k);
    }
  }

  lemma RunExtends(
    def: Definition, reqs: seq<Request>, trace: seq<Instance>, req: Request, outcome: Outcome, after: Instance)
    requires IsRun(def, reqs, trace) && Executes(def, trace[|reqs|], req, outcome, after)
    ensures IsRun(def, reqs + [req], trace + [after])
  {
    var reqs', trace' := reqs + [req], trace + [after];
    assert trace'[0] == trace[0];
    forall i | 0 <= i < |reqs'|
      ensures Follows(def, reqs', trace', i)
    {
      assert i < |reqs| ==> Follows(def, reqs, trace, i);
    }
  }

  /** Every walk of firing transitions from the first state is the trail of some run. */
  lemma {:induction false} WalkCanBeRun(def: Definition, p: seq<string>)
    returns (reqs: seq<Request>, trace: seq<Instance>)
    requires WellFormed(def) && IsWalk(FiringEdges(def), p) && p[0] == def.states[0].id
    ensures IsRun(def, reqs, trace) && |reqs| == |p| - 1
    ensures Trail(def, trace[|reqs|]) == p && trace[|reqs|].current == p[|p| - 1]
    decreases |p|
  {
    if |p| == 1 {
      reqs, trace := [], [Instance(def.states[0].id, def.states[0].caption, [])];
    } else {
      var n := |p| - 1;
      reqs, trace := WalkCanBeRun(def, p[..n]);
      assert (p[n - 1], p[n]) in FiringEdges(def);
      var k :| 0 <= k < |def.transitions| && CanFire(def, k)
               && (def.transitions[k].fromState, def.transitions[k].toState) == (p[n - 1], p[n]);
      var after := TransitionFires(def, trace[|reqs|], k);
      RunExtends(def, reqs, trace, WillingRequest(def.transitions[k]), Moved, after);
      assert Trail(def, after) == Trail(def, trace[|reqs|]) + [p[n]];
      reqs, trace := reqs + [WillingRequest(def.transitions[k])], trace + [after];
    }
  }

  /** Some run makes exactly `n` moves. */
  ghost predicate SomeRunMakes(def: Definition, n: nat) {
    exists reqs: seq<Request>, trace: seq<Instance> :: IsRun(def, reqs, trace) && |trace[|reqs|].history| == n
  }

  /** Runs are unbounded exactly when firing transitions lead from the first state to a cycle. */
  lemma RunsAreUnboundedIff(def: Definition)
    requires WellFormed(def)
    ensures (forall n: nat :: SomeRunMakes(def, n)) <==> CycleReachableFrom(FiringEdges(def), def.states[0].id)
  {
    if CycleReachableFrom(FiringEdges(def), def.states[0].id) {
      forall n: nat
        ensures SomeRunMakes(def, n)
      {
        ReachableCycleAllowsLongWalks(FiringEdges(def), def.states[0].id, n);
        var p :| IsWalk(FiringEdges(def), p) && p[0] == def.states[0].id && |p| == n + 1;
        var reqs, trace := WalkCanBeRun(def, p);
        assert |trace[|reqs|].history| == |Trail(def, trace[|reqs|])| - 1;
      }
    }
    if forall n: nat :: SomeRunMakes(def, n) {
      assert SomeRunMakes(def, |StateIdSet(def)|);
      var reqs: seq<Request>, trace: seq<Instance> :|
        IsRun(def, reqs, trace) && |trace[|reqs|].history| == |StateIdSet(def)|;
      LongRunReachesCycle(def, reqs, trace, |reqs|);
    }
  }
}
