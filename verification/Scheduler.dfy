/** How an instance's tasks move: the activation pass of the aggregator, its verdict, rewinds and invalidations. */
module Scheduler {
  import opened Sequences
  import opened Texts
  import opened Graph
  import opened ImpactClosure

  datatype State =
    | Queued | Blocked | Pending | InProgress | AwaitingReview | WaitingForHuman
    | Done | Succeeded | Failed | Aborted | SkippedUpstreamFailed

  type States = map<TaskId, State>

  predicate Success(s: State) { s == Done || s == Succeeded }

  predicate Failure(s: State) { s == Failed || s == Aborted || s == SkippedUpstreamFailed }

  predicate Terminal(s: State) { Success(s) || Failure(s) }

  /** The states the activation pass looks at. */
  predicate Waiting(s: State) { s == Queued || s == Blocked || s == SkippedUpstreamFailed }

  /** A task that has been released for execution at some point since its last reset. */
  predicate Released(s: State) {
    s in {Pending, InProgress, AwaitingReview, WaitingForHuman, Done, Succeeded, Failed}
  }

  function StateOf(st: States, t: TaskId): State {
    if t in st then st[t] else Queued
  }

  function Blockers(g: Dag, t: TaskId): seq<TaskId> {
    NamedOnly(Deps(g, t))
  }

  function DepStates(st: States, blockers: seq<TaskId>): seq<State> {
    seq(|blockers|, i requires 0 <= i < |blockers| => StateOf(st, blockers[i]))
  }

  /** What a visit makes of a task in state cur whose dependencies are in states ds. */
  function Resolve(cur: State, ds: seq<State>): State {
    if !Waiting(cur) then cur
    else if exists s :: s in ds && Failure(s) then SkippedUpstreamFailed
    else if forall s :: s in ds ==> Success(s) then
      if cur == SkippedUpstreamFailed && ds == [] then cur else Pending
    else if cur == SkippedUpstreamFailed then Blocked
    else cur
  }

  function Visit(g: Dag, st: States, t: TaskId): States
    requires t in st
  {
    st[t := Resolve(st[t], DepStates(st, Blockers(g, t)))]
  }

  /** One activation pass over the tasks in dict order, updating in place. */
  function Pass(g: Dag, st: States, order: seq<TaskId>): (r: States)
    requires forall t :: t in order ==> t in st
    ensures r.Keys == st.Keys
  {
    if order == [] then st
    else
      var last := order[|order| - 1];
      assert last in order;
      Visit(g, Pass(g, st, order[..|order| - 1]), last)
  }

  ghost predicate Listing(order: seq<TaskId>, st: States) {
    (forall t :: t in order <==> t in st) && Distinct(order)
  }

  function Verdict(st: States): (v: State)
    ensures v in {Queued, Failed, Succeeded}
  {
    if st == map[] || exists t :: t in st && !Terminal(st[t]) then Queued  // not finished yet
    else if exists t :: t in st && Failure(st[t]) then Failed
    else Succeeded
  }

  // ---- the class ----

  class Instance {
    const deps: Dag
    var states: States

    /** JobFlowService.create_instance: the loop over the template's tasks. */
    constructor (deps: Dag, tasks: seq<TaskId>)
      requires forall t :: t in tasks <==> t in deps
      ensures this.deps == deps && states.Keys == deps.Keys
      ensures forall t :: t in deps ==> states[t] == if deps[t] == [] then Pending else Blocked
      ensures states == Created(deps)
    {
      this.deps := deps;
      states := map[];
      new;
      for i := 0 to |tasks|
        invariant forall t :: t in states <==> t in tasks[..i]
        invariant forall t :: t in states ==> states[t] == if deps[t] == [] then Pending else Blocked
      {
        var taskStatus := if deps[tasks[i]] == [] then Pending else Blocked;
        states := states[tasks[i] := taskStatus];
      }
      assert tasks[..|tasks|] == tasks;
    }

    method ReadDependencies(t: TaskId) returns (depStates: seq<State>, failed: bool)
      ensures depStates == DepStates(states, Blockers(deps, t))
      ensures failed <==> exists s :: s in depStates && Failure(s)
    {
      var blockers := Blockers(deps, t);
      depStates, failed := [], false;
      for i := 0 to |blockers|
        invariant depStates == DepStates(states, blockers)[..i]
        invariant failed <==> exists s :: s in depStates && Failure(s)
      {
        var depState := StateOf(states, blockers[i]);
        depStates := depStates + [depState];
        if Failure(depState) {
          failed := true;
        }
      }
    }

    /** The body of the activation loop. */
    method VisitTask(t: TaskId)
      requires t in states
      modifies this
      ensures states == Visit(deps, old(states), t)
    {
      var cur := states[t];
      if Waiting(cur) {
        var depStates, failed := ReadDependencies(t);
        if failed {
          if cur != SkippedUpstreamFailed {
            states := states[t := SkippedUpstreamFailed];
          }
        } else if forall s :: s in depStates ==> Success(s) {
          if cur == SkippedUpstreamFailed && depStates == [] {
            // no dependency explains the skip: leave it alone
          } else {
            states := states[t := Pending];
          }
        } else if cur == SkippedUpstreamFailed {
          states := states[t := Blocked];
        }
      }
    }

    method ActivationPass(order: seq<TaskId>)
      requires forall t :: t in order ==> t in states
      modifies this
      ensures states == Pass(deps, old(states), order)
    {
      for i := 0 to |order|
        invariant forall t :: t in order ==> t in old(states)
        invariant forall t :: t in order[..i] ==> t in old(states)
        invariant states == Pass(deps, old(states), order[..i])
      {
        var t := order[i];
        assert order[..i + 1][..i] == order[..i];
        assert forall x :: x in order[..i + 1] ==> x in order;
        VisitTask(t);
      }
      assert order[..|order|] == order;
    }

    method ResetTasks(impacted: set<TaskId>, ready: set<TaskId>)
      requires impacted <= states.Keys
      modifies this
      ensures states == Reset(old(states), impacted, ready)
    {
      hide Reset;
      var todo := SortedSet(impacted);
      ghost var done := {};
      ResetNone(states, ready);
      for i := 0 to |todo|
        invariant forall t :: t in done <==> t in todo[..i]
        invariant states == Reset(old(states), done, ready)
      {
        ResetNext(old(states), done, ready, todo[i]);
        states := states[todo[i] := if todo[i] in ready then Pending else Blocked];
        done := done + {todo[i]};
      }
      assert done == impacted;
    }

    /** job_flows.rewind_task: the target becomes runnable, its downstream closure waits again. */
    method Rewind(target: TaskId, order: seq<TaskId>, resetDownstream: bool)
      requires Listing(order, states) && states.Keys == deps.Keys && target in deps
      modifies this
      ensures states == Rewound(deps, old(states), target, resetDownstream)
    {
      var impacted := {target};
      if resetDownstream {
        var unknown, closure := AffectedDownstreamClosure(deps, order, {target});
        impacted := closure;
        ImpactInGraph(deps, {target}, impacted);
      }
      ResetTasks(impacted, ReadyTarget(deps, states, target));
    }

    /** incremental.invalidate_impacted_tasks. */
    method InvalidateImpacted(changed: set<TaskId>, order: seq<TaskId>)
      requires Listing(order, states) && states.Keys == deps.Keys && changed <= deps.Keys
      modifies this
      ensures states == Invalidated(deps, old(states), changed)
    {
      var unknown, impacted := AffectedDownstreamClosure(deps, order, changed);
      ImpactInGraph(deps, changed, impacted);
      ResetTasks(impacted, set t | t in impacted && ReadyAgain(deps, states, impacted, t));
    }
  }

  lemma ResetNone(st: States, ready: set<TaskId>)
    ensures Reset(st, {}, ready) == st
  {}

  lemma ResetNext(st: States, done: set<TaskId>, ready: set<TaskId>, t: TaskId)
    requires t in st
    ensures Reset(st, done + {t}, ready) == Reset(st, done, ready)[t := if t in ready then Pending else Blocked]
  {}

  lemma ImpactInGraph(g: Dag, changed: set<TaskId>, s: set<TaskId>)
    requires changed <= g.Keys && IsImpact(g, changed, s)
    ensures s == Impact(g, changed)
  {
    forall x | x in s ensures x in g {
      var c :| c in changed && Reaches(g, x, c);
      var p :| PathBetween(g, p, x, c);
      if |p| > 1 { assert p[1] in Deps(g, p[0]); }
    }
  }

  function Created(g: Dag): States {
    map t | t in g :: if g[t] == [] then Pending else Blocked
  }

  ghost function Impact(g: Dag, changed: set<TaskId>): set<TaskId> {
    set t | t in g && Affected(g, changed, t)
  }

  /** The reset tasks run again when they are ready and wait otherwise. */
  function Reset(st: States, impacted: set<TaskId>, ready: set<TaskId>): States {
    map t | t in st :: if t !in impacted then st[t] else if t in ready then Pending else Blocked
  }

  function ReadyTarget(g: Dag, st: States, target: TaskId): set<TaskId> {
    if forall d :: d in Deps(g, target) ==> Success(StateOf(st, d)) then {target} else {}
  }

  ghost function Rewound(g: Dag, st: States, target: TaskId, resetDownstream: bool): States {
    Reset(st, if resetDownstream then Impact(g, {target}) else {target}, ReadyTarget(g, st, target))
  }

  predicate ReadyAgain(g: Dag, st: States, impacted: set<TaskId>, t: TaskId) {
    forall d :: d in Deps(g, t) ==> d !in impacted && StateOf(st, d) == Done
  }

  ghost function Invalidated(g: Dag, st: States, changed: set<TaskId>): States {
    var impacted := Impact(g, changed);
    Reset(st, impacted, set t | t in impacted && ReadyAgain(g, st, impacted, t))
  }
}
