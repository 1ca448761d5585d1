/** Every run of an instance releases a task only on top of dependencies that have all succeeded. */
module SchedulerRuns {
  import opened Graph
  import opened ImpactClosure
  import opened Scheduler
  import P = SchedulerProofs

  /** What moves an instance's tasks. */
  datatype Step =
    | Activate(order: seq<TaskId>)
    | Claim(task: TaskId)
    | HoldForReview(task: TaskId)
    | Approve(task: TaskId)
    | Complete(task: TaskId)
    | Fail(task: TaskId)
    | AskHuman(task: TaskId)
    | Requeue(task: TaskId)
    | Abort
    | RewindFrom(task: TaskId)
    | Invalidate(changed: set<TaskId>)

  function Move(st: States, t: TaskId, from: State, to: State): States {
    if t in st && st[t] == from then st[t := to] else st
  }

  ghost function Apply(g: Dag, st: States, step: Step): (r: States)
    ensures r.Keys == st.Keys
  {
    match step
    case Activate(order) => if forall t :: t in order ==> t in st then Pass(g, st, order) else st
    case Claim(t) => Move(st, t, Pending, InProgress)
    case HoldForReview(t) => Move(st, t, Pending, AwaitingReview)
    case Approve(t) => Move(st, t, AwaitingReview, Pending)
    case Complete(t) => Move(st, t, InProgress, Done)
    case Fail(t) => Move(st, t, InProgress, Failed)
    case AskHuman(t) => Move(st, t, InProgress, WaitingForHuman)
    case Requeue(t) => Move(st, t, InProgress, Pending)
    case Abort => map t | t in st :: if Terminal(st[t]) then st[t] else Aborted
    case RewindFrom(t) => if t in st then Rewound(g, st, t, true) else st
    case Invalidate(changed) => if changed <= st.Keys then Invalidated(g, st, changed) else st
  }

  ghost function Run(g: Dag, st: States, steps: seq<Step>): (r: States)
    ensures r.Keys == st.Keys
  {
    if steps == [] then st else Apply(g, Run(g, st, steps[..|steps| - 1]), steps[|steps| - 1])
  }

  ghost predicate SafeAt(g: Dag, st: States, t: TaskId) {
    t in st && Released(st[t]) ==> forall d :: d in Deps(g, t) ==> Success(StateOf(st, d))
  }

  /** No task is released while one of its dependencies has not succeeded. */
  ghost predicate Safe(g: Dag, st: States) {
    forall t :: SafeAt(g, st, t)
  }

  lemma CreatedSafe(g: Dag)
    ensures Safe(g, Created(g))
  {}

  // ---- moves of one task ----

  /** A task may take any state as long as it keeps its own dependencies' promise and takes none back. */
  lemma ChangeOneSafe(g: Dag, st: States, t: TaskId, to: State)
    requires Safe(g, st) && t in st
    requires Success(st[t]) ==> Success(to)
    requires Released(to) ==> Released(st[t]) || forall d :: d in Deps(g, t) ==> Success(StateOf(st, d))
    ensures Safe(g, st[t := to])
  {
    var next := st[t := to];
    forall u ensures SafeAt(g, next, u) {
      assert SafeAt(g, st, u);
    }
  }

  lemma MoveSafe(g: Dag, st: States, t: TaskId, from: State, to: State)
    requires Safe(g, st) && !Success(from) && (Released(from) || !Released(to))
    ensures Safe(g, Move(st, t, from, to))
  {
    if t in st && st[t] == from { ChangeOneSafe(g, st, t, to); }
  }

  // ---- passes ----

  lemma VisitSafe(g: Dag, st: States, t: TaskId)
    requires KnownRefs(g) && Safe(g, st) && t in st && st.Keys == g.Keys
    ensures Safe(g, Visit(g, st, t))
  {
    var to := Visit(g, st, t)[t];
    if Waiting(st[t]) && to == Pending {
      forall d | d in Deps(g, t) ensures Success(StateOf(st, d)) {
        assert RefsKnown(g, t);
        P.PendingNeedsSuccess(g, st, t, d);
      }
    }
    ChangeOneSafe(g, st, t, to);
  }

  lemma {:induction false} PassSafe(g: Dag, st: States, order: seq<TaskId>)
    requires KnownRefs(g) && Safe(g, st) && st.Keys == g.Keys && forall t :: t in order ==> t in st
    ensures Safe(g, Pass(g, st, order))
  {
    hide *;
    P.PassUnfolds(g, st, order);
    if order != [] {
      PassSafe(g, st, order[..|order| - 1]);
      VisitSafe(g, Pass(g, st, order[..|order| - 1]), order[|order| - 1]);
    }
  }

  // ---- resets ----

  /** Resetting a set closed under dependents is safe when the tasks marked ready really are. */
  lemma ResetSafe(g: Dag, st: States, impacted: set<TaskId>, ready: set<TaskId>)
    requires Safe(g, st) && st.Keys == g.Keys
    requires ClosedUnderDependents(g, impacted)
    requires forall t, d :: t in impacted && t in ready && d in Deps(g, t) ==> d !in impacted && Success(StateOf(st, d))
    ensures Safe(g, Reset(st, impacted, ready))
  {
    var next := Reset(st, impacted, ready);
    forall t ensures SafeAt(g, next, t) {
      assert SafeAt(g, st, t);
      if t in st && Released(next[t]) {
        forall d | d in Deps(g, t) ensures Success(StateOf(next, d)) {
          assert d !in impacted && Success(StateOf(st, d));
        }
      }
    }
  }

  lemma ImpactClosed(g: Dag, changed: set<TaskId>)
    ensures ClosedUnderDependents(g, Impact(g, changed))
  {
    forall v, d | v in g && d in g[v] && d in Impact(g, changed) ensures v in Impact(g, changed) {
      AffectedStep(g, changed, v, d);
    }
  }

  lemma RewindSafe(g: Dag, st: States, t: TaskId)
    requires Acyclic(g) && Safe(g, st) && st.Keys == g.Keys && t in g
    ensures Safe(g, Rewound(g, st, t, true))
  {
    ImpactClosed(g, {t});
    forall d | d in Deps(g, t) ensures d !in Impact(g, {t}) {
      if Affected(g, {t}, d) {
        assert Reaches(g, d, t);
        ReachesBack(g, t, d);
      }
    }
    ResetSafe(g, st, Impact(g, {t}), ReadyTarget(g, st, t));
  }

  lemma InvalidateSafe(g: Dag, st: States, changed: set<TaskId>)
    requires Safe(g, st) && st.Keys == g.Keys
    ensures Safe(g, Invalidated(g, st, changed))
  {
    ImpactClosed(g, changed);
    var impacted := Impact(g, changed);
    ResetSafe(g, st, impacted, set t | t in impacted && ReadyAgain(g, st, impacted, t));
  }

  /** Rewinding without the downstream is safe exactly when no direct dependent has been released. */
  lemma RewindAloneSafe(g: Dag, st: States, t: TaskId)
    requires Acyclic(g) && Safe(g, st) && st.Keys == g.Keys && t in g
    ensures Safe(g, Rewound(g, st, t, false)) <==>
      forall u :: u in g && t in g[u] ==> !Released(st[u])
  {
    var next := Rewound(g, st, t, false);
    assert t !in Deps(g, t) by {
      if t in Deps(g, t) { ReachesSelf(g, t); ReachesBack(g, t, t); }
    }
    if u :| u in g && t in g[u] && Released(st[u]) {
      assert t in Deps(g, u) && !Success(StateOf(next, t));
      assert u != t && next[u] == st[u];
      assert !SafeAt(g, next, u);
    } else {
      forall u ensures SafeAt(g, next, u) { assert SafeAt(g, st, u); }
    }
  }

  /** A finished task whose upstream is rewound alone: released although its dependency waits to run again. */
  lemma RewindAloneBreaksSafety(a: TaskId, b: TaskId)
    requires a != b
    ensures var g, st := map[a := [], b := [a]], map[a := Done, b := Done];
      Safe(g, st) && !Safe(g, Rewound(g, st, a, false))
  {
    var g: Dag, st := map[a := [], b := [a]], map[a := Done, b := Done];
    assert Deps(g, a) == [] && Deps(g, b) == [a];
    var next := Rewound(g, st, a, false);
    assert a in Deps(g, b) && !Success(StateOf(next, a));
    assert b in next && next[b] == Done;
    assert !SafeAt(g, next, b);
  }

  // ---- resets, in literal states ----

  /**
   A rewind makes its task PENDING if all its dependencies are DONE or SUCCEEDED and BLOCKED otherwise; what is
   downstream of it becomes BLOCKED if asked for; nothing else changes.
   */
  lemma RewindAnswers(g: Dag, st: States, t: TaskId, resetDownstream: bool)
    requires st.Keys == g.Keys && t in st
    ensures var after := Rewound(g, st, t, resetDownstream);
      && after.Keys == st.Keys
      && (after[t] ==
        if forall d :: d in Deps(g, t) ==> d in st && st[d] in {Done, Succeeded} then Pending else Blocked)
      && forall u :: u in st && u != t ==>
        after[u] == if resetDownstream && Reaches(g, u, t) then Blocked else st[u]
  {
    ReachesSelf(g, t);
    hide Reaches;
  }

  /**
   Invalidating tasks resets them and everything downstream: a reset task is PENDING if each of its dependencies is DONE
   and not reset itself, and BLOCKED otherwise; nothing else changes.
   */
  lemma InvalidateAnswers(g: Dag, st: States, changed: set<TaskId>)
    requires st.Keys == g.Keys
    ensures var after := Invalidated(g, st, changed);
      && after.Keys == st.Keys
      && forall u :: u in st ==>
        after[u] ==
          if !(exists c :: c in changed && Reaches(g, u, c)) then st[u]
          else if forall d :: d in Deps(g, u) ==>
            d in st && st[d] == Done && !(exists c :: c in changed && Reaches(g, d, c)) then Pending
          else Blocked
  {
    hide Reaches;
  }

  // ---- runs ----

  lemma StepSafe(g: Dag, st: States, step: Step)
    requires KnownRefs(g) && Acyclic(g) && st.Keys == g.Keys && Safe(g, st)
    ensures Safe(g, Apply(g, st, step))
  {
    hide Pass, Rewound, Invalidated, KnownRefs, Acyclic;
    match step
    case Activate(order) => if forall t :: t in order ==> t in st { PassSafe(g, st, order); }
    case Claim(t) => MoveSafe(g, st, t, Pending, InProgress);
    case HoldForReview(t) => MoveSafe(g, st, t, Pending, AwaitingReview);
    case Approve(t) => MoveSafe(g, st, t, AwaitingReview, Pending);
    case Complete(t) => MoveSafe(g, st, t, InProgress, Done);
    case Fail(t) => MoveSafe(g, st, t, InProgress, Failed);
    case AskHuman(t) => MoveSafe(g, st, t, InProgress, WaitingForHuman);
    case Requeue(t) => MoveSafe(g, st, t, InProgress, Pending);
    case Abort =>
      forall t ensures SafeAt(g, Apply(g, st, Abort), t) { assert SafeAt(g, st, t); }
    case RewindFrom(t) => if t in st { RewindSafe(g, st, t); }
    case Invalidate(changed) => if changed <= st.Keys { InvalidateSafe(g, st, changed); }
  }

  /** Whatever happens after an instance is created, no task is ever released ahead of a dependency. */
  lemma {:induction false} EveryRunSafe(g: Dag, steps: seq<Step>)
    requires KnownRefs(g) && Acyclic(g)
    ensures Safe(g, Run(g, Created(g), steps))
  {
    hide KnownRefs, Acyclic, Safe, Apply;
    if steps == [] {
      CreatedSafe(g);
    } else {
      EveryRunSafe(g, steps[..|steps| - 1]);
      StepSafe(g, Run(g, Created(g), steps[..|steps| - 1]), steps[|steps| - 1]);
    }
  }
}
