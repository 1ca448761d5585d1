/** When a check-triggered rollback keeps every released task on top of succeeded dependencies. */
module RollbackSafety {
  import opened Graph
  import opened Scheduler
  import opened CheckRollback
  import opened CheckRollbackBound
  import R = SchedulerRuns
  import Rollback = CheckRollbackBound

  /** The recovery of this group goes through: the budget of its first check is not used up. */
  predicate WithinBudget(flow: Flow, r: Record, f: Failures)
    requires f.checks != [] && f.checks[0] in flow.onFail
  {
    Counted(r, GroupOf(flow, f.checks[0])).count <= MaxCount(flow.onFail[f.checks[0]])
  }

  function SentBack(st: States, f: Failures): States {
    AllBlocked(st, f.checks)[f.target := Pending]
  }

  lemma RecoveredStates(flow: Flow, r: Record, f: Failures)
    requires f.checks != [] && f.checks[0] in flow.onFail
    ensures RecoverTarget(flow, r, f).states == if WithinBudget(flow, r, f) then SentBack(r.states, f) else r.states
  {
    hide Counted, MaxCount, GroupOf;
  }

  ghost predicate AllFailed(st: States, checks: seq<TaskId>) {
    forall c :: c in checks ==> c in st && st[c] == Failed
  }

  /** The target may start again, and no other task released on top of it stays released. */
  ghost predicate NothingAbove(g: Dag, st: States, f: Failures) {
    && (forall d :: d in Deps(g, f.target) ==> d != f.target && Success(StateOf(st, d)))
    && (forall u :: u in st && u != f.target && u !in f.checks && f.target in Deps(g, u) ==> !Released(st[u]))
  }

  lemma SentBackSafe(g: Dag, st: States, f: Failures)
    requires R.Safe(g, st) && f.target in st && AllFailed(st, f.checks)
    ensures R.Safe(g, SentBack(st, f)) <==> NothingAbove(g, st, f)
  {
    var next := SentBack(st, f);
    if NothingAbove(g, st, f) {
      forall u ensures R.SafeAt(g, next, u) { assert R.SafeAt(g, st, u); }
    }
    if R.Safe(g, next) {
      assert R.SafeAt(g, next, f.target);
      forall u | u in st && u != f.target && u !in f.checks && f.target in Deps(g, u) ensures !Released(st[u]) {
        assert R.SafeAt(g, next, u);
      }
    }
  }

  /**
   Sending a task back keeps "no task released over an unfinished dependency" exactly when the budget is used up, or the
   task's own dependencies have succeeded and nothing but the failed checks has been released on top of it.
   */
  lemma RollbackSafeExactly(flow: Flow, r: Record, f: Failures)
    requires R.Safe(flow.dag, r.states) && f.target in r.states && AllFailed(r.states, f.checks)
    requires f.checks != [] && f.checks[0] in flow.onFail
    ensures R.Safe(flow.dag, RecoverTarget(flow, r, f).states) <==>
      !WithinBudget(flow, r, f) || NothingAbove(flow.dag, r.states, f)
  {
    hide R.Safe, SentBack, NothingAbove, WithinBudget, RecoverTarget;
    RecoveredStates(flow, r, f);
    SentBackSafe(flow.dag, r.states, f);
  }

  /**
   A check that falls back past its own step: the earlier step runs again while its finished check and what follows
   stay.
   */
  lemma ForeignFallbackBreaksSafety(a: TaskId, b: TaskId, c: TaskId)
    requires a != b && a != c && b != c && a != [] && c != []
    ensures var flow := Flow(map[a := [], b := [a], c := [b]], map[c := OnFail(a, 1)], map[]);
      var r := Record(map[a := Done, b := Done, c := Failed], map[a := 1, b := 1, c := 1], map[]);
      && R.Safe(flow.dag, r.states)
      && Recovered(flow, r, [a, b, c]).states == map[a := Pending, b := Done, c := Blocked]
      && !R.Safe(flow.dag, Recovered(flow, r, [a, b, c]).states)
  {
    var flow := Flow(map[a := [], b := [a], c := [b]], map[c := OnFail(a, 1)], map[]);
    var r := Record(map[a := Done, b := Done, c := Failed], map[a := 1, b := 1, c := 1], map[]);
    var f := Failures(a, [c]);
    TwoTasksBack(a, b, c);
    ByTargetSnoc(flow, r.states, [], a);
    ByTargetSnoc(flow, r.states, [a], b);
    ByTargetSnoc(flow, r.states, [a, b], c);
    hide R.Safe, RecoverTarget, SentBack, WithinBudget;
    assert [] + [a] == [a] && [a] + [b] == [a, b] && [a, b] + [c] == [a, b, c];
    assert ByTarget(flow, r.states, [a, b, c]) == [f];
    OneGroup(flow, r, f);
    RecoveredStates(flow, r, f);
  }

  lemma TwoTasksBack(a: TaskId, b: TaskId, c: TaskId)
    requires a != b && a != c && b != c && a != [] && c != []
    ensures var flow := Flow(map[a := [], b := [a], c := [b]], map[c := OnFail(a, 1)], map[]);
      var r := Record(map[a := Done, b := Done, c := Failed], map[a := 1, b := 1, c := 1], map[]);
      var f := Failures(a, [c]);
      && R.Safe(flow.dag, r.states) && WithinBudget(flow, r, f)
      && SentBack(r.states, f) == map[a := Pending, b := Done, c := Blocked] && !R.Safe(flow.dag, SentBack(r.states, f))
  {
    var g: Dag := map[a := [], b := [a], c := [b]];
    var next := SentBack(map[a := Done, b := Done, c := Failed], Failures(a, [c]));
    assert next == map[a := Pending, b := Done, c := Blocked];
    assert Deps(g, b) == [a] && a in Deps(g, b) && !Success(StateOf(next, a));
    assert !R.SafeAt(g, next, b);
  }

  lemma OneGroup(flow: Flow, r: Record, f: Failures)
    requires f.checks != [] && f.checks[0] in flow.onFail
    ensures Recoverable(flow, [f]) && RecoverAll(flow, r, [f]) == RecoverTarget(flow, r, f)
  {
    hide RecoverTarget;
    assert [f][..0] == [];
  }

  lemma ByTargetSnoc(flow: Flow, st: States, order: seq<TaskId>, t: TaskId)
    ensures ByTarget(flow, st, order + [t]) ==
      if FailedCheck(flow, st, t) then Joined(ByTarget(flow, st, order), flow.onFail[t].target, t)
      else ByTarget(flow, st, order)
  {
    assert (order + [t])[..|order|] == order;
  }

  // ---- flows in which it always does ----

  /** Each check depends on the task it sends back, and no other task does. */
  ghost predicate Guarded(flow: Flow) {
    forall c :: c in flow.onFail && c in flow.dag && flow.onFail[c].target in flow.dag ==>
      && flow.onFail[c].target in Deps(flow.dag, c)
      && forall u :: u in flow.dag && flow.onFail[c].target in Deps(flow.dag, u) ==> u == c
  }

  /** Where the recovery of the first groups leaves the others: their targets finished, their checks failed. */
  ghost predicate Untouched(st: States, f: Failures) {
    f.target in st && Success(st[f.target]) && AllFailed(st, f.checks)
  }

  lemma CheckOverFinished(flow: Flow, st: States, f: Failures)
    requires R.Safe(flow.dag, st) && st.Keys == flow.dag.Keys && Guarded(flow)
    requires f.checks != [] && forall c :: c in f.checks ==> FailsTo(flow, st, c, f.target)
    ensures Untouched(st, f)
    ensures forall u :: u in flow.dag && f.target in Deps(flow.dag, u) ==> u in f.checks
  {
    var c := f.checks[0];
    assert c in f.checks && FailsTo(flow, st, c, f.target);
    assert f.target in Deps(flow.dag, c);
    assert R.SafeAt(flow.dag, st, c);
  }

  lemma GuardedSafe(flow: Flow, st: States, f: Failures)
    requires R.Safe(flow.dag, st) && st.Keys == flow.dag.Keys && Acyclic(flow.dag) && Untouched(st, f)
    requires forall u :: u in flow.dag && f.target in Deps(flow.dag, u) ==> u in f.checks
    ensures NothingAbove(flow.dag, st, f)
  {
    assert R.SafeAt(flow.dag, st, f.target);
    if f.target in Deps(flow.dag, f.target) {
      ReachesSelf(flow.dag, f.target);
      ReachesBack(flow.dag, f.target, f.target);
      assert false;
    }
  }

  /** Recovering one group leaves another with a different target untouched. */
  lemma OtherUntouched(flow: Flow, was: States, r: Record, f: Failures, other: Failures)
    requires f.checks != [] && f.checks[0] in flow.onFail && Untouched(was, f) && Untouched(was, other)
    requires forall c :: c in f.checks ==> FailsTo(flow, was, c, f.target)
    requires forall c :: c in other.checks ==> FailsTo(flow, was, c, other.target)
    requires f.target != other.target && Untouched(r.states, other)
    ensures Untouched(RecoverTarget(flow, r, f).states, other)
  {
    hide WithinBudget;
    RecoveredStates(flow, r, f);
    forall c | c in other.checks ensures c !in f.checks && c != f.target {}
    assert other.target !in f.checks;
    hide RecoverTarget;
  }

  lemma {:induction false} RecoverAllSafe(flow: Flow, r: Record, groups: seq<Failures>, n: nat)
    requires R.Safe(flow.dag, r.states) && r.states.Keys == flow.dag.Keys && Guarded(flow) && Acyclic(flow.dag)
    requires n <= |groups| && Recoverable(flow, groups[..n]) && Recoverable(flow, groups)
    requires forall k, c :: 0 <= k < |groups| && c in groups[k].checks ==> FailsTo(flow, r.states, c, groups[k].target)
    requires forall k, m :: 0 <= k < m < |groups| ==> groups[k].target != groups[m].target
    ensures var now := RecoverAll(flow, r, groups[..n]).states;
      && R.Safe(flow.dag, now) && now.Keys == flow.dag.Keys
      && forall k :: n <= k < |groups| ==> Untouched(now, groups[k])
  {
    hide R.Safe, Guarded, Acyclic, FailsTo, Untouched, RecoverTarget;
    forall k | 0 <= k < |groups| ensures Untouched(r.states, groups[k]) {
      CheckOverFinished(flow, r.states, groups[k]);
    }
    if n == 0 {
      assert groups[..0] == [];
    } else {
      var f := groups[n - 1];
      assert groups[..n][..n - 1] == groups[..n - 1];
      RecoverAllSafe(flow, r, groups, n - 1);
      var before := RecoverAll(flow, r, groups[..n - 1]);
      forall k | n <= k < |groups| ensures Untouched(RecoverTarget(flow, before, f).states, groups[k]) {
        OtherUntouched(flow, r.states, before, f, groups[k]);
      }
      CheckOverFinished(flow, r.states, f);
      GuardedSafe(flow, before.states, f);
      UntouchedFailed(before.states, f);
      RollbackSafeExactly(flow, before, f);
      RecoverKeepsKeys(flow, before, f);
    }
  }

  lemma UntouchedFailed(st: States, f: Failures)
    requires Untouched(st, f)
    ensures f.target in st && AllFailed(st, f.checks)
  {}

  lemma RecoverKeepsKeys(flow: Flow, r: Record, f: Failures)
    requires f.checks != [] && f.checks[0] in flow.onFail && f.target in r.states
    ensures RecoverTarget(flow, r, f).states.Keys == r.states.Keys
  {}

  lemma RecoveredSafe(flow: Flow, r: Record, order: seq<TaskId>)
    requires R.Safe(flow.dag, r.states) && r.states.Keys == flow.dag.Keys && Guarded(flow) && Acyclic(flow.dag)
    ensures R.Safe(flow.dag, Recovered(flow, r, order).states)
  {
    hide R.Safe, Guarded, Acyclic, RecoverAll, FailsTo;
    var groups := ByTarget(flow, r.states, order);
    ByTargetGrouped(flow, r.states, order);
    ByTargetRecoverable(flow, r.states, order);
    assert groups[..|groups|] == groups;
    forall k, c | 0 <= k < |groups| && c in groups[k].checks ensures FailsTo(flow, r.states, c, groups[k].target) {
      assert AllFailTo(flow, r.states, order, groups[k]);
    }
    RecoverAllSafe(flow, r, groups, |groups|);
  }

  /**
   In a flow where each check depends on the task it sends back and is the only one to do so, every run of passes with
   rollbacks, claims, completions, failures, rewinds and the rest keeps each released task over succeeded dependencies.
   */
  lemma {:induction false} EveryRollbackRunSafe(flow: Flow, steps: seq<Rollback.Step>)
    requires KnownRefs(flow.dag) && Acyclic(flow.dag) && Guarded(flow)
    ensures var r := Rollback.Run(flow, Fresh(flow), steps);
      R.Safe(flow.dag, r.states) && r.states.Keys == flow.dag.Keys
  {
    hide KnownRefs, Acyclic, R.Safe, Guarded, Rollback.Apply;
    if steps == [] {
      R.CreatedSafe(flow.dag);
    } else {
      EveryRollbackRunSafe(flow, steps[..|steps| - 1]);
      StepKeepsSafe(flow, Rollback.Run(flow, Fresh(flow), steps[..|steps| - 1]), steps[|steps| - 1]);
    }
  }

  lemma StepKeepsSafe(flow: Flow, r: Record, step: Rollback.Step)
    requires KnownRefs(flow.dag) && Acyclic(flow.dag) && Guarded(flow)
    requires R.Safe(flow.dag, r.states) && r.states.Keys == flow.dag.Keys
    ensures var next := Rollback.Apply(flow, r, step);
      R.Safe(flow.dag, next.states) && next.states.Keys == flow.dag.Keys
  {
    hide KnownRefs, Acyclic, R.Safe, Guarded, Recovered, Pass, R.Apply, Cleared;
    match step
    case Move(move) => R.StepSafe(flow.dag, r.states, move);
    case Process(order) =>
      if Listing(order, r.states) {
        RecoveredSafe(flow, r, order);
        RecoveredKeys(flow, r, order);
        R.PassSafe(flow.dag, Recovered(flow, r, order).states, order);
      }
  }
}
