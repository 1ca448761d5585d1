/**
 Check-triggered rollback (aggregator._recover_failed_checks, _clear_spent_fail_budgets): a failed verification node
 sends the task it checks back to work, within a budget counted per round of that task.
 */
module CheckRollback {
  import opened Texts
  import opened Graph
  import opened Scheduler
  import opened KvStore

  datatype OnFail = OnFail(target: TaskId, maxFailCount: int)

  /** The definitions of an instance's tasks, as far as rollback reads them. */
  datatype Flow = Flow(dag: Dag, onFail: map<TaskId, OnFail>, failGroup: map<TaskId, TaskId>)

  /** fail_count and fail_round; a round is the attempt_count of the group's task, or nothing. */
  datatype Budget = Budget(count: nat, round: Option<nat>)

  /** What the store holds of a running instance. */
  datatype Record = Record(states: States, attempts: map<TaskId, nat>, budgets: map<TaskId, Budget>)

  function BudgetOf(r: Record, group: TaskId): Budget {
    if group in r.budgets then r.budgets[group] else Budget(0, None)
  }

  /** int(on_fail.get("max_fail_count") or 1) */
  function MaxCount(f: OnFail): int {
    if f.maxFailCount == 0 then 1 else f.maxFailCount
  }

  function GroupOf(flow: Flow, check: TaskId): TaskId {
    if check in flow.failGroup && flow.failGroup[check] != [] then flow.failGroup[check] else check
  }

  function Round(r: Record, group: TaskId): Option<nat> {
    if group in r.attempts then Some(r.attempts[group]) else None
  }

  // ---- failures by target ----

  /** The failed checks with one rollback target. */
  datatype Failures = Failures(target: TaskId, checks: seq<TaskId>)

  predicate FailsTo(flow: Flow, st: States, t: TaskId, target: TaskId) {
    && t in st && st[t] == Failed && t in flow.onFail && flow.onFail[t].target == target
    && target != [] && target in st
  }

  predicate FailedCheck(flow: Flow, st: States, t: TaskId) {
    t in flow.onFail && FailsTo(flow, st, t, flow.onFail[t].target)
  }

  /** failures_by_target.setdefault(target, []).append(check) */
  function Joined(groups: seq<Failures>, target: TaskId, check: TaskId): seq<Failures> {
    if groups == [] then [Failures(target, [check])]
    else if groups[0].target == target then [Failures(target, groups[0].checks + [check])] + groups[1..]
    else [groups[0]] + Joined(groups[1..], target, check)
  }

  function ByTarget(flow: Flow, st: States, order: seq<TaskId>): seq<Failures> {
    if order == [] then []
    else
      var groups, last := ByTarget(flow, st, order[..|order| - 1]), order[|order| - 1];
      if FailedCheck(flow, st, last) then Joined(groups, flow.onFail[last].target, last) else groups
  }

  // ---- one target ----

  /** The budget after this round's failure is counted, once per round. */
  function Counted(r: Record, group: TaskId): Budget {
    var b := BudgetOf(r, group);
    if b.round != Round(r, group) then Budget(b.count + 1, Round(r, group)) else b
  }

  function AllBlocked(st: States, checks: seq<TaskId>): States {
    map t | t in st :: if t in checks then Blocked else st[t]
  }

  function RecoverTarget(flow: Flow, r: Record, f: Failures): Record
    requires f.checks != [] && f.checks[0] in flow.onFail
  {
    var first := f.checks[0];
    var group := GroupOf(flow, first);
    var b := Counted(r, group);
    var budgets := if b == BudgetOf(r, group) then r.budgets else r.budgets[group := b];
    if b.count > MaxCount(flow.onFail[first]) then r.(budgets := budgets)
    else Record(AllBlocked(r.states, f.checks)[f.target := Pending], r.attempts, budgets)
  }

  predicate Recoverable(flow: Flow, groups: seq<Failures>) {
    forall k :: 0 <= k < |groups| ==> groups[k].checks != [] && groups[k].checks[0] in flow.onFail
  }

  function RecoverAll(flow: Flow, r: Record, groups: seq<Failures>): Record
    requires Recoverable(flow, groups)
  {
    if groups == [] then r
    else RecoverTarget(flow, RecoverAll(flow, r, groups[..|groups| - 1]), groups[|groups| - 1])
  }

  lemma {:induction false} JoinedRecoverable(flow: Flow, groups: seq<Failures>, target: TaskId, check: TaskId)
    requires Recoverable(flow, groups) && check in flow.onFail
    ensures Recoverable(flow, Joined(groups, target, check))
  {
    if groups != [] && groups[0].target != target {
      assert forall k :: 0 <= k < |groups[1..]| ==> groups[1..][k] == groups[k + 1];
      JoinedRecoverable(flow, groups[1..], target, check);
    }
  }

  lemma {:induction false} ByTargetRecoverable(flow: Flow, st: States, order: seq<TaskId>)
    ensures Recoverable(flow, ByTarget(flow, st, order))
  {
    if order != [] {
      var front := order[..|order| - 1];
      ByTargetRecoverable(flow, st, front);
      if FailedCheck(flow, st, order[|order| - 1]) {
        JoinedRecoverable(flow, ByTarget(flow, st, front), flow.onFail[order[|order| - 1]].target, order[|order| - 1]);
      }
    }
  }

  function Recovered(flow: Flow, r: Record, order: seq<TaskId>): Record {
    ByTargetRecoverable(flow, r.states, order);
    RecoverAll(flow, r, ByTarget(flow, r.states, order))
  }

  // ---- clearing, and the whole pass ----

  predicate Clears(flow: Flow, st: States, t: TaskId) {
    t in st && Success(st[t]) && t in flow.failGroup && Strip(flow.failGroup[t]) != []
  }

  function Cleared(flow: Flow, r: Record, order: seq<TaskId>): (c: Record)
    ensures c.states == r.states && c.attempts == r.attempts
  {
    if order == [] then r
    else
      var before, last := Cleared(flow, r, order[..|order| - 1]), order[|order| - 1];
      if Clears(flow, r.states, last) then before.(budgets := before.budgets - {Strip(flow.failGroup[last])})
      else before
  }

  lemma {:induction false} RecoverKeys(flow: Flow, r: Record, groups: seq<Failures>)
    requires Recoverable(flow, groups) && forall k :: 0 <= k < |groups| ==> groups[k].target in r.states
    ensures RecoverAll(flow, r, groups).states.Keys == r.states.Keys
  {
    if groups != [] {
      RecoverKeys(flow, r, groups[..|groups| - 1]);
    }
  }

  lemma {:induction false} JoinedTargets(groups: seq<Failures>, target: TaskId, check: TaskId, st: States)
    requires target in st && forall k :: 0 <= k < |groups| ==> groups[k].target in st
    ensures forall k :: 0 <= k < |Joined(groups, target, check)| ==> Joined(groups, target, check)[k].target in st
  {
    if groups != [] && groups[0].target != target {
      JoinedTargets(groups[1..], target, check, st);
    }
  }

  lemma {:induction false} ByTargetTargets(flow: Flow, st: States, order: seq<TaskId>)
    ensures forall k :: 0 <= k < |ByTarget(flow, st, order)| ==> ByTarget(flow, st, order)[k].target in st
  {
    if order != [] {
      var front, last := order[..|order| - 1], order[|order| - 1];
      ByTargetTargets(flow, st, front);
      if FailedCheck(flow, st, last) { JoinedTargets(ByTarget(flow, st, front), flow.onFail[last].target, last, st); }
    }
  }

  lemma RecoveredKeys(flow: Flow, r: Record, order: seq<TaskId>)
    ensures Recovered(flow, r, order).states.Keys == r.states.Keys
  {
    ByTargetRecoverable(flow, r.states, order);
    ByTargetTargets(flow, r.states, order);
    RecoverKeys(flow, r, ByTarget(flow, r.states, order));
  }

  /** _process_instance up to the verdict: recover, clear, activate. */
  function Processed(flow: Flow, r: Record, order: seq<TaskId>): Record
    requires forall t :: t in order ==> t in r.states
  {
    RecoveredKeys(flow, r, order);
    var cleared := Cleared(flow, Recovered(flow, r, order), order);
    cleared.(states := Pass(flow.dag, cleared.states, order))
  }

  // ---- the class ----

  class InstanceRecord {
    const flow: Flow
    var states: States
    var attempts: map<TaskId, nat>
    var budgets: map<TaskId, Budget>

    ghost function View(): Record
      reads this
    {
      Record(states, attempts, budgets)
    }

    constructor (flow: Flow)
      ensures this.flow == flow && View() == Fresh(flow)
    {
      this.flow := flow;
      states := Created(flow.dag);
      attempts := map t | t in flow.dag :: 0;
      budgets := map[];
    }

    method GroupFailures(order: seq<TaskId>) returns (groups: seq<Failures>)
      ensures groups == ByTarget(flow, states, order)
    {
      groups := [];
      for i := 0 to |order|
        invariant groups == ByTarget(flow, states, order[..i])
      {
        assert order[..i + 1][..i] == order[..i];
        if FailedCheck(flow, states, order[i]) {
          groups := Joined(groups, flow.onFail[order[i]].target, order[i]);
        }
      }
      assert order[..|order|] == order;
    }

    method BlockChecks(checks: seq<TaskId>)
      modifies this`states
      ensures states == AllBlocked(old(states), checks)
    {
      for i := 0 to |checks|
        invariant states == AllBlocked(old(states), checks[..i])
      {
        if checks[i] in states {
          states := states[checks[i] := Blocked];
        }
        assert checks[..i + 1] == checks[..i] + [checks[i]];
      }
      assert checks[..|checks|] == checks;
    }

    method Recover(f: Failures)
      requires f.checks != [] && f.checks[0] in flow.onFail
      modifies this
      ensures View() == RecoverTarget(flow, old(View()), f)
    {
      var first := f.checks[0];
      var group := GroupOf(flow, first);
      var round := if group in attempts then Some(attempts[group]) else None;
      var budget := if group in budgets then budgets[group] else Budget(0, None);
      if budget.round != round {
        budget := Budget(budget.count + 1, round);
        budgets := budgets[group := budget];
      }
      if budget.count <= MaxCount(flow.onFail[first]) {
        BlockChecks(f.checks);
        states := states[f.target := Pending];
      }
    }

    method RecoverFailedChecks(order: seq<TaskId>)
      modifies this
      ensures View() == Recovered(flow, old(View()), order)
    {
      var groups := GroupFailures(order);
      ByTargetRecoverable(flow, states, order);
      for i := 0 to |groups|
        invariant View() == RecoverAll(flow, old(View()), groups[..i])
      {
        assert groups[..i + 1][..i] == groups[..i];
        Recover(groups[i]);
      }
      assert groups[..|groups|] == groups;
    }

    method ClearSpentFailBudgets(order: seq<TaskId>)
      modifies this
      ensures View() == Cleared(flow, old(View()), order)
    {
      for i := 0 to |order|
        invariant View() == Cleared(flow, old(View()), order[..i])
      {
        assert order[..i + 1][..i] == order[..i];
        if Clears(flow, states, order[i]) {
          budgets := budgets - {Strip(flow.failGroup[order[i]])};
        }
      }
      assert order[..|order|] == order;
    }
  }

  /** JobFlowService.create_instance. */
  function Fresh(flow: Flow): Record {
    Record(Created(flow.dag), map t | t in flow.dag :: 0, map[])
  }
}
