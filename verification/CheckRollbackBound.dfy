/**
 Check-triggered rollback ends: between two passes of a check that sends its own group back, at most max_fail_count
 rollbacks, because each new round of the group's task has a higher attempt_count.
 */
module CheckRollbackBound {
  import opened Texts
  import opened Graph
  import opened KvStore
  import opened Scheduler
  import opened CheckRollback
  import R = SchedulerRuns

  /** An aggregator pass, or any other move of the instance's tasks but an operator's retry. */
  datatype Step = Process(order: seq<TaskId>) | Move(move: R.Step)

  ghost function Apply(flow: Flow, r: Record, step: Step): Record {
    match step
    case Process(order) => if Listing(order, r.states) then Processed(flow, r, order) else r
    case Move(move) =>
      if move.Activate? then r
      else r.(states := R.Apply(flow.dag, r.states, move),
              attempts := if Claims(r, move) then r.attempts[move.task := r.attempts[move.task] + 1] else r.attempts)
  }

  /** A successful claim counts an attempt. */
  predicate Claims(r: Record, move: R.Step) {
    move.Claim? && move.task in r.states && r.states[move.task] == Pending && move.task in r.attempts
  }

  ghost function Run(flow: Flow, r: Record, steps: seq<Step>): Record {
    if steps == [] then r else Apply(flow, Run(flow, r, steps[..|steps| - 1]), steps[|steps| - 1])
  }

  /** This pass sends the target of check c back to work. */
  ghost predicate RollsBack(flow: Flow, r: Record, step: Step, c: TaskId) {
    && step.Process? && Listing(step.order, r.states)
    && c in r.states && r.states[c] == Failed && StateOf(Recovered(flow, r, step.order).states, c) == Blocked
  }

  predicate ChecksOut(r: Record, step: Step, c: TaskId) {
    step == Move(R.Complete(c)) && c in r.states && r.states[c] == InProgress
  }

  /** Rollbacks of c since it last passed. */
  ghost function Rollbacks(flow: Flow, r: Record, steps: seq<Step>, c: TaskId): nat {
    if steps == [] then 0
    else
      var front, last := steps[..|steps| - 1], steps[|steps| - 1];
      var before := Run(flow, r, front);
      if ChecksOut(before, last, c) then 0
      else Rollbacks(flow, r, front, c) + if RollsBack(flow, before, last, c) then 1 else 0
  }

  /**
   c is the only check of task g: it sends back g itself, counts in g's budget, and nothing else does either or sends c
   back.
   */
  ghost predicate SoleCheck(flow: Flow, g: TaskId, c: TaskId) {
    && g in flow.dag && c in flow.dag && g != c && g != []
    && c in flow.onFail && flow.onFail[c].target == g && c in flow.failGroup && flow.failGroup[c] == g
    && (forall t :: t in flow.onFail && t != c ==>
      flow.onFail[t].target != g && flow.onFail[t].target != c && GroupOf(flow, t) != g)
    && (forall t :: t in flow.failGroup && t != c ==> Strip(flow.failGroup[t]) != g)
  }

  // ---- what recovering does to c and g ----

  ghost predicate AllFailTo(flow: Flow, st: States, seen: seq<TaskId>, f: Failures) {
    forall x :: x in f.checks ==> x in seen && FailsTo(flow, st, x, f.target)
  }

  /** The recovery groups, as the loop builds them from the tasks seen so far. */
  ghost predicate Grouped(flow: Flow, st: States, seen: seq<TaskId>, groups: seq<Failures>) {
    && Recoverable(flow, groups)
    && (forall k :: 0 <= k < |groups| ==> AllFailTo(flow, st, seen, groups[k]))
    && (forall k, m :: 0 <= k < m < |groups| ==> groups[k].target != groups[m].target)
  }

  ghost predicate HasTarget(groups: seq<Failures>, target: TaskId) {
    exists k :: 0 <= k < |groups| && groups[k].target == target
  }

  lemma {:induction false} JoinedTargetsExactly(groups: seq<Failures>, target: TaskId, check: TaskId, x: TaskId)
    ensures HasTarget(Joined(groups, target, check), x) <==> HasTarget(groups, x) || x == target
  {
    var all := Joined(groups, target, check);
    if groups == [] {
      assert all[0].target == target;
    } else {
      var tail := groups[1..];
      HasTargetStep(groups, x);
      HasTargetStep(all, x);
      if groups[0].target == target {
        assert all[1..] == tail;
      } else {
        JoinedTargetsExactly(tail, target, check, x);
        assert all[1..] == Joined(tail, target, check);
      }
    }
  }

  lemma HasTargetStep(groups: seq<Failures>, x: TaskId)
    requires groups != []
    ensures HasTarget(groups, x) <==> groups[0].target == x || HasTarget(groups[1..], x)
  {
    if HasTarget(groups, x) && groups[0].target != x {
      var k :| 0 <= k < |groups| && groups[k].target == x;
      assert groups[1..][k - 1].target == x;
    }
    if HasTarget(groups[1..], x) {
      var k :| 0 <= k < |groups[1..]| && groups[1..][k].target == x;
      assert groups[k + 1].target == x;
    }
  }

  ghost predicate HasCheck(groups: seq<Failures>, t: TaskId) {
    exists k :: 0 <= k < |groups| && t in groups[k].checks
  }

  lemma HasCheckStep(groups: seq<Failures>, t: TaskId)
    requires groups != []
    ensures HasCheck(groups, t) <==> t in groups[0].checks || HasCheck(groups[1..], t)
  {
    if HasCheck(groups, t) && t !in groups[0].checks {
      var k :| 0 <= k < |groups| && t in groups[k].checks;
      assert t in groups[1..][k - 1].checks;
    }
    if HasCheck(groups[1..], t) {
      var k :| 0 <= k < |groups[1..]| && t in groups[1..][k].checks;
      assert t in groups[k + 1].checks;
    }
  }

  lemma {:induction false} JoinedChecksExactly(groups: seq<Failures>, target: TaskId, check: TaskId, t: TaskId)
    ensures HasCheck(Joined(groups, target, check), t) <==> HasCheck(groups, t) || t == check
  {
    var all := Joined(groups, target, check);
    if groups == [] {
      assert all[0].checks == [check];
    } else {
      HasCheckStep(groups, t);
      HasCheckStep(all, t);
      if groups[0].target == target {
        assert all[1..] == groups[1..];
      } else {
        JoinedChecksExactly(groups[1..], target, check, t);
        assert all[1..] == Joined(groups[1..], target, check);
      }
    }
  }

  lemma {:induction false} JoinedGrouped(flow: Flow, st: States, seen: seq<TaskId>, groups: seq<Failures>, t: TaskId)
    requires Grouped(flow, st, seen, groups) && FailedCheck(flow, st, t) && t in seen
    ensures Grouped(flow, st, seen, Joined(groups, flow.onFail[t].target, t))
  {
    var target := flow.onFail[t].target;
    JoinedRecoverable(flow, groups, target, t);
    if groups != [] && groups[0].target != target {
      var tail := groups[1..];
      assert forall k :: 0 <= k < |tail| ==> tail[k] == groups[k + 1];
      JoinedGrouped(flow, st, seen, tail, t);
      var all := Joined(groups, target, t);
      assert all[1..] == Joined(tail, target, t);
      JoinedTargetsExactly(tail, target, t, groups[0].target);
      forall m | 0 < m < |all| ensures all[m].target != groups[0].target {
        assert all[1..][m - 1] == all[m];
      }
      assert forall k :: 0 < k < |all| ==> all[k] == all[1..][k - 1];
    }
  }

  function TargetOf(flow: Flow, st: States, t: TaskId): TaskId
    requires FailedCheck(flow, st, t)
  {
    flow.onFail[t].target
  }

  /** The groups hold exactly the failed checks, each under its target, one group per target. */
  lemma {:induction false} ByTargetGrouped(flow: Flow, st: States, order: seq<TaskId>)
    ensures Grouped(flow, st, order, ByTarget(flow, st, order))
    ensures forall t :: HasCheck(ByTarget(flow, st, order), t) <==> t in order && FailedCheck(flow, st, t)
    ensures forall t :: t in order && FailedCheck(flow, st, t) ==>
      HasTarget(ByTarget(flow, st, order), TargetOf(flow, st, t))
  {
    hide FailedCheck, HasTarget, HasCheck, Joined;
    if order == [] {
      NoGroups();
    } else {
      var front, last := order[..|order| - 1], order[|order| - 1];
      ByTargetGrouped(flow, st, front);
      assert order == front + [last];
      var groups := ByTarget(flow, st, front);
      assert Grouped(flow, st, order, groups);
      if FailedCheck(flow, st, last) {
        var target := TargetOf(flow, st, last);
        JoinedGrouped(flow, st, order, groups, last);
        forall t ensures HasCheck(Joined(groups, target, last), t) <==> HasCheck(groups, t) || t == last {
          JoinedChecksExactly(groups, target, last, t);
        }
        forall x ensures HasTarget(Joined(groups, target, last), x) <==> HasTarget(groups, x) || x == target {
          JoinedTargetsExactly(groups, target, last, x);
        }
        assert ByTarget(flow, st, order) == Joined(groups, target, last);
        forall t | t in order && FailedCheck(flow, st, t)
          ensures HasTarget(Joined(groups, target, last), TargetOf(flow, st, t))
        {
          assert t in front || t == last;
        }
      }
    }
  }

  lemma NoGroups()
    ensures forall t :: !HasCheck([], t)
  {}

  /** What recovering did to g, c and g's budget, once the group of target g was (done) or was not yet reached. */
  ghost predicate Effect(flow: Flow, was: Record, now: Record, g: TaskId, c: TaskId, done: bool)
    requires c in flow.onFail
  {
    && now.attempts == was.attempts && now.states.Keys == was.states.Keys && g in now.states && c in now.states
    && var b := Counted(was, g);
    && BudgetOf(now, g) == (if done then b else BudgetOf(was, g))
    && if done && b.count <= MaxCount(flow.onFail[c])
       then
         && now.states[c] == Blocked
         && (now.states[g] == Pending || (was.states[g] == Failed && now.states[g] == Blocked))
       else
         && now.states[c] == was.states[c]
         && (now.states[g] == was.states[g] || (was.states[g] == Failed && now.states[g] == Blocked))
  }

  lemma OtherTarget(flow: Flow, was: Record, now: Record, g: TaskId, c: TaskId, done: bool, f: Failures)
    requires SoleCheck(flow, g, c) && Effect(flow, was, now, g, c, done)
    requires f.checks != [] && f.checks[0] in flow.onFail && f.target != g && f.target in was.states
    requires forall x :: x in f.checks ==> FailsTo(flow, was.states, x, f.target)
    ensures Effect(flow, was, RecoverTarget(flow, now, f), g, c, done)
  {
    hide *;
    OtherGroup(flow, was.states, g, c, f);
    ApartFromSole(flow, was, now, g, c, done, f);
  }

  lemma OtherGroup(flow: Flow, st: States, g: TaskId, c: TaskId, f: Failures)
    requires SoleCheck(flow, g, c) && f.checks != [] && f.checks[0] in flow.onFail && f.target != g
    requires forall x :: x in f.checks ==> FailsTo(flow, st, x, f.target)
    ensures c in flow.onFail && f.target != c && c !in f.checks && GroupOf(flow, f.checks[0]) != g
    ensures g in f.checks ==> g in st && st[g] == Failed
  {
    assert f.checks[0] in f.checks;
  }

  lemma ApartFromSole(flow: Flow, was: Record, now: Record, g: TaskId, c: TaskId, done: bool, f: Failures)
    requires c in flow.onFail && Effect(flow, was, now, g, c, done)
    requires f.checks != [] && f.checks[0] in flow.onFail && f.target in was.states
    requires f.target != g && f.target != c && c !in f.checks && GroupOf(flow, f.checks[0]) != g
    requires g in f.checks ==> g in was.states && was.states[g] == Failed
    ensures Effect(flow, was, RecoverTarget(flow, now, f), g, c, done)
  {
    hide GroupOf, Counted, MaxCount;
  }

  lemma OwnTarget(flow: Flow, was: Record, now: Record, g: TaskId, c: TaskId, f: Failures)
    requires SoleCheck(flow, g, c) && Effect(flow, was, now, g, c, false)
    requires f.checks != [] && f.checks[0] in flow.onFail && f.target == g
    requires forall x :: x in f.checks ==> FailsTo(flow, was.states, x, g)
    ensures Effect(flow, was, RecoverTarget(flow, now, f), g, c, true)
  {
    var first := f.checks[0];
    assert forall x :: x in f.checks ==> x == c;
    assert first in f.checks;
    assert GroupOf(flow, c) == g && c in f.checks && g !in f.checks;
    assert Counted(now, g) == Counted(was, g);
    hide SoleCheck, GroupOf, Counted;
  }

  lemma {:induction false} RecoverAllEffect(
    flow: Flow, was: Record, g: TaskId, c: TaskId, groups: seq<Failures>, seen: seq<TaskId>)
    requires SoleCheck(flow, g, c) && g in was.states && c in was.states
    requires Grouped(flow, was.states, seen, groups)
    ensures Effect(flow, was, RecoverAll(flow, was, groups), g, c, HasTarget(groups, g))
  {
    if groups != [] {
      var front, last := groups[..|groups| - 1], groups[|groups| - 1];
      assert forall k :: 0 <= k < |front| ==> front[k] == groups[k];
      RecoverAllEffect(flow, was, g, c, front, seen);
      assert groups == front + [last];
      HasTargetSnoc(front, last, g);
      assert AllFailTo(flow, was.states, seen, last);
      assert last.checks[0] in last.checks;
      var now := RecoverAll(flow, was, front);
      if last.target == g {
        OwnTarget(flow, was, now, g, c, last);
      } else {
        OtherTarget(flow, was, now, g, c, HasTarget(front, g), last);
      }
    }
  }

  lemma HasTargetSnoc(front: seq<Failures>, last: Failures, x: TaskId)
    ensures HasTarget(front + [last], x) <==> HasTarget(front, x) || last.target == x
  {
    var all := front + [last];
    assert all[|front|] == last;
    if HasTarget(front, x) {
      var k :| 0 <= k < |front| && front[k].target == x;
      assert all[k].target == x;
    }
  }

  /** Recovering counts the failure of c if c has failed, and sends g back if the budget allows. */
  lemma RecoveredEffect(flow: Flow, r: Record, order: seq<TaskId>, g: TaskId, c: TaskId)
    requires SoleCheck(flow, g, c) && Listing(order, r.states) && g in r.states && c in r.states
    ensures Effect(flow, r, Recovered(flow, r, order), g, c, r.states[c] == Failed)
  {
    var groups := ByTarget(flow, r.states, order);
    ByTargetRecoverable(flow, r.states, order);
    ByTargetGrouped(flow, r.states, order);
    RecoverAllEffect(flow, r, g, c, groups, order);
    if HasTarget(groups, g) {
      var k :| 0 <= k < |groups| && groups[k].target == g;
      assert AllFailTo(flow, r.states, order, groups[k]);
      assert groups[k].checks[0] in groups[k].checks;
    }
    assert c in order;
    assert r.states[c] == Failed ==> FailedCheck(flow, r.states, c);
  }

  // ---- every run ----

  /** The task has not started the round it was sent back for, and its check waits for it. */
  ghost predicate Frozen(st: States, g: TaskId, c: TaskId) {
    && g in st && c in st
    && st[g] in {Queued, Blocked, Pending, AwaitingReview, Aborted, SkippedUpstreamFailed}
    && !Released(st[c])
  }

  ghost predicate Spent(flow: Flow, r: Record, c: TaskId, b: Budget)
    requires c in flow.onFail
  {
    b.count > MaxCount(flow.onFail[c])
  }

  function AtLeastZero(n: int): nat {
    if n < 0 then 0 else n
  }

  /** n rollbacks since c last passed: no more than were counted, and a round that used one up is frozen. */
  ghost predicate BoundInv(flow: Flow, r: Record, g: TaskId, c: TaskId, n: nat)
    requires c in flow.onFail
  {
    var b := BudgetOf(r, g);
    && r.states.Keys == flow.dag.Keys && g in r.states && c in r.states && g in r.attempts
    && n <= b.count && n <= AtLeastZero(MaxCount(flow.onFail[c]))
    && (b.round.Some? ==> b.round.value <= r.attempts[g])
    && (b.round == Some(r.attempts[g]) && !Spent(flow, r, c, b) ==> Frozen(r.states, g, c))
    && (Success(r.states[c]) ==> n == 0)
  }

  /** A waiting task is released only when all its dependencies have succeeded. */
  lemma VisitFrozen(dag: Dag, st: States, t: TaskId, g: TaskId, c: TaskId)
    requires Frozen(st, g, c) && g in Blockers(dag, c) && t in st
    ensures Frozen(Visit(dag, st, t), g, c)
  {
    var ds := DepStates(st, Blockers(dag, c));
    var i :| 0 <= i < |Blockers(dag, c)| && Blockers(dag, c)[i] == g;
    assert ds[i] == st[g];
    assert ds[i] in ds;
  }

  lemma {:induction false} PassFrozen(dag: Dag, st: States, order: seq<TaskId>, g: TaskId, c: TaskId)
    requires forall t :: t in order ==> t in st
    requires Frozen(st, g, c) && g in Blockers(dag, c)
    ensures Frozen(Pass(dag, st, order), g, c)
  {
    if order != [] {
      var last := order[|order| - 1];
      assert last in order;
      PassFrozen(dag, st, order[..|order| - 1], g, c);
      VisitFrozen(dag, Pass(dag, st, order[..|order| - 1]), last, g, c);
    }
  }

  /** The pass never changes a task that is not waiting, and makes no task succeed. */
  lemma {:induction false} PassKeepsSettled(dag: Dag, st: States, order: seq<TaskId>, t: TaskId)
    requires forall x :: x in order ==> x in st
    requires t in st
    ensures !Waiting(st[t]) ==> Pass(dag, st, order)[t] == st[t]
    ensures Success(Pass(dag, st, order)[t]) ==> Success(st[t])
  {
    if order != [] {
      assert order[|order| - 1] in order;
      PassKeepsSettled(dag, st, order[..|order| - 1], t);
    }
  }

  /** Any other move leaves a frozen pair frozen, unless it claims g. */
  lemma MoveFrozen(flow: Flow, st: States, move: R.Step, g: TaskId, c: TaskId)
    requires Frozen(st, g, c) && g in Blockers(flow.dag, c) && !move.Activate? && g != c
    requires !(move == R.Claim(g) && st[g] == Pending)
    ensures Frozen(R.Apply(flow.dag, st, move), g, c)
  {
    assert g in Deps(flow.dag, c);
    match move
    case RewindFrom(t) => hide Impact;
    case Invalidate(changed) => hide Impact;
    case _ =>
  }

  lemma MoveSuccess(dag: Dag, st: States, move: R.Step, c: TaskId)
    requires c in st && !move.Activate?
    ensures Success(R.Apply(dag, st, move)[c]) ==>
      Success(st[c]) || (move == R.Complete(c) && st[c] == InProgress)
  {
    hide Impact;
  }

  lemma MoveKeepsBound(flow: Flow, r: Record, move: R.Step, g: TaskId, c: TaskId, n: nat)
    requires SoleCheck(flow, g, c) && g in Blockers(flow.dag, c) && BoundInv(flow, r, g, c, n)
    ensures BoundInv(flow, Apply(flow, r, Move(move)), g, c, if ChecksOut(r, Move(move), c) then 0 else n)
  {
    if !move.Activate? {
      var b := BudgetOf(r, g);
      MoveSuccess(flow.dag, r.states, move, c);
      if b.round == Some(r.attempts[g]) && !Spent(flow, r, c, b) && !(Claims(r, move) && move.task == g) {
        MoveFrozen(flow, r.states, move, g, c);
      }
      hide Frozen, SoleCheck, Spent, R.Apply;
    }
  }

  /** Clearing resets g's budget exactly if c has passed (and its group, stripped there, still names g). */
  lemma {:induction false} ClearedBudget(flow: Flow, r: Record, order: seq<TaskId>, g: TaskId, c: TaskId)
    requires SoleCheck(flow, g, c) && c in r.states
    ensures BudgetOf(Cleared(flow, r, order), g)
      == if c in order && Success(r.states[c]) && Strip(g) == g then Budget(0, None) else BudgetOf(r, g)
  {
    if order != [] {
      var front, last := order[..|order| - 1], order[|order| - 1];
      assert order == front + [last];
      hide Strip;
      ClearedBudget(flow, r, front, g, c);
    }
  }

  lemma RecoveredKeepsBound(flow: Flow, r: Record, order: seq<TaskId>, g: TaskId, c: TaskId, n: nat)
    requires SoleCheck(flow, g, c) && Listing(order, r.states) && BoundInv(flow, r, g, c, n)
    ensures var now := Recovered(flow, r, order);
      var back := r.states[c] == Failed && StateOf(now.states, c) == Blocked;
      BoundInv(flow, now, g, c, n + if back then 1 else 0)
  {
    RecoveredEffect(flow, r, order, g, c);
    hide SoleCheck, Recovered;
  }

  lemma ProcessKeepsBound(flow: Flow, r: Record, order: seq<TaskId>, g: TaskId, c: TaskId, n: nat)
    requires SoleCheck(flow, g, c) && g in Blockers(flow.dag, c) && BoundInv(flow, r, g, c, n)
    requires Listing(order, r.states)
    ensures var more := if RollsBack(flow, r, Process(order), c) then 1 else 0;
      BoundInv(flow, Apply(flow, r, Process(order)), g, c, n + more)
  {
    RecoveredKeepsBound(flow, r, order, g, c, n);
    var now := Recovered(flow, r, order);
    RecoveredKeys(flow, r, order);
    ClearedBudget(flow, now, order, g, c);
    hide SoleCheck, Recovered, Frozen;
    PassKeepsSettled(flow.dag, now.states, order, c);
    if Frozen(now.states, g, c) { PassFrozen(flow.dag, now.states, order, g, c); }
  }

  lemma FreshBound(flow: Flow, g: TaskId, c: TaskId)
    requires SoleCheck(flow, g, c)
    ensures BoundInv(flow, Fresh(flow), g, c, 0)
  {}

  lemma {:induction false} RunKeepsBound(flow: Flow, steps: seq<Step>, g: TaskId, c: TaskId)
    requires SoleCheck(flow, g, c) && g in Blockers(flow.dag, c)
    ensures BoundInv(flow, Run(flow, Fresh(flow), steps), g, c, Rollbacks(flow, Fresh(flow), steps, c))
  {
    hide BoundInv, SoleCheck;
    if steps == [] {
      FreshBound(flow, g, c);
    } else {
      var front, last := steps[..|steps| - 1], steps[|steps| - 1];
      RunKeepsBound(flow, front, g, c);
      var r, n := Run(flow, Fresh(flow), front), Rollbacks(flow, Fresh(flow), front, c);
      match last
      case Process(order) => if Listing(order, r.states) { ProcessKeepsBound(flow, r, order, g, c, n); }
      case Move(move) => MoveKeepsBound(flow, r, move, g, c, n);
    }
  }

  /**
   A check that depends on its task: in every run, between two of its passes it sends the task back at most
   max_fail_count times, and once it has, a further failure stays FAILED.
   */
  lemma RollbacksBounded(flow: Flow, steps: seq<Step>, g: TaskId, c: TaskId, order: seq<TaskId>)
    requires SoleCheck(flow, g, c) && g in Blockers(flow.dag, c)
    ensures Rollbacks(flow, Fresh(flow), steps, c) <= AtLeastZero(MaxCount(flow.onFail[c]))
    ensures var r := Run(flow, Fresh(flow), steps);
      && c in r.states
      && (Rollbacks(flow, Fresh(flow), steps, c) >= MaxCount(flow.onFail[c]) && r.states[c] == Failed ==>
        StateOf(Apply(flow, r, Process(order)).states, c) == Failed)
  {
    RunKeepsBound(flow, steps, g, c);
    var r := Run(flow, Fresh(flow), steps);
    if r.states[c] == Failed && Listing(order, r.states) {
      RunKeepsBound(flow, steps + [Process(order)], g, c);
      assert (steps + [Process(order)])[..|steps|] == steps;
      RecoveredEffect(flow, r, order, g, c);
      var now := Recovered(flow, r, order);
      RecoveredKeys(flow, r, order);
      PassKeepsSettled(flow.dag, now.states, order, c);
      hide SoleCheck, Recovered;
    }
  }

  // ---- a check that does not depend on the task it sends back ----

  /** c alone has failed, and the budget is not used up. */
  ghost predicate AloneFailed(flow: Flow, r: Record, order: seq<TaskId>, g: TaskId, c: TaskId) {
    && SoleCheck(flow, g, c)
    && r.states.Keys == flow.dag.Keys && Listing(order, r.states)
    && (forall t :: t in r.states ==> (r.states[t] == Failed <==> t == c))
    && !Spent(flow, r, c, Counted(r, g))
  }

  /** c alone has failed, its dependencies (g is none of them) have succeeded, and the budget is not used up. */
  ghost predicate Loose(flow: Flow, r: Record, order: seq<TaskId>, g: TaskId, c: TaskId) {
    && AloneFailed(flow, r, order, g, c) && g !in Blockers(flow.dag, c) && c !in Blockers(flow.dag, c)
    && g in r.attempts && c in r.attempts
    && DepsSucceeded(flow.dag, r.states, c)
  }

  function Cycle(order: seq<TaskId>, c: TaskId): seq<Step> {
    [Process(order), Move(R.Claim(c)), Move(R.Fail(c))]
  }

  function Cycles(order: seq<TaskId>, c: TaskId, n: nat): seq<Step> {
    if n == 0 then [] else Cycles(order, c, n - 1) + Cycle(order, c)
  }

  ghost predicate DepsSucceeded(dag: Dag, st: States, c: TaskId) {
    forall d :: d in Blockers(dag, c) ==> Success(StateOf(st, d))
  }

  lemma PassKeepsDeps(dag: Dag, st: States, order: seq<TaskId>, c: TaskId)
    requires forall t :: t in order ==> t in st
    requires DepsSucceeded(dag, st, c)
    ensures DepsSucceeded(dag, Pass(dag, st, order), c)
  {
    hide Pass;
    forall d | d in Blockers(dag, c) ensures Success(StateOf(Pass(dag, st, order), d)) {
      PassKeepsSettled(dag, st, order, d);
    }
  }

  lemma VisitReleases(dag: Dag, st: States, c: TaskId)
    requires c in st && st[c] in {Blocked, Pending} && DepsSucceeded(dag, st, c)
    ensures Visit(dag, st, c)[c] == Pending
  {
    forall s | s in DepStates(st, Blockers(dag, c)) ensures Success(s) {
      var i :| 0 <= i < |Blockers(dag, c)| && s == StateOf(st, Blockers(dag, c)[i]);
      assert Blockers(dag, c)[i] in Blockers(dag, c);
    }
  }

  lemma {:induction false} PassReleases(dag: Dag, st: States, order: seq<TaskId>, c: TaskId)
    requires forall t :: t in order ==> t in st
    requires c in st && st[c] == Blocked && DepsSucceeded(dag, st, c)
    ensures Pass(dag, st, order)[c] == if c in order then Pending else Blocked
  {
    if order != [] {
      var front, last := order[..|order| - 1], order[|order| - 1];
      assert order == front + [last];
      PassReleases(dag, st, front, c);
      PassKeepsDeps(dag, st, front, c);
      if last == c { VisitReleases(dag, Pass(dag, st, front), c); }
    }
  }

  lemma {:induction false} PassFailsNone(dag: Dag, st: States, order: seq<TaskId>, t: TaskId)
    requires forall x :: x in order ==> x in st
    requires t in st && st[t] != Failed
    ensures Pass(dag, st, order)[t] != Failed
  {
    if order != [] {
      assert order[|order| - 1] in order;
      PassFailsNone(dag, st, order[..|order| - 1], t);
    }
  }

  /** Recovering when c alone has failed: c is blocked, g pending, everything else as it was. */
  lemma AloneRecovered(flow: Flow, r: Record, order: seq<TaskId>, g: TaskId, c: TaskId)
    requires AloneFailed(flow, r, order, g, c)
    ensures var now := Recovered(flow, r, order);
      && now.states == r.states[c := Blocked][g := Pending] && now.attempts == r.attempts
      && BudgetOf(now, g) == Counted(r, g)
  {
    hide Effect, Counted, Spent, RecoverTarget, RecoverAll;
    RecoveredEffect(flow, r, order, g, c);
    ByTargetRecoverable(flow, r.states, order);
    var f := AloneGroups(flow, r, order, g, c);
    OneGroup(flow, r, f);
    AloneTarget(flow, r, g, c, f);
    assert BudgetOf(Recovered(flow, r, order), g) == Counted(r, g) by {
      EffectBudget(flow, r, Recovered(flow, r, order), g, c);
    }
  }

  lemma AloneGroups(flow: Flow, r: Record, order: seq<TaskId>, g: TaskId, c: TaskId) returns (f: Failures)
    requires AloneFailed(flow, r, order, g, c)
    ensures ByTarget(flow, r.states, order) == [f]
    ensures f.target == g && f.checks != [] && f.checks[0] == c && forall x :: x in f.checks <==> x == c
  {
    hide Counted, Spent, GroupOf, DepsSucceeded, ByTarget;
    var groups := ByTarget(flow, r.states, order);
    ByTargetGrouped(flow, r.states, order);
    assert c in order && FailedCheck(flow, r.states, c);
    assert HasTarget(groups, g);
    assert |groups| >= 2 ==> groups[0].target != groups[1].target;
    forall k | 0 <= k < |groups| ensures groups[k].target == g {
      assert AllFailTo(flow, r.states, order, groups[k]);
      assert groups[k].checks[0] in groups[k].checks;
    }
    f := groups[0];
    assert AllFailTo(flow, r.states, order, f);
    assert f.checks[0] in f.checks;
  }

  lemma OneGroup(flow: Flow, r: Record, f: Failures)
    requires Recoverable(flow, [f])
    ensures RecoverAll(flow, r, [f]) == RecoverTarget(flow, r, f)
  {
    assert [f][..0] == [];
  }

  lemma AloneTarget(flow: Flow, r: Record, g: TaskId, c: TaskId, f: Failures)
    requires SoleCheck(flow, g, c) && !Spent(flow, r, c, Counted(r, g)) && c in r.states && g in r.states
    requires f.target == g && f.checks != [] && f.checks[0] == c && forall x :: x in f.checks <==> x == c
    ensures RecoverTarget(flow, r, f).states == r.states[c := Blocked][g := Pending]
    ensures RecoverTarget(flow, r, f).attempts == r.attempts
  {
    hide Counted;
    assert GroupOf(flow, c) == g;
    assert AllBlocked(r.states, f.checks) == r.states[c := Blocked];
  }

  lemma EffectBudget(flow: Flow, was: Record, now: Record, g: TaskId, c: TaskId)
    requires c in flow.onFail && Effect(flow, was, now, g, c, true)
    ensures BudgetOf(now, g) == Counted(was, g)
  {}

  /** After the pass that sends g back, c is free to run again at once. */
  ghost predicate ReleasedAgain(flow: Flow, r: Record, released: Record, g: TaskId, c: TaskId) {
    && c in released.states && released.states[c] == Pending && released.attempts == r.attempts
    && BudgetOf(released, g) == Counted(r, g) && released.states.Keys == r.states.Keys
    && DepsSucceeded(flow.dag, released.states, c)
    && (forall t :: t in released.states ==> released.states[t] != Failed)
  }

  lemma CycleStep(flow: Flow, r: Record, order: seq<TaskId>, g: TaskId, c: TaskId)
    requires Loose(flow, r, order, g, c)
    ensures RollsBack(flow, r, Process(order), c)
    ensures ReleasedAgain(flow, r, Apply(flow, r, Process(order)), g, c)
  {
    AloneRecovered(flow, r, order, g, c);
    var now := Recovered(flow, r, order);
    RecoveredKeys(flow, r, order);
    ClearedBudget(flow, now, order, g, c);
    assert DepsSucceeded(flow.dag, now.states, c);
    hide Recovered, Counted, GroupOf, Spent, DepsSucceeded, Pass, SoleCheck;
    PassReleases(flow.dag, now.states, order, c);
    PassKeepsDeps(flow.dag, now.states, order, c);
    forall t | t in now.states ensures Pass(flow.dag, now.states, order)[t] != Failed {
      PassFailsNone(flow.dag, now.states, order, t);
    }
  }

  lemma CountedTwice(flow: Flow, r: Record, again: Record, g: TaskId)
    requires BudgetOf(again, g) == Counted(r, g) && Round(again, g) == Round(r, g)
    ensures Counted(again, g) == Counted(r, g)
  {}

  lemma CycleAgain(flow: Flow, r: Record, order: seq<TaskId>, g: TaskId, c: TaskId)
    requires Loose(flow, r, order, g, c)
    ensures var released := Apply(flow, r, Process(order));
      && c in released.states && released.states[c] == Pending && c in released.attempts
      && var claimed := Apply(flow, released, Move(R.Claim(c)));
      && c in claimed.states && claimed.states[c] == InProgress
      && Loose(flow, Apply(flow, claimed, Move(R.Fail(c))), order, g, c)
  {
    CycleStep(flow, r, order, g, c);
    var released := Apply(flow, r, Process(order));
    ClaimMoves(flow, released, c);
    var claimed := Apply(flow, released, Move(R.Claim(c)));
    FailMoves(flow, claimed, c);
    hide Apply;
    LooseAgain(flow, r, released, order, g, c);
  }

  lemma LooseAgain(flow: Flow, r: Record, released: Record, order: seq<TaskId>, g: TaskId, c: TaskId)
    requires Loose(flow, r, order, g, c) && ReleasedAgain(flow, r, released, g, c) && c in released.attempts
    ensures Loose(flow, Record(released.states[c := InProgress][c := Failed],
                               released.attempts[c := released.attempts[c] + 1], released.budgets), order, g, c)
  {
    var again := Record(released.states[c := InProgress][c := Failed],
                        released.attempts[c := released.attempts[c] + 1], released.budgets);
    CountedTwice(flow, r, again, g);
    assert DepsSucceeded(flow.dag, again.states, c);
    hide Counted, Spent, DepsSucceeded;
  }

  lemma ClaimMoves(flow: Flow, r: Record, c: TaskId)
    requires c in r.states && r.states[c] == Pending && c in r.attempts
    ensures Apply(flow, r, Move(R.Claim(c)))
      == r.(states := r.states[c := InProgress], attempts := r.attempts[c := r.attempts[c] + 1])
  {}

  lemma FailMoves(flow: Flow, r: Record, c: TaskId)
    requires c in r.states && r.states[c] == InProgress
    ensures Apply(flow, r, Move(R.Fail(c))) == r.(states := r.states[c := Failed])
  {}

  lemma RunSnoc(flow: Flow, r: Record, steps: seq<Step>, step: Step, c: TaskId)
    ensures Run(flow, r, steps + [step]) == Apply(flow, Run(flow, r, steps), step)
    ensures Rollbacks(flow, r, steps + [step], c) ==
      if ChecksOut(Run(flow, r, steps), step, c) then 0
      else Rollbacks(flow, r, steps, c) + if RollsBack(flow, Run(flow, r, steps), step, c) then 1 else 0
  {
    assert (steps + [step])[..|steps|] == steps;
  }

  lemma OneCycle(flow: Flow, r: Record, steps: seq<Step>, order: seq<TaskId>, g: TaskId, c: TaskId)
    requires Loose(flow, Run(flow, r, steps), order, g, c)
    ensures Loose(flow, Run(flow, r, steps + Cycle(order, c)), order, g, c)
    ensures Rollbacks(flow, r, steps + Cycle(order, c), c) == Rollbacks(flow, r, steps, c) + 1
  {
    hide Loose, Run, Rollbacks, Apply;
    var a, b, d := Process(order), Move(R.Claim(c)), Move(R.Fail(c));
    var r0 := Run(flow, r, steps);
    CycleStep(flow, r0, order, g, c);
    CycleAgain(flow, r0, order, g, c);
    RunSnoc(flow, r, steps, a, c);
    RunSnoc(flow, r, steps + [a], b, c);
    RunSnoc(flow, r, steps + [a] + [b], d, c);
    assert steps + [a] + [b] + [d] == steps + Cycle(order, c);
  }

  /**
   Without the edge there is no bound: from any state where the check has failed on succeeded dependencies, it can send
   its task back any number of times without that task running once, and the budget never moves.
   */
  lemma {:induction false} NoEdgeNoBound(
    flow: Flow, r: Record, steps: seq<Step>, order: seq<TaskId>, g: TaskId, c: TaskId, n: nat)
    requires Loose(flow, Run(flow, r, steps), order, g, c)
    ensures Loose(flow, Run(flow, r, steps + Cycles(order, c, n)), order, g, c)
    ensures Rollbacks(flow, r, steps + Cycles(order, c, n), c) == Rollbacks(flow, r, steps, c) + n
  {
    hide Loose, Rollbacks, Run;
    if n == 0 {
      assert steps + Cycles(order, c, n) == steps;
    } else {
      NoEdgeNoBound(flow, r, steps, order, g, c, n - 1);
      OneCycle(flow, r, steps + Cycles(order, c, n - 1), order, g, c);
      assert steps + Cycles(order, c, n - 1) + Cycle(order, c) == steps + Cycles(order, c, n);
    }
  }
}
