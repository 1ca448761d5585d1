/**
 Exactly when check-triggered rollback is bounded: the check depends on its task, or its budget allows no rollback.
 */
module CheckRollbackExact {
  import opened Texts
  import opened Graph
  import opened Scheduler
  import opened CheckRollback
  import opened CheckRollbackBound
  import R = SchedulerRuns

  // ---- a budget that allows nothing ----

  /** A round is only written together with a count of at least one. */
  ghost predicate RoundsCounted(flow: Flow, r: Record, g: TaskId, c: TaskId) {
    && r.states.Keys == flow.dag.Keys && g in r.states && c in r.states && g in r.attempts
    && (BudgetOf(r, g).round.Some? ==> BudgetOf(r, g).count >= 1)
  }

  lemma StepRoundsCounted(flow: Flow, r: Record, step: Step, g: TaskId, c: TaskId)
    requires SoleCheck(flow, g, c) && RoundsCounted(flow, r, g, c)
    ensures RoundsCounted(flow, Apply(flow, r, step), g, c)
    ensures MaxCount(flow.onFail[c]) <= 0 ==> !RollsBack(flow, r, step, c)
  {
    match step
    case Move(move) => hide SoleCheck, R.Apply;
    case Process(order) =>
      if Listing(order, r.states) {
        RecoveredEffect(flow, r, order, g, c);
        RecoveredKeys(flow, r, order);
        ClearedBudget(flow, Recovered(flow, r, order), order, g, c);
        hide SoleCheck, Recovered, Pass;
      }
  }

  lemma {:induction false} NoRollbacksAllowed(flow: Flow, steps: seq<Step>, g: TaskId, c: TaskId)
    requires SoleCheck(flow, g, c) && MaxCount(flow.onFail[c]) <= 0
    ensures RoundsCounted(flow, Run(flow, Fresh(flow), steps), g, c) && Rollbacks(flow, Fresh(flow), steps, c) == 0
  {
    hide SoleCheck, MaxCount, RollsBack, Apply;
    if steps == [] {
      FreshCounted(flow, g, c);
    } else {
      NoRollbacksAllowed(flow, steps[..|steps| - 1], g, c);
      StepRoundsCounted(flow, Run(flow, Fresh(flow), steps[..|steps| - 1]), steps[|steps| - 1], g, c);
    }
  }

  lemma FreshCounted(flow: Flow, g: TaskId, c: TaskId)
    requires SoleCheck(flow, g, c)
    ensures RoundsCounted(flow, Fresh(flow), g, c)
  {}

  // ---- bringing a check to fail on finished dependencies ----

  /** Nothing has failed, no budget has been touched, and c has not finished. */
  ghost predicate Calm(flow: Flow, r: Record, order: seq<TaskId>, c: TaskId) {
    && r.states.Keys == r.attempts.Keys == flow.dag.Keys && Listing(order, r.states) && r.budgets == map[]
    && (forall t :: t in r.states ==> r.states[t] in {Blocked, Pending, InProgress, Done})
    && c in r.states && r.states[c] in {Blocked, Pending}
  }

  ghost predicate Staged(flow: Flow, order: seq<TaskId>, steps: seq<Step>, c: TaskId) {
    Calm(flow, Run(flow, Fresh(flow), steps), order, c) && Rollbacks(flow, Fresh(flow), steps, c) == 0
  }

  predicate DoneIn(r: Record, t: TaskId) {
    t in r.states && r.states[t] == Done
  }

  ghost predicate DoneKept(r: Record, next: Record) {
    forall t :: DoneIn(r, t) ==> DoneIn(next, t)
  }

  lemma {:induction false} NothingFailed(flow: Flow, st: States, order: seq<TaskId>)
    requires forall t :: t in st ==> st[t] != Failed
    ensures ByTarget(flow, st, order) == []
  {
    if order != [] { NothingFailed(flow, st, order[..|order| - 1]); }
  }

  lemma {:induction false} NothingToClear(flow: Flow, r: Record, order: seq<TaskId>)
    requires r.budgets == map[]
    ensures Cleared(flow, r, order) == r
  {
    if order != [] { NothingToClear(flow, r, order[..|order| - 1]); }
  }

  lemma CalmProcessed(flow: Flow, r: Record, order: seq<TaskId>, c: TaskId)
    requires Calm(flow, r, order, c)
    ensures Apply(flow, r, Process(order)) == r.(states := Pass(flow.dag, r.states, order))
  {
    ByTargetRecoverable(flow, r.states, order);
    NothingFailed(flow, r.states, order);
    NothingToClear(flow, r, order);
    hide ByTarget, Cleared, Pass;
  }

  lemma {:induction false} PassStaysCalm(dag: Dag, st: States, order: seq<TaskId>, t: TaskId)
    requires (forall u :: u in order ==> u in st) && t in st
    requires forall u :: u in st ==> st[u] in {Blocked, Pending, InProgress, Done}
    ensures Pass(dag, st, order)[t] in {Blocked, Pending, InProgress, Done}
    ensures st[t] != Blocked ==> Pass(dag, st, order)[t] == st[t]
    ensures st[t] == Blocked ==> Pass(dag, st, order)[t] in {Blocked, Pending}
  {
    if order != [] {
      var front, last := order[..|order| - 1], order[|order| - 1];
      assert last in order;
      PassStaysCalm(dag, st, front, t);
      if last == t {
        var before := Pass(dag, st, front);
        forall u | u in st ensures before[u] in {Blocked, Pending, InProgress, Done} {
          PassStaysCalm(dag, st, front, u);
        }
        NoFailureAmong(before, Blockers(dag, t));
        hide Pass, DepStates;
      }
    }
  }

  lemma NoFailureAmong(st: States, blockers: seq<TaskId>)
    requires forall u :: u in st ==> st[u] in {Blocked, Pending, InProgress, Done}
    ensures forall s :: s in DepStates(st, blockers) ==> !Failure(s)
  {}

  lemma ProcessCalm(flow: Flow, r: Record, order: seq<TaskId>, c: TaskId)
    requires Calm(flow, r, order, c)
    ensures Calm(flow, Apply(flow, r, Process(order)), order, c) && DoneKept(r, Apply(flow, r, Process(order)))
  {
    CalmProcessed(flow, r, order, c);
    hide Apply, Pass;
    forall t | t in r.states
      ensures Pass(flow.dag, r.states, order)[t] in {Blocked, Pending, InProgress, Done}
      ensures r.states[t] != Blocked ==> Pass(flow.dag, r.states, order)[t] == r.states[t]
      ensures r.states[t] == Blocked ==> Pass(flow.dag, r.states, order)[t] in {Blocked, Pending}
    {
      PassStaysCalm(flow.dag, r.states, order, t);
    }
  }

  /** A task whose dependencies are done is released by the pass, if it was not before. */
  lemma ProcessReleases(flow: Flow, r: Record, order: seq<TaskId>, c: TaskId, t: TaskId)
    requires Calm(flow, r, order, c) && t in r.states && r.states[t] in {Blocked, Pending}
    requires forall d :: d in Blockers(flow.dag, t) ==> DoneIn(r, d)
    ensures t in Apply(flow, r, Process(order)).states && Apply(flow, r, Process(order)).states[t] == Pending
  {
    CalmProcessed(flow, r, order, c);
    hide Apply, Pass;
    assert DepsSucceeded(flow.dag, r.states, t);
    if r.states[t] == Blocked {
      PassReleases(flow.dag, r.states, order, t);
    } else {
      PassStaysCalm(flow.dag, r.states, order, t);
    }
  }

  lemma StageMore(flow: Flow, order: seq<TaskId>, steps: seq<Step>, step: Step, c: TaskId)
    requires Staged(flow, order, steps, c)
    requires Calm(flow, Apply(flow, Run(flow, Fresh(flow), steps), step), order, c)
    ensures Staged(flow, order, steps + [step], c)
    ensures Run(flow, Fresh(flow), steps + [step]) == Apply(flow, Run(flow, Fresh(flow), steps), step)
  {
    RunSnoc(flow, Fresh(flow), steps, step, c);
    hide Apply, Run, Rollbacks;
  }

  lemma CompleteMoves(flow: Flow, r: Record, t: TaskId)
    requires t in r.states && r.states[t] == InProgress
    ensures Apply(flow, r, Move(R.Complete(t))) == r.(states := r.states[t := Done])
  {}

  /** A task other than c whose dependencies are done can be done next. */
  lemma DoNext(flow: Flow, order: seq<TaskId>, steps: seq<Step>, c: TaskId, t: TaskId) returns (longer: seq<Step>)
    requires Staged(flow, order, steps, c) && t in flow.dag && t != c
    requires forall d :: d in Blockers(flow.dag, t) ==> DoneIn(Run(flow, Fresh(flow), steps), d)
    ensures Staged(flow, order, longer, c) && DoneIn(Run(flow, Fresh(flow), longer), t)
    ensures DoneKept(Run(flow, Fresh(flow), steps), Run(flow, Fresh(flow), longer))
  {
    hide Apply, Run, Rollbacks;
    var r0 := Run(flow, Fresh(flow), steps);
    if r0.states[t] == Done {
      longer := steps;
      return;
    }
    ProcessCalm(flow, r0, order, c);
    StageMore(flow, order, steps, Process(order), c);
    var r1 := Apply(flow, r0, Process(order));
    longer := steps + [Process(order)];
    if r0.states[t] == InProgress {
      longer := FinishRunning(flow, order, steps, c, t);
    } else {
      ProcessReleases(flow, r0, order, c, t);
      ClaimMoves(flow, r1, t);
      StageMore(flow, order, longer, Move(R.Claim(t)), c);
      longer := FinishRunning(flow, order, longer + [Move(R.Claim(t))], c, t);
    }
  }

  lemma FinishRunning(
    flow: Flow, order: seq<TaskId>, steps: seq<Step>, c: TaskId, t: TaskId) returns (longer: seq<Step>)
    requires Staged(flow, order, steps, c) && t != c
    requires t in Run(flow, Fresh(flow), steps).states && Run(flow, Fresh(flow), steps).states[t] == InProgress
    ensures Staged(flow, order, longer, c) && DoneIn(Run(flow, Fresh(flow), longer), t)
    ensures DoneKept(Run(flow, Fresh(flow), steps), Run(flow, Fresh(flow), longer))
  {
    hide Apply, Run, Rollbacks;
    CompleteMoves(flow, Run(flow, Fresh(flow), steps), t);
    StageMore(flow, order, steps, Move(R.Complete(t)), c);
    longer := steps + [Move(R.Complete(t))];
  }

  /** Tasks of rank below k, all ranked below c, can all be done, their dependencies first. */
  lemma DoAll(
    flow: Flow, order: seq<TaskId>, rank: map<TaskId, nat>, steps: seq<Step>, c: TaskId, ts: seq<TaskId>, k: nat)
    returns (longer: seq<Step>)
    requires KnownRefs(flow.dag) && Ranking(flow.dag, rank) && c in rank && k <= rank[c]
    requires Staged(flow, order, steps, c) && forall t :: t in ts ==> t in flow.dag && rank[t] < k
    ensures Staged(flow, order, longer, c)
    ensures forall t :: t in ts ==> DoneIn(Run(flow, Fresh(flow), longer), t)
    ensures DoneKept(Run(flow, Fresh(flow), steps), Run(flow, Fresh(flow), longer))
    decreases k, |ts|
  {
    hide Run, Staged, KnownRefs, Ranking;
    if ts == [] {
      longer := steps;
    } else {
      var t := ts[|ts| - 1];
      longer := DoAll(flow, order, rank, steps, c, ts[..|ts| - 1], k);
      BlockersRanked(flow.dag, rank, t);
      var ready := DoAll(flow, order, rank, longer, c, Blockers(flow.dag, t), rank[t]);
      var done := DoNext(flow, order, ready, c, t);
      assert forall x :: x in ts ==> x in ts[..|ts| - 1] || x == t;
      longer := done;
    }
  }

  lemma BlockersRanked(g: Dag, rank: map<TaskId, nat>, t: TaskId)
    requires KnownRefs(g) && Ranking(g, rank) && t in g
    ensures t in rank && forall d :: d in Blockers(g, t) ==> d in g && d in rank && rank[d] < rank[t]
  {
    assert RefsKnown(g, t);
  }

  lemma FreshCalm(flow: Flow, order: seq<TaskId>, c: TaskId)
    requires c in flow.dag && Listing(order, Created(flow.dag))
    ensures Staged(flow, order, [], c)
  {}

  /**
   From a new instance, the check can be brought to fail on finished dependencies; r is the state it was claimed in.
   */
  lemma FailedReached(flow: Flow, order: seq<TaskId>, c: TaskId) returns (steps: seq<Step>, r: Record)
    requires KnownRefs(flow.dag) && Acyclic(flow.dag) && c in flow.dag && Listing(order, Created(flow.dag))
    ensures Calm(flow, r, order, c) && forall d :: d in Blockers(flow.dag, c) ==> DoneIn(r, d)
    ensures c in r.attempts && Run(flow, Fresh(flow), steps)
      == Record(r.states[c := InProgress][c := Failed], r.attempts[c := r.attempts[c] + 1], r.budgets)
    ensures Rollbacks(flow, Fresh(flow), steps, c) == 0
  {
    hide Run, Rollbacks, Apply, KnownRefs, Acyclic, Blockers, Listing;
    var rank := AcyclicRanking(flow.dag, flow.dag.Keys);
    assert Ranking(flow.dag, rank);
    BlockersRanked(flow.dag, rank, c);
    FreshCalm(flow, order, c);
    var ready := DoAll(flow, order, rank, [], c, Blockers(flow.dag, c), rank[c]);
    var r0 := Run(flow, Fresh(flow), ready);
    ProcessCalm(flow, r0, order, c);
    StageMore(flow, order, ready, Process(order), c);
    ProcessReleases(flow, r0, order, c, c);
    r := Apply(flow, r0, Process(order));
    var pending := ready + [Process(order)];
    ClaimMoves(flow, r, c);
    RunSnoc(flow, Fresh(flow), pending, Move(R.Claim(c)), c);
    var claimed := pending + [Move(R.Claim(c))];
    FailMoves(flow, Apply(flow, r, Move(R.Claim(c))), c);
    RunSnoc(flow, Fresh(flow), claimed, Move(R.Fail(c)), c);
    steps := claimed + [Move(R.Fail(c))];
  }

  lemma LooseReached(flow: Flow, order: seq<TaskId>, g: TaskId, c: TaskId) returns (steps: seq<Step>)
    requires KnownRefs(flow.dag) && Acyclic(flow.dag) && SoleCheck(flow, g, c) && Listing(order, Created(flow.dag))
    requires g !in Blockers(flow.dag, c) && MaxCount(flow.onFail[c]) >= 1
    ensures Loose(flow, Run(flow, Fresh(flow), steps), order, g, c) && Rollbacks(flow, Fresh(flow), steps, c) == 0
  {
    hide Run, Rollbacks, Apply, KnownRefs, Acyclic, Blockers, Listing, MaxCount, Loose;
    var r: Record;
    steps, r := FailedReached(flow, order, c);
    FailedLoose(flow, r, order, g, c);
  }

  lemma FailedLoose(flow: Flow, r: Record, order: seq<TaskId>, g: TaskId, c: TaskId)
    requires Calm(flow, r, order, c) && SoleCheck(flow, g, c) && MaxCount(flow.onFail[c]) >= 1
    requires g !in Blockers(flow.dag, c) && c !in Blockers(flow.dag, c)
    requires forall d :: d in Blockers(flow.dag, c) ==> DoneIn(r, d)
    ensures c in r.attempts
    ensures var next := Record(r.states[c := InProgress][c := Failed], r.attempts[c := r.attempts[c] + 1], r.budgets);
      Loose(flow, next, order, g, c)
  {
    hide Blockers;
    var failed := Record(r.states[c := InProgress][c := Failed], r.attempts[c := r.attempts[c] + 1], r.budgets);
    assert Counted(failed, g).count == 1;
    assert DepsSucceeded(flow.dag, failed.states, c);
  }

  /**
   Without the edge every number of rollbacks is reached from a new instance, as long as the budget allows one at all.
   */
  lemma AnyNumberOfRollbacks(flow: Flow, g: TaskId, c: TaskId, n: nat) returns (steps: seq<Step>)
    requires KnownRefs(flow.dag) && Acyclic(flow.dag) && SoleCheck(flow, g, c)
    requires g !in Blockers(flow.dag, c) && MaxCount(flow.onFail[c]) >= 1
    ensures Rollbacks(flow, Fresh(flow), steps, c) == n
  {
    var order := SortedSet(flow.dag.Keys);
    SortedLists(flow.dag);
    hide Loose, Rollbacks, Run, KnownRefs, Acyclic, Blockers, SoleCheck, Listing, MaxCount;
    var start := LooseReached(flow, order, g, c);
    NoEdgeNoBound(flow, Fresh(flow), start, order, g, c, n);
    steps := start + Cycles(order, c, n);
  }

  lemma SortedLists(g: Dag)
    ensures Listing(SortedSet(g.Keys), Created(g))
  {
    var order := SortedSet(g.Keys);
    forall i, j | 0 <= i < j < |order| ensures order[i] != order[j] { LessIrreflexive(order[i]); }
    assert forall t :: t in order <==> t in Created(g);
  }

  /**
   On a validated graph, the rollbacks of a sole check between its passes stay within max_fail_count in every run if and
   only if the check depends on the task it sends back, or its budget allows no rollback at all.
   */
  lemma BoundedIffEdge(flow: Flow, g: TaskId, c: TaskId)
    requires KnownRefs(flow.dag) && Acyclic(flow.dag) && SoleCheck(flow, g, c)
    ensures (forall steps :: Rollbacks(flow, Fresh(flow), steps, c) <= AtLeastZero(MaxCount(flow.onFail[c])))
      <==> g in Blockers(flow.dag, c) || MaxCount(flow.onFail[c]) <= 0
  {
    hide Rollbacks, KnownRefs, Acyclic, Blockers, Run, MaxCount;
    if g in Blockers(flow.dag, c) || MaxCount(flow.onFail[c]) <= 0 {
      forall steps ensures Rollbacks(flow, Fresh(flow), steps, c) <= AtLeastZero(MaxCount(flow.onFail[c])) {
        if g in Blockers(flow.dag, c) {
          RollbacksBounded(flow, steps, g, c, []);
        } else {
          NoRollbacksAllowed(flow, steps, g, c);
        }
      }
    } else {
      var steps := AnyNumberOfRollbacks(flow, g, c, MaxCount(flow.onFail[c]) + 1);
    }
  }
}
