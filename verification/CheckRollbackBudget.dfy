/** How far the failure budget moves: one round counts once, and the bound on rollbacks is attained. */
module CheckRollbackBudget {
  import opened Texts
  import opened Graph
  import KvStore
  import opened Scheduler
  import opened CheckRollback
  import opened CheckRollbackBound
  import opened CheckRollbackExact
  import R = SchedulerRuns

  // ---- one pass ----

  /**
   A pass over a failed sole check. If the stored round is the attempt count of its task, the stored count stays;
   otherwise it grows by one and the round is stored. The task goes back exactly if the new count is at most
   max_fail_count (1 if that is missing).
   */
  lemma FailureCountedOnce(flow: Flow, r: Record, order: seq<TaskId>, g: TaskId, c: TaskId)
    requires SoleCheck(flow, g, c) && Listing(order, r.states)
    requires g in r.states && c in r.states && g in r.attempts && r.states[c] == Failed
    ensures var after := Recovered(flow, r, order);
      var most := if flow.onFail[c].maxFailCount == 0 then 1 else flow.onFail[c].maxFailCount;
      var count := if g in r.budgets then r.budgets[g].count else 0;
      var sameRound := g in r.budgets && r.budgets[g].round == KvStore.Some(r.attempts[g]);
      var next := if sameRound then count else count + 1;
      && g in after.budgets && after.budgets[g] == Budget(next, KvStore.Some(r.attempts[g]))
      && after.attempts == r.attempts && after.states.Keys == r.states.Keys
      && (next <= most ==> after.states[c] == Blocked)
      && (next <= most && r.states[g] != Failed ==> after.states[g] == Pending)
      && (next > most ==> after.states[c] == Failed)
      && (next > most && r.states[g] != Failed ==> after.states[g] == r.states[g])
  {
    RecoveredEffect(flow, r, order, g, c);
    hide SoleCheck, Recovered, Listing;
  }

  /**
   Recovering one group of failed checks, however many share the budget: the failure counts once in a round of the
   group's task, and within max_fail_count exactly the failed checks wait and the target is sent back.
   */
  lemma GroupCountedOnce(flow: Flow, r: Record, f: Failures)
    requires f.checks != [] && f.checks[0] in flow.onFail && f.target in r.states
    ensures var first := f.checks[0];
      var most := if flow.onFail[first].maxFailCount == 0 then 1 else flow.onFail[first].maxFailCount;
      var group := if first in flow.failGroup && flow.failGroup[first] != [] then flow.failGroup[first] else first;
      var round := if group in r.attempts then KvStore.Some(r.attempts[group]) else KvStore.None;
      var count := if group in r.budgets then r.budgets[group].count else 0;
      var counted := if group in r.budgets then r.budgets[group].round == round else round.None?;
      var next := if counted then count else count + 1;
      var after := RecoverTarget(flow, r, f);
      && after.budgets == (if counted then r.budgets else r.budgets[group := Budget(next, round)])
      && after.attempts == r.attempts && after.states.Keys == r.states.Keys
      && (forall t :: t in r.states && next > most ==> after.states[t] == r.states[t])
      && (forall t :: t in r.states && next <= most ==>
        after.states[t] == if t == f.target then Pending else if t in f.checks then Blocked else r.states[t])
  {}

  /** The group of a finished task, trimmed; a task without a group has none to clear. */
  ghost predicate Passed(flow: Flow, st: States, t: TaskId, group: TaskId) {
    t in st && st[t] in {Done, Succeeded} && t in flow.failGroup && Strip(flow.failGroup[t]) == group && group != []
  }

  /** Clearing removes exactly the budgets of groups in which a task has finished. */
  lemma {:induction false} ClearedExactly(flow: Flow, r: Record, order: seq<TaskId>)
    ensures var after := Cleared(flow, r, order);
      && after.states == r.states && after.attempts == r.attempts
      && (forall g :: g in after.budgets <==>
        g in r.budgets && !(exists t :: t in order && Passed(flow, r.states, t, g)))
      && (forall g :: g in after.budgets ==> after.budgets[g] == r.budgets[g])
  {
    if order != [] {
      var front, last := order[..|order| - 1], order[|order| - 1];
      assert order == front + [last];
      hide Strip;
      ClearedExactly(flow, r, front);
      assert Clears(flow, r.states, last) <==> exists g :: Passed(flow, r.states, last, g) by {
        if Clears(flow, r.states, last) { assert Passed(flow, r.states, last, Strip(flow.failGroup[last])); }
      }
    }
  }

  // ---- one round ----

  predicate AtWork(s: State) {
    s in {Blocked, Pending, InProgress, Done}
  }

  ghost predicate Shape(flow: Flow, r: Record, order: seq<TaskId>, c: TaskId) {
    && r.states.Keys == r.attempts.Keys == flow.dag.Keys && Listing(order, r.states)
    && (forall t :: t in r.states && t != c ==> AtWork(r.states[t]))
  }

  ghost predicate BlockersDone(flow: Flow, r: Record, c: TaskId) {
    forall d :: d in Blockers(flow.dag, c) ==> DoneIn(r, d)
  }

  /** c has failed on finished dependencies, n failures are counted, none of them in this round. */
  ghost predicate Failing(flow: Flow, r: Record, order: seq<TaskId>, g: TaskId, c: TaskId, n: nat) {
    && Shape(flow, r, order, c) && c in r.states && r.states[c] == Failed && BlockersDone(flow, r, c)
    && g in r.attempts && BudgetOf(r, g).count == n && BudgetOf(r, g).round != KvStore.Some(r.attempts[g])
  }

  /** g has been sent back for the n-th time and c waits. */
  ghost predicate SentBack(flow: Flow, r: Record, order: seq<TaskId>, g: TaskId, c: TaskId, n: nat) {
    && Shape(flow, r, order, c) && c in r.states && r.states[c] in {Blocked, Pending}
    && g in r.states && r.states[g] == Pending
    && (forall d :: d in Blockers(flow.dag, c) && d != g ==> DoneIn(r, d))
    && BudgetOf(r, g) == Budget(n, KvStore.Some(r.attempts[g]))
  }

  /** g has done its new round. */
  ghost predicate Redone(flow: Flow, r: Record, order: seq<TaskId>, g: TaskId, c: TaskId, n: nat) {
    && Shape(flow, r, order, c) && c in r.states && r.states[c] in {Blocked, Pending} && BlockersDone(flow, r, c)
    && g in r.attempts && BudgetOf(r, g).count == n && BudgetOf(r, g).round != KvStore.Some(r.attempts[g])
  }

  lemma FailingAlone(flow: Flow, r: Record, order: seq<TaskId>, g: TaskId, c: TaskId, n: nat)
    requires SoleCheck(flow, g, c) && Failing(flow, r, order, g, c, n) && n + 1 <= MaxCount(flow.onFail[c])
    ensures AloneFailed(flow, r, order, g, c) && Counted(r, g) == Budget(n + 1, KvStore.Some(r.attempts[g]))
  {
    hide SoleCheck, Listing;
  }

  lemma RollsBackNow(flow: Flow, r: Record, order: seq<TaskId>, g: TaskId, c: TaskId, n: nat)
    requires SoleCheck(flow, g, c) && g in Blockers(flow.dag, c)
    requires Failing(flow, r, order, g, c, n) && n + 1 <= MaxCount(flow.onFail[c])
    ensures RollsBack(flow, r, Process(order), c)
    ensures SentBack(flow, Apply(flow, r, Process(order)), order, g, c, n + 1)
  {
    FailingAlone(flow, r, order, g, c, n);
    AloneRecovered(flow, r, order, g, c);
    hide Recovered, SoleCheck, Counted, Listing, AloneFailed, Cleared, SentBack, Blockers, Pass;
    Apart(flow, g, c);
    var now := Recovered(flow, r, order);
    ProcessIs(flow, r, order);
    ClearedBudget(flow, now, order, g, c);
    SentBackAfter(flow, r, now, Apply(flow, r, Process(order)), order, g, c, n);
  }

  lemma ProcessIs(flow: Flow, r: Record, order: seq<TaskId>)
    requires Listing(order, r.states)
    ensures var now := Recovered(flow, r, order);
      && now.states.Keys == r.states.Keys
      && Apply(flow, r, Process(order)) == Cleared(flow, now, order).(states := Pass(flow.dag, now.states, order))
  {
    hide Recovered, Cleared, Pass;
    RecoveredKeys(flow, r, order);
  }

  lemma SentBackAfter(
    flow: Flow, r: Record, now: Record, next: Record, order: seq<TaskId>, g: TaskId, c: TaskId, n: nat)
    requires Failing(flow, r, order, g, c, n) && g != c && g in r.states
    requires now.states == r.states[c := Blocked][g := Pending] && now.attempts == r.attempts
    requires forall t :: t in order ==> t in now.states
    requires next.states == Pass(flow.dag, now.states, order) && next.attempts == now.attempts
    requires BudgetOf(next, g) == Budget(n + 1, KvStore.Some(r.attempts[g]))
    ensures SentBack(flow, next, order, g, c, n + 1)
  {
    hide Pass, Blockers, BudgetOf;
    PassCalmly(flow.dag, now.states, order);
    SameListing(order, r.states, next.states);
    hide Listing;
  }

  lemma SameListing(order: seq<TaskId>, st: States, next: States)
    requires Listing(order, st) && st.Keys == next.Keys
    ensures Listing(order, next)
  {}

  /** Where nothing has failed, a pass keeps tasks at work, and changes only blocked ones, to pending. */
  lemma PassCalmly(dag: Dag, st: States, order: seq<TaskId>)
    requires (forall t :: t in order ==> t in st) && forall t :: t in st ==> AtWork(st[t])
    ensures forall t :: t in st ==>
      && AtWork(Pass(dag, st, order)[t])
      && (st[t] != Blocked ==> Pass(dag, st, order)[t] == st[t])
      && (st[t] == Blocked ==> Pass(dag, st, order)[t] in {Blocked, Pending})
  {
    hide Pass;
    forall t | t in st
      ensures AtWork(Pass(dag, st, order)[t])
      ensures st[t] != Blocked ==> Pass(dag, st, order)[t] == st[t]
      ensures st[t] == Blocked ==> Pass(dag, st, order)[t] in {Blocked, Pending}
    {
      PassStaysCalm(dag, st, order, t);
    }
  }

  lemma Apart(flow: Flow, g: TaskId, c: TaskId)
    requires SoleCheck(flow, g, c)
    ensures g != c && g in flow.dag && c in flow.dag
  {}

  lemma RedoesTask(flow: Flow, r: Record, order: seq<TaskId>, g: TaskId, c: TaskId, n: nat)
    requires SoleCheck(flow, g, c) && SentBack(flow, r, order, g, c, n)
    ensures var claimed := Apply(flow, r, Move(R.Claim(g)));
      && g in claimed.states && claimed.states[g] == InProgress
      && Redone(flow, Apply(flow, claimed, Move(R.Complete(g))), order, g, c, n)
  {
    hide Apply, SoleCheck, Blockers, Listing;
    Apart(flow, g, c);
    ClaimMoves(flow, r, g);
    CompleteMoves(flow, Apply(flow, r, Move(R.Claim(g))), g);
    SameListing(order, r.states, r.states[g := InProgress][g := Done]);
  }

  lemma ReleasesCheck(flow: Flow, r: Record, order: seq<TaskId>, g: TaskId, c: TaskId, n: nat)
    requires SoleCheck(flow, g, c) && Redone(flow, r, order, g, c, n)
    ensures var after := Apply(flow, r, Process(order));
      Redone(flow, after, order, g, c, n) && after.states[c] == Pending
  {
    hide SoleCheck, Listing, Cleared, ByTarget, Blockers, DepsSucceeded, Pass, Redone, Recovered;
    RedoneFacts(flow, r, order, g, c, n);
    ProcessIs(flow, r, order);
    NothingRecovered(flow, r, order);
    ClearedBudget(flow, r, order, g, c);
    ReleasedAfter(flow, r, Apply(flow, r, Process(order)), order, g, c, n);
  }

  lemma RedoneFacts(flow: Flow, r: Record, order: seq<TaskId>, g: TaskId, c: TaskId, n: nat)
    requires Redone(flow, r, order, g, c, n)
    ensures Listing(order, r.states) && c in r.states && !Success(r.states[c])
    ensures forall t :: t in order ==> t in r.states
    ensures forall t :: t in r.states ==> r.states[t] != Failed
  {}

  lemma NothingRecovered(flow: Flow, r: Record, order: seq<TaskId>)
    requires forall t :: t in r.states ==> r.states[t] != Failed
    ensures Recovered(flow, r, order) == r
  {
    ByTargetRecoverable(flow, r.states, order);
    NothingFailed(flow, r.states, order);
    hide ByTarget;
  }

  lemma ReleasedAfter(flow: Flow, r: Record, next: Record, order: seq<TaskId>, g: TaskId, c: TaskId, n: nat)
    requires Redone(flow, r, order, g, c, n) && (forall t :: t in order ==> t in r.states)
    requires next.states == Pass(flow.dag, r.states, order) && next.attempts == r.attempts
    requires BudgetOf(next, g) == BudgetOf(r, g)
    ensures Redone(flow, next, order, g, c, n) && next.states[c] == Pending
  {
    hide Pass, Blockers, BudgetOf;
    PassCalmly(flow.dag, r.states, order);
    Listed(order, r.states, c);
    SameListing(order, r.states, next.states);
    hide Listing;
    assert DepsSucceeded(flow.dag, r.states, c);
    if r.states[c] == Blocked { PassReleases(flow.dag, r.states, order, c); }
  }

  lemma Listed(order: seq<TaskId>, st: States, t: TaskId)
    requires Listing(order, st) && t in st
    ensures t in order
  {}

  lemma FailsAgain(flow: Flow, r: Record, order: seq<TaskId>, g: TaskId, c: TaskId, n: nat)
    requires SoleCheck(flow, g, c) && Redone(flow, r, order, g, c, n) && r.states[c] == Pending
    ensures var claimed := Apply(flow, r, Move(R.Claim(c)));
      && c in claimed.states && claimed.states[c] == InProgress
      && Failing(flow, Apply(flow, claimed, Move(R.Fail(c))), order, g, c, n)
  {
    hide Apply, SoleCheck, Blockers, Listing;
    Apart(flow, g, c);
    ClaimMoves(flow, r, c);
    FailMoves(flow, Apply(flow, r, Move(R.Claim(c))), c);
    SameListing(order, r.states, r.states[c := InProgress][c := Failed]);
  }

  // ---- all rounds ----

  function Again(order: seq<TaskId>, g: TaskId, c: TaskId): seq<Step> {
    [Process(order), Move(R.Claim(g)), Move(R.Complete(g)), Process(order), Move(R.Claim(c)), Move(R.Fail(c))]
  }

  lemma OneMoreRound(flow: Flow, steps: seq<Step>, order: seq<TaskId>, g: TaskId, c: TaskId, n: nat)
    requires SoleCheck(flow, g, c) && g in Blockers(flow.dag, c) && n + 1 <= MaxCount(flow.onFail[c])
    requires Failing(flow, Run(flow, Fresh(flow), steps), order, g, c, n)
    ensures Failing(flow, Run(flow, Fresh(flow), steps + Again(order, g, c)), order, g, c, n + 1)
    ensures Rollbacks(flow, Fresh(flow), steps + Again(order, g, c), c) == Rollbacks(flow, Fresh(flow), steps, c) + 1
  {
    hide Apply, Run, Rollbacks, SoleCheck, Failing, SentBack, Redone, Blockers, MaxCount, RollsBack;
    var f, k, d := Fresh(flow), Process(order), Move(R.Claim(g));
    var e, h, m := Move(R.Complete(g)), Move(R.Claim(c)), Move(R.Fail(c));
    var r0 := Run(flow, f, steps);
    RollsBackNow(flow, r0, order, g, c, n);
    RunSnoc(flow, f, steps, k, c);
    var r1 := Run(flow, f, steps + [k]);
    RedoesTask(flow, r1, order, g, c, n + 1);
    RunSnoc(flow, f, steps + [k], d, c);
    RunSnoc(flow, f, steps + [k] + [d], e, c);
    var r3 := Run(flow, f, steps + [k] + [d] + [e]);
    ReleasesCheck(flow, r3, order, g, c, n + 1);
    RunSnoc(flow, f, steps + [k] + [d] + [e], k, c);
    var r4 := Run(flow, f, steps + [k] + [d] + [e] + [k]);
    FailsAgain(flow, r4, order, g, c, n + 1);
    RunSnoc(flow, f, steps + [k] + [d] + [e] + [k], h, c);
    RunSnoc(flow, f, steps + [k] + [d] + [e] + [k] + [h], m, c);
    Apart(flow, g, c);
    NoRollback(flow, r1, d, c);
    NoRollback(flow, Run(flow, f, steps + [k] + [d]), e, c);
    NotFailedNoRollback(flow, r3, order, g, c, n + 1);
    NoRollback(flow, r4, h, c);
    NoRollback(flow, Run(flow, f, steps + [k] + [d] + [e] + [k] + [h]), m, c);
    assert steps + [k] + [d] + [e] + [k] + [h] + [m] == steps + Again(order, g, c);
  }

  lemma NoRollback(flow: Flow, r: Record, step: Step, c: TaskId)
    requires step.Move?
    ensures !RollsBack(flow, r, step, c)
  {}

  lemma NotFailedNoRollback(flow: Flow, r: Record, order: seq<TaskId>, g: TaskId, c: TaskId, n: nat)
    requires Redone(flow, r, order, g, c, n)
    ensures !RollsBack(flow, r, Process(order), c)
  {}

  /** With the edge, a sole check fails for the first time on a run without rollbacks. */
  lemma FirstFailure(flow: Flow, order: seq<TaskId>, g: TaskId, c: TaskId) returns (steps: seq<Step>)
    requires KnownRefs(flow.dag) && Acyclic(flow.dag) && SoleCheck(flow, g, c) && Listing(order, Created(flow.dag))
    requires g in Blockers(flow.dag, c)
    ensures Failing(flow, Run(flow, Fresh(flow), steps), order, g, c, 0)
    ensures Rollbacks(flow, Fresh(flow), steps, c) == 0
  {
    hide KnownRefs, Acyclic, Run, Rollbacks, Blockers, SoleCheck;
    hide Calm, Failing;
    Apart(flow, g, c);
    var r: Record;
    steps, r := FailedReached(flow, order, c);
    FirstFailing(flow, r, order, g, c);
  }

  lemma FirstFailing(flow: Flow, r: Record, order: seq<TaskId>, g: TaskId, c: TaskId)
    requires Calm(flow, r, order, c) && g in flow.dag && g != c && c in r.attempts
    requires forall d :: d in Blockers(flow.dag, c) ==> DoneIn(r, d)
    ensures Failing(flow, Record(r.states[c := InProgress][c := Failed], r.attempts[c := r.attempts[c] + 1], r.budgets),
                    order, g, c, 0)
  {
    hide Blockers;
    SameListing(order, r.states, r.states[c := InProgress][c := Failed]);
    hide Listing;
  }

  lemma {:induction false} Rounds(flow: Flow, order: seq<TaskId>, g: TaskId, c: TaskId, n: nat)
    returns (steps: seq<Step>)
    requires KnownRefs(flow.dag) && Acyclic(flow.dag) && SoleCheck(flow, g, c) && Listing(order, Created(flow.dag))
    requires g in Blockers(flow.dag, c) && (n == 0 || n <= MaxCount(flow.onFail[c]))
    ensures Failing(flow, Run(flow, Fresh(flow), steps), order, g, c, n)
    ensures Rollbacks(flow, Fresh(flow), steps, c) == n
  {
    hide KnownRefs, Acyclic, Run, Rollbacks, Blockers, SoleCheck, Listing, Failing, MaxCount;
    if n == 0 {
      steps := FirstFailure(flow, order, g, c);
    } else {
      var front := Rounds(flow, order, g, c, n - 1);
      OneMoreRound(flow, front, order, g, c, n - 1);
      steps := front + Again(order, g, c);
    }
  }

  /**
   The bound is attained: on a validated graph, a sole check that depends on its task sends it back exactly n times in
   some run, for every n up to max_fail_count.
   */
  lemma BoundAttained(flow: Flow, g: TaskId, c: TaskId, n: nat) returns (steps: seq<Step>)
    requires KnownRefs(flow.dag) && Acyclic(flow.dag) && SoleCheck(flow, g, c) && g in Blockers(flow.dag, c)
    requires n == 0 || n <= if flow.onFail[c].maxFailCount == 0 then 1 else flow.onFail[c].maxFailCount
    ensures Rollbacks(flow, Fresh(flow), steps, c) == n
  {
    SortedLists(flow.dag);
    hide KnownRefs, Acyclic, Run, Rollbacks, Blockers, SoleCheck, Listing, Failing;
    steps := Rounds(flow, SortedSet(flow.dag.Keys), g, c, n);
  }
}
