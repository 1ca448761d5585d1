/** A pass that changes nothing leaves work in somebody's hands, and a finished instance is judged honestly. */
module SchedulerVerdict {
  import opened Sequences
  import opened Graph
  import opened Scheduler
  import P = SchedulerProofs
  import R = SchedulerRuns

  lemma Shorten(order: seq<TaskId>)
    requires order != [] && Distinct(order)
    ensures Distinct(order[..|order| - 1]) && order[|order| - 1] !in order[..|order| - 1]
    ensures forall t :: t in order <==> t in order[..|order| - 1] || t == order[|order| - 1]
  {}

  lemma {:induction false} PassElsewhere(g: Dag, st: States, order: seq<TaskId>, t: TaskId)
    requires (forall u :: u in order ==> u in st) && t in st && t !in order
    ensures Pass(g, st, order)[t] == st[t]
  {
    P.PassUnfolds(g, st, order);
    if order != [] {
      hide Resolve, DepStates;
      assert order[|order| - 1] in order;
      PassElsewhere(g, st, order[..|order| - 1], t);
    }
  }

  /** No visit of a pass that changes nothing changes anything. */
  lemma {:induction false} IdlePass(g: Dag, st: States, order: seq<TaskId>, t: TaskId)
    requires (forall u :: u in order ==> u in st) && Distinct(order) && t in order
    requires Pass(g, st, order) == st
    ensures Resolve(st[t], DepStates(st, Blockers(g, t))) == st[t]
  {
    P.PassUnfolds(g, st, order);
    Shorten(order);
    var last, shorter := order[|order| - 1], order[..|order| - 1];
    var mid := Pass(g, st, shorter);
    PassElsewhere(g, st, shorter, last);
    hide Resolve, DepStates;
    assert mid == st by {
      forall u | u in st ensures mid[u] == st[u] { assert u != last ==> Visit(g, mid, last)[u] == mid[u]; }
    }
    if t != last { IdlePass(g, st, shorter, t); }
  }

  /** The states in which the next move belongs to a dispatcher, an agent or a person. */
  predicate InHand(s: State) {
    s in {Pending, InProgress, AwaitingReview, WaitingForHuman}
  }

  /** A waiting task whose dependencies are all terminal does not keep waiting. */
  lemma TerminalDepsDecide(cur: State, ds: seq<State>)
    requires (cur == Queued || cur == Blocked) && forall s :: s in ds ==> Terminal(s)
    ensures Resolve(cur, ds) != cur
  {}

  lemma TerminalDeps(g: Dag, st: States, unfinished: set<TaskId>, v: TaskId)
    requires KnownRefs(g) && st.Keys == g.Keys && v in g && !HasDepIn(g, unfinished, v)
    requires forall t :: t in unfinished <==> t in st && !Terminal(st[t])
    ensures forall s :: s in DepStates(st, Blockers(g, v)) ==> Terminal(s)
  {
    var bl := Blockers(g, v);
    forall s | s in DepStates(st, bl) ensures Terminal(s) {
      var i :| 0 <= i < |bl| && DepStates(st, bl)[i] == s;
      assert bl[i] in bl && RefsKnown(g, v);
      assert bl[i] in Deps(g, v) && bl[i] !in unfinished;
    }
  }

  /** No deadlock: a quiet pass on an unfinished instance means that some task is in hand. */
  lemma QuietPassHasWork(g: Dag, st: States, order: seq<TaskId>)
    requires KnownRefs(g) && Acyclic(g) && st.Keys == g.Keys && Listing(order, st)
    requires Pass(g, st, order) == st
    requires exists t :: t in st && !Terminal(st[t])
    ensures exists t :: t in st && InHand(st[t])
  {
    hide Pass, Resolve, DepStates, HasDepIn, KnownRefs, Acyclic, Blockers;
    var unfinished := set t | t in st && !Terminal(st[t]);
    var w :| w in st && !Terminal(st[w]);
    assert w in unfinished;
    var v := AcyclicSource(g, unfinished);
    TerminalDeps(g, st, unfinished, v);
    IdlePass(g, st, order, v);
    if !InHand(st[v]) { TerminalDepsDecide(st[v], DepStates(st, Blockers(g, v))); }
  }

  // ---- the verdict ----

  /** Why a task is skipped after a pass: some dependency has not succeeded, or it was skipped without any. */
  ghost predicate Excused(g: Dag, before: States, after: States, t: TaskId) {
    || (exists d :: d in Blockers(g, t) && d in after && !Success(after[d]))
    || (StateOf(before, t) == SkippedUpstreamFailed && Blockers(g, t) == [])
  }

  lemma SkipExcused(g: Dag, st: States, t: TaskId)
    requires KnownRefs(g) && st.Keys == g.Keys && t in g
    requires Waiting(st[t]) && Visit(g, st, t)[t] == SkippedUpstreamFailed
    ensures Excused(g, st, Visit(g, st, t), t)
  {
    var bl := Blockers(g, t);
    var ds := DepStates(st, bl);
    assert RefsKnown(g, t);
    if s :| s in ds && Failure(s) {
      var i :| 0 <= i < |ds| && ds[i] == s;
      assert bl[i] in bl && bl[i] in g;
      assert !Success(Visit(g, st, t)[bl[i]]);
    } else {
      assert ds == [];
    }
  }

  lemma {:induction false} SkippedExcused(g: Dag, st: States, order: seq<TaskId>, t: TaskId)
    requires KnownRefs(g) && st.Keys == g.Keys && (forall u :: u in order ==> u in st) && Distinct(order)
    requires t in order && Pass(g, st, order)[t] == SkippedUpstreamFailed
    ensures Excused(g, st, Pass(g, st, order), t)
  {
    P.PassUnfolds(g, st, order);
    Shorten(order);
    var last, shorter := order[|order| - 1], order[..|order| - 1];
    var mid := Pass(g, st, shorter);
    PassElsewhere(g, st, shorter, last);
    if t == last {
      SkipHere(g, st, mid, t);
    } else {
      assert mid[t] == SkippedUpstreamFailed by { hide Resolve, DepStates, Excused, KnownRefs; }
      hide Pass, Resolve, DepStates, Excused, KnownRefs, Distinct, Visit;
      SkippedExcused(g, st, shorter, t);
      ExcusedKeeps(g, st, mid, last, t);
    }
  }

  lemma SkipHere(g: Dag, st: States, mid: States, t: TaskId)
    requires KnownRefs(g) && mid.Keys == st.Keys == g.Keys && t in g && mid[t] == st[t]
    requires Visit(g, mid, t)[t] == SkippedUpstreamFailed
    ensures Excused(g, st, Visit(g, mid, t), t)
  {
    assert Waiting(mid[t]);
    SkipExcused(g, mid, t);
  }

  lemma ExcusedKeeps(g: Dag, before: States, mid: States, u: TaskId, t: TaskId)
    requires Excused(g, before, mid, t) && u in mid
    ensures Excused(g, before, Visit(g, mid, u), t)
  {
    if d :| d in Blockers(g, t) && d in mid && !Success(mid[d]) {
      assert d in Visit(g, mid, u) && !Success(Visit(g, mid, u)[d]);
    }
  }

  ghost predicate Finished(st: States) {
    forall t :: t in st ==> Terminal(st[t])
  }

  /** What can start a chain of skips: a task that failed or was aborted, or a skip nothing accounts for. */
  ghost predicate Culprit(g: Dag, before: States, after: States, r: TaskId) {
    && r in after
    && (after[r] == Failed || after[r] == Aborted
        || (after[r] == SkippedUpstreamFailed && StateOf(before, r) == SkippedUpstreamFailed && Blockers(g, r) == []))
  }

  lemma {:induction false} FailureHasCulprit(g: Dag, rank: map<TaskId, nat>, st: States, order: seq<TaskId>, t: TaskId)
    returns (r: TaskId)
    requires KnownRefs(g) && Ranking(g, rank) && st.Keys == g.Keys && Listing(order, st)
    requires Finished(Pass(g, st, order)) && t in st && Failure(Pass(g, st, order)[t])
    ensures Reaches(g, t, r) && Culprit(g, st, Pass(g, st, order), r)
    decreases rank[t]
  {
    var after := Pass(g, st, order);
    if Culprit(g, st, after, t) {
      r := t;
      ReachesSelf(g, t);
    } else {
      SkippedExcused(g, st, order, t);
      var d :| d in Blockers(g, t) && d in after && !Success(after[d]);
      r := FailureHasCulprit(g, rank, st, order, d);
      ReachesStep(g, t, d, r);
    }
  }

  lemma VerdictWhenFinished(st: States)
    requires Finished(st)
    ensures st != map[] ==>
      && (Verdict(st) == Succeeded <==> forall t :: t in st ==> Success(st[t]))
      && (Verdict(st) == Failed <==> exists t :: t in st && Failure(st[t]))
  {}

  ghost predicate DownstreamOfFailure(g: Dag, st: States, t: TaskId) {
    exists r :: Reaches(g, t, r) && r in st && (st[r] == Failed || st[r] == Aborted)
  }

  /** Every skipped task has a dependency to be skipped for. */
  ghost predicate SkipsHaveDeps(g: Dag, st: States) {
    forall t :: t in st && st[t] == SkippedUpstreamFailed ==> Blockers(g, t) != []
  }

  ghost predicate SkipsExplained(g: Dag, st: States) {
    forall t :: t in st && st[t] == SkippedUpstreamFailed ==> DownstreamOfFailure(g, st, t)
  }

  ghost predicate SomeFailed(st: States) {
    exists t :: t in st && (st[t] == Failed || st[t] == Aborted)
  }

  lemma FailuresExplained(g: Dag, st: States, order: seq<TaskId>)
    requires KnownRefs(g) && Acyclic(g) && st.Keys == g.Keys && Listing(order, st)
    requires Finished(Pass(g, st, order))
    requires SkipsHaveDeps(g, st)
    ensures forall t :: t in st && Failure(Pass(g, st, order)[t]) ==> DownstreamOfFailure(g, Pass(g, st, order), t)
  {
    var rank := AcyclicRanking(g, g.Keys);
    hide Pass, KnownRefs, Acyclic, Listing, Blockers, Finished;
    forall t | t in st && Failure(Pass(g, st, order)[t]) ensures DownstreamOfFailure(g, Pass(g, st, order), t) {
      var r := FailureHasCulprit(g, rank, st, order, t);
    }
  }

  lemma VerdictExplained(g: Dag, after: States)
    requires Finished(after) && after != map[]
    requires forall t :: t in after && Failure(after[t]) ==> DownstreamOfFailure(g, after, t)
    ensures Verdict(after) == Failed <==> exists t :: t in after && (after[t] == Failed || after[t] == Aborted)
  {
    VerdictWhenFinished(after);
    if t :| t in after && Failure(after[t]) { assert DownstreamOfFailure(g, after, t); }
  }

  /** A pass leaves a skipped task without dependencies skipped, and neither fails nor aborts nor revives anything. */
  lemma {:induction false} PassKeepsFailures(g: Dag, st: States, order: seq<TaskId>, t: TaskId)
    requires (forall u :: u in order ==> u in st) && t in st
    ensures st[t] == SkippedUpstreamFailed && Blockers(g, t) == [] ==> Pass(g, st, order)[t] == SkippedUpstreamFailed
    ensures (Pass(g, st, order)[t] == Failed <==> st[t] == Failed)
    ensures (Pass(g, st, order)[t] == Aborted <==> st[t] == Aborted)
  {
    P.PassUnfolds(g, st, order);
    if order != [] {
      hide Resolve, DepStates, Blockers;
      assert order[|order| - 1] in order;
      PassKeepsFailures(g, st, order[..|order| - 1], t);
      var before := Pass(g, st, order[..|order| - 1]);
      ResolveKeepsFailures(before[t], DepStates(before, Blockers(g, t)));
      NoDepStates(before);
    }
  }

  lemma ResolveKeepsFailures(cur: State, ds: seq<State>)
    ensures cur == SkippedUpstreamFailed && ds == [] ==> Resolve(cur, ds) == cur
    ensures (Resolve(cur, ds) == Failed <==> cur == Failed) && (Resolve(cur, ds) == Aborted <==> cur == Aborted)
    ensures Resolve(cur, []) == SkippedUpstreamFailed ==> cur == SkippedUpstreamFailed
  {}

  lemma NoDepStates(st: States)
    ensures DepStates(st, []) == []
  {}

  lemma FirstStep(g: Dag, p: seq<TaskId>)
    requires Chain(g, p) && |p| > 1
    ensures p[1] in Deps(g, p[0])
  {}

  lemma NoDepsNoFailureAhead(g: Dag, st: States, t: TaskId)
    requires KnownRefs(g) && t in g && Blockers(g, t) == [] && t in st && st[t] == SkippedUpstreamFailed
    ensures !DownstreamOfFailure(g, st, t)
  {
    assert RefsKnown(g, t);
    NamedOnlyId(Deps(g, t));
    forall r | Reaches(g, t, r) ensures r == t {
      var p :| PathBetween(g, p, t, r);
      if |p| > 1 {
        FirstStep(g, p);
        assert false;
      }
    }
  }

  lemma ExplainedMeansDeps(g: Dag, st: States, order: seq<TaskId>)
    requires KnownRefs(g) && st.Keys == g.Keys && Listing(order, st) && SkipsExplained(g, Pass(g, st, order))
    ensures SkipsHaveDeps(g, st)
  {
    hide Pass, DownstreamOfFailure, KnownRefs, Blockers;
    forall t | t in st && st[t] == SkippedUpstreamFailed ensures Blockers(g, t) != [] {
      if Blockers(g, t) == [] {
        PassKeepsFailures(g, st, order, t);
        NoDepsNoFailureAhead(g, Pass(g, st, order), t);
      }
    }
  }

  lemma SomeFailedKept(g: Dag, st: States, order: seq<TaskId>)
    requires forall u :: u in order ==> u in st
    ensures SomeFailed(Pass(g, st, order)) <==> SomeFailed(st)
  {
    forall t | t in st
      ensures Pass(g, st, order)[t] == Failed <==> st[t] == Failed
      ensures Pass(g, st, order)[t] == Aborted <==> st[t] == Aborted
    {
      PassKeepsFailures(g, st, order, t);
    }
    hide Pass;
  }

  /**
   When a pass leaves every task terminal, the instance is SUCCEEDED exactly when every task succeeded. Every skipped
   task is then downstream of a failed or aborted one if and only if no task without dependencies was skipped before;
   and FAILED means that some task failed or was aborted if and only if that is so or one indeed did.
   */
  lemma HonestVerdict(g: Dag, st: States, order: seq<TaskId>)
    requires KnownRefs(g) && Acyclic(g) && st.Keys == g.Keys && Listing(order, st) && st != map[]
    requires Finished(Pass(g, st, order))
    ensures Verdict(Pass(g, st, order)) == Succeeded <==> forall t :: t in st ==> Success(Pass(g, st, order)[t])
    ensures SkipsExplained(g, Pass(g, st, order)) <==> SkipsHaveDeps(g, st)
    ensures (Verdict(Pass(g, st, order)) == Failed <==> SomeFailed(Pass(g, st, order)))
      <==> SkipsHaveDeps(g, st) || SomeFailed(st)
  {
    var after := Pass(g, st, order);
    if SkipsHaveDeps(g, st) { FailuresExplained(g, st, order); }
    if SkipsExplained(g, after) { ExplainedMeansDeps(g, st, order); }
    SomeFailedKept(g, st, order);
    VerdictWhenFinished(after);
    if !SkipsHaveDeps(g, st) {
      var t :| t in st && st[t] == SkippedUpstreamFailed && Blockers(g, t) == [];
      PassKeepsFailures(g, st, order, t);
    }
    hide Pass, KnownRefs, Acyclic, Listing, Blockers, Verdict, DownstreamOfFailure, Finished;
    if SkipsHaveDeps(g, st) { VerdictExplained(g, after); }
  }

  /** The verdict in literal states; there is none (QUEUED stands for that) while a task is in any other state. */
  lemma VerdictAnswers(st: States)
    ensures var ended := {Done, Succeeded, Failed, Aborted, SkippedUpstreamFailed};
      && (st == map[] || (exists t :: t in st && st[t] !in ended) ==> Verdict(st) == Queued)
      && (st != map[] && (forall t :: t in st ==> st[t] in ended) ==>
        Verdict(st) == if forall t :: t in st ==> st[t] in {Done, Succeeded} then Succeeded else Failed)
  {
    var ended := {Done, Succeeded, Failed, Aborted, SkippedUpstreamFailed};
    assert forall t :: t in st ==> (Terminal(st[t]) <==> st[t] in ended);
  }

  // ---- the verdict in every reachable state ----

  lemma {:induction false} PassSkipsHaveDeps(g: Dag, st: States, order: seq<TaskId>)
    requires SkipsHaveDeps(g, st) && forall u :: u in order ==> u in st
    ensures SkipsHaveDeps(g, Pass(g, st, order))
  {
    P.PassUnfolds(g, st, order);
    if order != [] {
      hide Resolve, DepStates, Blockers;
      var last, before := order[|order| - 1], Pass(g, st, order[..|order| - 1]);
      assert last in order;
      PassSkipsHaveDeps(g, st, order[..|order| - 1]);
      ResolveKeepsFailures(before[last], []);
      NoDepStates(before);
    }
  }

  lemma StepSkipsHaveDeps(g: Dag, st: States, step: R.Step)
    requires SkipsHaveDeps(g, st)
    ensures SkipsHaveDeps(g, R.Apply(g, st, step))
  {
    hide Pass, Impact, Blockers, SkipsHaveDeps;
    match step
    case Activate(order) => if forall t :: t in order ==> t in st { PassSkipsHaveDeps(g, st, order); }
    case _ => FewerSkips(g, st, R.Apply(g, st, step));
  }

  lemma FewerSkips(g: Dag, st: States, next: States)
    requires SkipsHaveDeps(g, st)
    requires forall t :: t in next && next[t] == SkippedUpstreamFailed ==> t in st && st[t] == SkippedUpstreamFailed
    ensures SkipsHaveDeps(g, next)
  {}

  lemma {:induction false} RunSkipsHaveDeps(g: Dag, steps: seq<R.Step>)
    ensures SkipsHaveDeps(g, R.Run(g, Created(g), steps))
  {
    hide R.Apply, Blockers;
    if steps != [] {
      RunSkipsHaveDeps(g, steps[..|steps| - 1]);
      StepSkipsHaveDeps(g, R.Run(g, Created(g), steps[..|steps| - 1]), steps[|steps| - 1]);
    }
  }

  /**
   In every state an instance can reach, the verdict of a pass that finishes it is honest: every skipped task is
   downstream of a failed or aborted one, SUCCEEDED means that all succeeded, and FAILED that some task failed or was
   aborted.
   */
  lemma EveryVerdictHonest(g: Dag, steps: seq<R.Step>, order: seq<TaskId>)
    requires KnownRefs(g) && Acyclic(g) && g != map[]
    requires var st := R.Run(g, Created(g), steps); Listing(order, st) && Finished(Pass(g, st, order))
    ensures var after := Pass(g, R.Run(g, Created(g), steps), order);
      && SkipsExplained(g, after)
      && (Verdict(after) == Succeeded <==> forall t :: t in after ==> Success(after[t]))
      && (Verdict(after) == Failed <==> SomeFailed(after))
  {
    hide Pass, Verdict, SkipsExplained, SkipsHaveDeps, KnownRefs, Acyclic, Finished, R.Run;
    var st := R.Run(g, Created(g), steps);
    RunSkipsHaveDeps(g, steps);
    assert st.Keys == g.Keys && st != map[];
    HonestVerdict(g, st, order);
  }

  /**
   In a state no run reaches: one task skipped without dependencies makes an instance FAILED though nothing failed.
   */
  lemma UnexplainedSkipFails(t: TaskId)
    ensures var g, st := map[t := []], map[t := SkippedUpstreamFailed];
      Pass(g, st, [t]) == st && Verdict(st) == Failed && forall u :: u in st ==> st[u] != Failed && st[u] != Aborted
  {
    var g: Dag, st := map[t := []], map[t := SkippedUpstreamFailed];
    assert Pass(g, st, [t]) == Visit(g, Pass(g, st, [t][..0]), t);
    assert DepStates(st, Blockers(g, t)) == [];
    assert t in st;
  }
}
