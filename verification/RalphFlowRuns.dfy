/** Running a compiled template: how often its checks send a step back. */
module RalphFlowRuns {
  import opened Texts
  import opened Graph
  import opened KvStore
  import Scheduler
  import opened CheckRollback
  import CheckRollbackBound
  import RollbackSafety
  import SchedulerRuns
  import opened TemplateValidation
  import opened TemplateFlow
  import opened RalphFlow
  import opened RalphFlowIds
  import opened RalphFlowProofs

  /** A task of the template other than check c of step i counts in another budget and sends back another step. */
  ghost predicate Elsewhere(steps: seq<Step>, t: TaskDef, g: Text) {
    && Strip(t.failGroup) != g
    && (t.onFail.Object? ==>
      && t.failGroup != [] && t.failGroup != g
      && Rollback(t.onFail).target != g && IsStep(steps, Rollback(t.onFail).target))
  }

  lemma OtherTasksElsewhere(steps: seq<Step>, settings: Settings, i: nat, j: nat, t: TaskDef)
    requires Apart(steps) && Budgeted(steps) && GoodIds(steps) && i < |steps| && j < |steps|
    requires forall k :: 0 <= k < |steps| ==> IsStep(steps, steps[k].onFail)
    requires |CheckIds(steps[i])| == 1 && forall k :: 0 <= k < |steps| ==> (steps[k].onFail == steps[i].id <==> k == i)
    requires FromStep(steps, settings, steps[j], t) && t.id != CheckIds(steps[i])[0]
    ensures Elsewhere(steps, t, steps[i].id)
  {
    hide Apart, CheckIds, GoodIds, DoTask, Strip, CheckTasks, CheckTask;
    IdsClean(steps, i);
    IdsClean(steps, j);
    ApartDistinct(steps);
    DoTaskPlain(steps, settings, steps[j]);
    if t == DoTask(steps, settings, steps[j]) {
      NothingToStrip();
    } else {
      var m := CheckTaskOf(settings, steps[j], t);
      assert i != j;
      assert steps[j].id != steps[i].id;
    }
  }

  lemma NothingToStrip()
    ensures Strip([]) == []
  {}

  lemma CheckTaskOf(settings: Settings, s: Step, t: TaskDef) returns (m: nat)
    requires s.maxFailCount.Some? && t in CheckTasks(settings, s)
    ensures m < |CheckIds(s)| && t.id == CheckIds(s)[m] && t.failGroup == s.id
    ensures t.onFail == Object(Some(s.onFail), s.maxFailCount.value)
  {
    hide CheckIds, CheckHeader, Criteria;
    var k :| 0 <= k < |CheckTasks(settings, s)| && CheckTasks(settings, s)[k] == t;
    m := k;
  }

  lemma IdsClean(steps: seq<Step>, i: nat)
    requires GoodIds(steps) && i < |steps|
    ensures steps[i].id != [] && Strip(steps[i].id) == steps[i].id
  {}

  /**
   A compiled step with one check that falls back to itself, and to which no other step falls back, meets the conditions
   of CheckRollbackBound.RollbacksBounded: in every run its check sends it back at most max_fail_count times between
   passes.
   */
  lemma CompiledRollbacksBounded(steps: seq<Step>, settings: Settings, i: nat, run: seq<CheckRollbackBound.Step>)
    requires Compilable(steps, settings) && GoodIds(steps) && Budgeted(steps) && i < |steps|
    requires |CheckIds(steps[i])| == 1 && forall j :: 0 <= j < |steps| ==> (steps[j].onFail == steps[i].id <==> j == i)
    ensures var flow := FlowOf(TasksOf(steps, settings, steps));
      CheckRollbackBound.Rollbacks(flow, Fresh(flow), run, CheckIds(steps[i])[0]) <= steps[i].maxFailCount.value
  {
    hide FlowOf, CheckIds, TasksOf, Compilable, GoodIds;
    var flow := FlowOf(TasksOf(steps, settings, steps));
    CompiledSoleCheck(steps, settings, i);
    BudgetPositive(steps, settings, i);
    CheckRollbackBound.RollbacksBounded(flow, run, steps[i].id, CheckIds(steps[i])[0], []);
  }

  lemma BudgetPositive(steps: seq<Step>, settings: Settings, i: nat)
    requires Compilable(steps, settings) && i < |steps|
    ensures steps[i].maxFailCount.Some? && steps[i].maxFailCount.value >= 1
  {}

  lemma CompiledSoleCheck(steps: seq<Step>, settings: Settings, i: nat)
    requires Compilable(steps, settings) && GoodIds(steps) && Budgeted(steps) && i < |steps|
    requires |CheckIds(steps[i])| == 1 && forall j :: 0 <= j < |steps| ==> (steps[j].onFail == steps[i].id <==> j == i)
    ensures var flow := FlowOf(TasksOf(steps, settings, steps));
      var g, c := steps[i].id, CheckIds(steps[i])[0];
      && CheckRollbackBound.SoleCheck(flow, g, c) && g in Scheduler.Blockers(flow.dag, c)
      && flow.onFail[c] == OnFail(g, steps[i].maxFailCount.value)
  {
    hide CheckIds, TasksOf, DagOf, OnFails, Groups, ContractsHold, KnownRefs, Lowered, Compilable, GoodIds, Apart;
    hide FromStep, IsStep;
    var ts := TasksOf(steps, settings, steps);
    CompiledFacts(steps, settings);
    CompilableFallbacks(steps, settings);
    OwnCheck(steps, settings, i, ts);
    var g, c := steps[i].id, CheckIds(steps[i])[0];
    forall t | t in Groups(ts) && t != c ensures OtherFlow(steps, ts, t, g) { OtherFlowAt(steps, settings, i, t); }
    forall t | t in OnFails(ts) ensures t in Groups(ts) { OnFailsGrouped(ts, t); }
  }

  ghost predicate OtherFlow(steps: seq<Step>, ts: seq<TaskDef>, t: Text, g: Text)
    requires t in Groups(ts)
  {
    && Strip(Groups(ts)[t]) != g
    && (t in OnFails(ts) ==>
      Groups(ts)[t] != [] && Groups(ts)[t] != g && OnFails(ts)[t].target != g && IsStep(steps, OnFails(ts)[t].target))
  }

  lemma OtherFlowAt(steps: seq<Step>, settings: Settings, i: nat, t: Text)
    requires Apart(steps) && Budgeted(steps) && GoodIds(steps) && i < |steps|
    requires forall k :: 0 <= k < |steps| ==> IsStep(steps, steps[k].onFail)
    requires |CheckIds(steps[i])| == 1 && forall k :: 0 <= k < |steps| ==> (steps[k].onFail == steps[i].id <==> k == i)
    requires DistinctIds(TasksOf(steps, settings, steps)) && t in Groups(TasksOf(steps, settings, steps))
    requires t != CheckIds(steps[i])[0]
    ensures OtherFlow(steps, TasksOf(steps, settings, steps), t, steps[i].id)
  {
    hide CheckIds, TasksOf, OnFails, Groups, GoodIds, Apart, FromStep, IsStep;
    var ts := TasksOf(steps, settings, steps);
    FlowKeys(ts);
    var k :| 0 <= k < |ts| && IdsOf(ts)[k] == t;
    FlowOfTask(ts, k);
    assert ts[k] in ts;
    TaskComesFrom(steps, settings, steps, ts[k]);
    var j :| 0 <= j < |steps| && FromStep(steps, settings, steps[j], ts[k]);
    OtherTasksElsewhere(steps, settings, i, j, ts[k]);
  }

  lemma CompilableFallbacks(steps: seq<Step>, settings: Settings)
    requires Compilable(steps, settings)
    ensures forall k :: 0 <= k < |steps| ==> IsStep(steps, steps[k].onFail)
  {}

  /** The one check of step i: in the graph, behind its step, with the step's fallback and group. */
  lemma OwnCheck(steps: seq<Step>, settings: Settings, i: nat, ts: seq<TaskDef>)
    requires Budgeted(steps) && ts == TasksOf(steps, settings, steps) && DistinctIds(ts) && GoodIds(steps)
    requires Lowered(DagOf(ts), steps) && Apart(steps) && i < |steps|
    ensures var g, c := steps[i].id, CheckIds(steps[i])[0];
      && g in DagOf(ts) && c in DagOf(ts) && g != c && g != [] && !IsStep(steps, c)
      && g in Scheduler.Blockers(DagOf(ts), c)
      && c in OnFails(ts) && OnFails(ts)[c] == OnFail(steps[i].onFail, steps[i].maxFailCount.value)
      && c in Groups(ts) && Groups(ts)[c] == g
  {
    var g, c := steps[i].id, CheckIds(steps[i])[0];
    assert IsCheckOf(steps[i], c) && g != [] by { IdsClean(steps, i); }
    CompiledTaskOf(steps, settings, i);
    assert HasCheckTask(steps, settings, steps[i], c);
    var m :| 0 <= m < |CheckIds(steps[i])| && CheckIds(steps[i])[m] == c && CheckTask(settings, steps[i], m) in ts;
    var k :| 0 <= k < |ts| && ts[k] == CheckTask(settings, steps[i], m);
    FlowOfTask(ts, k);
    OwnerUnique(steps, i, c);
    LoweredKeys(DagOf(ts), steps);
    hide CheckIds, TasksOf, DagOf, OnFails, Groups;
  }

  // ---- safety with rollbacks ----

  /** Every step has one check, which falls back to its own step. */
  ghost predicate SelfChecked(steps: seq<Step>) {
    forall i :: 0 <= i < |steps| ==> |CheckIds(steps[i])| == 1 && steps[i].onFail == steps[i].id
  }

  /** A compiled task with a fallback is the check of some step, and falls back where its step says. */
  lemma FallbackOwner(steps: seq<Step>, settings: Settings, c: Text) returns (j: nat)
    requires Budgeted(steps) && DistinctIds(TasksOf(steps, settings, steps))
    requires c in OnFails(TasksOf(steps, settings, steps))
    ensures j < |steps| && IsCheckOf(steps[j], c)
    ensures OnFails(TasksOf(steps, settings, steps))[c].target == steps[j].onFail
  {
    hide TasksOf, OnFails, Groups, FromStep, CheckIds, DoTask, CheckTasks;
    var ts := TasksOf(steps, settings, steps);
    FlowKeys(ts);
    var k :| 0 <= k < |ts| && IdsOf(ts)[k] == c;
    FlowOfTask(ts, k);
    assert ts[k] in ts;
    TaskComesFrom(steps, settings, steps, ts[k]);
    var m :| 0 <= m < |steps| && FromStep(steps, settings, steps[m], ts[k]);
    DoTaskPlain(steps, settings, steps[m]);
    FromStepTask(steps, settings, steps[m], ts[k]);
    var index := CheckTaskOf(settings, steps[m], ts[k]);
    j := m;
  }

  lemma OnlyCheckFollows(g: Dag, steps: seq<Step>, j: nat, c: Text, u: Text)
    requires Lowered(g, steps) && Apart(steps) && SelfChecked(steps) && j < |steps| && IsCheckOf(steps[j], c)
    requires u in g && steps[j].id in Deps(g, u)
    ensures u == c
  {
    hide CheckIds, Lowered, OnPass;
    LoweredKeys(g, steps);
    if IsStep(steps, u) {
      var m := StepBefore(g, steps, u, steps[j].id);
      ChecksAreNoSteps(steps, m, steps[j].id);
      assert false;
    }
    var m :| 0 <= m < |steps| && IsCheckOf(steps[m], u);
    CheckDeps(g, steps, m, u);
    assert m == j;
  }

  /**
   Workflows in which each step has one check that falls back to its own step: compiled, they run safely, rollbacks
   included, in every run.
   */
  lemma CompiledRunsSafe(steps: seq<Step>, settings: Settings, run: seq<CheckRollbackBound.Step>)
    requires Compilable(steps, settings) && GoodIds(steps) && Budgeted(steps) && Acyclic(OnPass(steps))
    requires SelfChecked(steps)
    ensures var flow := FlowOf(TasksOf(steps, settings, steps));
      && RollbackSafety.Guarded(flow)
      && SchedulerRuns.Safe(flow.dag, CheckRollbackBound.Run(flow, Fresh(flow), run).states)
  {
    hide TasksOf, DagOf, OnFails, Groups, OnPass, Acyclic, Lowered, Apart, KnownRefs, ContractsHold, GoodIds;
    hide Compilable, SelfChecked, CheckIds, IsCheckOf, Fresh, SchedulerRuns.Safe, CheckRollbackBound.Run;
    CompiledFacts(steps, settings);
    CompiledAcyclic(steps, settings);
    var flow := FlowOf(TasksOf(steps, settings, steps));
    forall c | c in flow.onFail && c in flow.dag && flow.onFail[c].target in flow.dag
      ensures flow.onFail[c].target in Deps(flow.dag, c)
      ensures forall u :: u in flow.dag && flow.onFail[c].target in Deps(flow.dag, u) ==> u == c
    {
      var j := FallbackOwner(steps, settings, c);
      SelfTarget(steps, j);
      CheckDeps(flow.dag, steps, j, c);
      forall u | u in flow.dag && flow.onFail[c].target in Deps(flow.dag, u) ensures u == c {
        OnlyCheckFollows(flow.dag, steps, j, c, u);
      }
    }
    RollbackSafety.EveryRollbackRunSafe(flow, run);
  }

  lemma SelfTarget(steps: seq<Step>, j: nat)
    requires SelfChecked(steps) && j < |steps|
    ensures steps[j].onFail == steps[j].id
  {}
}
