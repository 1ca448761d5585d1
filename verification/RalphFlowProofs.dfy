/** What the compiled template is worth: the validator's verdict on it, and what its DO tasks wait for. */
module RalphFlowProofs {
  import opened Texts
  import opened Graph
  import opened KvStore
  import opened TemplateValidation
  import opened RalphFlow
  import opened RalphFlowIds

  // ---- the state machine as a graph ----

  function Next(s: Step): seq<Text> {
    if s.onPass == DONE() then [] else [s.onPass]
  }

  /** Each step points at the step its on_pass names, if that is not "done". */
  function OnPass(steps: seq<Step>): Dag {
    if steps == [] then map[] else OnPass(steps[..|steps| - 1])[steps[|steps| - 1].id := Next(steps[|steps| - 1])]
  }

  lemma {:induction false} OnPassOf(steps: seq<Step>)
    ensures forall x :: x in OnPass(steps) <==> IsStep(steps, x)
    ensures DistinctSteps(steps) ==> forall i :: 0 <= i < |steps| ==> Deps(OnPass(steps), steps[i].id) == Next(steps[i])
  {
    if steps != [] {
      var front := steps[..|steps| - 1];
      hide IsStep;
      OnPassOf(front);
      assert steps[..|steps| - 1 + 1] == steps;
      IsStepNext(steps, |steps| - 1);
      if DistinctSteps(steps) {
        forall i | 0 <= i < |front| ensures Deps(OnPass(steps), steps[i].id) == Next(steps[i]) {
          assert front[i] == steps[i];
          assert Deps(OnPass(front), front[i].id) == Next(front[i]);
        }
      }
    }
  }

  // ---- the compiled graph ----

  predicate IsCheck(steps: seq<Step>, x: Text) {
    exists j :: 0 <= j < |steps| && IsCheckOf(steps[j], x)
  }

  /** Step s goes on to the step t. */
  predicate GoesOn(s: Step, t: Text) {
    s.onPass == t && t != DONE()
  }

  lemma {:induction false} DoDepsMembers(steps: seq<Step>, target: Text)
    ensures forall c :: c in DoDeps(steps, target) <==>
      exists j :: 0 <= j < |steps| && GoesOn(steps[j], target) && IsCheckOf(steps[j], c)
  {
    if steps != [] {
      var front, last := steps[..|steps| - 1], steps[|steps| - 1];
      DoDepsMembers(front, target);
      hide CheckIds;
      forall c ensures c in DoDeps(steps, target) <==>
        exists j :: 0 <= j < |steps| && GoesOn(steps[j], target) && IsCheckOf(steps[j], c)
      {
        if c in DoDeps(front, target) {
          var j :| 0 <= j < |front| && GoesOn(front[j], target) && IsCheckOf(front[j], c);
          assert steps[j] == front[j];
        } else if c in DoDeps(steps, target) {
          assert steps[|steps| - 1] == last && GoesOn(last, target) && IsCheckOf(last, c);
        }
        if j :| 0 <= j < |steps| && GoesOn(steps[j], target) && IsCheckOf(steps[j], c) {
          if j < |front| { assert front[j] == steps[j]; }
        }
      }
    }
  }

  /** The compiled graph: steps wait for the checks of the steps that go on to them, checks for their step. */
  ghost predicate Lowered(g: Dag, steps: seq<Step>) {
    && (forall x :: x in g <==> IsStep(steps, x) || IsCheck(steps, x))
    && (forall i, c :: 0 <= i < |steps| ==>
      (c in Deps(g, steps[i].id) <==>
        exists j :: 0 <= j < |steps| && GoesOn(steps[j], steps[i].id) && IsCheckOf(steps[j], c)))
    && (forall j, c :: 0 <= j < |steps| && IsCheckOf(steps[j], c) ==> Deps(g, c) == [steps[j].id])
  }

  // ---- the compiled tasks ----

  predicate FromStep(steps: seq<Step>, settings: Settings, s: Step, t: TaskDef)
    requires s.maxFailCount.Some?
  {
    t == DoTask(steps, settings, s) || t in CheckTasks(settings, s)
  }

  lemma FromStepTask(steps: seq<Step>, settings: Settings, s: Step, t: TaskDef)
    requires s.maxFailCount.Some?
    ensures FromStep(steps, settings, s, t) <==> t in [DoTask(steps, settings, s)] + CheckTasks(settings, s)
  {
    hide DoTask, CheckTasks;
  }

  ghost predicate Made(steps: seq<Step>, settings: Settings, some: seq<Step>, t: TaskDef)
    requires Budgeted(some)
  {
    exists j :: 0 <= j < |some| && FromStep(steps, settings, some[j], t)
  }

  lemma MadeSnoc(steps: seq<Step>, settings: Settings, some: seq<Step>, t: TaskDef)
    requires Budgeted(some) && some != []
    ensures Made(steps, settings, some, t) <==>
      Made(steps, settings, some[..|some| - 1], t) || FromStep(steps, settings, some[|some| - 1], t)
  {
    hide FromStep;
    var front := some[..|some| - 1];
    if Made(steps, settings, front, t) {
      var j :| 0 <= j < |front| && FromStep(steps, settings, front[j], t);
      assert FromStep(steps, settings, some[j], t);
    }
    if Made(steps, settings, some, t) {
      var j :| 0 <= j < |some| && FromStep(steps, settings, some[j], t);
      if j < |front| { assert FromStep(steps, settings, front[j], t); }
    }
  }

  lemma {:induction false} TaskComesFrom(steps: seq<Step>, settings: Settings, some: seq<Step>, t: TaskDef)
    requires Budgeted(some)
    ensures t in TasksOf(steps, settings, some) <==> Made(steps, settings, some, t)
  {
    hide DoTask, CheckTasks, FromStep;
    if some != [] {
      var front, last := some[..|some| - 1], some[|some| - 1];
      TaskComesFrom(steps, settings, front, t);
      FromStepTask(steps, settings, last, t);
      hide Made;
      MadeSnoc(steps, settings, some, t);
      assert TasksOf(steps, settings, some)
        == TasksOf(steps, settings, front) + ([DoTask(steps, settings, last)] + CheckTasks(settings, last));
    }
  }

  /** The ids of the tasks that come from a step are the step's id and its check ids. */
  lemma IdsFromStep(steps: seq<Step>, settings: Settings, s: Step, t: TaskDef)
    requires s.maxFailCount.Some? && FromStep(steps, settings, s, t)
    ensures t.id == s.id || IsCheckOf(s, t.id)
  {
    if t in CheckTasks(settings, s) {
      var m :| 0 <= m < |CheckTasks(settings, s)| && CheckTasks(settings, s)[m] == t;
    }
  }

  lemma StepsApart(s: Step, u: Step, x: Text)
    requires IsCheckOf(s, x) && IsCheckOf(u, x)
    ensures s.id == u.id
  {
    var i :| 0 <= i < |CheckIds(s)| && CheckIds(s)[i] == x;
    var j :| 0 <= j < |CheckIds(u)| && CheckIds(u)[j] == x;
    CheckIdsApart(s, i, u, j);
  }

  lemma OwnTasksDistinct(steps: seq<Step>, settings: Settings, s: Step)
    requires s.maxFailCount.Some?
    ensures DistinctIds([DoTask(steps, settings, s)] + CheckTasks(settings, s))
  {
    var own := [DoTask(steps, settings, s)] + CheckTasks(settings, s);
    hide CheckIds, DoDeps;
    forall i, j | 0 <= i < j < |own| ensures own[i].id != own[j].id {
      CheckIdsApart(s, j - 1, s, if i == 0 then 0 else i - 1);
    }
  }

  lemma DistinctConcat(a: seq<TaskDef>, b: seq<TaskDef>)
    requires DistinctIds(a) && DistinctIds(b)
    requires forall t, u :: t in a && u in b ==> t.id != u.id
    ensures DistinctIds(a + b)
  {
    forall i, j | 0 <= i < |a| && 0 <= j < |b| ensures a[i].id != b[j].id {
      assert a[i] in a && b[j] in b;
    }
  }

  lemma {:induction false} CompiledDistinct(steps: seq<Step>, settings: Settings, some: seq<Step>)
    requires Budgeted(some) && DistinctSteps(some) && Clashless(some)
    ensures DistinctIds(TasksOf(steps, settings, some))
  {
    if some != [] {
      var front, last := some[..|some| - 1], some[|some| - 1];
      assert forall i :: 0 <= i < |front| ==> front[i] == some[i];
      CompiledDistinct(steps, settings, front);
      OwnTasksDistinct(steps, settings, last);
      var before, own := TasksOf(steps, settings, front), [DoTask(steps, settings, last)] + CheckTasks(settings, last);
      forall t, u | t in before && u in own ensures t.id != u.id {
        TaskComesFrom(steps, settings, front, t);
        var j :| 0 <= j < |front| && FromStep(steps, settings, front[j], t);
        assert front[j] == some[j] && some[|some| - 1] == last;
        SeparateSteps(steps, settings, front[j], last, t, u);
      }
      hide DoTask, CheckTasks, Clashless, DistinctSteps;
      DistinctConcat(before, own);
      assert before + own == TasksOf(steps, settings, some);
    }
  }

  lemma SeparateSteps(steps: seq<Step>, settings: Settings, s: Step, u: Step, a: TaskDef, b: TaskDef)
    requires s.maxFailCount.Some? && u.maxFailCount.Some? && FromStep(steps, settings, s, a)
    requires FromStep(steps, settings, u, b)
    requires !IsCheckOf(s, u.id) && !IsCheckOf(u, s.id) && s.id != u.id
    ensures a.id != b.id
  {
    hide FromStep, CheckIds;
    IdsFromStep(steps, settings, s, a);
    IdsFromStep(steps, settings, u, b);
    if IsCheckOf(s, a.id) && IsCheckOf(u, a.id) { StepsApart(s, u, a.id); }
  }

  lemma CleanTaskIsNormal(t: TaskDef)
    requires Clean(t.id) && forall d :: d in t.dependsOn ==> Clean(d)
    ensures Normal(t) == t
  {
    assert StripAll(t.dependsOn) == t.dependsOn by {
      assert forall i :: 0 <= i < |t.dependsOn| ==> t.dependsOn[i] in t.dependsOn;
    }
    NamedOnlyId(t.dependsOn);
    hide Strip, NamedOnly;
  }

  lemma CheckClean(s: Step, x: Text)
    requires Clean(s.id) && IsCheckOf(s, x)
    ensures Clean(x)
  {
    hide Strip, CheckIds;
    var i :| 0 <= i < |CheckIds(s)| && CheckIds(s)[i] == x;
    CheckIdGood(s, i);
  }

  lemma CompiledTaskClean(steps: seq<Step>, settings: Settings, s: Step, t: TaskDef)
    requires Trimmed(steps) && LegalIds(steps) && s in steps && s.maxFailCount.Some? && FromStep(steps, settings, s, t)
    ensures Normal(t) == t && Clean(t.id)
  {
    IdsFromStep(steps, settings, s, t);
    DoDepsMembers(steps, s.id);
    assert Clean(s.id);
    forall d | d in t.dependsOn ensures Clean(d) {
      if t == DoTask(steps, settings, s) {
        var j :| 0 <= j < |steps| && GoesOn(steps[j], s.id) && IsCheckOf(steps[j], d);
        CheckClean(steps[j], d);
      } else {
        var m :| 0 <= m < |CheckTasks(settings, s)| && CheckTasks(settings, s)[m] == t;
        assert d == s.id;
      }
    }
    hide CheckIds, Strip, CheckTasks, DoTask, DoDeps;
    if t.id != s.id { CheckClean(s, t.id); }
    CleanTaskIsNormal(t);
  }

  lemma CompiledNormal(steps: seq<Step>, settings: Settings)
    requires Budgeted(steps) && Trimmed(steps) && LegalIds(steps)
    ensures var ts := TasksOf(steps, settings, steps);
      Normalized(ts) == ts && forall i :: 0 <= i < |ts| ==> LegalId(ts[i].id)
  {
    hide Normal, TasksOf, FromStep, LegalId;
    var ts := TasksOf(steps, settings, steps);
    forall i | 0 <= i < |ts| ensures Normal(ts[i]) == ts[i] && LegalId(ts[i].id) {
      assert ts[i] in ts;
      TaskComesFrom(steps, settings, steps, ts[i]);
      var j :| 0 <= j < |steps| && FromStep(steps, settings, steps[j], ts[i]);
      CompiledTaskClean(steps, settings, steps[j], ts[i]);
    }
  }

  /** The task of each id, found by its position. */
  lemma TaskDeps(ts: seq<TaskDef>, t: TaskDef)
    requires DistinctIds(ts) && t in ts
    ensures t.id in DagOf(ts) && Deps(DagOf(ts), t.id) == t.dependsOn
  {
    DagOfTasks(ts);
    var i :| 0 <= i < |ts| && ts[i] == t;
    assert IdsOf(ts)[i] == t.id;
  }

  ghost predicate HasCheckTask(steps: seq<Step>, settings: Settings, s: Step, c: Text)
    requires Budgeted(steps) && s.maxFailCount.Some?
  {
    exists m ::
      0 <= m < |CheckIds(s)| && CheckIds(s)[m] == c && CheckTask(settings, s, m) in TasksOf(steps, settings, steps)
  }

  lemma CompiledTaskOf(steps: seq<Step>, settings: Settings, j: nat)
    requires Budgeted(steps) && j < |steps|
    ensures DoTask(steps, settings, steps[j]) in TasksOf(steps, settings, steps)
    ensures forall c :: IsCheckOf(steps[j], c) ==> HasCheckTask(steps, settings, steps[j], c)
  {
    TaskComesFrom(steps, settings, steps, DoTask(steps, settings, steps[j]));
    assert FromStep(steps, settings, steps[j], DoTask(steps, settings, steps[j]));
    hide CheckIds, DoTask;
    forall c | IsCheckOf(steps[j], c) ensures HasCheckTask(steps, settings, steps[j], c) {
      var m :| 0 <= m < |CheckIds(steps[j])| && CheckIds(steps[j])[m] == c;
      assert CheckTasks(settings, steps[j])[m] == CheckTask(settings, steps[j], m);
      assert FromStep(steps, settings, steps[j], CheckTask(settings, steps[j], m));
      TaskComesFrom(steps, settings, steps, CheckTask(settings, steps[j], m));
    }
  }

  lemma CompiledKeys(steps: seq<Step>, settings: Settings, x: Text)
    requires Budgeted(steps) && DistinctIds(TasksOf(steps, settings, steps))
    ensures x in DagOf(TasksOf(steps, settings, steps)) <==> IsStep(steps, x) || IsCheck(steps, x)
  {
    var ts := TasksOf(steps, settings, steps);
    DagOfTasks(ts);
    hide TasksOf, CheckIds, DoTask, DagOf, FromStep;
    if x in DagOf(ts) {
      var i :| 0 <= i < |ts| && ts[i].id == x;
      assert ts[i] in ts;
      TaskComesFrom(steps, settings, steps, ts[i]);
      var j :| 0 <= j < |steps| && FromStep(steps, settings, steps[j], ts[i]);
      IdsFromStep(steps, settings, steps[j], ts[i]);
    }
    if IsStep(steps, x) {
      var j :| 0 <= j < |steps| && steps[j].id == x;
      CompiledTaskOf(steps, settings, j);
      DoTaskId(steps, settings, steps[j]);
      TaskDeps(ts, DoTask(steps, settings, steps[j]));
    }
    if IsCheck(steps, x) {
      var j :| 0 <= j < |steps| && IsCheckOf(steps[j], x);
      CompiledTaskOf(steps, settings, j);
      assert HasCheckTask(steps, settings, steps[j], x);
      var m :| 0 <= m < |CheckIds(steps[j])| && CheckIds(steps[j])[m] == x && CheckTask(settings, steps[j], m) in ts;
      TaskDeps(ts, CheckTask(settings, steps[j], m));
    }
  }

  lemma DoTaskId(steps: seq<Step>, settings: Settings, s: Step)
    ensures DoTask(steps, settings, s).id == s.id && DoTask(steps, settings, s).dependsOn == DoDeps(steps, s.id)
  {}

  lemma CompiledDoDeps(steps: seq<Step>, settings: Settings, i: nat)
    requires Budgeted(steps) && DistinctIds(TasksOf(steps, settings, steps)) && i < |steps|
    ensures Deps(DagOf(TasksOf(steps, settings, steps)), steps[i].id) == DoDeps(steps, steps[i].id)
  {
    hide *;
    CompiledTaskOf(steps, settings, i);
    DoTaskId(steps, settings, steps[i]);
    TaskDeps(TasksOf(steps, settings, steps), DoTask(steps, settings, steps[i]));
  }

  lemma CompiledCheckDeps(steps: seq<Step>, settings: Settings, j: nat, c: Text)
    requires Budgeted(steps) && DistinctIds(TasksOf(steps, settings, steps)) && j < |steps| && IsCheckOf(steps[j], c)
    ensures Deps(DagOf(TasksOf(steps, settings, steps)), c) == [steps[j].id]
  {
    hide TasksOf, CheckIds, DoTask, DagOf, FromStep, DistinctIds;
    CompiledTaskOf(steps, settings, j);
    assert HasCheckTask(steps, settings, steps[j], c);
    var ts := TasksOf(steps, settings, steps);
    var m :|
      0 <= m < |CheckIds(steps[j])| && CheckIds(steps[j])[m] == c && CheckTask(settings, steps[j], m) in ts;
    TaskDeps(ts, CheckTask(settings, steps[j], m));
  }

  /** The compiler's output is the lowered graph. */
  lemma CompiledLowered(steps: seq<Step>, settings: Settings)
    requires Budgeted(steps) && DistinctIds(TasksOf(steps, settings, steps))
    ensures Lowered(DagOf(TasksOf(steps, settings, steps)), steps)
  {
    hide TasksOf, CheckIds, DoTask, DagOf, FromStep, DistinctIds, IsStep, IsCheck, IsCheckOf, GoesOn, Budgeted;
    hide DoDeps, Deps;
    var g := DagOf(TasksOf(steps, settings, steps));
    forall x ensures x in g <==> IsStep(steps, x) || IsCheck(steps, x) {
      CompiledKeys(steps, settings, x);
    }
    forall i, c | 0 <= i < |steps|
      ensures c in Deps(g, steps[i].id) <==>
        exists j :: 0 <= j < |steps| && GoesOn(steps[j], steps[i].id) && IsCheckOf(steps[j], c)
    {
      CompiledDoDeps(steps, settings, i);
      DoDepsMembers(steps, steps[i].id);
    }
    forall j, c | 0 <= j < |steps| && IsCheckOf(steps[j], c) ensures Deps(g, c) == [steps[j].id] {
      CompiledCheckDeps(steps, settings, j, c);
    }
  }

  // ---- cycles ----

  /** Check ids are no step ids, and each belongs to one step. */
  ghost predicate Apart(steps: seq<Step>) {
    && DistinctSteps(steps)
    && (forall j, c :: 0 <= j < |steps| && IsCheckOf(steps[j], c) ==> !IsStep(steps, c))
    && (forall i, j, c :: 0 <= i < |steps| && 0 <= j < |steps| && IsCheckOf(steps[i], c) && IsCheckOf(steps[j], c) ==>
      steps[i].id == steps[j].id)
  }

  lemma ClashlessApart(steps: seq<Step>)
    requires DistinctSteps(steps) && Clashless(steps)
    ensures Apart(steps)
  {
    hide IsCheckOf;
    forall j, c, i | 0 <= j < |steps| && IsCheckOf(steps[j], c) && 0 <= i < |steps|
      ensures c != steps[i].id && (IsCheckOf(steps[i], c) ==> steps[j].id == steps[i].id)
    {
      if IsCheckOf(steps[i], c) { StepsApart(steps[j], steps[i], c); }
    }
  }

  ghost function OwnerOf(steps: seq<Step>, x: Text): (owner: Text)
    requires IsCheck(steps, x)
    ensures IsStep(steps, owner)
  {
    var j :| 0 <= j < |steps| && IsCheckOf(steps[j], x);
    steps[j].id
  }

  lemma OwnerUnique(steps: seq<Step>, j: nat, x: Text)
    requires Apart(steps) && j < |steps| && IsCheckOf(steps[j], x)
    ensures IsCheck(steps, x) && OwnerOf(steps, x) == steps[j].id && !IsStep(steps, x)
  {
    hide CheckIds;
  }

  ghost predicate OnPassKnown(steps: seq<Step>) {
    forall i :: 0 <= i < |steps| ==> steps[i].onPass == DONE() || IsStep(steps, steps[i].onPass)
  }

  /** What a rank along on_pass makes of the compiled tasks: later steps higher, checks between. */
  ghost function LoweredRank(steps: seq<Step>, rank: map<TaskId, nat>, n: nat, x: Text): int
    requires forall t :: IsStep(steps, t) ==> t in rank
    requires IsStep(steps, x) || IsCheck(steps, x)
  {
    if IsStep(steps, x) then 2 * (n - rank[x]) else 2 * (n - rank[OwnerOf(steps, x)]) + 1
  }

  lemma LoweredRankFalls(g: Dag, steps: seq<Step>, rank: map<TaskId, nat>, n: nat, v: Text, d: Text)
    requires Lowered(g, steps) && Apart(steps) && Ranking(OnPass(steps), rank)
    requires v in g && d in g && d in Deps(g, v)
    requires forall t :: IsStep(steps, t) ==> t in rank
    ensures LoweredRank(steps, rank, n, d) < LoweredRank(steps, rank, n, v)
  {
    hide OnPass, CheckIds, Ranking, Lowered, Apart, IsCheckOf, GoesOn;
    OnPassOf(steps);
    LoweredKeys(g, steps);
    if IsStep(steps, v) {
      var j := StepBefore(g, steps, v, d);
      OwnerUnique(steps, j, d);
      RankDrops(OnPass(steps), rank, steps[j].id, v);
    } else {
      var j :| 0 <= j < |steps| && IsCheckOf(steps[j], v);
      OwnerUnique(steps, j, v);
      CheckDeps(g, steps, j, v);
      assert d == steps[j].id;
    }
  }

  lemma RankDrops(g: Dag, rank: map<TaskId, nat>, v: TaskId, d: TaskId)
    requires Ranking(g, rank) && v in g && d in g && d in Deps(g, v)
    ensures d in rank && v in rank && rank[d] < rank[v]
  {}

  lemma OnPassAcyclicLowers(g: Dag, steps: seq<Step>)
    requires Lowered(g, steps) && Apart(steps) && Acyclic(OnPass(steps))
    ensures Acyclic(g)
  {
    hide Acyclic, Lowered, Apart, OnPass, IsStep, IsCheck, LoweredRank;
    var machine := OnPass(steps);
    OnPassOf(steps);
    var rank := AcyclicRanking(machine, machine.Keys);
    var n := |machine.Keys|;
    assert Ranking(machine, rank);
    LoweredKeys(g, steps);
    LoweredRankPositive(steps, rank, n);
    var lowered: map<TaskId, nat> := map x | x in g :: LoweredRank(steps, rank, n, x);
    forall v, d | v in g && d in g[v] && d in g ensures lowered[d] < lowered[v] {
      LoweredRankFalls(g, steps, rank, n, v, d);
    }
    RankingAcyclic(g, lowered);
  }

  lemma LoweredKeys(g: Dag, steps: seq<Step>)
    requires Lowered(g, steps)
    ensures forall x :: x in g <==> IsStep(steps, x) || IsCheck(steps, x)
  {}

  lemma LoweredRankPositive(steps: seq<Step>, rank: map<TaskId, nat>, n: nat)
    requires forall t :: IsStep(steps, t) ==> t in rank
    requires forall t :: t in rank ==> rank[t] < n
    ensures forall x :: IsStep(steps, x) || IsCheck(steps, x) ==> LoweredRank(steps, rank, n, x) >= 0
  {}

  /** A step that goes on to another comes before it in the compiled graph, through its first check. */
  lemma GoesOnBelow(g: Dag, steps: seq<Step>, i: nat, t: Text)
    requires Lowered(g, steps) && i < |steps| && GoesOn(steps[i], t) && IsStep(steps, t)
    ensures forall c :: IsCheckOf(steps[i], c) ==> c in g && c in Deps(g, t) && steps[i].id in Deps(g, c)
    ensures IsCheckOf(steps[i], CheckIds(steps[i])[0])
  {
    var k :| 0 <= k < |steps| && steps[k].id == t;
    hide CheckIds;
  }

  lemma OnPassRankFalls(g: Dag, steps: seq<Step>, below: map<TaskId, nat>, v: Text, d: Text)
    requires Lowered(g, steps) && DistinctSteps(steps) && Ranking(g, below)
    requires IsStep(steps, v) && IsStep(steps, d) && d in Deps(OnPass(steps), v)
    ensures v in below && d in below && below[v] < below[d]
  {
    OnPassOf(steps);
    LoweredKeys(g, steps);
    hide OnPass, IsCheck, CheckIds, Lowered, Ranking;
    var i :| 0 <= i < |steps| && steps[i].id == v;
    GoesOnBelow(g, steps, i, d);
    var c := CheckIds(steps[i])[0];
    RankDrops(g, below, d, c);
    RankDrops(g, below, c, v);
  }

  lemma LoweredAcyclicMeansOnPass(g: Dag, steps: seq<Step>)
    requires Lowered(g, steps) && DistinctSteps(steps) && Acyclic(g)
    ensures Acyclic(OnPass(steps))
  {
    hide Acyclic, Lowered, OnPass, IsCheck, IsStep, CheckIds, DistinctSteps;
    var machine := OnPass(steps);
    OnPassOf(steps);
    LoweredKeys(g, steps);
    var below := AcyclicRanking(g, g.Keys);
    var n := |g.Keys|;
    assert Ranking(g, below);
    var rank: map<TaskId, nat> := map x | x in machine :: n - below[x];
    forall v, d | v in machine && d in machine[v] && d in machine ensures rank[d] < rank[v] {
      OnPassRankFalls(g, steps, below, v, d);
    }
    RankingAcyclic(machine, rank);
  }

  lemma LoweredKnown(g: Dag, steps: seq<Step>)
    requires Lowered(g, steps) && forall x :: x in g ==> x != []
    ensures KnownRefs(g)
  {
    forall v | v in g ensures RefsKnown(g, v) {
      forall d | d in g[v] ensures d in g { LoweredDepKnown(g, steps, v, d); }
    }
  }

  lemma LoweredDepKnown(g: Dag, steps: seq<Step>, v: Text, d: Text)
    requires Lowered(g, steps) && v in g && d in Deps(g, v)
    ensures d in g
  {
    hide CheckIds;
    if IsStep(steps, v) {
      var i :| 0 <= i < |steps| && steps[i].id == v;
      var j :| 0 <= j < |steps| && GoesOn(steps[j], v) && IsCheckOf(steps[j], d);
      assert IsCheck(steps, d);
    } else {
      var j :| 0 <= j < |steps| && IsCheckOf(steps[j], v);
      assert d == steps[j].id;
      assert IsStep(steps, d);
    }
  }

  // ---- contracts ----

  lemma CompiledTaskContract(steps: seq<Step>, settings: Settings, s: Step, t: TaskDef)
    requires Budgeted(steps) && s in steps && IsStep(steps, s.onFail) && s.onFail != []
    requires FromStep(steps, settings, s, t)
    ensures TaskContract(TasksOf(steps, settings, steps), t)
  {
    var ts := TasksOf(steps, settings, steps);
    var j :| 0 <= j < |steps| && steps[j].id == s.onFail;
    CompiledTaskOf(steps, settings, j);
    DoTaskId(steps, settings, steps[j]);
    var k :| 0 <= k < |ts| && ts[k] == DoTask(steps, settings, steps[j]);
    assert IdsOf(ts)[k] == s.onFail;
    if t in CheckTasks(settings, s) {
      var m :| 0 <= m < |CheckTasks(settings, s)| && CheckTasks(settings, s)[m] == t;
    }
  }

  /** The group of a compiled task: its step for a check, none for a DO task; the fallback is the step's. */
  lemma CompiledGroup(steps: seq<Step>, settings: Settings, s: Step, t: TaskDef)
    requires s.maxFailCount.Some? && FromStep(steps, settings, s, t) && Strip(s.id) == s.id && GroupKey(t) != []
    ensures GroupKey(t) == s.id
    ensures Shared(t) == (Some(s.onFail), FailBudget(Object(Some(s.onFail), s.maxFailCount.value)))
  {
    if t in CheckTasks(settings, s) {
      var m :| 0 <= m < |CheckTasks(settings, s)| && CheckTasks(settings, s)[m] == t;
    }
  }

  lemma CompiledGroupsAgree(steps: seq<Step>, settings: Settings)
    requires Budgeted(steps) && DistinctSteps(steps) && Trimmed(steps)
    ensures GroupsAgree(TasksOf(steps, settings, steps))
  {
    var ts := TasksOf(steps, settings, steps);
    hide TasksOf, FromStep, GroupKey, Shared, FailBudget;
    forall a, b | 0 <= a < |ts| && 0 <= b < |ts| && GroupKey(ts[a]) == GroupKey(ts[b]) != []
      ensures Shared(ts[a]) == Shared(ts[b])
    {
      assert ts[a] in ts && ts[b] in ts;
      TaskComesFrom(steps, settings, steps, ts[a]);
      TaskComesFrom(steps, settings, steps, ts[b]);
      var i :| 0 <= i < |steps| && FromStep(steps, settings, steps[i], ts[a]);
      var j :| 0 <= j < |steps| && FromStep(steps, settings, steps[j], ts[b]);
      CompiledGroup(steps, settings, steps[i], ts[a]);
      CompiledGroup(steps, settings, steps[j], ts[b]);
    }
  }

  lemma CompiledContracts(steps: seq<Step>, settings: Settings)
    requires Compilable(steps, settings) && Trimmed(steps) && Budgeted(steps)
    ensures ContractsHold(TasksOf(steps, settings, steps))
  {
    var ts := TasksOf(steps, settings, steps);
    CompiledGroupsAgree(steps, settings);
    hide TasksOf, FromStep, TaskContract, GroupsAgree, CheckIds, VotingOk, Trimmed;
    forall i | 0 <= i < |ts| ensures TaskContract(ts, ts[i]) {
      assert ts[i] in ts;
      TaskComesFrom(steps, settings, steps, ts[i]);
      var j :| 0 <= j < |steps| && FromStep(steps, settings, steps[j], ts[i]);
      assert StepComplete(steps[j]) && TargetsKnown(steps, steps[j]);
      CompiledTaskContract(steps, settings, steps[j], ts[i]);
    }
  }

  // ---- the main results ----

  lemma CompiledFacts(steps: seq<Step>, settings: Settings)
    requires Compilable(steps, settings) && GoodIds(steps)
    ensures Budgeted(steps)
    ensures var ts := TasksOf(steps, settings, steps);
      && Normalized(ts) == ts && ts != [] && DistinctIds(ts) && (forall i :: 0 <= i < |ts| ==> LegalId(ts[i].id))
      && Lowered(DagOf(ts), steps) && KnownRefs(DagOf(ts)) && ContractsHold(ts) && Apart(steps)
  {
    CompilableSteps(steps, settings);
    hide Compilable, TasksOf, ContractsHold, DagOf, KnownRefs, Lowered, DistinctSteps, Trimmed, LegalIds, Clashless;
    hide Apart, DoTask;
    CompilableDistinct(steps, settings);
    CompiledContracts(steps, settings);
    CompiledDistinct(steps, settings, steps);
    CompiledNormal(steps, settings);
    CompiledLowered(steps, settings);
    ClashlessApart(steps);
    CompiledTaskOf(steps, settings, 0);
    CompiledKnown(steps, TasksOf(steps, settings, steps));
  }

  lemma CompilableDistinct(steps: seq<Step>, settings: Settings)
    requires Compilable(steps, settings)
    ensures DistinctSteps(steps) && steps != []
  {}

  lemma CompiledKnown(steps: seq<Step>, ts: seq<TaskDef>)
    requires Lowered(DagOf(ts), steps) && forall i :: 0 <= i < |ts| ==> LegalId(ts[i].id)
    ensures KnownRefs(DagOf(ts))
  {
    hide DagOf, Lowered, KnownRefs;
    DagOfTasks(ts);
    forall x | x in DagOf(ts) ensures x != [] {
      var i :| 0 <= i < |ts| && ts[i].id == x;
      assert LegalId(ts[i].id);
    }
    LoweredKnown(DagOf(ts), steps);
  }

  /** What the settings must be for the validator: agents it supports and a type. */
  predicate SettingsOk(settings: Settings) {
    Supported(settings.agent) && Supported(CheckAgent(settings)) && settings.taskType != []
  }

  lemma HeadersFromStep(steps: seq<Step>, settings: Settings, s: Step, t: TaskDef)
    requires s.maxFailCount.Some? && FromStep(steps, settings, s, t)
    ensures t.header == DoHeader(settings) || t.header == CheckHeader(settings)
  {
    hide CheckIds, DoHeader, CheckHeader;
    if t in CheckTasks(settings, s) {
      var m :| 0 <= m < |CheckTasks(settings, s)| && CheckTasks(settings, s)[m] == t;
    }
  }

  /** A check without any agent would get the default one, but then its DO task has an empty one. */
  lemma HeadersOk(settings: Settings)
    ensures HeaderOk(DoHeader(settings)) && HeaderOk(CheckHeader(settings)) <==> SettingsOk(settings)
  {
    hide Providers;
    EmptyUnsupported();
  }

  lemma EmptyUnsupported()
    ensures !Supported([])
  {
    assert Lower(Strip([])) == [];
    assert |Lit("claude")| == 6 && |Lit("codex")| == 5 && |Lit("opencode")| == 8;
  }

  ghost predicate HeadersHold(ts: seq<TaskDef>) {
    forall i :: 0 <= i < |ts| ==> HeaderOk(ts[i].header)
  }

  lemma CompiledHeaders(steps: seq<Step>, settings: Settings)
    requires Compilable(steps, settings) && Budgeted(steps)
    ensures HeadersHold(TasksOf(steps, settings, steps)) <==> SettingsOk(settings)
  {
    hide TasksOf, FromStep, HeaderOk, SettingsOk, Compilable, CheckIds, DoTask, CheckTask;
    var ts := TasksOf(steps, settings, steps);
    HeadersOk(settings);
    CompilableDistinct(steps, settings);
    CompiledTaskOf(steps, settings, 0);
    DoTaskPlain(steps, settings, steps[0]);
    var c := CheckIds(steps[0])[0];
    assert IsCheckOf(steps[0], c);
    assert HasCheckTask(steps, settings, steps[0], c);
    var m :| 0 <= m < |CheckIds(steps[0])| && CheckIds(steps[0])[m] == c && CheckTask(settings, steps[0], m) in ts;
    CheckTaskHeader(settings, steps[0], m);
    if HeadersHold(ts) {
      var a :| 0 <= a < |ts| && ts[a] == DoTask(steps, settings, steps[0]);
      var b :| 0 <= b < |ts| && ts[b] == CheckTask(settings, steps[0], m);
    }
    if SettingsOk(settings) {
      forall i | 0 <= i < |ts| ensures HeaderOk(ts[i].header) {
        assert ts[i] in ts;
        TaskComesFrom(steps, settings, steps, ts[i]);
        var j :| 0 <= j < |steps| && FromStep(steps, settings, steps[j], ts[i]);
        HeadersFromStep(steps, settings, steps[j], ts[i]);
      }
    }
  }

  lemma CheckTaskHeader(settings: Settings, s: Step, m: nat)
    requires m < |CheckIds(s)| && s.maxFailCount.Some?
    ensures CheckTask(settings, s, m).header == CheckHeader(settings) && CheckTask(settings, s, m).id == CheckIds(s)[m]
    ensures CheckTask(settings, s, m).onFail != Absent
  {}

  lemma DoTaskPlain(steps: seq<Step>, settings: Settings, s: Step)
    ensures var t := DoTask(steps, settings, s);
      t.id == s.id && t.onFail == Absent && t.failGroup == [] && t.header == DoHeader(settings)
  {}

  /** An admitted template has its step ids as they are: legal, and apart from all check ids. */
  lemma AdmittedIds(steps: seq<Step>, settings: Settings)
    requires Budgeted(steps) && Trimmed(steps) && Admitted(TasksOf(steps, settings, steps))
    ensures LegalIds(steps) && Clashless(steps)
  {
    hide TasksOf, ContractsHold, KnownRefs, Acyclic, DagOf, HeaderOk, LegalId, Trimmed, CheckIds;
    forall i | 0 <= i < |steps| ensures LegalId(steps[i].id) {
      var a := DoTaskAt(steps, settings, i);
    }
    forall i, j | 0 <= i < |steps| && 0 <= j < |steps| ensures !IsCheckOf(steps[i], steps[j].id) {
      if IsCheckOf(steps[i], steps[j].id) { ClashRefused(steps, settings, i, j); }
    }
  }

  lemma DoTaskAt(steps: seq<Step>, settings: Settings, i: nat) returns (a: nat)
    requires Budgeted(steps) && Trimmed(steps) && i < |steps|
    ensures a < |TasksOf(steps, settings, steps)|
    ensures TasksOf(steps, settings, steps)[a] == DoTask(steps, settings, steps[i])
    ensures Normalized(TasksOf(steps, settings, steps))[a].id == steps[i].id
  {
    hide TasksOf, CheckIds, NamedOnly, DoTask;
    var ts := TasksOf(steps, settings, steps);
    CompiledTaskOf(steps, settings, i);
    a :| 0 <= a < |ts| && ts[a] == DoTask(steps, settings, steps[i]);
    DoTaskPlain(steps, settings, steps[i]);
  }

  /** A step id that is a check id of any step makes two tasks get the same id. */
  lemma ClashRefused(steps: seq<Step>, settings: Settings, i: nat, j: nat)
    requires Budgeted(steps) && Trimmed(steps) && i < |steps| && j < |steps| && IsCheckOf(steps[i], steps[j].id)
    ensures !DistinctIds(Normalized(TasksOf(steps, settings, steps)))
  {
    hide TasksOf, DoTask, CheckIds, CheckTask, NamedOnly;
    var ts := TasksOf(steps, settings, steps);
    var a := DoTaskAt(steps, settings, j);
    CompiledTaskOf(steps, settings, i);
    assert HasCheckTask(steps, settings, steps[i], steps[j].id);
    var m :|
      0 <= m < |CheckIds(steps[i])| && CheckIds(steps[i])[m] == steps[j].id && CheckTask(settings, steps[i], m) in ts;
    var b :| 0 <= b < |ts| && ts[b] == CheckTask(settings, steps[i], m);
    CheckTaskHeader(settings, steps[i], m);
    DoTaskPlain(steps, settings, steps[j]);
    assert Normalized(ts)[b].id == steps[j].id && a != b;
  }

  lemma AdmittedWithGoodIds(steps: seq<Step>, settings: Settings)
    requires Compilable(steps, settings) && GoodIds(steps) && Budgeted(steps)
    ensures Admitted(TasksOf(steps, settings, steps)) <==>
      Acyclic(DagOf(TasksOf(steps, settings, steps))) && HeadersHold(TasksOf(steps, settings, steps))
  {
    hide *;
    CompiledFacts(steps, settings);
    NormalAdmitted(TasksOf(steps, settings, steps));
  }

  lemma NormalAdmitted(ts: seq<TaskDef>)
    requires Normalized(ts) == ts && ts != [] && DistinctIds(ts) && forall i :: 0 <= i < |ts| ==> LegalId(ts[i].id)
    requires KnownRefs(DagOf(ts)) && ContractsHold(ts)
    ensures Admitted(ts) <==> Acyclic(DagOf(ts)) && HeadersHold(ts)
  {
    hide Normalized, DagOf, DistinctIds, LegalId, KnownRefs, ContractsHold, Acyclic, HeaderOk;
  }

  lemma CompiledAcyclic(steps: seq<Step>, settings: Settings)
    requires Compilable(steps, settings) && GoodIds(steps) && Budgeted(steps)
    ensures Acyclic(DagOf(TasksOf(steps, settings, steps))) <==> Acyclic(OnPass(steps))
  {
    hide *;
    CompiledFacts(steps, settings);
    var g := DagOf(TasksOf(steps, settings, steps));
    if Acyclic(OnPass(steps)) { OnPassAcyclicLowers(g, steps); }
    if Acyclic(g) {
      ApartDistinct(steps);
      LoweredAcyclicMeansOnPass(g, steps);
    }
  }

  /**
   The template validator admits the compiled template exactly when on_pass has no cycle, step ids hold no separator and
   are no check ids, the agents are supported and the task type is not empty.
   */
  lemma AdmittedExactly(steps: seq<Step>, settings: Settings)
    requires Compilable(steps, settings) && Trimmed(steps)
    ensures Budgeted(steps)
    ensures Admitted(TasksOf(steps, settings, steps))
      <==> Acyclic(OnPass(steps)) && LegalIds(steps) && Clashless(steps) && SettingsOk(settings)
  {
    CompilableSteps(steps, settings);
    hide TasksOf, Admitted, Acyclic, Compilable, Trimmed, LegalIds, Clashless, SettingsOk, HeadersHold;
    CompiledHeaders(steps, settings);
    if Admitted(TasksOf(steps, settings, steps)) {
      AdmittedIds(steps, settings);
    }
    if LegalIds(steps) && Clashless(steps) {
      AdmittedWithGoodIds(steps, settings);
      CompiledAcyclic(steps, settings);
    }
  }

  lemma ApartDistinct(steps: seq<Step>)
    requires Apart(steps)
    ensures DistinctSteps(steps)
  {}

  // ---- what a DO task waits for ----

  /** Going back along on_pass is going down the compiled graph. */
  lemma {:induction false} MachinePathLowered(g: Dag, steps: seq<Step>, p: seq<TaskId>, u: Text, t: Text)
    requires Lowered(g, steps) && DistinctSteps(steps) && OnPassKnown(steps)
    requires PathBetween(OnPass(steps), p, u, t) && IsStep(steps, u)
    ensures Reaches(g, t, u)
    decreases |p|
  {
    hide OnPass, Lowered, CheckIds, Reaches, IsCheck, OnPassKnown;
    if |p| == 1 {
      ReachesSelf(g, t);
    } else {
      OnPassOf(steps);
      var i :| 0 <= i < |steps| && steps[i].id == u;
      var next := p[1];
      assert next in Deps(OnPass(steps), p[0]);
      assert GoesOn(steps[i], next) && IsStep(steps, next) by { NextKnown(steps, i, next); }
      assert PathBetween(OnPass(steps), p[1..], next, t);
      MachinePathLowered(g, steps, p[1..], next, t);
      GoesOnBelow(g, steps, i, next);
      var c := CheckIds(steps[i])[0];
      ReachesSnoc(g, t, next, c);
      ReachesSnoc(g, t, c, u);
    }
  }

  lemma NextKnown(steps: seq<Step>, i: nat, t: Text)
    requires OnPassKnown(steps) && i < |steps| && t in Next(steps[i])
    ensures GoesOn(steps[i], t) && IsStep(steps, t)
  {}

  /** Going down the compiled graph from a DO task to a check is going back along on_pass. */
  lemma {:induction false} LoweredPathMachine(g: Dag, steps: seq<Step>, p: seq<TaskId>, t: Text, i: nat, c: Text)
    requires Lowered(g, steps) && Apart(steps)
    requires PathBetween(g, p, t, c) && IsStep(steps, t) && i < |steps| && IsCheckOf(steps[i], c)
    ensures steps[i].onPass != DONE() && Reaches(OnPass(steps), steps[i].onPass, t)
    decreases |p|
  {
    hide OnPass, CheckIds, Reaches, Lowered, Apart, GoesOn, IsCheckOf;
    ChecksAreNoSteps(steps, i, c);
    assert |p| >= 2 && p[1] in Deps(g, p[0]);
    var j := StepBefore(g, steps, t, p[1]);
    if |p| == 2 {
      SameOwner(steps, i, j, c);
      ReachesSelf(OnPass(steps), t);
    } else {
      assert p[2] in Deps(g, p[1]);
      CheckDeps(g, steps, j, p[1]);
      var rest := p[2..];
      assert PathBetween(g, rest, steps[j].id, c) by { PathTail(g, p, t, c); }
      LoweredPathMachine(g, steps, rest, steps[j].id, i, c);
      ReachesSnoc(OnPass(steps), steps[i].onPass, steps[j].id, t);
    }
  }

  lemma ChecksAreNoSteps(steps: seq<Step>, i: nat, c: Text)
    requires Apart(steps) && i < |steps| && IsCheckOf(steps[i], c)
    ensures !IsStep(steps, c)
  {}

  lemma SameOwner(steps: seq<Step>, i: nat, j: nat, c: Text)
    requires Apart(steps) && i < |steps| && j < |steps| && IsCheckOf(steps[i], c) && IsCheckOf(steps[j], c)
    ensures i == j
  {
    assert steps[i].id == steps[j].id;
  }

  lemma CheckDeps(g: Dag, steps: seq<Step>, j: nat, c: Text)
    requires Lowered(g, steps) && j < |steps| && IsCheckOf(steps[j], c)
    ensures Deps(g, c) == [steps[j].id] && IsStep(steps, steps[j].id)
  {
    hide CheckIds;
  }

  /** What a DO task depends on is a check of a step that goes on to it. */
  lemma StepBefore(g: Dag, steps: seq<Step>, t: Text, c: Text) returns (j: nat)
    requires Lowered(g, steps) && Apart(steps) && IsStep(steps, t) && c in Deps(g, t)
    ensures j < |steps| && steps[j].onPass == t && t != DONE() && IsCheckOf(steps[j], c)
    ensures t in Deps(OnPass(steps), steps[j].id)
  {
    hide CheckIds, OnPass;
    OnPassOf(steps);
    ApartDistinct(steps);
    var k :| 0 <= k < |steps| && steps[k].id == t;
    j :| 0 <= j < |steps| && GoesOn(steps[j], t) && IsCheckOf(steps[j], c);
  }

  lemma PathTail(g: Dag, p: seq<TaskId>, x: TaskId, y: TaskId)
    requires PathBetween(g, p, x, y) && |p| > 2
    ensures PathBetween(g, p[2..], p[2], y)
  {
    var rest := p[2..];
    assert forall i :: 0 <= i < |rest| ==> rest[i] == p[i + 2];
    forall i | 0 <= i < |rest| - 1 ensures rest[i + 1] in Deps(g, rest[i]) {
      assert p[i + 3] in Deps(g, p[i + 2]);
    }
  }

  /** The DO of a step depends, directly or not, on exactly the checks of the steps that lead to it along on_pass. */
  lemma DoWaitsForUpstreamChecks(steps: seq<Step>, settings: Settings, t: Text, i: nat, c: Text)
    requires Compilable(steps, settings) && GoodIds(steps) && Budgeted(steps)
    requires IsStep(steps, t) && i < |steps| && IsCheckOf(steps[i], c)
    ensures Reaches(DagOf(TasksOf(steps, settings, steps)), t, c) <==>
      steps[i].onPass != DONE() && Reaches(OnPass(steps), steps[i].onPass, t)
  {
    hide *;
    CompiledFacts(steps, settings);
    CompilableKnown(steps, settings);
    UpstreamChecks(DagOf(TasksOf(steps, settings, steps)), steps, t, i, c);
  }

  lemma CompilableKnown(steps: seq<Step>, settings: Settings)
    requires Compilable(steps, settings)
    ensures OnPassKnown(steps)
  {}

  lemma UpstreamChecks(g: Dag, steps: seq<Step>, t: Text, i: nat, c: Text)
    requires Lowered(g, steps) && Apart(steps) && OnPassKnown(steps)
    requires IsStep(steps, t) && i < |steps| && IsCheckOf(steps[i], c)
    ensures Reaches(g, t, c) <==> steps[i].onPass != DONE() && Reaches(OnPass(steps), steps[i].onPass, t)
  {
    hide OnPass, Lowered, Apart, CheckIds, PathBetween;
    if Reaches(g, t, c) {
      var p :| PathBetween(g, p, t, c);
      LoweredPathMachine(g, steps, p, t, i, c);
    }
    if steps[i].onPass != DONE() && Reaches(OnPass(steps), steps[i].onPass, t) {
      var p :| PathBetween(OnPass(steps), p, steps[i].onPass, t);
      ApartDistinct(steps);
      MachinePathLowered(g, steps, p, steps[i].onPass, t);
      GoesOnBelow(g, steps, i, steps[i].onPass);
      ReachesSnoc(g, t, steps[i].onPass, c);
    }
  }
}
