/** The definitions an instance of a template runs with, and how often its checks can send a task back. */
module TemplateFlow {
  import opened Texts
  import opened Graph
  import opened KvStore
  import Scheduler
  import opened CheckRollback
  import opened CheckRollbackBound
  import CheckRollbackExact
  import opened TemplateValidation

  /** The fallback recovery reads: only an object counts, and one without a task names nothing. */
  function Rollback(f: Fallback): OnFail
    requires f.Object?
  {
    OnFail(if f.task.Some? then f.task.value else [], f.maxFailCount)
  }

  function OnFails(ts: seq<TaskDef>): map<TaskId, OnFail> {
    if ts == [] then map[]
    else
      var front, last := OnFails(ts[..|ts| - 1]), ts[|ts| - 1];
      if last.onFail.Object? then front[last.id := Rollback(last.onFail)] else front
  }

  function Groups(ts: seq<TaskDef>): map<TaskId, TaskId> {
    if ts == [] then map[] else Groups(ts[..|ts| - 1])[ts[|ts| - 1].id := ts[|ts| - 1].failGroup]
  }

  /** The task definitions an instance of the template runs with. */
  function FlowOf(ts: seq<TaskDef>): Flow {
    Flow(DagOf(ts), OnFails(ts), Groups(ts))
  }

  /** With distinct ids, each task finds its own fallback and group under its id. */
  lemma {:induction false} FlowOfTask(ts: seq<TaskDef>, k: nat)
    requires DistinctIds(ts) && k < |ts|
    ensures ts[k].id in Groups(ts) && Groups(ts)[ts[k].id] == ts[k].failGroup
    ensures ts[k].id in OnFails(ts) <==> ts[k].onFail.Object?
    ensures ts[k].onFail.Object? ==> OnFails(ts)[ts[k].id] == Rollback(ts[k].onFail)
  {
    var front, last := ts[..|ts| - 1], ts[|ts| - 1];
    assert forall m :: 0 <= m < |front| ==> front[m] == ts[m];
    FlowKeys(front);
    assert forall m :: 0 <= m < |front| ==> IdsOf(front)[m] == ts[m].id != last.id;
    if k < |front| { FlowOfTask(front, k); }
  }

  lemma {:induction false} FlowKeys(ts: seq<TaskDef>)
    ensures forall x :: x in OnFails(ts) || x in Groups(ts) ==> x in IdsOf(ts)
  {
    if ts != [] {
      FlowKeys(ts[..|ts| - 1]);
      assert IdsOf(ts) == IdsOf(ts[..|ts| - 1]) + [ts[|ts| - 1].id];
    }
  }

  lemma OnFailsGrouped(ts: seq<TaskDef>, t: Text)
    requires DistinctIds(ts) && t in OnFails(ts)
    ensures t in Groups(ts)
  {
    FlowKeys(ts);
    var k :| 0 <= k < |ts| && IdsOf(ts)[k] == t;
    FlowOfTask(ts, k);
  }

  /**
   For an admitted template, the rollbacks of a sole check are bounded exactly when it depends on the task it sends
   back.
   */
  lemma AdmittedBoundedIffEdge(raw: seq<TaskDef>, g: Text, c: Text)
    requires Admitted(raw) && SoleCheck(FlowOf(Normalized(raw)), g, c)
    ensures var flow := FlowOf(Normalized(raw));
      (forall steps :: Rollbacks(flow, Fresh(flow), steps, c) <= AtLeastZero(MaxCount(flow.onFail[c])))
      <==> g in Scheduler.Blockers(flow.dag, c) || MaxCount(flow.onFail[c]) <= 0
  {
    hide SoleCheck, OnFails, Groups, Rollbacks, KnownRefs, Acyclic, ContractsHold;
    CheckRollbackExact.BoundedIffEdge(FlowOf(Normalized(raw)), g, c);
  }

  // ---- a template the validator should not let in ----

  function Independent(g: Text, c: Text): seq<TaskDef> {
    var plain := Header(None, None, None, true);
    [TaskDef(g, plain, [], Lit("build"), true, [], [], false, Absent, [], false, []),
     TaskDef(c, plain, [], Lit("verify"), true, [], [], true, Object(Some(g), 1), g, false, [])]
  }

  /** The validator lets a check in that does not depend on the task it sends back. */
  lemma EdgeNotRequired(g: Text, c: Text)
    requires g != c && LegalId(g) && LegalId(c) && Strip(g) == g && Strip(c) == c
    ensures Admitted(Independent(g, c))
    ensures Normalized(Independent(g, c)) == Independent(g, c)
    ensures DagOf(Independent(g, c)) == map[g := [], c := []]
  {
    hide Strip, Blank, Normalized, ContractsHold, Acyclic;
    var ts := Independent(g, c);
    IndependentNormal(g, c);
    assert ts[..1] == [ts[0]] && [ts[0]][..0] == [];
    assert DagOf([ts[0]]) == map[g := []];
    RankingAcyclic(DagOf(ts), map[g := 0, c := 0]);
    IndependentContracts(g, c);
  }

  lemma IndependentNormal(g: Text, c: Text)
    requires Strip(g) == g && Strip(c) == c
    ensures Normalized(Independent(g, c)) == Independent(g, c)
  {
    hide Strip;
    var ts := Independent(g, c);
    assert StripAll([]) == [];
    assert Normal(ts[0]) == ts[0] && Normal(ts[1]) == ts[1];
  }

  lemma IndependentContracts(g: Text, c: Text)
    requires g != c && g != [] && Strip(g) == g
    ensures ContractsHold(Independent(g, c))
  {
    var ts := Independent(g, c);
    assert IdsOf(ts) == [g, c];
    assert g in IdsOf(ts);
    assert GroupKey(ts[0]) == [];
  }

  lemma IndependentFlow(g: Text, c: Text)
    requires g != c
    ensures OnFails(Independent(g, c)) == map[c := OnFail(g, 1)]
    ensures Groups(Independent(g, c)) == map[g := [], c := g]
  {
    var ts := Independent(g, c);
    assert ts[..1] == [ts[0]] && [ts[0]][..0] == [];
    assert OnFails([ts[0]]) == map[] && Groups([ts[0]]) == map[g := []];
  }

  /**
   Two independent tasks, one the declared check of the other, are admitted and run into n rollbacks against a budget of
   one.
   */
  lemma AdmittedWithoutBound(g: Text, c: Text, n: nat) returns (steps: seq<Step>)
    requires g != c && LegalId(g) && LegalId(c) && Strip(g) == g && Strip(c) == c
    ensures Admitted(Independent(g, c))
    ensures var flow := FlowOf(Normalized(Independent(g, c)));
      c in flow.onFail && flow.onFail[c] == OnFail(g, 1) && Rollbacks(flow, Fresh(flow), steps, c) == n
  {
    hide Strip, LegalId, Rollbacks, Admitted, DagOf, OnFails, Groups, Fresh, Normalized, KnownRefs, Acyclic;
    EdgeNotRequired(g, c);
    IndependentFlow(g, c);
    var flow := FlowOf(Independent(g, c));
    IdNotEmpty(g);
    IdNotEmpty(c);
    IndependentSole(flow, g, c);
    steps := CheckRollbackExact.AnyNumberOfRollbacks(flow, g, c, n);
  }

  lemma IdNotEmpty(id: Text)
    requires LegalId(id)
    ensures id != []
  {}

  lemma IndependentSole(flow: Flow, g: Text, c: Text)
    requires g != c && g != [] && c != [] && Strip(g) == g
    requires flow == Flow(map[g := [], c := []], map[c := OnFail(g, 1)], map[g := [], c := g])
    ensures SoleCheck(flow, g, c) && KnownRefs(flow.dag) && Acyclic(flow.dag)
    ensures g !in Scheduler.Blockers(flow.dag, c) && MaxCount(flow.onFail[c]) == 1
  {
    RankingAcyclic(flow.dag, map[g := 0, c := 0]);
  }
}
