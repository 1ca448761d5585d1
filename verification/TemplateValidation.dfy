/** What the template validator admits (job_flows.JobFlowService._manifest, _validate_task_contracts). */
module TemplateValidation {
  import opened Texts
  import opened Graph
  import opened KvStore
  import DagValidation

  // ---- text helpers ----

  function StripAll(ts: seq<Text>): seq<Text> {
    seq(|ts|, i requires 0 <= i < |ts| => Strip(ts[i]))
  }

  /**
   str.lower() on ASCII letters. The few other characters whose lower case holds an ASCII letter give k or i, which
   stand in no provider's name.
   */
  function Lower(t: Text): Text {
    seq(|t|, i requires 0 <= i < |t| => if 'A' as int <= t[i] <= 'Z' as int then t[i] + 32 else t[i])
  }

  // ---- tasks ----

  /**
   What a task declares besides its contract: None stands for a missing field, and a null type reads as an empty one.
   */
  datatype Header = Header(kind: Option<Text>, agent: Option<Text>, acp: Option<Option<Text>>, dependsOnList: bool)

  /** on_fail: a missing field, an empty object, an object (a missing max_fail_count is 0), or a text. */
  datatype Fallback = Absent | EmptyObject | Object(task: Option<Text>, maxFailCount: int) | Plain(text: Text)

  /** A task of a template, as far as admission reads it. */
  datatype TaskDef = TaskDef(
    id: Text, header: Header, dependsOn: seq<Text>, doText: Text, described: bool, input: Text, output: Text,
    outputFormat: bool, onFail: Fallback, failGroup: Text, requireApproval: bool, criteria: Text)

  function Normal(t: TaskDef): TaskDef {
    t.(id := Strip(t.id), dependsOn := NamedOnly(StripAll(t.dependsOn)))
  }

  function Normalized(ts: seq<TaskDef>): (r: seq<TaskDef>)
    ensures |r| == |ts|
  {
    seq(|ts|, i requires 0 <= i < |ts| => Normal(ts[i]))
  }

  // ---- headers ----

  /** SUPPORTED_AGENT_PROVIDERS */
  function Providers(): set<Text> {
    {Lit("claude"), Lit("codex"), Lit("opencode")}
  }

  predicate Supported(agent: Text) {
    Lower(Strip(agent)) in Providers()
  }

  /** The agent field, or the one of the acp object where that is missing or empty. */
  function ChosenAgent(h: Header): Option<Text> {
    if h.acp.Some? && (h.agent == None || h.agent == Some([])) then h.acp.value else h.agent
  }

  /** A task without an agent gets the default one, which is supported. */
  predicate HeaderOk(h: Header) {
    && h.dependsOnList && h.kind != Some([])
    && (ChosenAgent(h).Some? ==> Supported(ChosenAgent(h).value))
  }

  predicate LegalId(id: Text) {
    id != [] && '/' as int !in id && '\\' as int !in id
  }

  function IdsOf(ts: seq<TaskDef>): seq<Text> {
    seq(|ts|, i requires 0 <= i < |ts| => ts[i].id)
  }

  ghost predicate DistinctIds(ts: seq<TaskDef>) {
    forall i, j :: 0 <= i < j < |ts| ==> ts[i].id != ts[j].id
  }

  function DagOf(ts: seq<TaskDef>): Dag {
    if ts == [] then map[] else DagOf(ts[..|ts| - 1])[ts[|ts| - 1].id := ts[|ts| - 1].dependsOn]
  }

  lemma {:induction false} DagOfTasks(ts: seq<TaskDef>)
    ensures forall t :: t in IdsOf(ts) <==> t in DagOf(ts)
    ensures DistinctIds(ts) ==> forall i :: 0 <= i < |ts| ==> Deps(DagOf(ts), ts[i].id) == ts[i].dependsOn
  {
    if ts != [] {
      var front, last := ts[..|ts| - 1], ts[|ts| - 1];
      DagOfTasks(front);
      assert IdsOf(ts) == IdsOf(front) + [last.id];
      assert forall i :: 0 <= i < |front| ==> front[i] == ts[i];
      assert forall i :: 0 <= i < |ts| ==> ts[i].id in IdsOf(ts) by {
        assert forall i :: 0 <= i < |ts| ==> IdsOf(ts)[i] == ts[i].id;
      }
    }
  }

  // ---- contracts ----

  /** Python's truth of an on_fail value. */
  predicate Given(f: Fallback) {
    f.Object? || (f.Plain? && f.text != [])
  }

  /** The task an on_fail value names; no text at all for an object without one. */
  function TargetOf(f: Fallback): Option<Text> {
    match f
    case Absent => Some([])
    case EmptyObject => None
    case Object(task, _) => task
    case Plain(text) => Some(text)
  }

  /** int(on_fail.get("max_fail_count") or 1), and 1 where on_fail is no object. */
  function FailBudget(f: Fallback): int {
    if f.Object? && f.maxFailCount != 0 then f.maxFailCount else 1
  }

  predicate UsesContracts(t: TaskDef) {
    || !Blank(t.doText) || !Blank(t.input) || !Blank(t.output) || t.outputFormat
    || t.onFail.Object? || (t.onFail.Plain? && !Blank(t.onFail.text))
  }

  predicate TaskContract(ts: seq<TaskDef>, t: TaskDef) {
    && (!Blank(t.doText) || t.described)
    && (Given(t.onFail) ==>
      && TargetOf(t.onFail).Some? && TargetOf(t.onFail).value != [] && TargetOf(t.onFail).value in IdsOf(ts)
      && t.outputFormat)
  }

  /** What a group's members must share: fallback target and budget. */
  function Shared(t: TaskDef): (Option<Text>, int) {
    (TargetOf(t.onFail), FailBudget(t.onFail))
  }

  function GroupKey(t: TaskDef): Text {
    Strip(t.failGroup)
  }

  ghost predicate GroupsAgree(ts: seq<TaskDef>) {
    forall i, j :: 0 <= i < |ts| && 0 <= j < |ts| && GroupKey(ts[i]) == GroupKey(ts[j]) != [] ==>
      Shared(ts[i]) == Shared(ts[j])
  }

  ghost predicate ContractsHold(ts: seq<TaskDef>) {
    (exists i :: 0 <= i < |ts| && UsesContracts(ts[i])) ==>
      (forall i :: 0 <= i < |ts| ==> TaskContract(ts, ts[i])) && GroupsAgree(ts)
  }

  /** What the validator lets in. */
  ghost predicate Admitted(raw: seq<TaskDef>) {
    var ts := Normalized(raw);
    && ts != []
    && (forall i :: 0 <= i < |ts| ==> LegalId(ts[i].id) && HeaderOk(ts[i].header))
    && DistinctIds(ts)
    && KnownRefs(DagOf(ts)) && Acyclic(DagOf(ts))
    && ContractsHold(ts)
  }

  method CheckGroups(ts: seq<TaskDef>) returns (ok: bool)
    ensures ok <==> GroupsAgree(ts)
  {
    hide GroupKey, Shared;
    var groups: map<Text, (Option<Text>, int)> := map[];
    for i := 0 to |ts|
      invariant forall j :: 0 <= j < i && GroupKey(ts[j]) != [] ==>
        GroupKey(ts[j]) in groups && groups[GroupKey(ts[j])] == Shared(ts[j])
      invariant forall g :: g in groups ==> exists j :: 0 <= j < i && g == GroupKey(ts[j]) && g != []
    {
      var group := GroupKey(ts[i]);
      if group != [] {
        if group in groups && groups[group] != Shared(ts[i]) {
          ghost var j :| 0 <= j < i && group == GroupKey(ts[j]);
          return false;
        }
        groups := groups[group := Shared(ts[i])];
      }
    }
    return true;
  }

  method CheckContracts(ts: seq<TaskDef>) returns (ok: bool)
    ensures ok <==> ContractsHold(ts)
  {
    hide Strip, Blank, GroupsAgree, TaskContract, UsesContracts;
    var uses := exists i | 0 <= i < |ts| :: UsesContracts(ts[i]);
    if !uses {
      return true;
    }
    for i := 0 to |ts|
      invariant forall j :: 0 <= j < i ==> TaskContract(ts, ts[j])
    {
      if !TaskContract(ts, ts[i]) {
        return false;
      }
    }
    ok := CheckGroups(ts);
  }

  method Manifest(raw: seq<TaskDef>) returns (ok: bool)
    ensures ok <==> Admitted(raw)
  {
    hide DagOf, Normal, KnownRefs, Acyclic, ContractsHold, HeaderOk;
    var ts := Normalized(raw);
    if ts == [] {
      return false;
    }
    var ids: set<Text> := {};
    for i := 0 to |ts|
      invariant forall j :: 0 <= j < i ==> LegalId(ts[j].id) && HeaderOk(ts[j].header) && ts[j].id in ids
      invariant forall x :: x in ids ==> exists j :: 0 <= j < i && ts[j].id == x
      invariant forall j, k :: 0 <= j < k < i ==> ts[j].id != ts[k].id
    {
      if !LegalId(ts[i].id) || ts[i].id in ids || !HeaderOk(ts[i].header) {
        return false;
      }
      ids := ids + {ts[i].id};
    }
    var order := IdsOf(ts);
    DagOfTasks(ts);
    var verdict := DagValidation.ValidateDag(DagOf(ts), order);
    if verdict != DagValidation.Accepted {
      return false;
    }
    ok := CheckContracts(ts);
  }
}
