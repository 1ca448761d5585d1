/** The errors for which the validator refuses a template, one by one, on the fields as they are given. */
module TemplateErrors {
  import opened Texts
  import opened Graph
  import opened KvStore
  import opened TemplateValidation

  predicate Empty(t: Text) {
    forall c :: c in t ==> Space(c)
  }

  /** INVALID_DEPENDENCIES, an empty type, an empty or unsupported agent. */
  predicate HeaderFault(h: Header) {
    || !h.dependsOnList
    || h.kind == Some([])
    || (h.agent.Some? && h.agent.value != [] && !KnownAgent(h.agent.value))
    || (h.agent == Some([]) && h.acp.None?)
    || ((h.agent.None? || h.agent.value == []) && h.acp.Some? && h.acp.value.Some? && !KnownAgent(h.acp.value.value))
  }

  predicate KnownAgent(agent: Text) {
    var name := Lower(Strip(agent));
    name == Lit("claude") || name == Lit("codex") || name == Lit("opencode")
  }

  /** TASK_FIELD_REQUIRED for the id, INVALID_ID. */
  predicate IdFault(id: Text) {
    Strip(id) == [] || exists c :: c in Strip(id) && (c == '/' as int || c == '\\' as int)
  }

  /** UNKNOWN_DEPENDENCY: a name that is left after trimming and is no task's id. */
  ghost predicate DependencyFault(raw: seq<TaskDef>) {
    exists i, d :: 0 <= i < |raw| && d in raw[i].dependsOn && Strip(d) != [] && !NamesTask(raw, Strip(d))
  }

  ghost predicate NamesTask(raw: seq<TaskDef>, id: Text) {
    exists j :: 0 <= j < |raw| && Strip(raw[j].id) == id
  }

  /** Some task uses a contract field; otherwise none is checked. */
  ghost predicate AnyContract(raw: seq<TaskDef>) {
    exists i :: 0 <= i < |raw| && UsesSome(raw[i])
  }

  predicate UsesSome(t: TaskDef) {
    || !Empty(t.doText) || !Empty(t.input) || !Empty(t.output) || t.outputFormat
    || match t.onFail
       case Absent => false
       case EmptyObject => false
       case Object(_, _) => true
       case Plain(text) => !Empty(text)
  }

  /** TASK_FIELD_REQUIRED for do and output_format, INVALID_ON_FAIL. */
  ghost predicate ContractFault(raw: seq<TaskDef>, t: TaskDef) {
    || (Empty(t.doText) && !t.described)
    || match t.onFail
       case Absent => false
       case EmptyObject => false
       case Object(task, _) => task.None? || task.value == [] || !NamesTask(raw, task.value) || !t.outputFormat
       case Plain(text) => text != [] && (!NamesTask(raw, text) || !t.outputFormat)
  }

  /** INCONSISTENT_ON_FAIL: two members of a group fall back to different tasks or with different budgets. */
  ghost predicate GroupFault(raw: seq<TaskDef>) {
    exists i, j :: 0 <= i < |raw| && 0 <= j < |raw| && Differ(raw[i], raw[j])
  }

  predicate Differ(t: TaskDef, u: TaskDef) {
    && Strip(t.failGroup) == Strip(u.failGroup) != []
    && (FallsTo(t.onFail) != FallsTo(u.onFail) || Allows(t.onFail) != Allows(u.onFail))
  }

  /** Python's target expression: no name at all for an object without one, an empty one for no fallback. */
  function FallsTo(f: Fallback): Option<Text> {
    if f.Object? then f.task else if f.EmptyObject? then None else if f.Plain? then Some(f.text) else Some([])
  }

  function Allows(f: Fallback): int {
    if f.Object? && f.maxFailCount != 0 then f.maxFailCount else 1
  }

  /** Contracts are used and one is at fault. */
  ghost predicate AnyContractFault(raw: seq<TaskDef>) {
    AnyContract(raw) && ((exists i :: 0 <= i < |raw| && ContractFault(raw, raw[i])) || GroupFault(raw))
  }

  lemma HeaderFaults(h: Header)
    ensures HeaderFault(h) <==> !HeaderOk(h)
  {
    hide Strip, Lower;
    assert Lower(Strip([])) == [] by { EmptyLower(); }
    assert |Lit("claude")| == 6 && |Lit("codex")| == 5 && |Lit("opencode")| == 8;
  }

  lemma EmptyLower()
    ensures Lower(Strip([])) == []
  {}

  /** Lowering turns A to Z into a to z, letter by letter, and leaves every other character. */
  lemma LowerLetters(t: Text, v: nat)
    requires v < 26
    ensures |Lower(t)| == |t|
    ensures forall i :: 0 <= i < |t| && t[i] == 'A' as int + v ==> Lower(t)[i] == 'a' as int + v
    ensures forall i :: 0 <= i < |t| && (t[i] < 'A' as int || t[i] > 'Z' as int) ==> Lower(t)[i] == t[i]
  {}

  lemma IdFaults(id: Text)
    ensures IdFault(id) <==> !LegalId(Strip(id))
  {
    hide Strip;
  }

  lemma EmptyBlank(t: Text)
    ensures Empty(t) <==> Blank(t)
  {}

  lemma {:induction false} StripAllMembers(ds: seq<Text>)
    ensures forall d :: d in NamedOnly(StripAll(ds)) <==> d != [] && exists r :: r in ds && Strip(r) == d
  {
    hide Strip;
    forall d ensures d in StripAll(ds) <==> exists r :: r in ds && Strip(r) == d {
      if d in StripAll(ds) {
        var i :| 0 <= i < |ds| && StripAll(ds)[i] == d;
        assert ds[i] in ds && Strip(ds[i]) == d;
      }
      if r :| r in ds && Strip(r) == d {
        var i :| 0 <= i < |ds| && ds[i] == r;
        assert StripAll(ds)[i] == d;
      }
    }
  }

  lemma NamesNormal(raw: seq<TaskDef>, id: Text)
    ensures NamesTask(raw, id) <==> id in IdsOf(Normalized(raw))
  {
    hide Strip, NamedOnly, StripAll;
    var ts := Normalized(raw);
    if NamesTask(raw, id) {
      var j :| 0 <= j < |raw| && Strip(raw[j].id) == id;
      assert IdsOf(ts)[j] == id;
    }
    if id in IdsOf(ts) {
      var j :| 0 <= j < |ts| && IdsOf(ts)[j] == id;
      assert Strip(raw[j].id) == id;
    }
  }

  lemma DependencyFaults(raw: seq<TaskDef>)
    requires DistinctIds(Normalized(raw))
    ensures DependencyFault(raw) <==> !KnownRefs(DagOf(Normalized(raw)))
  {
    hide Strip, NamedOnly, StripAll, DagOf, NamesTask;
    var ts := Normalized(raw);
    var g := DagOf(ts);
    DagOfTasks(ts);
    forall id ensures NamesTask(raw, id) <==> id in g { NamesNormal(raw, id); }
    if DependencyFault(raw) {
      var i, d :| 0 <= i < |raw| && d in raw[i].dependsOn && Strip(d) != [] && !NamesTask(raw, Strip(d));
      StripAllMembers(raw[i].dependsOn);
      assert Strip(d) in ts[i].dependsOn && ts[i].dependsOn == Deps(g, ts[i].id);
      assert IdsOf(ts)[i] == ts[i].id;
      assert !RefsKnown(g, ts[i].id);
    } else {
      forall v | v in g ensures RefsKnown(g, v) {
        var i :| 0 <= i < |ts| && IdsOf(ts)[i] == v;
        StripAllMembers(raw[i].dependsOn);
        forall d | d in g[v] ensures d != [] && d in g {
          assert d in ts[i].dependsOn;
          var r :| r in raw[i].dependsOn && Strip(r) == d;
        }
      }
    }
  }

  lemma SameContract(raw: seq<TaskDef>, i: nat)
    requires i < |raw|
    ensures var ts := Normalized(raw);
      && (UsesSome(raw[i]) <==> UsesContracts(ts[i]))
      && (ContractFault(raw, raw[i]) <==> !TaskContract(ts, ts[i]))
  {
    hide Strip, NamedOnly, StripAll, NamesTask, Empty, Blank, Normalized;
    var t := raw[i];
    EmptyBlank(t.doText);
    EmptyBlank(t.input);
    EmptyBlank(t.output);
    if t.onFail.Plain? {
      EmptyBlank(t.onFail.text);
      NamesNormal(raw, t.onFail.text);
    }
    if t.onFail.Object? && t.onFail.task.Some? { NamesNormal(raw, t.onFail.task.value); }
    NormalAt(raw, i);
  }

  lemma NormalAt(raw: seq<TaskDef>, i: nat)
    requires i < |raw|
    ensures Normalized(raw)[i] == Normal(raw[i])
  {
    hide Normal;
  }

  lemma ContractFaults(raw: seq<TaskDef>)
    ensures AnyContractFault(raw) <==> !ContractsHold(Normalized(raw))
  {
    hide Strip, UsesSome, UsesContracts, TaskContract, ContractFault, Normal;
    var ts := Normalized(raw);
    forall i | 0 <= i < |raw|
      ensures UsesSome(raw[i]) <==> UsesContracts(ts[i])
      ensures ContractFault(raw, raw[i]) <==> !TaskContract(ts, ts[i])
    {
      SameContract(raw, i);
    }
    GroupFaults(raw);
    hide GroupsAgree, GroupFault;
    assert AnyContract(raw) <==> exists i :: 0 <= i < |ts| && UsesContracts(ts[i]) by {
      if i :| 0 <= i < |ts| && UsesContracts(ts[i]) { assert UsesSome(raw[i]); }
    }
    assert (exists i :: 0 <= i < |raw| && ContractFault(raw, raw[i]))
      <==> !(forall i :: 0 <= i < |ts| ==> TaskContract(ts, ts[i])) by {
      if i :| 0 <= i < |ts| && !TaskContract(ts, ts[i]) { assert ContractFault(raw, raw[i]); }
    }
  }

  lemma GroupFaults(raw: seq<TaskDef>)
    ensures GroupFault(raw) <==> !GroupsAgree(Normalized(raw))
  {
    hide Strip, NamedOnly, StripAll;
    var ts := Normalized(raw);
    if GroupFault(raw) {
      var i, j :| 0 <= i < |raw| && 0 <= j < |raw| && Differ(raw[i], raw[j]);
      assert GroupKey(ts[i]) == GroupKey(ts[j]) != [] && Shared(ts[i]) != Shared(ts[j]);
    } else {
      forall i, j | 0 <= i < |ts| && 0 <= j < |ts| && GroupKey(ts[i]) == GroupKey(ts[j]) != []
        ensures Shared(ts[i]) == Shared(ts[j])
      {
        assert !Differ(raw[i], raw[j]);
      }
    }
  }

  /** A template is refused exactly for one of these errors. */
  lemma RefusedExactly(raw: seq<TaskDef>)
    ensures !Admitted(raw) <==>
      || raw == []
      || (exists i :: 0 <= i < |raw| && (IdFault(raw[i].id) || HeaderFault(raw[i].header)))
      || (exists i, j :: 0 <= i < j < |raw| && Strip(raw[i].id) == Strip(raw[j].id))
      || DependencyFault(raw)
      || !Acyclic(DagOf(Normalized(raw)))
      || AnyContractFault(raw)
  {
    hide Strip, Normal, LegalId, HeaderOk, IdFault, HeaderFault, DependencyFault, AnyContractFault;
    hide ContractsHold, KnownRefs, Acyclic, DagOf;
    var ts := Normalized(raw);
    ContractFaults(raw);
    forall i | 0 <= i < |raw|
      ensures ts[i].id == Strip(raw[i].id) && ts[i].header == raw[i].header
      ensures IdFault(raw[i].id) <==> !LegalId(ts[i].id)
      ensures HeaderFault(raw[i].header) <==> !HeaderOk(ts[i].header)
    {
      NormalFields(raw[i]);
      IdFaults(raw[i].id);
      HeaderFaults(raw[i].header);
    }
    if DistinctIds(ts) { DependencyFaults(raw); }
    assert DistinctIds(ts) <==> !(exists i, j :: 0 <= i < j < |raw| && Strip(raw[i].id) == Strip(raw[j].id));
  }

  lemma NormalFields(t: TaskDef)
    ensures Normal(t).id == Strip(t.id) && Normal(t).header == t.header
  {}
}
