/** The ralph-flow compiler (ralph_flow_import.compile_workflow): a step state machine lowered to a task graph. */
module RalphFlow {
  import opened Texts
  import opened KvStore
  import opened EventKeys
  import opened TemplateValidation

  /**
   A step; an empty text or None stands for a missing field. `fileOutput` says whether _derive_output_format finds a
   file name in the output.
   */
  datatype Step = Step(
    id: Text, desc: Text, doText: Text, input: Text, output: Text, onPass: Text, onFail: Text,
    maxFailCount: Option<int>, check: Text, voting: Option<seq<Text>>, nested: bool, fileOutput: bool)

  /**
   What else the caller and the workflow fix: the steps that need approval, the agent arguments, the agent text of a
   nonempty adversarial_check object (empty if it names none), and the task type.
   */
  datatype Settings = Settings(
    manual: set<Text>, agent: Text, checkAgent: Text, adversarial: Option<Text>, taskType: Text)

  function DONE(): Text { Lit("done") }

  function MARK(): Text { Lit("__check") }

  // ---- which workflows compile ----

  predicate StepComplete(s: Step) {
    && !Blank(s.id) && !s.nested
    && s.desc != [] && s.doText != [] && s.input != [] && s.output != [] && s.onPass != [] && s.onFail != []
    && s.maxFailCount.Some? && s.maxFailCount.value >= 1
  }

  /** check_voting is absent, or a nonempty list of criteria. */
  predicate VotingOk(s: Step) {
    s.voting.Some? ==> s.voting.value != [] && forall v :: v in s.voting.value ==> !Blank(v)
  }

  predicate IsStep(steps: seq<Step>, id: Text) {
    exists i :: 0 <= i < |steps| && steps[i].id == id
  }

  predicate TargetsKnown(steps: seq<Step>, s: Step) {
    (s.onPass == DONE() || IsStep(steps, s.onPass)) && IsStep(steps, s.onFail)
  }

  ghost predicate DistinctSteps(steps: seq<Step>) {
    forall i, j :: 0 <= i < j < |steps| ==> steps[i].id != steps[j].id
  }

  ghost predicate Compilable(steps: seq<Step>, settings: Settings) {
    && steps != [] && DistinctSteps(steps)
    && (forall i :: 0 <= i < |steps| ==> StepComplete(steps[i]) && VotingOk(steps[i]) && TargetsKnown(steps, steps[i]))
    && forall m :: m in settings.manual ==> IsStep(steps, m)
  }

  // ---- what they compile to ----

  function Votes(s: Step): seq<Text> {
    if s.voting.Some? then s.voting.value else []
  }

  /** f"{id}__check{n}" */
  function CheckId(id: Text, n: nat): Text {
    id + MARK() + Padded(n, 1)
  }

  function CheckIds(s: Step): (r: seq<Text>)
    ensures |r| >= 1
  {
    if Votes(s) == [] then [s.id + MARK()]
    else seq(|Votes(s)|, i requires 0 <= i < |Votes(s)| => CheckId(s.id, i + 1))
  }

  /** The checks of every step that goes on to this one, in step order. */
  function DoDeps(steps: seq<Step>, target: Text): seq<Text> {
    if steps == [] then []
    else
      var last := steps[|steps| - 1];
      DoDeps(steps[..|steps| - 1], target) + if last.onPass == target && target != DONE() then CheckIds(last) else []
  }

  function Criteria(s: Step): seq<Text> {
    if Votes(s) != [] then Votes(s) else if s.check != [] then [s.check] else []
  }

  function DoHeader(settings: Settings): Header {
    Header(Some(settings.taskType), Some(settings.agent), None, true)
  }

  /** verifier or check_agent or agent */
  function CheckAgent(settings: Settings): Text {
    if settings.adversarial.Some? && Supported(settings.adversarial.value) then Lower(Strip(settings.adversarial.value))
    else if settings.checkAgent != [] then settings.checkAgent
    else settings.agent
  }

  function CheckHeader(settings: Settings): Header {
    var acp := if settings.adversarial.Some? then Some(None) else None;
    Header(Some(settings.taskType), Some(CheckAgent(settings)), acp, true)
  }

  function DoTask(steps: seq<Step>, settings: Settings, s: Step): TaskDef {
    TaskDef(s.id, DoHeader(settings), DoDeps(steps, s.id), Strip(s.doText), true, Strip(s.input), Strip(s.output),
            s.fileOutput, Absent, [], false, [])
  }

  /** Stands for the instruction of a check; what matters here is that it is not blank. */
  function CheckPrompt(): Text { Lit("VERDICT: PASS") }

  /** The output a check declares: "verification result: the last line reads VERDICT: PASS", in Chinese. */
  function CheckOutput(): Text {
    Lit("\U{9A8C}\U{8BC1}\U{7ED3}\U{8BBA}\U{FF1A}\U{6700}\U{540E}\U{4E00}\U{884C}\U{8F93}\U{51FA} VERDICT: PASS")
  }

  function CheckTask(settings: Settings, s: Step, index: nat): TaskDef
    requires index < |CheckIds(s)| && s.maxFailCount.Some?
  {
    TaskDef(CheckIds(s)[index], CheckHeader(settings), [s.id], CheckPrompt(), true, Strip(s.output),
            CheckOutput(), true, Object(Some(s.onFail), s.maxFailCount.value), s.id, s.id in settings.manual,
            if index < |Criteria(s)| then Criteria(s)[index] else [])
  }

  function CheckTasks(settings: Settings, s: Step): (r: seq<TaskDef>)
    requires s.maxFailCount.Some?
    ensures |r| == |CheckIds(s)|
  {
    seq(|CheckIds(s)|, i requires 0 <= i < |CheckIds(s)| => CheckTask(settings, s, i))
  }

  predicate Budgeted(steps: seq<Step>) {
    forall i :: 0 <= i < |steps| ==> steps[i].maxFailCount.Some?
  }

  /** The tasks of the first steps, against all steps. */
  function TasksOf(steps: seq<Step>, settings: Settings, some: seq<Step>): seq<TaskDef>
    requires Budgeted(some)
  {
    if some == [] then []
    else
      var last := some[|some| - 1];
      TasksOf(steps, settings, some[..|some| - 1]) + [DoTask(steps, settings, last)] + CheckTasks(settings, last)
  }

  datatype Compiled = Rejected | Template(tasks: seq<TaskDef>)

  // ---- the compiler ----

  method ValidateSteps(steps: seq<Step>, settings: Settings) returns (ok: bool)
    ensures ok <==> Compilable(steps, settings)
  {
    hide StepComplete, VotingOk, TargetsKnown;
    if steps == [] {
      return false;
    }
    var ids: set<Text> := {};
    for i := 0 to |steps|
      invariant forall x :: x in ids <==> IsStep(steps[..i], x)
      invariant forall j :: 0 <= j < i ==> StepComplete(steps[j]) && VotingOk(steps[j])
      invariant DistinctSteps(steps[..i])
    {
      if steps[i].id in ids {
        ghost var j :| 0 <= j < i && steps[..i][j].id == steps[i].id;
        assert steps[j].id == steps[i].id;
        return false;
      }
      if !StepComplete(steps[i]) || !VotingOk(steps[i]) {
        return false;
      }
      IsStepNext(steps, i);
      ids := ids + {steps[i].id};
    }
    assert steps[..|steps|] == steps;
    for i := 0 to |steps|
      invariant forall j :: 0 <= j < i ==> TargetsKnown(steps, steps[j])
    {
      if !TargetsKnown(steps, steps[i]) {
        return false;
      }
    }
    ok := settings.manual <= ids;
  }

  lemma IsStepNext(steps: seq<Step>, i: nat)
    requires i < |steps|
    ensures forall x :: IsStep(steps[..i + 1], x) <==> IsStep(steps[..i], x) || x == steps[i].id
  {
    var front, next := steps[..i], steps[..i + 1];
    assert next[i] == steps[i];
    forall x ensures IsStep(next, x) <==> IsStep(front, x) || x == steps[i].id {
      if IsStep(next, x) && x != steps[i].id {
        var k :| 0 <= k < |next| && next[k].id == x;
        assert front[k].id == x;
      }
      if IsStep(front, x) {
        var k :| 0 <= k < |front| && front[k].id == x;
        assert next[k].id == x;
      }
    }
  }

  /** compile_workflow on steps whose ids carry no surrounding space. */
  method CompileWorkflow(steps: seq<Step>, settings: Settings) returns (r: Compiled)
    ensures r.Rejected? <==> !Compilable(steps, settings)
    ensures r.Template? ==> Budgeted(steps) && r.tasks == TasksOf(steps, settings, steps)
  {
    var ok := ValidateSteps(steps, settings);
    if !ok {
      return Rejected;
    }
    CompilableSteps(steps, settings);
    var doDependencies := CollectDependencies(steps);
    var tasks := EmitTasks(steps, settings, doDependencies);
    return Template(tasks);
  }

  method EmitTasks(
    steps: seq<Step>, settings: Settings, doDependencies: map<Text, seq<Text>>) returns (tasks: seq<TaskDef>)
    requires Budgeted(steps)
    requires forall i :: 0 <= i < |steps| ==>
      steps[i].id in doDependencies && doDependencies[steps[i].id] == DoDeps(steps, steps[i].id)
    ensures tasks == TasksOf(steps, settings, steps)
  {
    hide CheckIds, DoTask, CheckTasks, Strip, DoDeps;
    tasks := [];
    for i := 0 to |steps|
      invariant tasks == TasksOf(steps, settings, steps[..i])
    {
      var s := steps[i];
      assert steps[..i + 1][..i] == steps[..i];
      var task := TaskDef(s.id, DoHeader(settings), doDependencies[s.id], Strip(s.doText), true, Strip(s.input),
                          Strip(s.output), s.fileOutput, Absent, [], false, []);
      DoTaskIs(steps, settings, s, doDependencies[s.id]);
      var checks := AddChecks(settings, s);
      tasks := tasks + [task] + checks;
    }
    assert steps[..|steps|] == steps;
  }

  lemma CompilableSteps(steps: seq<Step>, settings: Settings)
    requires Compilable(steps, settings)
    ensures Budgeted(steps)
    ensures forall i :: 0 <= i < |steps| ==> steps[i].onPass == DONE() || IsStep(steps, steps[i].onPass)
  {}

  lemma DoTaskIs(steps: seq<Step>, settings: Settings, s: Step, deps: seq<Text>)
    requires deps == DoDeps(steps, s.id)
    ensures DoTask(steps, settings, s) ==
      TaskDef(s.id, DoHeader(settings), deps, Strip(s.doText), true, Strip(s.input), Strip(s.output), s.fileOutput,
              Absent, [], false, [])
  {}

  method CollectDependencies(steps: seq<Step>) returns (doDependencies: map<Text, seq<Text>>)
    requires forall i :: 0 <= i < |steps| ==> steps[i].onPass == DONE() || IsStep(steps, steps[i].onPass)
    ensures forall i :: 0 <= i < |steps| ==>
      steps[i].id in doDependencies && doDependencies[steps[i].id] == DoDeps(steps, steps[i].id)
  {
    hide CheckIds;
    doDependencies := map i | 0 <= i < |steps| :: steps[i].id := [];
    for i := 0 to |steps|
      invariant forall t :: t in doDependencies <==> IsStep(steps, t)
      invariant forall t :: t in doDependencies ==> doDependencies[t] == DoDeps(steps[..i], t)
    {
      assert steps[..i + 1][..i] == steps[..i];
      var target := steps[i].onPass;
      if target != DONE() {
        doDependencies := doDependencies[target := doDependencies[target] + CheckIds(steps[i])];
      }
    }
    assert steps[..|steps|] == steps;
  }

  method AddChecks(settings: Settings, s: Step) returns (checks: seq<TaskDef>)
    requires s.maxFailCount.Some?
    ensures checks == CheckTasks(settings, s)
  {
    checks := [];
    var nodes := CheckIds(s);
    for index := 0 to |nodes|
      invariant checks == CheckTasks(settings, s)[..index]
    {
      var criteria := if index < |Criteria(s)| then Criteria(s)[index] else [];
      var check := TaskDef(nodes[index], CheckHeader(settings), [s.id], CheckPrompt(), true, Strip(s.output),
                           CheckOutput(), true, Object(Some(s.onFail), s.maxFailCount.value), s.id,
                           s.id in settings.manual, criteria);
      checks := checks + [check];
    }
  }
}
