/** What the compiler writes into each task, field by field, and in what order. */
module RalphFlowFields {
  import opened Texts
  import opened KvStore
  import opened EventKeys
  import opened TemplateValidation
  import opened RalphFlow
  import opened RalphFlowIds
  import opened RalphFlowProofs

  predicate Voted(s: Step) {
    s.voting.Some? && s.voting.value != []
  }

  /** How many checks the step gets. */
  function ChecksOf(s: Step): nat {
    if Voted(s) then |s.voting.value| else 1
  }

  /** The m-th check id of a step, counted from 0. */
  function NamedCheck(s: Step, m: nat): Text {
    s.id + Lit("__check") + if Voted(s) then Padded(m + 1, 1) else []
  }

  /** The task runs the step: its texts, the agent asked for, no fallback, no approval. */
  ghost predicate RunsStep(settings: Settings, s: Step, t: TaskDef) {
    && t.id == s.id && t.doText == Strip(s.doText) && t.input == Strip(s.input) && t.output == Strip(s.output)
    && t.outputFormat == s.fileOutput && t.described
    && t.onFail == Absent && t.failGroup == [] && !t.requireApproval && t.criteria == []
    && t.header == Header(Some(settings.taskType), Some(settings.agent), None, true)
  }

  /** The agent of the checks: a supported verifier, else the check agent, else the agent of the steps. */
  ghost predicate ChecksWith(settings: Settings, agent: Text) {
    var named := if settings.adversarial.Some? then Lower(Strip(settings.adversarial.value)) else [];
    if named in {Lit("claude"), Lit("codex"), Lit("opencode")} then agent == named
    else if settings.checkAgent != [] then agent == settings.checkAgent
    else agent == settings.agent
  }

  /** The task is the m-th check of the step: what it reads, its criterion, fallback, budget, group and approval. */
  ghost predicate ChecksStep(settings: Settings, s: Step, m: nat, t: TaskDef) {
    && m < ChecksOf(s) && t.id == NamedCheck(s, m) && t.dependsOn == [s.id]
    && t.doText != [] && t.described && t.input == Strip(s.output) && t.outputFormat
    && t.output
      == Lit("\U{9A8C}\U{8BC1}\U{7ED3}\U{8BBA}\U{FF1A}\U{6700}\U{540E}\U{4E00}\U{884C}\U{8F93}\U{51FA} VERDICT: PASS")
    && s.maxFailCount.Some? && t.onFail == Object(Some(s.onFail), s.maxFailCount.value) && t.failGroup == s.id
    && (t.requireApproval <==> s.id in settings.manual)
    && t.criteria == (if Voted(s) then s.voting.value[m] else s.check)
    && t.header.kind == Some(settings.taskType) && t.header.dependsOnList
    && t.header.agent.Some? && ChecksWith(settings, t.header.agent.value)
    && t.header.acp == if settings.adversarial.Some? then Some(None) else None
  }

  /** Place (i, 0) is the run of step i, place (i, m + 1) its m-th check. */
  ghost predicate Fits(settings: Settings, steps: seq<Step>, t: TaskDef, place: (nat, nat)) {
    && place.0 < |steps|
    && if place.1 == 0 then RunsStep(settings, steps[place.0], t)
       else ChecksStep(settings, steps[place.0], place.1 - 1, t)
  }

  predicate Before(a: (nat, nat), b: (nat, nat)) {
    a.0 < b.0 || (a.0 == b.0 && a.1 < b.1)
  }

  /** The places are those of all steps and checks, in order. */
  ghost predicate AllPlaces(steps: seq<Step>, places: seq<(nat, nat)>) {
    && (forall a, b :: 0 <= a < b < |places| ==> Before(places[a], places[b]))
    && (forall i, m :: (i, m) in places <==> 0 <= i < |steps| && 0 <= m <= ChecksOf(steps[i]))
  }

  lemma RunFields(all: seq<Step>, settings: Settings, s: Step)
    ensures RunsStep(settings, s, DoTask(all, settings, s))
  {
    hide Strip;
  }

  lemma CheckFields(settings: Settings, s: Step, m: nat)
    requires s.maxFailCount.Some? && m < |CheckIds(s)|
    ensures |CheckIds(s)| == ChecksOf(s) && ChecksStep(settings, s, m, CheckTask(settings, s, m))
  {
    hide Strip, Padded, Lower;
    CheckIdNamed(s, m);
    CheckAgentNamed(settings);
    assert |CheckPrompt()| == 13;
  }

  lemma CheckIdNamed(s: Step, m: nat)
    requires m < |CheckIds(s)|
    ensures |CheckIds(s)| == ChecksOf(s) && CheckIds(s)[m] == NamedCheck(s, m)
  {
    hide Padded;
    if Voted(s) {
      assert CheckIds(s)[m] == CheckId(s.id, m + 1);
    } else {
      assert CheckIds(s) == [s.id + MARK()] && NamedCheck(s, m) == s.id + MARK() + [];
    }
  }

  lemma CheckAgentNamed(settings: Settings)
    ensures ChecksWith(settings, CheckAgent(settings))
  {
    hide Strip, Lower;
    EmptyUnsupported();
    assert |Lit("claude")| == 6 && |Lit("codex")| == 5 && |Lit("opencode")| == 8;
  }

  function PlacesOf(i: nat, count: nat): seq<(nat, nat)> {
    seq(count + 1, m => (i, m))
  }

  /**
   The compiled tasks are exactly the steps' runs and checks: step by step in their order, each run before its checks
   and the checks in voting order, with every field as the step and the settings say.
   */
  lemma {:induction false} CompiledTasksAre(all: seq<Step>, settings: Settings, steps: seq<Step>)
    returns (places: seq<(nat, nat)>)
    requires Budgeted(steps)
    ensures var ts := TasksOf(all, settings, steps);
      && |places| == |ts| && AllPlaces(steps, places)
      && forall a :: 0 <= a < |ts| ==> Fits(settings, steps, ts[a], places[a])
  {
    hide DoTask, CheckTask, RunsStep, ChecksStep, CheckIds, ChecksOf;
    if steps == [] {
      places := [];
    } else {
      var front, last := steps[..|steps| - 1], steps[|steps| - 1];
      var n := |front|;
      var before := CompiledTasksAre(all, settings, front);
      CheckFields(settings, last, 0);
      RunFields(all, settings, last);
      places := before + PlacesOf(n, ChecksOf(last));
      MorePlaces(front, last, before);
      assert front + [last] == steps;
      var ts, own := TasksOf(all, settings, steps), CheckTasks(settings, last);
      var earlier := TasksOf(all, settings, front);
      assert ts == earlier + [DoTask(all, settings, last)] + own;
      forall a | 0 <= a < |ts| ensures Fits(settings, steps, ts[a], places[a]) {
        if a < |earlier| {
          assert Fits(settings, front, earlier[a], before[a]);
        } else if a > |earlier| {
          CheckFields(settings, last, a - |earlier| - 1);
        }
      }
    }
  }

  lemma MorePlaces(front: seq<Step>, last: Step, places: seq<(nat, nat)>)
    requires AllPlaces(front, places)
    ensures AllPlaces(front + [last], places + PlacesOf(|front|, ChecksOf(last)))
  {
    hide ChecksOf;
    var steps, more := front + [last], PlacesOf(|front|, ChecksOf(last));
    var longer := places + more;
    forall a, b | 0 <= a < b < |longer| ensures Before(longer[a], longer[b]) {
      if a < |places| { assert (places[a].0, places[a].1) in places; }
    }
    forall i: nat, m: nat ensures (i, m) in longer <==> i < |steps| && m <= ChecksOf(steps[i]) {
      if i == |front| && m <= ChecksOf(last) { assert more[m] == (i, m); }
      if i < |front| { assert steps[i] == front[i]; }
    }
  }

  /** The id is that of a check of a manual step. */
  ghost predicate ManualCheck(steps: seq<Step>, settings: Settings, id: Text) {
    exists j, m ::
      0 <= j < |steps| && steps[j].id in settings.manual && 0 <= m < ChecksOf(steps[j]) && id == NamedCheck(steps[j], m)
  }

  /** Exactly the checks of the manual steps ask for approval. */
  lemma ApprovalOfManualSteps(steps: seq<Step>, settings: Settings, t: TaskDef)
    requires Budgeted(steps) && Clashless(steps) && t in TasksOf(steps, settings, steps)
    ensures t.requireApproval <==> ManualCheck(steps, settings, t.id)
  {
    hide TasksOf, Fits, AllPlaces, ManualCheck, Clashless;
    var places := CompiledTasksAre(steps, settings, steps);
    var a :| 0 <= a < |TasksOf(steps, settings, steps)| && TasksOf(steps, settings, steps)[a] == t;
    ApprovalAt(steps, settings, t, places[a]);
  }

  lemma ApprovalAt(steps: seq<Step>, settings: Settings, t: TaskDef, place: (nat, nat))
    requires Clashless(steps) && Fits(settings, steps, t, place)
    ensures t.requireApproval <==> ManualCheck(steps, settings, t.id)
  {
    hide Clashless, NamedCheck, ChecksOf, IsCheckOf, Strip, ChecksWith;
    var i := place.0;
    if ManualCheck(steps, settings, t.id) {
      var j, m :|
        && 0 <= j < |steps| && steps[j].id in settings.manual
        && 0 <= m < ChecksOf(steps[j]) && t.id == NamedCheck(steps[j], m);
      NamedIsCheck(steps[j], m);
      if place.1 == 0 {
        NoClash(steps, j, i);
      } else {
        NamedIsCheck(steps[i], place.1 - 1);
        StepsApart(steps[i], steps[j], t.id);
      }
    }
  }

  lemma NoClash(steps: seq<Step>, i: nat, j: nat)
    requires Clashless(steps) && i < |steps| && j < |steps|
    ensures !IsCheckOf(steps[i], steps[j].id)
  {}

  lemma NamedIsCheck(s: Step, m: nat)
    requires m < ChecksOf(s)
    ensures IsCheckOf(s, NamedCheck(s, m))
  {
    hide Padded, NamedCheck;
    assert |CheckIds(s)| == ChecksOf(s);
    CheckIdNamed(s, m);
  }

  /** What a step's run waits for: the checks of the steps that go on to it, step by step, in voting order. */
  lemma {:induction false} DependenciesAre(steps: seq<Step>, target: Text) returns (places: seq<(nat, nat)>)
    ensures |places| == |DoDeps(steps, target)|
    ensures forall a, b :: 0 <= a < b < |places| ==> Before(places[a], places[b])
    ensures forall i, m :: (i, m) in places <==>
      0 <= i < |steps| && steps[i].onPass == target && target != Lit("done") && 0 <= m < ChecksOf(steps[i])
    ensures forall a :: 0 <= a < |places| ==>
      places[a].0 < |steps| && DoDeps(steps, target)[a] == NamedCheck(steps[places[a].0], places[a].1)
  {
    hide NamedCheck, CheckIds, ChecksOf;
    if steps == [] {
      places := [];
    } else {
      var front, last := steps[..|steps| - 1], steps[|steps| - 1];
      places := DependenciesAre(front, target);
      if last.onPass == target && target != Lit("done") {
        CheckIdNamed(last, 0);
        forall m | 0 <= m < |CheckIds(last)| ensures CheckIds(last)[m] == NamedCheck(last, m) { CheckIdNamed(last, m); }
        var more := seq(ChecksOf(last), m => (|front|, m));
        forall m: nat | m < ChecksOf(last) ensures (|front|, m) in more { assert more[m] == (|front|, m); }
        forall a | 0 <= a < |places| ensures places[a].0 < |front| { assert (places[a].0, places[a].1) in places; }
        assert front + [last] == steps;
        places := places + more;
      }
    }
  }

  // ---- what is rejected ----

  predicate Named(steps: seq<Step>, id: Text) {
    exists j :: 0 <= j < |steps| && id == steps[j].id
  }

  /** One of the errors the compiler raises about a single step. */
  predicate Faulty(steps: seq<Step>, s: Step) {
    || (forall c :: c in s.id ==> Space(c))                                      // step.id is empty
    || s.nested                                                                  // workflow: is not supported
    || s.desc == [] || s.doText == [] || s.input == [] || s.output == []         // a required field is missing
    || s.onPass == [] || s.onFail == [] || s.maxFailCount.None?
    || (s.maxFailCount.Some? && s.maxFailCount.value < 1)                        // not an integer of at least 1
    || (s.onPass != Lit("done") && !Named(steps, s.onPass))                      // an unknown target
    || !Named(steps, s.onFail)
    || (s.voting.Some? && s.voting.value == [])                                  // check_voting is empty
    || (s.voting.Some? && exists v :: v in s.voting.value && forall c :: c in v ==> Space(c))
  }

  /** A workflow is rejected exactly for one of these errors. */
  lemma RejectedExactly(steps: seq<Step>, settings: Settings)
    ensures !Compilable(steps, settings) <==>
      || steps == []
      || (exists i, j :: 0 <= i < j < |steps| && steps[i].id == steps[j].id)
      || (exists i :: 0 <= i < |steps| && Faulty(steps, steps[i]))
      || (exists m :: m in settings.manual && !Named(steps, m))
  {
    forall i | 0 <= i < |steps|
      ensures Faulty(steps, steps[i]) <==>
        !(StepComplete(steps[i]) && VotingOk(steps[i]) && TargetsKnown(steps, steps[i]))
    {
      FaultyStep(steps, steps[i]);
    }
    forall m ensures Named(steps, m) <==> IsStep(steps, m) { NamedStep(steps, m); }
    hide StepComplete, VotingOk, TargetsKnown, Faulty, Named, IsStep;
  }

  lemma NamedStep(steps: seq<Step>, id: Text)
    ensures Named(steps, id) <==> IsStep(steps, id)
  {}

  lemma FaultyStep(steps: seq<Step>, s: Step)
    ensures Faulty(steps, s) <==> !(StepComplete(s) && VotingOk(s) && TargetsKnown(steps, s))
  {
    NamedStep(steps, s.onPass);
    NamedStep(steps, s.onFail);
    hide Named, IsStep, Space;
  }
}
