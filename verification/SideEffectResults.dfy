/** What the ledger's records say: the results, errors and compensations of the calls that wrote them. */
module SideEffectResults {
  import opened Texts
  import opened KvStore
  import opened SideEffects
  import Effects = SideEffects

  /** The event is a complete call of this attempt that answered with a written record of this result. */
  ghost predicate CompletedBy(e: Event, task: Text, r: Record) {
    && e.call.Complete? && e.call.task == task && e.call.key == r.idempotencyKey
    && e.call.attempt == r.attempt && e.call.result == r.result && e.outcome == Wrote(r)
  }

  /** The process is a fail call of this attempt, with this error, that got past its swap. */
  ghost predicate FailedBy(p: Proc, task: Text, r: Record) {
    && p.call.FailAndCompensate? && p.call.task == task && p.call.key == r.idempotencyKey
    && p.call.attempt == r.attempt && p.call.error == r.error && PastFailing(p)
  }

  /** The event is a mark call for this compensation task and attempt that answered with the record. */
  ghost predicate MarkedBy(hash: Text -> Text, e: Event, task: Text, h: Text, r: Record) {
    && e.call.MarkCompensated? && e.call.source == task && hash(e.call.key) == h
    && e.call.task == r.compensationTask && e.call.attempt == r.compensationAttempt && e.outcome == Wrote(r)
  }

  ghost predicate Untouched(r: Record) {
    r.result == [] && r.error == [] && r.compensationTask == [] && r.compensationAttempt == []
  }

  /** The record tells what the calls on it were given. */
  ghost predicate Told(hash: Text -> Text, s: Sys, task: Text, h: Text, r: Record) {
    match r.status
    case InProgress => Untouched(r)
    case Completed =>
      && r.error == [] && r.compensationTask == [] && r.compensationAttempt == []
      && exists i :: 0 <= i < |s.log| && CompletedBy(s.log[i], task, r)
    case Failed =>
      && r.result == [] && r.compensationTask == [] && r.compensationAttempt == []
      && exists pid :: pid in s.procs && FailedBy(s.procs[pid], task, r)
    case Compensated =>
      && r.result == []
      && (exists pid :: pid in s.procs && FailedBy(s.procs[pid], task, r))
      && exists i :: 0 <= i < |s.log| && MarkedBy(hash, s.log[i], task, h, r)
    case Compensating => false
  }

  ghost predicate AllTold(hash: Text -> Text, s: Sys) {
    forall t, h :: RecordAt(s.kv, RecordOf(t, h)).Some? ==> Told(hash, s, t, h, RecordAt(s.kv, RecordOf(t, h)).value)
  }

  ghost predicate CompletedBefore(log: seq<Event>, n: nat, task: Text, r: Record) {
    exists j :: 0 <= j < n && j < |log| && CompletedBy(log[j], task, r)
  }

  /** Every replay answers with a record that a complete call of its owner wrote before. */
  ghost predicate ReplaysTold(log: seq<Event>) {
    forall i :: 0 <= i < |log| && log[i].outcome.Replay? ==>
      && log[i].call.Begin? && log[i].outcome.record.idempotencyKey == log[i].call.key
      && CompletedBefore(log, i, log[i].call.task, log[i].outcome.record)
  }

  // ---- one step ----

  /** What a step may write into a record: fields named one by one. */
  ghost predicate Written(
    hash: Text -> Text, p: Proc, next: Pc, k: Key, before: Option<Record>, after: Option<Record>) {
    || before == after
    || (before.None? && after.Some? && after.value.status == InProgress && Untouched(after.value))
    || (k == RecordOf(SourceTask(p.call), hash(p.call.key))
        && before.Some? && after.Some? && WrittenOver(p, next, before.value, after.value))
  }

  ghost predicate WrittenOver(p: Proc, next: Pc, was: Record, r: Record) {
    && r.idempotencyKey == was.idempotencyKey && r.attempt == was.attempt && r.epoch == was.epoch
    && match p.call
       case Complete(_, key, attempt, _, result) =>
         && was.status == InProgress && r.status == Completed && r.result == result
         && key == r.idempotencyKey && attempt == r.attempt
         && r.error == was.error && r.compensationTask == was.compensationTask
         && r.compensationAttempt == was.compensationAttempt && next == Returned(Wrote(r))
       case FailAndCompensate(_, key, attempt, _, error) =>
         && was.status == InProgress && r.status == Failed && r.error == error
         && key == r.idempotencyKey && attempt == r.attempt
         && r.result == was.result && r.compensationTask == was.compensationTask
         && r.compensationAttempt == was.compensationAttempt && next == ReadCompensationTask(r)
       case MarkCompensated(_, _, attempt, _, task) =>
         && was.status == Failed && r.status == Compensated
         && r.compensationTask == task && r.compensationAttempt == attempt
         && r.result == was.result && r.error == was.error && next == Returned(Wrote(r))
       case Begin(_, _, _, _) => false
  }

  /** What a write in waiting was read as belongs to the caller. */
  ghost predicate Owns(p: Proc) {
    p.pc.WriteFinish? ==> p.pc.was.idempotencyKey == p.call.key && p.pc.was.attempt == p.call.attempt
  }

  lemma StepOwns(hash: Text -> Text, kv: Store, p: Proc)
    requires Owns(p)
    ensures Owns(Proc(p.call, Step(hash, p.call, p.pc, kv).0))
  {
    hide Blank;
  }

  lemma StepWrites(hash: Text -> Text, kv: Store, p: Proc, k: Key)
    requires WellFormed(kv) && ProcOk(hash, kv, p) && Owns(p) && forall k :: RecordOk(kv, k)
    ensures var (pc, after) := Step(hash, p.call, p.pc, kv);
      Written(hash, p, pc, k, RecordAt(kv, k), RecordAt(after, k))
  {
    hide Blank;
    assert RecordOk(kv, RecordKey(hash, p.call));
    assert RecordOk(kv, k);
  }

  lemma StepReplays(hash: Text -> Text, kv: Store, p: Proc)
    requires !p.pc.Returned?
    ensures var pc := Step(hash, p.call, p.pc, kv).0;
      pc.Returned? && pc.outcome.Replay? ==>
        && p.call.Begin? && RecordAt(kv, RecordKey(hash, p.call)) == Some(pc.outcome.record)
        && pc.outcome.record.status == Completed && pc.outcome.record.idempotencyKey == p.call.key
  {
    hide Blank;
  }

  // ---- every interleaving ----

  ghost predicate Extends(s: Sys, next: Sys) {
    && s.log <= next.log
    && forall pid :: pid in s.procs ==>
      && pid in next.procs && next.procs[pid].call == s.procs[pid].call
      && (PastFailing(s.procs[pid]) ==> PastFailing(next.procs[pid]))
  }

  lemma ToldStays(hash: Text -> Text, s: Sys, next: Sys, t: Text, h: Text, r: Record)
    requires Told(hash, s, t, h, r) && Extends(s, next)
    ensures Told(hash, next, t, h, r)
  {
    hide PastFailing;
    if r.status.Completed? {
      var i :| 0 <= i < |s.log| && CompletedBy(s.log[i], t, r);
      assert next.log[i] == s.log[i];
    }
    if r.status.Failed? || r.status.Compensated? {
      var pid :| pid in s.procs && FailedBy(s.procs[pid], t, r);
      assert FailedBy(next.procs[pid], t, r);
    }
    if r.status.Compensated? {
      var i :| 0 <= i < |s.log| && MarkedBy(hash, s.log[i], t, h, r);
      assert next.log[i] == s.log[i];
    }
  }

  lemma PastFailingStays(hash: Text -> Text, kv: Store, p: Proc)
    requires PastFailing(p)
    ensures PastFailing(Proc(p.call, Step(hash, p.call, p.pc, kv).0))
  {}

  lemma ApplyExtends(hash: Text -> Text, s: Sys, act: Action)
    ensures Extends(s, Apply(hash, s, act))
  {
    hide Step, PastFailing, Do;
    if act.Advance? && act.pid in s.procs && PastFailing(s.procs[act.pid]) {
      PastFailingStays(hash, s.kv, s.procs[act.pid]);
    }
  }

  ghost predicate ResultsInv(hash: Text -> Text, s: Sys) {
    AllTold(hash, s) && ReplaysTold(s.log) && forall pid :: pid in s.procs ==> Owns(s.procs[pid])
  }

  lemma AdvanceTold(hash: Text -> Text, s: Sys, pid: nat, t: Text, h: Text)
    requires Inv(hash, s) && AllTold(hash, s) && pid in s.procs && Owns(s.procs[pid]) && !s.procs[pid].pc.Returned?
    requires RecordAt(Apply(hash, s, Advance(pid)).kv, RecordOf(t, h)).Some?
    ensures var next := Apply(hash, s, Advance(pid));
      Told(hash, next, t, h, RecordAt(next.kv, RecordOf(t, h)).value)
  {
    hide Step, LogOk, RecordOk, Told, PastFailing, FailedBy;
    var p := s.procs[pid];
    var next := Apply(hash, s, Advance(pid));
    var k := RecordOf(t, h);
    ApplyExtends(hash, s, Advance(pid));
    StepWrites(hash, s.kv, p, k);
    var before, after := RecordAt(s.kv, k), RecordAt(next.kv, k);
    if before == after {
      ToldStays(hash, s, next, t, h, after.value);
    } else if before.None? {
      TellsNew(hash, next, t, h, after.value);
    } else {
      TellsWritten(hash, s, next, pid, t, h, before.value, after.value);
    }
  }

  lemma TellsNew(hash: Text -> Text, s: Sys, t: Text, h: Text, r: Record)
    requires r.status == InProgress && Untouched(r)
    ensures Told(hash, s, t, h, r)
  {}

  lemma TellsWritten(hash: Text -> Text, s: Sys, next: Sys, pid: nat, t: Text, h: Text, was: Record, r: Record)
    requires Told(hash, s, t, h, was) && Extends(s, next) && pid in s.procs && pid in next.procs
    requires next.procs[pid].call == s.procs[pid].call && RecordOf(t, h) == RecordKey(hash, s.procs[pid].call)
    requires WrittenOver(s.procs[pid], next.procs[pid].pc, was, r)
    requires next.procs[pid].pc.Returned? ==> next.log == s.log + [Event(s.procs[pid].call, next.procs[pid].pc.outcome)]
    ensures Told(hash, next, t, h, r)
  {
    match s.procs[pid].call
    case Complete(_, _, _, _, _) =>
      assert CompletedBy(next.log[|s.log|], t, r);
    case FailAndCompensate(_, _, _, _, _) =>
      assert FailedBy(next.procs[pid], t, r);
    case MarkCompensated(_, _, _, _, _) =>
      assert MarkedBy(hash, next.log[|s.log|], t, h, r);
      var q :| q in s.procs && FailedBy(s.procs[q], t, was);
      assert FailedBy(next.procs[q], t, r);
    case _ =>
  }

  lemma ReplaysStay(log: seq<Event>, longer: seq<Event>, n: nat, task: Text, r: Record)
    requires CompletedBefore(log, n, task, r) && log <= longer
    ensures CompletedBefore(longer, n, task, r)
  {
    var j :| 0 <= j < n && j < |log| && CompletedBy(log[j], task, r);
    assert longer[j] == log[j];
  }

  lemma ApplyReplays(hash: Text -> Text, s: Sys, act: Action)
    requires AllTold(hash, s) && ReplaysTold(s.log)
    ensures ReplaysTold(Apply(hash, s, act).log)
  {
    hide Step, Do, CompletedBefore, AllTold;
    var next := Apply(hash, s, act);
    forall i | 0 <= i < |next.log| && next.log[i].outcome.Replay?
      ensures next.log[i].call.Begin? && next.log[i].outcome.record.idempotencyKey == next.log[i].call.key
      ensures CompletedBefore(next.log, i, next.log[i].call.task, next.log[i].outcome.record)
    {
      if i < |s.log| {
        assert next.log[i] == s.log[i];
        ReplaysStay(s.log, next.log, i, s.log[i].call.task, s.log[i].outcome.record);
      } else {
        var p := s.procs[act.pid];
        StepReplays(hash, s.kv, p);
        ReplayWritten(hash, s, p.call.task, hash(p.call.key));
        ReplaysStay(s.log, next.log, i, p.call.task, next.log[i].outcome.record);
      }
    }
  }

  lemma ReplayWritten(hash: Text -> Text, s: Sys, t: Text, h: Text)
    requires AllTold(hash, s) && RecordAt(s.kv, RecordOf(t, h)).Some?
    requires RecordAt(s.kv, RecordOf(t, h)).value.status == Completed
    ensures CompletedBefore(s.log, |s.log|, t, RecordAt(s.kv, RecordOf(t, h)).value)
  {}

  lemma ApplyResults(hash: Text -> Text, s: Sys, act: Action)
    requires Inv(hash, s) && ResultsInv(hash, s)
    ensures ResultsInv(hash, Apply(hash, s, act))
  {
    hide Step, LogOk, Do, Told, ReplaysTold, Owns, RecordOk;
    var next := Apply(hash, s, act);
    ApplyReplays(hash, s, act);
    ApplyExtends(hash, s, act);
    match act
    case Spawn(_, call) =>
      NewOwns(call);
      forall t, h | RecordAt(s.kv, RecordOf(t, h)).Some?
        ensures Told(hash, next, t, h, RecordAt(s.kv, RecordOf(t, h)).value)
      {
        ToldStays(hash, s, next, t, h, RecordAt(s.kv, RecordOf(t, h)).value);
      }
    case Outside(op) =>
      forall t, h | RecordAt(next.kv, RecordOf(t, h)).Some?
        ensures Told(hash, next, t, h, RecordAt(next.kv, RecordOf(t, h)).value)
      {
        assert RecordOk(s.kv, RecordOf(t, h));
        if LeavesRecords(op) { OutsideKeepsRecord(s.kv, op, RecordOf(t, h)); }
        ToldStays(hash, s, next, t, h, RecordAt(s.kv, RecordOf(t, h)).value);
      }
    case Advance(pid) =>
      if pid in s.procs && !s.procs[pid].pc.Returned? {
        StepOwns(hash, s.kv, s.procs[pid]);
        forall t, h | RecordAt(next.kv, RecordOf(t, h)).Some?
          ensures Told(hash, next, t, h, RecordAt(next.kv, RecordOf(t, h)).value)
        {
          AdvanceTold(hash, s, pid, t, h);
        }
      }
  }

  lemma NewOwns(call: Call)
    ensures Owns(Proc(call, START))
  {}

  /**
   Under every interleaving: a COMPLETED record carries the result of a complete call of its owner that answered with
   it, a FAILED one the error of a fail call of its owner, a COMPENSATED one the task and attempt of the call that
   marked it besides the error; and whatever a begin replays was so completed before.
   */
  lemma {:induction false} RecordsTold(hash: Text -> Text, acts: seq<Action>)
    ensures ResultsInv(hash, Effects.Run(hash, INITIAL, acts))
  {
    if acts != [] {
      hide Inv, Apply, ResultsInv;
      var front := acts[..|acts| - 1];
      RecordsTold(hash, front);
      RunInv(hash, front);
      ApplyResults(hash, Effects.Run(hash, INITIAL, front), acts[|acts| - 1]);
    }
  }

  /** A begin that replays answers with the very result a complete call on its key was given. */
  lemma ReplayCarriesResult(hash: Text -> Text, acts: seq<Action>, i: nat)
    requires i < |Effects.Run(hash, INITIAL, acts).log| && Effects.Run(hash, INITIAL, acts).log[i].outcome.Replay?
    ensures var log := Effects.Run(hash, INITIAL, acts).log;
      exists j :: 0 <= j < i && log[j].call.Complete? && log[j].outcome.Wrote?
        && log[j].call.task == log[i].call.task && log[j].call.key == log[i].call.key
        && log[j].call.result == log[i].outcome.record.result
  {
    hide Effects.Run;
    RecordsTold(hash, acts);
    var log := Effects.Run(hash, INITIAL, acts).log;
    assert CompletedBefore(log, i, log[i].call.task, log[i].outcome.record);
    var j :| 0 <= j < i && j < |log| && CompletedBy(log[j], log[i].call.task, log[i].outcome.record);
  }
}
