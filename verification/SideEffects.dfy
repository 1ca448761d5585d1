/**
 The idempotency ledger of side_effects.SideEffectLedger. Each key-value call is one atomic step;
 callers interleave between steps, and everything outside the ledger's records may change at any time.
 */
module SideEffects {
  import opened Texts
  import opened KvStore

  // ---- records and keys ----

  datatype Status = InProgress | Completed | Failed | Compensating | Compensated

  datatype Record = Record(
    idempotencyKey: Text, status: Status, attempt: Text, epoch: int,
    result: Text, error: Text, compensationTask: Text, compensationAttempt: Text)

  datatype Key =
    | AttemptId(task: Text)
    | LeaseEpoch(task: Text)
    | RecordOf(task: Text, hash: Text)
    | CompensationTaskOf(task: Text)
    | TaskStatus(task: Text)
    | CompensatesTask(task: Text)
    | CompensatedKey(task: Text)

  datatype Value = Str(text: Text) | Num(number: int) | Rec(record: Record)

  type Store = Kv<Key, Value>

  // ---- calls and what they can answer ----

  datatype Call =
    | Begin(task: Text, key: Text, attempt: Text, epoch: int)
    | Complete(task: Text, key: Text, attempt: Text, epoch: int, result: Text)
    | FailAndCompensate(task: Text, key: Text, attempt: Text, epoch: int, error: Text)
    | MarkCompensated(source: Text, key: Text, attempt: Text, epoch: int, task: Text)

  datatype Problem =
    | Fenced | BlankKey | HashCollision | OwnedByAnother | ConcurrentAcquisition
    | NotFound | NotOwned | ConcurrentFinish
    | NoCompensationTask | CompensationNotBlocked | ConcurrentActivation
    | NotFailed | ConcurrentCompensation

  datatype Outcome =
    | Execute(record: Record)
    | Replay(record: Record)
    | Resume(record: Record)
    | WaitForCompensation(record: Record)
    | AlreadyCompensated(record: Record)
    | Wrote(record: Record)
    | Raised(problem: Problem)

  /** Where a call stands between two key-value steps, with what it has read so far. */
  datatype Pc =
    | ReadAttempt(again: bool)
    | ReadEpoch(again: bool, current: Option<Value>)
    | ReadRecord
    | CreateRecord
    | WriteFinish(was: Record, index: nat)
    | WriteMark(was: Record, index: nat)
    | ReadCompensationTask(done: Record)
    | ReadCompensationStatus(done: Record, compensation: Text)
    | PutCompensates(done: Record, compensation: Text, index: nat)
    | PutCompensatedKey(done: Record, compensation: Text, index: nat)
    | PutPending(done: Record, compensation: Text, index: nat)
    | Returned(outcome: Outcome)

  const START: Pc := ReadAttempt(false)
  const BLOCKED: Value := Str(Lit("BLOCKED"))
  const PENDING: Value := Str(Lit("PENDING"))

  function SourceTask(c: Call): Text {
    if c.MarkCompensated? then c.source else c.task
  }

  function RecordKey(hash: Text -> Text, c: Call): Key {
    RecordOf(SourceTask(c), hash(c.key))
  }

  function NewRecord(c: Call): Record {
    Record(c.key, InProgress, c.attempt, c.epoch, [], [], [], [])
  }

  function FinishedRecord(c: Call, was: Record): Record {
    match c
    case Complete(_, _, _, _, result) => was.(status := Completed, result := result)
    case FailAndCompensate(_, _, _, _, error) => was.(status := Failed, error := error)
    case _ => was
  }

  function MarkedRecord(c: Call, was: Record): Record {
    was.(status := Compensated, compensationTask := c.task, compensationAttempt := c.attempt)
  }

  /** After _validate_owner; fail_and_compensate validates once more inside _finish. */
  function Owned(c: Call, again: bool): Pc {
    if c.FailAndCompensate? && !again then ReadAttempt(true)
    else if Blank(c.key) then Returned(Raised(BlankKey))
    else ReadRecord
  }

  function BeginOnRecord(c: Call, record: Record): Outcome {
    if record.idempotencyKey != c.key then Raised(HashCollision)
    else if record.status == Completed then Replay(record)
    else if record.status == InProgress && record.attempt == c.attempt && record.epoch == c.epoch then Resume(record)
    else if record.status == Failed || record.status == Compensating then WaitForCompensation(record)
    else if record.status == Compensated then AlreadyCompensated(record)
    else Raised(OwnedByAnother)
  }

  function FinishOnRecord(c: Call, record: Record, index: nat): Pc {
    if record.idempotencyKey != c.key then Returned(Raised(HashCollision))
    else if record.status == Completed && c.Complete? then Returned(Wrote(record))
    else if record.status != InProgress || record.attempt != c.attempt then Returned(Raised(NotOwned))
    else WriteFinish(record, index)
  }

  function OnRecord(c: Call, read: Read<Value>): Pc {
    match c
    case Begin(_, _, _, _) =>
      if read.value.Some? && read.value.value.Rec? then Returned(BeginOnRecord(c, read.value.value.record))
      else CreateRecord
    case MarkCompensated(_, _, _, _, _) =>
      if read.value.None? || !read.value.value.Rec? then Returned(Raised(NotFound))
      else if read.value.value.record.status != Failed then Returned(Raised(NotFailed))
      else WriteMark(read.value.value.record, read.index)
    case _ =>
      if read.value.None? || !read.value.value.Rec? then Returned(Raised(NotFound))
      else FinishOnRecord(c, read.value.value.record, read.index)
  }

  /** One key-value call of a ledger operation. */
  function Step(hash: Text -> Text, c: Call, pc: Pc, kv: Store): (Pc, Store) {
    match pc
    case ReadAttempt(again) => (ReadEpoch(again, Get(kv, AttemptId(c.task)).value), kv)
    case ReadEpoch(again, current) =>
      if current == Some(Str(c.attempt)) && Get(kv, LeaseEpoch(c.task)).value == Some(Num(c.epoch))
      then (Owned(c, again), kv) else (Returned(Raised(Fenced)), kv)
    case ReadRecord => (OnRecord(c, Get(kv, RecordKey(hash, c))), kv)
    case CreateRecord =>
      var k := RecordKey(hash, c);
      if CasOk(kv, k, Some(0)) then (Returned(Execute(NewRecord(c))), Put(kv, k, Rec(NewRecord(c)), Some(0)))
      else (Returned(Raised(ConcurrentAcquisition)), kv)
    case WriteFinish(was, index) =>
      var k, done := RecordKey(hash, c), FinishedRecord(c, was);
      if CasOk(kv, k, Some(index)) then
        (if c.FailAndCompensate? then ReadCompensationTask(done) else Returned(Wrote(done)),
         Put(kv, k, Rec(done), Some(index)))
      else (Returned(Raised(ConcurrentFinish)), kv)
    case WriteMark(was, index) =>
      var k, done := RecordKey(hash, c), MarkedRecord(c, was);
      if CasOk(kv, k, Some(index)) then (Returned(Wrote(done)), Put(kv, k, Rec(done), Some(index)))
      else (Returned(Raised(ConcurrentCompensation)), kv)
    case ReadCompensationTask(done) =>
      var named := Get(kv, CompensationTaskOf(c.task)).value;
      if named.Some? && named.value.Str? && named.value.text != [] then
        (ReadCompensationStatus(done, named.value.text), kv)
      else (Returned(Raised(NoCompensationTask)), kv)
    case ReadCompensationStatus(done, compensation) =>
      var status := Get(kv, TaskStatus(compensation));
      if status.value == Some(BLOCKED) then (PutCompensates(done, compensation, status.index), kv)
      else (Returned(Raised(CompensationNotBlocked)), kv)
    case PutCompensates(done, compensation, index) =>
      (PutCompensatedKey(done, compensation, index), Put(kv, CompensatesTask(compensation), Str(c.task), None))
    case PutCompensatedKey(done, compensation, index) =>
      (PutPending(done, compensation, index), Put(kv, CompensatedKey(compensation), Str(c.key), None))
    case PutPending(done, compensation, index) =>
      if CasOk(kv, TaskStatus(compensation), Some(index)) then
        (Returned(Wrote(done.(compensationTask := compensation))),
         Put(kv, TaskStatus(compensation), PENDING, Some(index)))
      else (Returned(Raised(ConcurrentActivation)), kv)
    case Returned(_) => (pc, kv)
  }

  // ---- interleavings ----

  datatype Proc = Proc(call: Call, pc: Pc)

  datatype Event = Event(call: Call, outcome: Outcome)

  datatype Sys = Sys(kv: Store, procs: map<nat, Proc>, log: seq<Event>)

  datatype Action =
    | Spawn(pid: nat, call: Call)
    | Advance(pid: nat)
    | Outside(op: Op<Key, Value>)  // dispatchers, aggregators, people: anything but a ledger record

  predicate LeavesRecords(op: Op<Key, Value>) {
    match op
    case PutOp(k, _, _) => !k.RecordOf?
    case DeleteOp(ks) => forall k :: k in ks ==> !k.RecordOf?
  }

  function Apply(hash: Text -> Text, s: Sys, act: Action): Sys {
    match act
    case Spawn(pid, call) => if pid in s.procs then s else s.(procs := s.procs[pid := Proc(call, START)])
    case Advance(pid) =>
      if pid !in s.procs || s.procs[pid].pc.Returned? then s else
      var c := s.procs[pid].call;
      var (pc, kv) := Step(hash, c, s.procs[pid].pc, s.kv);
      Sys(kv, s.procs[pid := Proc(c, pc)], if pc.Returned? then s.log + [Event(c, pc.outcome)] else s.log)
    case Outside(op) => if LeavesRecords(op) then s.(kv := Do(s.kv, op)) else s
  }

  function Run(hash: Text -> Text, s: Sys, acts: seq<Action>): Sys {
    if acts == [] then s else Apply(hash, Run(hash, s, acts[..|acts| - 1]), acts[|acts| - 1])
  }

  const INITIAL: Sys := Sys(Empty(), map[], [])

  // ---- the life of one record ----

  function RecordAt(kv: Store, k: Key): Option<Record> {
    if k.RecordOf? && k in kv.entries && kv.entries[k].value.Rec? then Some(kv.entries[k].value.record) else None
  }

  predicate SameOwner(a: Record, b: Record) {
    a.idempotencyKey == b.idempotencyKey && a.attempt == b.attempt && a.epoch == b.epoch
  }

  /** a may have become b: the record keeps its owner and moves forward only. */
  predicate Later(a: Option<Record>, b: Option<Record>) {
    a.None? || (b.Some? && SameOwner(a.value, b.value) && (a == b
      || (a.value.status == InProgress && b.value.status in {Completed, Failed, Compensated})
      || (a.value.status == Failed && b.value.status == Compensated)))
  }

  /** What one step may do to a record. */
  predicate OneMove(a: Option<Record>, b: Option<Record>) {
    || a == b
    || (a.None? && b.Some? && b.value.status == InProgress)
    || (a.Some? && b.Some? && SameOwner(a.value, b.value)
        && ((a.value.status == InProgress && (b.value.status == Completed || b.value.status == Failed))
            || (a.value.status == Failed && b.value.status == Compensated)))
  }

  // ---- the invariant ----

  /** What a waiting call remembers is either still in the store or can no longer be overwritten by it. */
  ghost predicate ProcOk(hash: Text -> Text, kv: Store, p: Proc) {
    match p.pc
    case WriteFinish(was, index) =>
      && (p.call.Complete? || p.call.FailAndCompensate?) && was.status == InProgress
      && Remembers(kv, RecordKey(hash, p.call), Read(Some(Rec(was)), index))
    case WriteMark(was, index) =>
      && p.call.MarkCompensated? && was.status == Failed
      && Remembers(kv, RecordKey(hash, p.call), Read(Some(Rec(was)), index))
    case CreateRecord => p.call.Begin? && !Blank(p.call.key)
    case ReadRecord => !Blank(p.call.key)
    case _ => true
  }

  ghost predicate RecordOk(kv: Store, k: Key) {
    k.RecordOf? && k in kv.entries ==> kv.entries[k].value.Rec? && !Blank(kv.entries[k].value.record.idempotencyKey)
  }

  ghost predicate StoreOk(hash: Text -> Text, s: Sys) {
    && WellFormed(s.kv)
    && (forall k {:trigger RecordOk(s.kv, k)} :: RecordOk(s.kv, k))
    && (forall pid :: pid in s.procs ==> ProcOk(hash, s.kv, s.procs[pid]))
  }

  lemma StepProc(hash: Text -> Text, kv: Store, p: Proc)
    requires WellFormed(kv) && ProcOk(hash, kv, p) && forall k :: RecordOk(kv, k)
    ensures var (pc, after) := Step(hash, p.call, p.pc, kv);
      && ProcOk(hash, after, Proc(p.call, pc))
      && (forall k :: RecordOk(after, k))
      && (forall k :: OneMove(RecordAt(kv, k), RecordAt(after, k)))
  {
    hide Blank, Step, ProcOk;
    StepOwn(hash, kv, p);
    var after := Step(hash, p.call, p.pc, kv).1;
    forall k ensures RecordOk(after, k) && OneMove(RecordAt(kv, k), RecordAt(after, k)) {
      StepRecord(hash, kv, p, k);
    }
  }

  lemma StepOwn(hash: Text -> Text, kv: Store, p: Proc)
    requires WellFormed(kv) && ProcOk(hash, kv, p) && forall k :: RecordOk(kv, k)
    ensures var (pc, after) := Step(hash, p.call, p.pc, kv); ProcOk(hash, after, Proc(p.call, pc))
  {
    hide Blank;
    assert RecordOk(kv, RecordKey(hash, p.call));
  }

  lemma StepRecord(hash: Text -> Text, kv: Store, p: Proc, k: Key)
    requires WellFormed(kv) && ProcOk(hash, kv, p) && forall k :: RecordOk(kv, k)
    ensures var after := Step(hash, p.call, p.pc, kv).1;
      RecordOk(after, k) && OneMove(RecordAt(kv, k), RecordAt(after, k))
  {
    hide Blank;
    assert RecordOk(kv, RecordKey(hash, p.call));
    assert RecordOk(kv, k);
  }

  /** Every step is a store operation, so what other calls remember stays remembered. */
  lemma StepIsOp(hash: Text -> Text, c: Call, pc: Pc, kv: Store) returns (op: Op<Key, Value>)
    ensures Step(hash, c, pc, kv).1 == Do(kv, op)
  {
    match pc
    case CreateRecord => op := PutOp(RecordKey(hash, c), Rec(NewRecord(c)), Some(0));
    case WriteFinish(was, index) => op := PutOp(RecordKey(hash, c), Rec(FinishedRecord(c, was)), Some(index));
    case WriteMark(was, index) => op := PutOp(RecordKey(hash, c), Rec(MarkedRecord(c, was)), Some(index));
    case PutCompensates(_, compensation, _) => op := PutOp(CompensatesTask(compensation), Str(c.task), None);
    case PutCompensatedKey(_, compensation, _) => op := PutOp(CompensatedKey(compensation), Str(c.key), None);
    case PutPending(_, compensation, index) => op := PutOp(TaskStatus(compensation), PENDING, Some(index));
    case _ => op := DeleteOp({});
  }

  lemma ProcOkLater(hash: Text -> Text, kv: Store, op: Op<Key, Value>, p: Proc)
    requires WellFormed(kv) && ProcOk(hash, kv, p)
    ensures ProcOk(hash, Do(kv, op), p)
  {
    match p.pc
    case WriteFinish(was, index) => RememberLater(kv, op, RecordKey(hash, p.call), Read(Some(Rec(was)), index));
    case WriteMark(was, index) => RememberLater(kv, op, RecordKey(hash, p.call), Read(Some(Rec(was)), index));
    case _ =>
  }

  lemma OutsideKeepsRecord(kv: Store, op: Op<Key, Value>, k: Key)
    requires LeavesRecords(op) && RecordOk(kv, k)
    ensures RecordAt(Do(kv, op), k) == RecordAt(kv, k)
  {}

  lemma ApplyStoreOk(hash: Text -> Text, s: Sys, act: Action)
    requires StoreOk(hash, s)
    ensures StoreOk(hash, Apply(hash, s, act))
    ensures forall k :: OneMove(RecordAt(s.kv, k), RecordAt(Apply(hash, s, act).kv, k))
  {
    var next := Apply(hash, s, act);
    match act
    case Spawn(pid, call) =>
    case Outside(op) =>
      DoWellFormed(s.kv, op);
      forall pid | pid in s.procs ensures ProcOk(hash, Do(s.kv, op), s.procs[pid]) {
        ProcOkLater(hash, s.kv, op, s.procs[pid]);
      }
      forall k ensures LeavesRecords(op) ==> RecordOk(next.kv, k) { assert RecordOk(s.kv, k); }
      forall k ensures OneMove(RecordAt(s.kv, k), RecordAt(next.kv, k)) {
        assert RecordOk(s.kv, k);
        if LeavesRecords(op) { OutsideKeepsRecord(s.kv, op, k); }
      }
    case Advance(pid) =>
      if pid in s.procs && !s.procs[pid].pc.Returned? {
        var p := s.procs[pid];
        StepProc(hash, s.kv, p);
        var op := StepIsOp(hash, p.call, p.pc, s.kv);
        DoWellFormed(s.kv, op);
        forall q | q in s.procs ensures ProcOk(hash, next.kv, next.procs[q]) {
          if q != pid { ProcOkLater(hash, s.kv, op, s.procs[q]); }
        }
      }
  }

  // ---- what every interleaving keeps ----

  ghost predicate ExecutedBefore(log: seq<Event>, i: nat, call: Call) {
    exists j :: 0 <= j < i && j < |log| && log[j].outcome.Execute? && log[j].call == call
  }

  /** Executions have records, and no two the same one. */
  ghost predicate ExecutesOk(hash: Text -> Text, log: seq<Event>, kv: Store) {
    && (forall i :: 0 <= i < |log| && log[i].outcome.Execute? ==>
          log[i].call.Begin? && RecordAt(kv, RecordKey(hash, log[i].call)).Some?)
    && (forall i, j :: 0 <= i < j < |log| && log[i].outcome.Execute? && log[j].outcome.Execute? ==>
          RecordKey(hash, log[i].call) != RecordKey(hash, log[j].call))
  }

  ghost predicate ResumesOk(log: seq<Event>) {
    forall i :: 0 <= i < |log| && log[i].outcome.Resume? ==> ExecutedBefore(log, i, log[i].call)
  }

  ghost predicate RecordsOk(hash: Text -> Text, log: seq<Event>, kv: Store) {
    forall t, h :: RecordAt(kv, RecordOf(t, h)).Some? ==>
      var r := RecordAt(kv, RecordOf(t, h)).value;
      hash(r.idempotencyKey) == h && ExecutedBefore(log, |log|, Begin(t, r.idempotencyKey, r.attempt, r.epoch))
  }

  /** The log and the records tell the same story. */
  ghost predicate LogOk(hash: Text -> Text, s: Sys) {
    ExecutesOk(hash, s.log, s.kv) && ResumesOk(s.log) && RecordsOk(hash, s.log, s.kv)
  }

  ghost predicate Inv(hash: Text -> Text, s: Sys) {
    StoreOk(hash, s) && LogOk(hash, s)
  }

  /** Records keep their owners, and a record is born only together with its EXECUTE answer. */
  ghost predicate Births(hash: Text -> Text, before: Store, after: Store, news: seq<Event>) {
    forall k ::
      && (RecordAt(before, k).Some? ==>
            RecordAt(after, k).Some? && SameOwner(RecordAt(before, k).value, RecordAt(after, k).value))
      && (RecordAt(before, k).None? && RecordAt(after, k).Some? ==>
            news != [] && news[0].outcome.Execute? && k == RecordKey(hash, news[0].call)
            && RecordAt(after, k).value == NewRecord(news[0].call))
  }

  ghost predicate EventOk(hash: Text -> Text, before: Store, after: Store, e: Event) {
    var k := RecordKey(hash, e.call);
    && (e.outcome.Execute? ==> e.call.Begin? && RecordAt(before, k).None? && RecordAt(after, k).Some?)
    && (e.outcome.Resume? ==>
          && e.call.Begin? && RecordAt(before, k).Some?
          && SameOwner(RecordAt(before, k).value, NewRecord(e.call)))
  }

  lemma OlderExecuted(log: seq<Event>, news: seq<Event>, i: nat, call: Call)
    requires ExecutedBefore(log, i, call) && i <= |log|
    ensures ExecutedBefore(log + news, i, call) && ExecutedBefore(log + news, |log + news|, call)
  {
    var j :| 0 <= j < i && j < |log| && log[j].outcome.Execute? && log[j].call == call;
    assert (log + news)[j] == log[j];
  }

  lemma LogGrows(hash: Text -> Text, s: Sys, next: Sys, news: seq<Event>)
    requires LogOk(hash, s) && next.log == s.log + news && |news| <= 1
    requires Births(hash, s.kv, next.kv, news)
    requires news != [] ==> EventOk(hash, s.kv, next.kv, news[0])
    ensures LogOk(hash, next)
  {
    hide ResumesOk, RecordsOk, ExecutedBefore;
    ResumesGrow(hash, s, next, news);
    RecordsGrow(hash, s, next, news);
  }

  lemma ResumesGrow(hash: Text -> Text, s: Sys, next: Sys, news: seq<Event>)
    requires LogOk(hash, s) && next.log == s.log + news && |news| <= 1
    requires news != [] ==> EventOk(hash, s.kv, next.kv, news[0])
    ensures ResumesOk(next.log)
  {
    hide ExecutedBefore, ExecutesOk;
    forall i | 0 <= i < |next.log| && next.log[i].outcome.Resume?
      ensures ExecutedBefore(next.log, i, next.log[i].call)
    {
      if i < |s.log| {
        OlderExecuted(s.log, news, i, s.log[i].call);
      } else {
        var c := news[0].call;
        var r := RecordAt(s.kv, RecordKey(hash, c)).value;
        OlderExecuted(s.log, news, |s.log|, Begin(c.task, r.idempotencyKey, r.attempt, r.epoch));
      }
    }
  }

  lemma RecordsGrow(hash: Text -> Text, s: Sys, next: Sys, news: seq<Event>)
    requires LogOk(hash, s) && next.log == s.log + news && |news| <= 1
    requires Births(hash, s.kv, next.kv, news)
    requires news != [] ==> EventOk(hash, s.kv, next.kv, news[0])
    ensures RecordsOk(hash, next.log, next.kv)
  {
    hide ExecutesOk, ResumesOk;
    forall t, h | RecordAt(next.kv, RecordOf(t, h)).Some?
      ensures var r := RecordAt(next.kv, RecordOf(t, h)).value;
        && hash(r.idempotencyKey) == h
        && ExecutedBefore(next.log, |next.log|, Begin(t, r.idempotencyKey, r.attempt, r.epoch))
    {
      var was := RecordAt(s.kv, RecordOf(t, h));
      if was.Some? {
        OlderExecuted(s.log, news, |s.log|, Begin(t, was.value.idempotencyKey, was.value.attempt, was.value.epoch));
      } else {
        assert next.log[|s.log|] == news[0];
      }
    }
  }

  lemma StepStory(hash: Text -> Text, kv: Store, p: Proc)
    requires WellFormed(kv) && ProcOk(hash, kv, p) && (forall k :: RecordOk(kv, k)) && !p.pc.Returned?
    ensures var (pc, after) := Step(hash, p.call, p.pc, kv);
      var news := if pc.Returned? then [Event(p.call, pc.outcome)] else [];
      Births(hash, kv, after, news) && (news != [] ==> EventOk(hash, kv, after, news[0]))
  {
    var (pc, after) := Step(hash, p.call, p.pc, kv);
    var key := RecordKey(hash, p.call);
    assert RecordOk(kv, key);
    StepProc(hash, kv, p);
    forall k
      ensures RecordAt(kv, k).None? && RecordAt(after, k).Some? ==>
        p.pc.CreateRecord? && k == key && pc.Returned? && pc.outcome.Execute?
    {
      assert RecordOk(kv, k);
    }
    forall k
      ensures RecordAt(kv, k).Some? ==>
        RecordAt(after, k).Some? && SameOwner(RecordAt(kv, k).value, RecordAt(after, k).value)
    {
      assert OneMove(RecordAt(kv, k), RecordAt(after, k));
    }
  }

  lemma ApplyInv(hash: Text -> Text, s: Sys, act: Action)
    requires Inv(hash, s)
    ensures Inv(hash, Apply(hash, s, act))
  {
    ApplyStoreOk(hash, s, act);
    var next := Apply(hash, s, act);
    match act
    case Spawn(pid, call) =>
    case Outside(op) =>
      forall k ensures RecordAt(next.kv, k) == RecordAt(s.kv, k) {
        assert RecordOk(s.kv, k);
        if LeavesRecords(op) { OutsideKeepsRecord(s.kv, op, k); }
      }
      hide StoreOk, RecordAt, LogOk;
      LogGrows(hash, s, next, []);
    case Advance(pid) =>
      if pid in s.procs && !s.procs[pid].pc.Returned? {
        var p := s.procs[pid];
        StepStory(hash, s.kv, p);
        var pc := Step(hash, p.call, p.pc, s.kv).0;
        hide StoreOk, Step, LogOk, Births, EventOk;
        LogGrows(hash, s, next, if pc.Returned? then [Event(p.call, pc.outcome)] else []);
      }
  }

  lemma {:induction false} RunInv(hash: Text -> Text, acts: seq<Action>)
    ensures Inv(hash, Run(hash, INITIAL, acts))
  {
    if acts == [] {
      EmptyWellFormed<Key, Value>();
    } else {
      hide Inv, Apply;
      RunInv(hash, acts[..|acts| - 1]);
      ApplyInv(hash, Run(hash, INITIAL, acts[..|acts| - 1]), acts[|acts| - 1]);
    }
  }

  /**
   Under every interleaving an idempotency key gets EXECUTE at most once, and RESUME goes only to
   the very attempt and epoch that got it.
   */
  lemma AtMostOneExecute(hash: Text -> Text, acts: seq<Action>)
    ensures var log := Run(hash, INITIAL, acts).log;
      && (forall i, j :: 0 <= i < j < |log| && log[i].outcome.Execute? && log[j].outcome.Execute? ==>
            log[i].call.Begin? && log[j].call.Begin?
            && (log[i].call.task != log[j].call.task || log[i].call.key != log[j].call.key))
      && (forall i :: 0 <= i < |log| && log[i].outcome.Resume? ==> ExecutedBefore(log, i, log[i].call))
  {
    RunInv(hash, acts);
  }

  lemma LaterTrans(a: Option<Record>, b: Option<Record>, c: Option<Record>)
    requires Later(a, b) && OneMove(b, c)
    ensures Later(a, c)
  {}

  /** A record only moves IN_PROGRESS to COMPLETED, or IN_PROGRESS to FAILED to COMPENSATED; nothing deletes it. */
  lemma {:induction false} RecordsMoveForward(hash: Text -> Text, s: Sys, acts: seq<Action>, k: Key)
    requires Inv(hash, s)
    ensures Inv(hash, Run(hash, s, acts)) && Later(RecordAt(s.kv, k), RecordAt(Run(hash, s, acts).kv, k))
  {
    if acts != [] {
      hide StoreOk, LogOk, Apply, RecordAt, Later, OneMove;
      var shorter := acts[..|acts| - 1];
      RecordsMoveForward(hash, s, shorter, k);
      var mid := Run(hash, s, shorter);
      ApplyInv(hash, mid, acts[|acts| - 1]);
      ApplyStoreOk(hash, mid, acts[|acts| - 1]);
      LaterTrans(RecordAt(s.kv, k), RecordAt(mid.kv, k), RecordAt(Apply(hash, mid, acts[|acts| - 1]).kv, k));
    }
  }

  /** A begin call on a key whose record is completed. */
  ghost predicate Replaying(p: Proc, record: Record) {
    match p.pc
    case Returned(outcome) => outcome == Replay(record) || outcome == Raised(Fenced)
    case ReadAttempt(again) => !again
    case ReadEpoch(again, _) => !again
    case ReadRecord => true
    case _ => false
  }

  lemma ReplayStep(hash: Text -> Text, s: Sys, act: Action, pid: nat, c: Call, record: Record)
    requires Inv(hash, s) && c.Begin? && record.idempotencyKey == c.key && record.status == Completed
    requires RecordAt(s.kv, RecordKey(hash, c)) == Some(record)
    requires pid in s.procs && s.procs[pid].call == c && Replaying(s.procs[pid], record)
    ensures var next := Apply(hash, s, act);
      && RecordAt(next.kv, RecordKey(hash, c)) == Some(record)
      && pid in next.procs && next.procs[pid].call == c && Replaying(next.procs[pid], record)
  {
    var k := RecordKey(hash, c);
    ApplyStoreOk(hash, s, act);
    assert OneMove(RecordAt(s.kv, k), RecordAt(Apply(hash, s, act).kv, k));
    assert RecordOk(s.kv, k);
  }

  /**
   Once a record is COMPLETED, a begin call that starts later on its key, whoever makes it and whatever
   interleaves with it, is either fenced as a stale attempt or replays that very record.
   */
  lemma {:induction false} CompletedReplays(
    hash: Text -> Text, s: Sys, pid: nat, c: Call, record: Record, acts: seq<Action>)
    requires Inv(hash, s) && c.Begin? && record.idempotencyKey == c.key && record.status == Completed
    requires RecordAt(s.kv, RecordKey(hash, c)) == Some(record)
    requires pid !in s.procs
    ensures var end := Run(hash, Apply(hash, s, Spawn(pid, c)), acts);
      && Inv(hash, end)
      && RecordAt(end.kv, RecordKey(hash, c)) == Some(record)
      && pid in end.procs && end.procs[pid].call == c && Replaying(end.procs[pid], record)
  {
    var first := Apply(hash, s, Spawn(pid, c));
    if acts == [] {
      ApplyInv(hash, s, Spawn(pid, c));
    } else {
      CompletedReplays(hash, s, pid, c, record, acts[..|acts| - 1]);
      var mid := Run(hash, first, acts[..|acts| - 1]);
      hide Inv, Apply, RecordAt, Replaying;
      ApplyInv(hash, mid, acts[|acts| - 1]);
      ReplayStep(hash, mid, acts[|acts| - 1], pid, c, record);
    }
  }

  // ---- compensation ----

  /** The event is a call that marked its record as compensated. */
  predicate Marks(e: Event) {
    e.call.MarkCompensated? && e.outcome.Wrote?
  }

  ghost predicate MarkedAt(kv: Store, k: Key) {
    RecordAt(kv, k).Some? && RecordAt(kv, k).value.status == Compensated
  }

  predicate MarkRole(p: Proc) {
    p.call.MarkCompensated? ==>
      p.pc.ReadAttempt? || p.pc.ReadEpoch? || p.pc.ReadRecord? || p.pc.WriteMark? || p.pc.Returned?
  }

  /** Marking calls keep to their part of the program; what they marked is marked, and no two marked the same record. */
  ghost predicate MarksOk(hash: Text -> Text, s: Sys) {
    && (forall pid :: pid in s.procs ==> MarkRole(s.procs[pid]))
    && (forall i :: 0 <= i < |s.log| && Marks(s.log[i]) ==> MarkedAt(s.kv, RecordKey(hash, s.log[i].call)))
    && (forall i, j :: 0 <= i < j < |s.log| && Marks(s.log[i]) && Marks(s.log[j]) ==>
      RecordKey(hash, s.log[i].call) != RecordKey(hash, s.log[j].call))
  }

  lemma StepMarks(hash: Text -> Text, kv: Store, p: Proc)
    requires ProcOk(hash, kv, p) && MarkRole(p) && !p.pc.Returned?
    ensures var (pc, after) := Step(hash, p.call, p.pc, kv);
      && MarkRole(Proc(p.call, pc))
      && (p.call.MarkCompensated? && pc.Returned? && pc.outcome.Wrote? ==>
        !MarkedAt(kv, RecordKey(hash, p.call)) && MarkedAt(after, RecordKey(hash, p.call)))
  {
    hide Blank;
  }

  lemma MarkStays(kv: Store, after: Store, k: Key)
    requires MarkedAt(kv, k) && OneMove(RecordAt(kv, k), RecordAt(after, k))
    ensures MarkedAt(after, k)
  {
    hide RecordAt;
  }

  lemma ApplyMarks(hash: Text -> Text, s: Sys, act: Action)
    requires Inv(hash, s) && MarksOk(hash, s)
    ensures MarksOk(hash, Apply(hash, s, act))
  {
    hide Step, Do, MarkedAt, RecordAt, LogOk, RecordOk, OneMove, LeavesRecords;
    var next := Apply(hash, s, act);
    ApplyStoreOk(hash, s, act);
    forall k | MarkedAt(s.kv, k) ensures MarkedAt(next.kv, k) { MarkStays(s.kv, next.kv, k); }
    if act.Advance? && act.pid in s.procs && !s.procs[act.pid].pc.Returned? {
      StepMarks(hash, s.kv, s.procs[act.pid]);
    }
    hide StoreOk;
  }

  /** Under every interleaving each record is marked COMPENSATED by at most one call, and then stays so. */
  lemma {:induction false} CompensatedOnce(hash: Text -> Text, acts: seq<Action>)
    ensures MarksOk(hash, Run(hash, INITIAL, acts))
  {
    if acts != [] {
      hide Inv, Apply;
      CompensatedOnce(hash, acts[..|acts| - 1]);
      RunInv(hash, acts[..|acts| - 1]);
      ApplyMarks(hash, Run(hash, INITIAL, acts[..|acts| - 1]), acts[|acts| - 1]);
    }
  }

  /** A call whose swap to FAILED went through: it may release the compensation task, or has done so or given up. */
  predicate PastFailing(p: Proc) {
    p.call.FailAndCompensate?
    && match p.pc
       case ReadCompensationTask(_) => true
       case ReadCompensationStatus(_, _) => true
       case PutCompensates(_, _, _) => true
       case PutCompensatedKey(_, _, _) => true
       case PutPending(_, _, _) => true
       case Returned(outcome) =>
         || outcome.Wrote?
         || outcome in {Raised(NoCompensationTask), Raised(CompensationNotBlocked), Raised(ConcurrentActivation)}
       case _ => false
  }

  ghost predicate FailedAt(kv: Store, k: Key) {
    RecordAt(kv, k).Some? && RecordAt(kv, k).value.status in {Failed, Compensated}
  }

  ghost predicate FailuresOk(hash: Text -> Text, s: Sys) {
    && (forall pid :: pid in s.procs && PastFailing(s.procs[pid]) ==>
      FailedAt(s.kv, RecordKey(hash, s.procs[pid].call)))
    && (forall p, q :: p in s.procs && q in s.procs && p != q && PastFailing(s.procs[p]) && PastFailing(s.procs[q]) ==>
      RecordKey(hash, s.procs[p].call) != RecordKey(hash, s.procs[q].call))
  }

  lemma StepFails(hash: Text -> Text, kv: Store, p: Proc)
    requires ProcOk(hash, kv, p) && !p.pc.Returned?
    ensures var (pc, after) := Step(hash, p.call, p.pc, kv);
      PastFailing(Proc(p.call, pc)) && !PastFailing(p) ==>
        !FailedAt(kv, RecordKey(hash, p.call)) && FailedAt(after, RecordKey(hash, p.call))
  {
    hide Blank;
  }

  lemma FailureStays(kv: Store, after: Store, k: Key)
    requires FailedAt(kv, k) && OneMove(RecordAt(kv, k), RecordAt(after, k))
    ensures FailedAt(after, k)
  {
    hide RecordAt;
  }

  lemma ApplyFailures(hash: Text -> Text, s: Sys, act: Action)
    requires Inv(hash, s) && FailuresOk(hash, s)
    ensures FailuresOk(hash, Apply(hash, s, act))
  {
    hide Step, Do, FailedAt, RecordAt, LogOk, RecordOk, OneMove, LeavesRecords, PastFailing;
    var next := Apply(hash, s, act);
    ApplyStoreOk(hash, s, act);
    forall k | FailedAt(s.kv, k) ensures FailedAt(next.kv, k) { FailureStays(s.kv, next.kv, k); }
    match act
    case Advance(pid) =>
      if pid in s.procs && !s.procs[pid].pc.Returned? { StepFails(hash, s.kv, s.procs[pid]); }
    case Spawn(_, call) => NewIsNotPast(call);
    case Outside(_) =>
  }

  lemma NewIsNotPast(call: Call)
    ensures !PastFailing(Proc(call, START))
  {}

  /** Under every interleaving at most one call fails a record, so at most one releases the compensation task for it. */
  lemma {:induction false} FailedOnce(hash: Text -> Text, acts: seq<Action>)
    ensures FailuresOk(hash, Run(hash, INITIAL, acts))
  {
    if acts != [] {
      hide Inv, Apply, FailuresOk;
      FailedOnce(hash, acts[..|acts| - 1]);
      RunInv(hash, acts[..|acts| - 1]);
      ApplyFailures(hash, Run(hash, INITIAL, acts[..|acts| - 1]), acts[|acts| - 1]);
    }
  }
}
