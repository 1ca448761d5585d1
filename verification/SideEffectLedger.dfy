/** The ledger's methods as they are written; run without interference they do what their steps do. */
module SideEffectLedger {
  import opened Texts
  import opened KvStore
  import opened SideEffects

  function Measure(pc: Pc): nat {
    match pc
    case ReadAttempt(again) => if again then 11 else 13
    case ReadEpoch(again, _) => if again then 10 else 12
    case ReadRecord => 9
    case CreateRecord => 8
    case WriteFinish(_, _) => 8
    case WriteMark(_, _) => 8
    case ReadCompensationTask(_) => 7
    case ReadCompensationStatus(_, _) => 6
    case PutCompensates(_, _, _) => 5
    case PutCompensatedKey(_, _, _) => 4
    case PutPending(_, _, _) => 3
    case Returned(_) => 0
  }

  /** A call run to its end with nothing in between. */
  function ToEnd(hash: Text -> Text, c: Call, pc: Pc, kv: Store): (Outcome, Store)
    decreases Measure(pc)
  {
    if pc.Returned? then (pc.outcome, kv)
    else
      var (next, after) := Step(hash, c, pc, kv);
      ToEnd(hash, c, next, after)
  }

  lemma OneStep(hash: Text -> Text, c: Call, pc: Pc, kv: Store)
    requires !pc.Returned?
    ensures ToEnd(hash, c, pc, kv) == ToEnd(hash, c, Step(hash, c, pc, kv).0, Step(hash, c, pc, kv).1)
  {
    hide Step;
  }

  lemma Ends(hash: Text -> Text, c: Call)
    ensures forall o, kv :: ToEnd(hash, c, Returned(o), kv) == (o, kv)
  {}

  class Ledger {
    const hash: Text -> Text
    const store: LocalStore<Key, Value>

    constructor (hash: Text -> Text, store: LocalStore<Key, Value>)
      ensures this.hash == hash && this.store == store
    {
      this.hash, this.store := hash, store;
    }

    method ValidateOwner(c: Call, ghost again: bool) returns (ok: bool)
      ensures ok <==>
        && Get(store.Model(), AttemptId(c.task)).value == Some(Str(c.attempt))
        && Get(store.Model(), LeaseEpoch(c.task)).value == Some(Num(c.epoch))
      ensures var kv := store.Model();
        ToEnd(hash, c, ReadAttempt(again), kv) ==
          if ok then ToEnd(hash, c, Owned(c, again), kv) else (Raised(Fenced), kv)
    {
      hide ToEnd, Blank, Owned;
      Ends(hash, c);
      ghost var kv := store.Model();
      OneStep(hash, c, ReadAttempt(again), kv);
      var currentAttempt, _ := store.KvGet(AttemptId(c.task));
      OneStep(hash, c, ReadEpoch(again, currentAttempt), kv);
      var currentEpoch, _ := store.KvGet(LeaseEpoch(c.task));
      ok := currentAttempt == Some(Str(c.attempt)) && currentEpoch == Some(Num(c.epoch));
    }

    method BeginEffect(c: Call) returns (o: Outcome)
      requires c.Begin?
      modifies store
      ensures (o, store.Model()) == ToEnd(hash, c, START, old(store.Model()))
    {
      hide ToEnd, Blank, BeginOnRecord;
      Ends(hash, c);
      var owner := ValidateOwner(c, false);
      if !owner {
        return Raised(Fenced);
      }
      if Blank(c.key) {
        return Raised(BlankKey);
      }
      OneStep(hash, c, ReadRecord, store.Model());
      var raw, _ := store.KvGet(RecordKey(hash, c));
      if raw.Some? && raw.value.Rec? {
        return BeginOnRecord(c, raw.value.record);
      }
      OneStep(hash, c, CreateRecord, store.Model());
      var created := store.KvPut(RecordKey(hash, c), Rec(NewRecord(c)), Some(0));
      if !created {
        return Raised(ConcurrentAcquisition);
      }
      return Execute(NewRecord(c));
    }

    /** _finish, after its own owner check. */
    method Finish(c: Call) returns (o: Outcome, written: bool)
      requires c.Complete? || c.FailAndCompensate?
      modifies store
      ensures written ==> o.Wrote?
      ensures ToEnd(hash, c, if Blank(c.key) then Returned(Raised(BlankKey)) else ReadRecord, old(store.Model())) ==
        if written && c.FailAndCompensate? then ToEnd(hash, c, ReadCompensationTask(o.record), store.Model())
        else (o, store.Model())
    {
      hide ToEnd, Blank;
      Ends(hash, c);
      if Blank(c.key) {
        return Raised(BlankKey), false;
      }
      OneStep(hash, c, ReadRecord, store.Model());
      var raw, index := store.KvGet(RecordKey(hash, c));
      if raw.None? || !raw.value.Rec? {
        return Raised(NotFound), false;
      }
      var record := raw.value.record;
      if record.idempotencyKey != c.key {
        return Raised(HashCollision), false;
      }
      if record.status == Completed && c.Complete? {
        return Wrote(record), false;
      }
      if record.status != InProgress || record.attempt != c.attempt {
        return Raised(NotOwned), false;
      }
      OneStep(hash, c, WriteFinish(record, index), store.Model());
      var ok := store.KvPut(RecordKey(hash, c), Rec(FinishedRecord(c, record)), Some(index));
      if !ok {
        return Raised(ConcurrentFinish), false;
      }
      return Wrote(FinishedRecord(c, record)), true;
    }

    method CompleteEffect(c: Call) returns (o: Outcome)
      requires c.Complete?
      modifies store
      ensures (o, store.Model()) == ToEnd(hash, c, START, old(store.Model()))
    {
      hide ToEnd, Blank;
      var owner := ValidateOwner(c, false);
      if !owner {
        return Raised(Fenced);
      }
      var written;
      o, written := Finish(c);
    }

    method FailEffect(c: Call) returns (o: Outcome)
      requires c.FailAndCompensate?
      modifies store
      ensures (o, store.Model()) == ToEnd(hash, c, START, old(store.Model()))
    {
      hide ToEnd, Blank;
      var owner := ValidateOwner(c, false);
      if !owner {
        return Raised(Fenced);
      }
      owner := ValidateOwner(c, true);
      if !owner {
        return Raised(Fenced);
      }
      var written;
      o, written := Finish(c);
      if !written {
        return;
      }
      o := Activate(c, o.record);
    }

    /** The end of fail_and_compensate: release the compensation task, if it is there and BLOCKED. */
    method Activate(c: Call, done: Record) returns (o: Outcome)
      modifies store
      ensures (o, store.Model()) == ToEnd(hash, c, ReadCompensationTask(done), old(store.Model()))
    {
      hide ToEnd;
      Ends(hash, c);
      OneStep(hash, c, ReadCompensationTask(done), store.Model());
      var named, _ := store.KvGet(CompensationTaskOf(c.task));
      if named.None? || !named.value.Str? || named.value.text == [] {
        return Raised(NoCompensationTask);
      }
      var compensation := named.value.text;
      OneStep(hash, c, ReadCompensationStatus(done, compensation), store.Model());
      var status, index := store.KvGet(TaskStatus(compensation));
      if status != Some(BLOCKED) {
        return Raised(CompensationNotBlocked);
      }
      OneStep(hash, c, PutCompensates(done, compensation, index), store.Model());
      var _ := store.KvPut(CompensatesTask(compensation), Str(c.task), None);
      OneStep(hash, c, PutCompensatedKey(done, compensation, index), store.Model());
      var _ := store.KvPut(CompensatedKey(compensation), Str(c.key), None);
      OneStep(hash, c, PutPending(done, compensation, index), store.Model());
      var ok := store.KvPut(TaskStatus(compensation), PENDING, Some(index));
      if !ok {
        return Raised(ConcurrentActivation);
      }
      return Wrote(done.(compensationTask := compensation));
    }

    method MarkEffect(c: Call) returns (o: Outcome)
      requires c.MarkCompensated?
      modifies store
      ensures (o, store.Model()) == ToEnd(hash, c, START, old(store.Model()))
    {
      hide ToEnd, Blank;
      Ends(hash, c);
      var owner := ValidateOwner(c, false);
      if !owner {
        return Raised(Fenced);
      }
      if Blank(c.key) {
        return Raised(BlankKey);
      }
      OneStep(hash, c, ReadRecord, store.Model());
      var raw, index := store.KvGet(RecordKey(hash, c));
      if raw.None? || !raw.value.Rec? {
        return Raised(NotFound);
      }
      var record := raw.value.record;
      if record.status != Failed {
        return Raised(NotFailed);
      }
      OneStep(hash, c, WriteMark(record, index), store.Model());
      var ok := store.KvPut(RecordKey(hash, c), Rec(MarkedRecord(c, record)), Some(index));
      if !ok {
        return Raised(ConcurrentCompensation);
      }
      return Wrote(MarkedRecord(c, record));
    }
  }
}
