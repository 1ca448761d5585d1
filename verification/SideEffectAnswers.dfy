/** What each ledger call answers and leaves when nothing else runs, case by case. */
module SideEffectAnswers {
  import opened Texts
  import opened KvStore
  import opened SideEffects
  import opened SideEffectLedger

  /** The caller is the task's current attempt and epoch. */
  ghost predicate Current(c: Call, kv: Store) {
    && Get(kv, AttemptId(c.task)).value == Some(Str(c.attempt))
    && Get(kv, LeaseEpoch(c.task)).value == Some(Num(c.epoch))
  }

  /** Only records stand at record keys. */
  ghost predicate Recorded(kv: Store) {
    forall t, h :: RecordOf(t, h) in kv.entries ==> kv.entries[RecordOf(t, h)].value.Rec?
  }

  /** Just this key has been written, with this value. */
  ghost predicate Wrote1(kv: Store, after: Store, k: Key, v: Value) {
    after.entries.Keys == kv.entries.Keys + {k} && after.entries[k].value == v
    && forall x :: x in kv.entries && x != k ==> after.entries[x] == kv.entries[x]
  }

  lemma OwnerAlone(hash: Text -> Text, c: Call, again: bool, kv: Store)
    ensures ToEnd(hash, c, ReadAttempt(again), kv) ==
      if Current(c, kv) then ToEnd(hash, c, Owned(c, again), kv) else (Raised(Fenced), kv)
  {
    hide ToEnd, Owned;
    Ends(hash, c);
    OneStep(hash, c, ReadAttempt(again), kv);
    OneStep(hash, c, ReadEpoch(again, Get(kv, AttemptId(c.task)).value), kv);
  }

  /** begin, alone. */
  lemma BeginAnswers(hash: Text -> Text, c: Call, kv: Store)
    requires c.Begin? && Recorded(kv)
    ensures var (o, after) := ToEnd(hash, c, START, kv);
      var k := RecordOf(c.task, hash(c.key));
      var stored := RecordAt(kv, k);
      && (!Current(c, kv) ==> (o, after) == (Raised(Fenced), kv))
      && (Current(c, kv) && Blank(c.key) ==> (o, after) == (Raised(BlankKey), kv))
      && (Current(c, kv) && !Blank(c.key) && stored.None? ==>
        var r := Record(c.key, InProgress, c.attempt, c.epoch, [], [], [], []);
        o == Execute(r) && Wrote1(kv, after, k, Rec(r)))
      && (Current(c, kv) && !Blank(c.key) && stored.Some? ==>
        var r := stored.value;
        && after == kv
        && (r.idempotencyKey != c.key ==> o == Raised(HashCollision))
        && (r.idempotencyKey == c.key ==>
          && (r.status == Completed ==> o == Replay(r))
          && (r.status == InProgress ==>
            o == if r.attempt == c.attempt && r.epoch == c.epoch then Resume(r) else Raised(OwnedByAnother))
          && (r.status == Failed ==> o == WaitForCompensation(r))
          && (r.status == Compensating ==> o == WaitForCompensation(r))
          && (r.status == Compensated ==> o == AlreadyCompensated(r))))
  {
    hide ToEnd, Blank;
    Ends(hash, c);
    OwnerAlone(hash, c, false, kv);
    if Current(c, kv) && !Blank(c.key) {
      OneStep(hash, c, ReadRecord, kv);
      OneStep(hash, c, CreateRecord, kv);
    }
  }

  /** What the owner's record becomes. */
  ghost predicate Finished(c: Call, was: Record, r: Record) {
    && r.idempotencyKey == was.idempotencyKey && r.attempt == was.attempt && r.epoch == was.epoch
    && r.compensationTask == was.compensationTask && r.compensationAttempt == was.compensationAttempt
    && (c.Complete? ==> r.status == Completed && r.result == c.result && r.error == was.error)
    && (c.FailAndCompensate? ==> r.status == Failed && r.error == c.error && r.result == was.result)
  }

  /** What _finish says of a record it may not finish. */
  ghost predicate NotFinished(c: Call, stored: Option<Record>, o: Outcome) {
    && (stored.None? ==> o == Raised(NotFound))
    && (stored.Some? && stored.value.idempotencyKey != c.key ==> o == Raised(HashCollision))
    && (stored.Some? && stored.value.idempotencyKey == c.key ==>
      if c.Complete? && stored.value.status == Completed then o == Wrote(stored.value) else o == Raised(NotOwned))
  }

  /** The record is the caller's to finish. */
  ghost predicate Finishable(c: Call, stored: Option<Record>) {
    && stored.Some? && stored.value.idempotencyKey == c.key
    && stored.value.status == InProgress && stored.value.attempt == c.attempt
  }

  lemma FinishAlone(hash: Text -> Text, c: Call, kv: Store) returns (r: Record, after: Store)
    requires (c.Complete? || c.FailAndCompensate?) && Recorded(kv)
    ensures var k := RecordOf(c.task, hash(c.key));
      var stored := RecordAt(kv, k);
      if Finishable(c, stored) then
        && Finished(c, stored.value, r) && Wrote1(kv, after, k, Rec(r))
        && ToEnd(hash, c, ReadRecord, kv) ==
          if c.Complete? then (Wrote(r), after) else ToEnd(hash, c, ReadCompensationTask(r), after)
      else
        && after == kv && ToEnd(hash, c, ReadRecord, kv).1 == kv
        && NotFinished(c, stored, ToEnd(hash, c, ReadRecord, kv).0)
  {
    hide ToEnd, Blank;
    Ends(hash, c);
    var k := RecordOf(c.task, hash(c.key));
    OneStep(hash, c, ReadRecord, kv);
    r, after := NewRecord(c), kv;
    if Finishable(c, RecordAt(kv, k)) {
      var was, index := RecordAt(kv, k).value, kv.entries[k].index;
      OneStep(hash, c, WriteFinish(was, index), kv);
      r := FinishedRecord(c, was);
      after := Put(kv, k, Rec(r), Some(index));
    }
  }

  /** complete, alone. */
  lemma CompleteAnswers(hash: Text -> Text, c: Call, kv: Store)
    requires c.Complete? && Recorded(kv)
    ensures var (o, after) := ToEnd(hash, c, START, kv);
      var k := RecordOf(c.task, hash(c.key));
      var stored := RecordAt(kv, k);
      && (!Current(c, kv) ==> (o, after) == (Raised(Fenced), kv))
      && (Current(c, kv) && Blank(c.key) ==> (o, after) == (Raised(BlankKey), kv))
      && (Current(c, kv) && !Blank(c.key) && !Finishable(c, stored) ==> after == kv && NotFinished(c, stored, o))
      && (Current(c, kv) && !Blank(c.key) && Finishable(c, stored) ==>
        o.Wrote? && Finished(c, stored.value, o.record) && Wrote1(kv, after, k, Rec(o.record)))
  {
    hide ToEnd, Blank, Finished, NotFinished, Finishable, Wrote1;
    Ends(hash, c);
    OwnerAlone(hash, c, false, kv);
    var r, after := FinishAlone(hash, c, kv);
  }

  /** After the swap: the compensation task is released if there is one and it is BLOCKED. */
  lemma ReleaseAlone(hash: Text -> Text, c: Call, r: Record, kv: Store)
    requires c.FailAndCompensate?
    ensures var (o, after) := ToEnd(hash, c, ReadCompensationTask(r), kv);
      var named := Get(kv, CompensationTaskOf(c.task)).value;
      if named.None? || !named.value.Str? || named.value.text == [] then (o, after) == (Raised(NoCompensationTask), kv)
      else
        var compensation := named.value.text;
        if Get(kv, TaskStatus(compensation)).value != Some(Str(Lit("BLOCKED"))) then
          (o, after) == (Raised(CompensationNotBlocked), kv)
        else
          && o == Wrote(r.(compensationTask := compensation))
          && Get(after, TaskStatus(compensation)).value == Some(Str(Lit("PENDING")))
          && Get(after, CompensatesTask(compensation)).value == Some(Str(c.task))
          && Get(after, CompensatedKey(compensation)).value == Some(Str(c.key))
          && forall k ::
            k !in {TaskStatus(compensation), CompensatesTask(compensation), CompensatedKey(compensation)} ==>
            Get(after, k).value == Get(kv, k).value
  {
    hide ToEnd;
    Ends(hash, c);
    OneStep(hash, c, ReadCompensationTask(r), kv);
    var named := Get(kv, CompensationTaskOf(c.task)).value;
    if named.Some? && named.value.Str? && named.value.text != [] {
      var compensation := named.value.text;
      OneStep(hash, c, ReadCompensationStatus(r, compensation), kv);
      var status := Get(kv, TaskStatus(compensation));
      if status.value == Some(Str(Lit("BLOCKED"))) {
        OneStep(hash, c, PutCompensates(r, compensation, status.index), kv);
        var kv1 := Put(kv, CompensatesTask(compensation), Str(c.task), None);
        OneStep(hash, c, PutCompensatedKey(r, compensation, status.index), kv1);
        var kv2 := Put(kv1, CompensatedKey(compensation), Str(c.key), None);
        OneStep(hash, c, PutPending(r, compensation, status.index), kv2);
      }
    }
  }

  /** fail_and_compensate, alone: the record fails first, then the compensation task is released or the call raises. */
  lemma FailAnswers(hash: Text -> Text, c: Call, kv: Store) returns (r: Record, failed: Store)
    requires c.FailAndCompensate? && Recorded(kv)
    ensures var (o, after) := ToEnd(hash, c, START, kv);
      var k := RecordOf(c.task, hash(c.key));
      var stored := RecordAt(kv, k);
      && (!Current(c, kv) ==> (o, after) == (Raised(Fenced), kv))
      && (Current(c, kv) && Blank(c.key) ==> (o, after) == (Raised(BlankKey), kv))
      && (Current(c, kv) && !Blank(c.key) && !Finishable(c, stored) ==> after == kv && NotFinished(c, stored, o))
      && (Current(c, kv) && !Blank(c.key) && Finishable(c, stored) ==>
        && Finished(c, stored.value, r) && Wrote1(kv, failed, k, Rec(r))
        && (o, after) == ToEnd(hash, c, ReadCompensationTask(r), failed))
  {
    hide ToEnd, Blank, Finished, NotFinished, Finishable, Wrote1;
    Ends(hash, c);
    OwnerAlone(hash, c, false, kv);
    OwnerAlone(hash, c, true, kv);
    r, failed := FinishAlone(hash, c, kv);
  }

  /** mark_compensated, alone. */
  lemma MarkAnswers(hash: Text -> Text, c: Call, kv: Store)
    requires c.MarkCompensated? && Recorded(kv)
    ensures var (o, after) := ToEnd(hash, c, START, kv);
      var k := RecordOf(c.source, hash(c.key));
      var stored := RecordAt(kv, k);
      && (!Current(c, kv) ==> (o, after) == (Raised(Fenced), kv))
      && (Current(c, kv) && Blank(c.key) ==> (o, after) == (Raised(BlankKey), kv))
      && (Current(c, kv) && !Blank(c.key) && stored.None? ==> (o, after) == (Raised(NotFound), kv))
      && (Current(c, kv) && !Blank(c.key) && stored.Some? && stored.value.status != Failed ==>
        (o, after) == (Raised(NotFailed), kv))
      && (Current(c, kv) && !Blank(c.key) && stored.Some? && stored.value.status == Failed ==>
        var was := stored.value;
        && o == Wrote(Record(was.idempotencyKey, Compensated, was.attempt, was.epoch, was.result, was.error,
                             c.task, c.attempt))
        && Wrote1(kv, after, k, Rec(o.record)))
  {
    hide ToEnd, Blank;
    Ends(hash, c);
    OwnerAlone(hash, c, false, kv);
    if Current(c, kv) && !Blank(c.key) {
      OneStep(hash, c, ReadRecord, kv);
      var k := RecordOf(c.source, hash(c.key));
      if RecordAt(kv, k).Some? && RecordAt(kv, k).value.status == Failed {
        OneStep(hash, c, WriteMark(RecordAt(kv, k).value, kv.entries[k].index), kv);
      }
    }
  }
}
