/** A whole append of the interleaved model is the journal's append: it moves log and window by one event. */
module EventWholeAppend {
  import opened Texts
  import opened KvStore
  import opened EventKeys
  import opened EventAppenders
  import opened EventJournal
  import Replay = EventReplay
  import Appenders = EventAppenders

  ghost predicate At(s: System, p: nat, pc: Pc, retention: nat) {
    p in s.appenders && s.appenders[p].pc == pc && s.appenders[p].retention == retention
  }

  /** Only p has moved. */
  ghost predicate OthersSame(s: System, t: System, p: nat) {
    && t.appenders.Keys == s.appenders.Keys + {p}
    && forall q :: q in s.appenders && q != p ==> t.appenders[q] == s.appenders[q]
  }

  lemma Goes(s: System, base: Text, p: nat, id: Text)
    requires Busy(s, p)
    ensures var (op, pc) := Call(s.kv, base, s.appenders[p], id);
      var t := Apply(s, base, Advance(p, id));
      && t.kv == (if op.Some? then Do(s.kv, op.value) else s.kv)
      && At(t, p, pc, s.appenders[p].retention) && OthersSame(s, t, p)
  {
    hide Call, Do, Grants;
  }

  /** Head, record and id: the event is stored under the next sequence. */
  lemma StoresEvent(s: System, base: Text, p: nat, retention: nat, log: Log, mark: nat, id: Text)
    requires At(s, p, ReadingHead(0), retention) && Stage(s.kv, base, log, |log|, mark, mark) && mark <= |log|
    requires id !in log && id != []
    ensures var go := Advance(p, id);
      var t := Apply(Apply(Apply(Apply(s, base, go), base, go), base, go), base, go);
      && Stage(t.kv, base, log + [id], |log| + 1, mark, mark) && OthersSame(s, t, p)
      && At(t, p, if |log| + 1 > retention then ReadingTrimmed(|log| + 1) else Returned(|log| + 1), retention)
  {
    hide Apply, Stage, HeadKey, RecordKey, IdKey, Put, CasOk, Get;
    var go, n := Advance(p, id), |log| + 1;
    Goes(s, base, p, id);
    var s1 := Apply(s, base, go);
    var seen := Get(s.kv, HeadKey(base));
    HeadAdvances(s.kv, base, log, |log|, mark, mark);
    Goes(s1, base, p, id);
    var s2 := Apply(s1, base, go);
    assert At(s2, p, WritingRecord(n), retention);
    EventStored(s2.kv, base, log, n, mark, mark, id);
    Goes(s2, base, p, id);
    var s3 := Apply(s2, base, go);
    assert At(s3, p, WritingId(n, id), retention);
    Goes(s3, base, p, id);
  }

  /** The mark and the record after it are read. */
  lemma ReadsOldest(s: System, base: Text, p: nat, retention: nat, log: Log, id: Text, mark: nat)
    requires |log| > retention >= 1 && At(s, p, ReadingTrimmed(|log|), retention) && mark == |log| - retention - 1
    requires Stage(s.kv, base, log, |log|, mark, mark)
    ensures var go := Advance(p, id);
      var t := Apply(Apply(s, base, go), base, go);
      && t.kv == s.kv && OthersSame(s, t, p)
      && At(t, p, DeletingRecord(|log|, mark + 1, log[mark]), retention)
  {
    hide Apply, Stage, TrimKey, RecordKey, IdKey, Put, CasOk, Get, DeleteAll;
    var go, n := Advance(p, id), |log|;
    Replay.MarkRead(s.kv, base, log, n, mark, mark);
    Goes(s, base, p, id);
    var s1 := Apply(s, base, go);
    assert At(s1, p, ReadingRecord(n, mark + 1), retention);
    OldestDropped(s.kv, base, log, n, mark, mark);
    Goes(s1, base, p, id);
  }

  /** The record and its id are deleted, and nothing else is to be dropped. */
  lemma DropsOldest(s: System, base: Text, p: nat, retention: nat, log: Log, id: Text, mark: nat)
    requires |log| > retention >= 1 && mark == |log| - retention - 1
    requires At(s, p, DeletingRecord(|log|, mark + 1, log[mark]), retention)
    requires Stage(s.kv, base, log, |log|, mark, mark)
    ensures var go := Advance(p, id);
      var t := Apply(Apply(s, base, go), base, go);
      && Stage(t.kv, base, log, |log|, mark, mark + 1) && OthersSame(s, t, p)
      && At(t, p, WritingTrimmed(|log|), retention)
  {
    hide Apply, Stage, RecordKey, IdKey, Get, DeleteAll;
    var go := Advance(p, id);
    OldestDropped(s.kv, base, log, |log|, mark, mark);
    Goes(s, base, p, id);
    var t := Apply(s, base, go);
    assert At(t, p, DeletingId(|log|, mark + 1, log[mark]), retention);
    Goes(t, base, p, id);
  }

  /** One event has left the window: its record and id are deleted and the mark moves. */
  lemma TrimsOne(s: System, base: Text, p: nat, retention: nat, log: Log, id: Text)
    requires |log| > retention >= 1 && At(s, p, ReadingTrimmed(|log|), retention)
    requires Stage(s.kv, base, log, |log|, |log| - retention - 1, |log| - retention - 1)
    ensures var go := Advance(p, id);
      var s3 := Apply(Apply(Apply(s, base, go), base, go), base, go);
      var t := Apply(Apply(s3, base, go), base, go);
      && Stage(t.kv, base, log, |log|, |log| - retention, |log| - retention) && OthersSame(s, t, p)
      && At(t, p, Returned(|log|), retention)
  {
    hide Apply, Stage, TrimKey, Put;
    var go, n := Advance(p, id), |log|;
    var mark: nat := n - retention - 1;
    ReadsOldest(s, base, p, retention, log, id, mark);
    var s2 := Apply(Apply(s, base, go), base, go);
    DropsOldest(s2, base, p, retention, log, id, mark);
    var s4 := Apply(Apply(s2, base, go), base, go);
    MarkMoves(s4.kv, base, log, n, mark, mark + 1);
    Goes(s4, base, p, id);
  }

  function Repeat(step: Step, n: nat): seq<Step> {
    seq(n, _ => step)
  }

  lemma RunNext(s: System, base: Text, step: Step, n: nat)
    ensures Appenders.Run(s, base, Repeat(step, n + 1)) == Apply(Appenders.Run(s, base, Repeat(step, n)), base, step)
  {
    assert Repeat(step, n + 1)[..n] == Repeat(step, n);
  }

  /** The append is over after four calls, or after nine when it has to trim. */
  lemma WholeAppend(s: System, base: Text, p: nat, retention: nat, log: Log, id: Text)
    requires JournalInv(s.kv, base, retention, log) && id !in log && id != [] && retention >= 1
    requires At(s, p, ReadingHead(0), retention)
    ensures var t := Appenders.Run(s, base, Repeat(Advance(p, id), if |log| + 1 > retention then 9 else 4));
      && JournalInv(t.kv, base, retention, log + [id]) && At(t, p, Returned(|log| + 1), retention)
      && OthersSame(s, t, p)
  {
    hide Appenders.Run, Apply, JournalInv, Stage;
    var go := Advance(p, id);
    Replay.OpenStage(s.kv, base, retention, log);
    Replay.TrimmedAt(retention, |log| + 1);
    StoresEvent(s, base, p, retention, log, Trimmed(retention, |log|), id);
    NoneYet(s, base, go);
    RunNext(s, base, go, 0);
    RunNext(s, base, go, 1);
    RunNext(s, base, go, 2);
    RunNext(s, base, go, 3);
    var s4 := Appenders.Run(s, base, Repeat(go, 4));
    if |log| + 1 > retention {
      TrimsOne(s4, base, p, retention, log + [id], id);
      RunNext(s, base, go, 4);
      RunNext(s, base, go, 5);
      RunNext(s, base, go, 6);
      RunNext(s, base, go, 7);
      RunNext(s, base, go, 8);
      Replay.CloseStage(Appenders.Run(s, base, Repeat(go, 9)).kv, base, retention, log + [id]);
    } else {
      Replay.CloseStage(s4.kv, base, retention, log + [id]);
    }
  }

  lemma NoneYet(s: System, base: Text, step: Step)
    ensures Appenders.Run(s, base, Repeat(step, 0)) == s
  {}

  /** Appends keep at least the last hundred events, whatever retention they are given. */
  lemma RetentionAtLeastHundred(s: System, base: Text, p: nat, retention: nat)
    requires !Busy(s, p)
    ensures At(Apply(s, base, Begin(p, retention)), p, ReadingHead(0), if retention < 100 then 100 else retention)
    ensures Apply(s, base, Begin(p, retention)).kv == s.kv
  {}

  /** Where a trim goes from sequence `next`: to the one after it while that is to be dropped too, then to the mark. */
  ghost predicate MovesOn(pc: Pc, head: nat, retention: nat, next: nat) {
    && (next + 1 <= head - retention ==> pc == ReadingRecord(head, next + 1))
    && (next + 1 > head - retention ==> pc == WritingTrimmed(head))
  }

  /** A missing record is passed over, one without an id is only deleted, and one with an id goes with its id. */
  lemma TrimMovesOn(kv: Kv<Text, Stored>, base: Text, a: Appender, head: nat, next: nat, id: Text, newId: Text)
    requires a.retention <= head
    ensures RecordKey(base, next) !in kv.entries ==>
      var (op, pc) := Call(kv, base, a.(pc := ReadingRecord(head, next)), newId);
      op.None? && MovesOn(pc, head, a.retention, next)
    ensures var (op, pc) := Call(kv, base, a.(pc := DeletingRecord(head, next, id)), newId);
      && op == Some(DeleteOp({RecordKey(base, next)}))
      && (id == [] ==> MovesOn(pc, head, a.retention, next)) && (id != [] ==> pc == DeletingId(head, next, id))
    ensures var (op, pc) := Call(kv, base, a.(pc := DeletingId(head, next, id)), newId);
      op == Some(DeleteOp({IdKey(base, id)})) && MovesOn(pc, head, a.retention, next)
  {
    hide RecordKey, IdKey;
  }

  /** A lost race for the head is tried again until the hundredth try is lost. */
  lemma HundredTries(kv: Kv<Text, Stored>, base: Text, a: Appender, seen: Read<Stored>, tries: nat, newId: Text)
    requires !CasOk(kv, HeadKey(base), Some(if seen.value.Some? then seen.index else 0))
    ensures var pc := Call(kv, base, a.(pc := WritingHead(seen, tries)), newId).1;
      && (tries <= 98 ==> pc == ReadingHead(tries + 1)) && (tries >= 99 ==> pc == NoSequence)
  {
    hide HeadKey, CasOk;
  }
}
