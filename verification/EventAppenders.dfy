/**
 Several appenders of one event journal (event_journal.EventJournal.append and _trim), interleaved store call by store
 call: what makes their sequence numbers distinct.
 */
module EventAppenders {
  import opened Texts
  import opened KvStore
  import opened EventKeys

  datatype Stored = Number(n: nat) | Event(id: Text, sequence: nat)

  /** int(raw or "0") */
  function NumberOf(v: Option<Stored>): nat {
    if v.Some? && v.value.Number? then v.value.n else 0
  }

  const MAX_TRIES := 100

  /** Where an append is; each state but the last four is about to make one store call. */
  datatype Pc =
    | ReadingHead(tries: nat)
    | WritingHead(seen: Read<Stored>, tries: nat)
    | WritingRecord(sequence: nat)
    | WritingId(sequence: nat, id: Text)
    | ReadingTrimmed(sequence: nat)
    | ReadingRecord(sequence: nat, next: nat)
    | DeletingRecord(sequence: nat, next: nat, id: Text)
    | DeletingId(sequence: nat, next: nat, id: Text)
    | WritingTrimmed(sequence: nat)
    | Idle
    | Returned(sequence: nat)
    | NoSequence
    | RecordExists

  /** since: how many sequences had been handed out when the running append began. */
  datatype Appender = Appender(pc: Pc, retention: nat, since: nat)

  /** granted[i] is the appender whose write of the head made it i + 1. */
  datatype System = System(kv: Kv<Text, Stored>, appenders: map<nat, Appender>, granted: seq<nat>)

  /** One store call of an append, if it makes one here, and where it goes next. */
  function Call(kv: Kv<Text, Stored>, base: Text, a: Appender, newId: Text): (Option<Op<Text, Stored>>, Pc) {
    match a.pc
    case ReadingHead(tries) => (None, WritingHead(Get(kv, HeadKey(base)), tries))
    case WritingHead(seen, tries) =>
      var sequence := NumberOf(seen.value) + 1;
      var cas := if seen.value.Some? then seen.index else 0;
      var ok := CasOk(kv, HeadKey(base), Some(cas));
      (Some(PutOp(HeadKey(base), Number(sequence), Some(cas))),
       if ok then WritingRecord(sequence) else if tries + 1 < MAX_TRIES then ReadingHead(tries + 1) else NoSequence)
    case WritingRecord(n) =>
      var ok := CasOk(kv, RecordKey(base, n), Some(0));
      (Some(PutOp(RecordKey(base, n), Event(newId, n), Some(0))), if ok then WritingId(n, newId) else RecordExists)
    case WritingId(n, id) =>
      (Some(PutOp(IdKey(base, id), Number(n), Some(0))), if n > a.retention then ReadingTrimmed(n) else Returned(n))
    case ReadingTrimmed(n) =>
      (None, Scanning(a, n, NumberOf(Get(kv, TrimKey(base)).value) + 1))
    case ReadingRecord(n, next) =>
      var r := Get(kv, RecordKey(base, next)).value;
      (None, if r.None? then Scanning(a, n, next + 1)
             else DeletingRecord(n, next, if r.value.Event? then r.value.id else []))
    case DeletingRecord(n, next, id) =>
      (Some(DeleteOp({RecordKey(base, next)})), if id == [] then Scanning(a, n, next + 1) else DeletingId(n, next, id))
    case DeletingId(n, next, id) => (Some(DeleteOp({IdKey(base, id)})), Scanning(a, n, next + 1))
    case WritingTrimmed(n) =>
      (Some(PutOp(TrimKey(base), Number(if n > a.retention then n - a.retention else 0), None)), Returned(n))
    case _ => (None, a.pc)
  }

  /** The head of the trimming loop: for next in range(..., cutoff + 1). */
  function Scanning(a: Appender, n: nat, next: nat): Pc {
    if next + a.retention <= n then ReadingRecord(n, next) else WritingTrimmed(n)
  }

  datatype Step =
    | Begin(p: nat, retention: nat)
    | Advance(p: nat, newId: Text)
    | Foreign(op: Op<Text, Stored>)

  /** A store operation on none of this journal's keys. */
  predicate Elsewhere(base: Text, op: Op<Text, Stored>) {
    match op
    case PutOp(k, _, _) => !Under(base, k)
    case DeleteOp(ks) => forall k :: k in ks ==> !Under(base, k)
  }

  predicate Busy(s: System, p: nat) {
    p in s.appenders && !s.appenders[p].pc.Idle? && !s.appenders[p].pc.Returned?
    && !s.appenders[p].pc.NoSequence? && !s.appenders[p].pc.RecordExists?
  }

  /** This call of appender p writes the head. */
  predicate Grants(s: System, base: Text, p: nat) {
    p in s.appenders && s.appenders[p].pc.WritingHead?
    && var seen := s.appenders[p].pc.seen;
    CasOk(s.kv, HeadKey(base), Some(if seen.value.Some? then seen.index else 0))
  }

  function Apply(s: System, base: Text, step: Step): System {
    match step
    case Begin(p, retention) =>
      if Busy(s, p) then s
      else
        var kept := if retention < 100 then 100 else retention;
        s.(appenders := s.appenders[p := Appender(ReadingHead(0), kept, |s.granted|)])
    case Advance(p, newId) =>
      if !Busy(s, p) then s
      else
        var a := s.appenders[p];
        var (op, pc) := Call(s.kv, base, a, newId);
        System(if op.Some? then Do(s.kv, op.value) else s.kv,
               s.appenders[p := a.(pc := pc)],
               if Grants(s, base, p) then s.granted + [p] else s.granted)
    case Foreign(op) => if Elsewhere(base, op) then s.(kv := Do(s.kv, op)) else s
  }

  function Run(s: System, base: Text, steps: seq<Step>): System {
    if steps == [] then s else Apply(Run(s, base, steps[..|steps| - 1]), base, steps[|steps| - 1])
  }

  // ---- what every run keeps ----

  /** The head counts the sequences handed out, and only those have records. */
  ghost predicate StoreInv(kv: Kv<Text, Stored>, base: Text, count: nat) {
    && WellFormed(kv)
    && (HeadKey(base) in kv.entries <==> count > 0)
    && (count > 0 ==> kv.entries[HeadKey(base)].value == Number(count))
    && (forall n: nat :: RecordKey(base, n) in kv.entries ==> 1 <= n <= count)
  }

  function CasOf(seen: Read<Stored>): nat {
    if seen.value.Some? then seen.index else 0
  }

  /** The appender's view is of the past, and it is outdated only if someone else was granted a sequence since. */
  ghost predicate AppenderInv(kv: Kv<Text, Stored>, base: Text, granted: seq<nat>, p: nat, a: Appender) {
    && a.since <= |granted|
    && match a.pc
       case ReadingHead(tries) => a.since + tries <= |granted| && tries < MAX_TRIES
       case WritingHead(seen, tries) =>
         && tries < MAX_TRIES
         && a.since + tries <= NumberOf(seen.value) <= |granted|
         && Remembers(kv, HeadKey(base), seen)
         && (CurrentIndex(kv, HeadKey(base)) == CasOf(seen) <==> NumberOf(seen.value) == |granted|)
       case WritingRecord(n) => Holds(granted, p, n) && RecordKey(base, n) !in kv.entries
       case WritingId(n, _) => Holds(granted, p, n)
       case ReadingTrimmed(n) => Holds(granted, p, n)
       case ReadingRecord(n, _) => Holds(granted, p, n)
       case DeletingRecord(n, _, _) => Holds(granted, p, n)
       case DeletingId(n, _, _) => Holds(granted, p, n)
       case WritingTrimmed(n) => Holds(granted, p, n)
       case Returned(n) => Holds(granted, p, n)
       case NoSequence => a.since + MAX_TRIES <= |granted|
       case RecordExists => false
       case Idle => true
  }

  /** Sequence n went to appender p. */
  predicate Holds(granted: seq<nat>, p: nat, n: nat) {
    1 <= n <= |granted| && granted[n - 1] == p
  }

  ghost predicate RunInv(s: System, base: Text) {
    && StoreInv(s.kv, base, |s.granted|)
    && forall p :: p in s.appenders ==> AppenderInv(s.kv, base, s.granted, p, s.appenders[p])
  }

  /** An operation that leaves the head alone and adds no record. */
  ghost predicate Quiet(base: Text, op: Op<Text, Stored>) {
    match op
    case PutOp(k, _, _) => k != HeadKey(base) && !IsRecordKey(base, k)
    case DeleteOp(ks) => HeadKey(base) !in ks
  }

  lemma QuietKeepsStore(kv: Kv<Text, Stored>, base: Text, count: nat, op: Op<Text, Stored>)
    requires StoreInv(kv, base, count) && Quiet(base, op)
    ensures StoreInv(Do(kv, op), base, count)
    ensures CurrentIndex(Do(kv, op), HeadKey(base)) == CurrentIndex(kv, HeadKey(base))
    ensures forall n: nat :: RecordKey(base, n) in Do(kv, op).entries ==> RecordKey(base, n) in kv.entries
  {
    DoWellFormed(kv, op);
    forall n: nat ensures IsRecordKey(base, RecordKey(base, n)) { RecordKeyInjective(base, n, n); }
    hide WellFormed, RecordKey, IsRecordKey;
  }

  lemma QuietKeepsAppender(
    kv: Kv<Text, Stored>, base: Text, granted: seq<nat>, p: nat, a: Appender, op: Op<Text, Stored>)
    requires StoreInv(kv, base, |granted|) && Quiet(base, op) && AppenderInv(kv, base, granted, p, a)
    ensures AppenderInv(Do(kv, op), base, granted, p, a)
  {
    QuietKeepsStore(kv, base, |granted|, op);
    if a.pc.WritingHead? { RememberLater(kv, op, HeadKey(base), a.pc.seen); }
    hide WellFormed, Do, Remembers, RecordKey, HeadKey;
  }

  lemma QuietCalls(kv: Kv<Text, Stored>, base: Text, a: Appender, newId: Text)
    requires !a.pc.WritingHead? && !a.pc.WritingRecord?
    ensures var op := Call(kv, base, a, newId).0; op.Some? ==> Quiet(base, op.value)
  {
    KeysApart(base);
    forall id: Text ensures IsIdKey(base, IdKey(base, id)) { IdKeyInjective(base, id, id); }
    forall n: nat ensures IsRecordKey(base, RecordKey(base, n)) { RecordKeyInjective(base, n, n); }
    hide RecordKey, IdKey, HeadKey, TrimKey, IsRecordKey, IsIdKey;
  }

  lemma ElsewhereQuiet(base: Text, op: Op<Text, Stored>)
    requires Elsewhere(base, op)
    ensures Quiet(base, op)
  {
    KeysUnder(base);
  }

  /** Granting: the head moves on by one, to the sequence the appender asked for. */
  lemma HeadWritten(kv: Kv<Text, Stored>, base: Text, granted: seq<nat>, p: nat, a: Appender)
    requires StoreInv(kv, base, |granted|) && AppenderInv(kv, base, granted, p, a) && a.pc.WritingHead?
    requires CasOk(kv, HeadKey(base), Some(CasOf(a.pc.seen)))
    ensures NumberOf(a.pc.seen.value) == |granted|
    ensures StoreInv(Put(kv, HeadKey(base), Number(|granted| + 1), Some(CasOf(a.pc.seen))), base, |granted| + 1)
  {
    DoWellFormed(kv, PutOp(HeadKey(base), Number(|granted| + 1), Some(CasOf(a.pc.seen))));
    KeysApart(base);
    forall n: nat ensures RecordKey(base, n) != HeadKey(base) { RecordKeyInjective(base, n, n); }
    hide RecordKey, HeadKey, TrimKey, IsRecordKey, IsIdKey;
  }

  /** Everybody else's view after p was granted a sequence. */
  lemma OthersAfterGrant(kv: Kv<Text, Stored>, base: Text, granted: seq<nat>, p: nat, cas: nat, q: nat, b: Appender)
    requires StoreInv(kv, base, |granted|) && CasOk(kv, HeadKey(base), Some(cas))
    requires AppenderInv(kv, base, granted, q, b)
    ensures AppenderInv(Put(kv, HeadKey(base), Number(|granted| + 1), Some(cas)), base, granted + [p], q, b)
  {
    var op := PutOp(HeadKey(base), Number(|granted| + 1), Some(cas));
    KeysApart(base);
    if b.pc.WritingHead? { RememberLater(kv, op, HeadKey(base), b.pc.seen); }
    if b.pc.WritingRecord? { RecordKeyInjective(base, b.pc.sequence, b.pc.sequence); }
    hide RecordKey, HeadKey, TrimKey, IsRecordKey, IsIdKey, RecordsPrefix;
  }

  /** Writing a record: it was absent, and nobody else holds its sequence. */
  lemma RecordWritten(kv: Kv<Text, Stored>, base: Text, granted: seq<nat>, p: nat, n: nat, e: Stored)
    requires StoreInv(kv, base, |granted|) && Holds(granted, p, n) && RecordKey(base, n) !in kv.entries
    ensures CasOk(kv, RecordKey(base, n), Some(0))
    ensures StoreInv(Put(kv, RecordKey(base, n), e, Some(0)), base, |granted|)
    ensures CurrentIndex(Put(kv, RecordKey(base, n), e, Some(0)), HeadKey(base)) == CurrentIndex(kv, HeadKey(base))
    ensures forall m: nat :: RecordKey(base, m) in Put(kv, RecordKey(base, n), e, Some(0)).entries ==>
      RecordKey(base, m) in kv.entries || m == n
  {
    DoWellFormed(kv, PutOp(RecordKey(base, n), e, Some(0)));
    KeysApart(base);
    forall m: nat ensures RecordKey(base, m) != HeadKey(base) && (RecordKey(base, m) == RecordKey(base, n) ==> m == n) {
      RecordKeyInjective(base, n, m);
      RecordKeyInjective(base, m, m);
    }
    hide RecordKey, HeadKey, TrimKey, IsRecordKey, IsIdKey, RecordsPrefix;
  }

  lemma OthersAfterRecord(
    kv: Kv<Text, Stored>, base: Text, granted: seq<nat>, p: nat, n: nat, e: Stored, q: nat, b: Appender)
    requires StoreInv(kv, base, |granted|) && Holds(granted, p, n) && RecordKey(base, n) !in kv.entries
    requires AppenderInv(kv, base, granted, q, b) && q != p
    ensures AppenderInv(Put(kv, RecordKey(base, n), e, Some(0)), base, granted, q, b)
  {
    RecordWritten(kv, base, granted, p, n, e);
    if b.pc.WritingHead? { RememberLater(kv, PutOp(RecordKey(base, n), e, Some(0)), HeadKey(base), b.pc.seen); }
    hide RecordKey, HeadKey, WellFormed, Remembers, Put;
  }

  /** What the acting appender knows after its call. */
  lemma OwnAfterQuiet(kv: Kv<Text, Stored>, base: Text, granted: seq<nat>, p: nat, a: Appender, newId: Text)
    requires StoreInv(kv, base, |granted|) && AppenderInv(kv, base, granted, p, a)
    requires !a.pc.WritingHead? && !a.pc.WritingRecord?
    ensures AppenderInv(kv, base, granted, p, a.(pc := Call(kv, base, a, newId).1))
  {
    if a.pc.ReadingHead? { RememberNow(kv, HeadKey(base)); }
    hide RecordKey, HeadKey, TrimKey, IdKey, Remembers;
  }

  lemma AdvanceKeeps(s: System, base: Text, p: nat, newId: Text)
    requires RunInv(s, base) && Busy(s, p)
    ensures RunInv(Apply(s, base, Advance(p, newId)), base)
  {
    var a := s.appenders[p];
    var t := Apply(s, base, Advance(p, newId));
    assert AppenderInv(s.kv, base, s.granted, p, a);
    hide *;
    if a.pc.WritingHead? {
      HeadStep(s, base, p, newId);
    } else if a.pc.WritingRecord? {
      RecordStep(s, base, p, newId);
    } else {
      QuietStep(s, base, p, newId);
    }
  }

  lemma QuietStep(s: System, base: Text, p: nat, newId: Text)
    requires RunInv(s, base) && Busy(s, p) && !s.appenders[p].pc.WritingHead? && !s.appenders[p].pc.WritingRecord?
    ensures RunInv(Apply(s, base, Advance(p, newId)), base)
  {
    hide AppenderInv, StoreInv, Quiet, Call, Do;
    var a := s.appenders[p];
    var (op, pc) := Call(s.kv, base, a, newId);
    OwnAfterQuiet(s.kv, base, s.granted, p, a, newId);
    if op.Some? {
      QuietCalls(s.kv, base, a, newId);
      QuietKeepsStore(s.kv, base, |s.granted|, op.value);
      QuietKeepsAppender(s.kv, base, s.granted, p, a.(pc := pc), op.value);
      forall q | q in s.appenders ensures AppenderInv(Do(s.kv, op.value), base, s.granted, q, s.appenders[q]) {
        QuietKeepsAppender(s.kv, base, s.granted, q, s.appenders[q], op.value);
      }
    }
  }

  lemma HeadStep(s: System, base: Text, p: nat, newId: Text)
    requires RunInv(s, base) && Busy(s, p) && s.appenders[p].pc.WritingHead?
    ensures RunInv(Apply(s, base, Advance(p, newId)), base)
  {
    var a := s.appenders[p];
    var seen, cas := a.pc.seen, CasOf(a.pc.seen);
    assert AppenderInv(s.kv, base, s.granted, p, a);
    var t := Apply(s, base, Advance(p, newId));
    if Grants(s, base, p) {
      HeadWritten(s.kv, base, s.granted, p, a);
      hide StoreInv, AppenderInv, CasOk, HeadKey, Busy;
      assert AppenderInv(t.kv, base, t.granted, p, t.appenders[p]) by { GranteeKnows(s, base, p, newId); }
      forall q | q in s.appenders && q != p ensures AppenderInv(t.kv, base, t.granted, q, s.appenders[q]) {
        OthersAfterGrant(s.kv, base, s.granted, p, cas, q, s.appenders[q]);
      }
    } else {
      assert t.kv == s.kv && t.granted == s.granted;
    }
  }

  lemma GranteeKnows(s: System, base: Text, p: nat, newId: Text)
    requires RunInv(s, base) && Busy(s, p) && s.appenders[p].pc.WritingHead? && Grants(s, base, p)
    ensures var t := Apply(s, base, Advance(p, newId));
      && t.appenders[p].pc == WritingRecord(|s.granted| + 1) && t.granted == s.granted + [p]
      && AppenderInv(t.kv, base, t.granted, p, t.appenders[p])
  {
    var a := s.appenders[p];
    HeadWritten(s.kv, base, s.granted, p, a);
    KeysApart(base);
    RecordKeyInjective(base, |s.granted| + 1, |s.granted| + 1);
    hide HeadKey, RecordKey, TrimKey, IsRecordKey, IsIdKey, WellFormed, Remembers;
  }

  lemma RecordStep(s: System, base: Text, p: nat, newId: Text)
    requires RunInv(s, base) && Busy(s, p) && s.appenders[p].pc.WritingRecord?
    ensures RunInv(Apply(s, base, Advance(p, newId)), base)
  {
    var a := s.appenders[p];
    var n := a.pc.sequence;
    assert AppenderInv(s.kv, base, s.granted, p, a);
    RecordWritten(s.kv, base, s.granted, p, n, Event(newId, n));
    var t := Apply(s, base, Advance(p, newId));
    assert t.appenders[p].pc == WritingId(n, newId);
    forall q | q in s.appenders && q != p ensures AppenderInv(t.kv, base, t.granted, q, s.appenders[q]) {
      OthersAfterRecord(s.kv, base, s.granted, p, n, Event(newId, n), q, s.appenders[q]);
    }
    hide StoreInv, RecordKey, HeadKey;
  }

  lemma ApplyKeeps(s: System, base: Text, step: Step)
    requires RunInv(s, base)
    ensures RunInv(Apply(s, base, step), base)
    ensures s.granted <= Apply(s, base, step).granted
  {
    match step
    case Advance(p, newId) =>
      if Busy(s, p) { AdvanceKeeps(s, base, p, newId); }
    case Begin(p, retention) =>
      hide StoreInv, Busy;
    case Foreign(op) =>
      if Elsewhere(base, op) {
        ElsewhereQuiet(base, op);
        QuietKeepsStore(s.kv, base, |s.granted|, op);
        forall q | q in s.appenders ensures AppenderInv(Do(s.kv, op), base, s.granted, q, s.appenders[q]) {
          QuietKeepsAppender(s.kv, base, s.granted, q, s.appenders[q], op);
        }
        hide StoreInv, AppenderInv, Do, Quiet, Elsewhere;
      }
  }

  /** Before the first append: none of this journal's keys, no appenders. */
  ghost predicate Fresh(s: System, base: Text) {
    WellFormed(s.kv) && s.appenders == map[] && s.granted == [] && forall k :: Under(base, k) ==> k !in s.kv.entries
  }

  lemma {:induction false} RunKeeps(s: System, base: Text, steps: seq<Step>)
    requires Fresh(s, base)
    ensures RunInv(Run(s, base, steps), base)
  {
    if steps == [] {
      KeysUnder(base);
      hide HeadKey, RecordKey, Under;
    } else {
      RunKeeps(s, base, steps[..|steps| - 1]);
      ApplyKeeps(Run(s, base, steps[..|steps| - 1]), base, steps[|steps| - 1]);
    }
  }

  /** The sequence an append holds from its grant on. */
  function SequenceOf(pc: Pc): Option<nat> {
    match pc
    case WritingRecord(n) => Some(n)
    case WritingId(n, _) => Some(n)
    case ReadingTrimmed(n) => Some(n)
    case ReadingRecord(n, _) => Some(n)
    case DeletingRecord(n, _, _) => Some(n)
    case DeletingId(n, _, _) => Some(n)
    case WritingTrimmed(n) => Some(n)
    case Returned(n) => Some(n)
    case _ => None
  }

  /**
   After every run: the write of a record never finds one there, appends that hold a sequence hold different ones, and
   an append gave up only after a hundred other grants were made while it ran.
   */
  lemma AppendersKeptApart(s: System, base: Text, steps: seq<Step>)
    requires Fresh(s, base)
    ensures var t := Run(s, base, steps);
      && (forall p :: p in t.appenders ==> !t.appenders[p].pc.RecordExists?)
      && (forall p, q :: p in t.appenders && q in t.appenders && p != q && SequenceOf(t.appenders[p].pc).Some? ==>
        SequenceOf(t.appenders[p].pc) != SequenceOf(t.appenders[q].pc))
      && (forall p :: p in t.appenders && t.appenders[p].pc.NoSequence? ==>
        |t.granted| >= t.appenders[p].since + 100)
      && NumberOf(Get(t.kv, HeadKey(base)).value) == |t.granted|
  {
    hide StoreInv, HeadKey, RecordKey, Run, Remembers, CasOf, Fresh;
    RunKeeps(s, base, steps);
    var t := Run(s, base, steps);
    assert NumberOf(Get(t.kv, HeadKey(base)).value) == |t.granted| by { HeadCounts(t.kv, base, |t.granted|); }
    forall p | p in t.appenders
      ensures AppenderInv(t.kv, base, t.granted, p, t.appenders[p])
    {}
  }

  lemma HeadCounts(kv: Kv<Text, Stored>, base: Text, count: nat)
    requires StoreInv(kv, base, count)
    ensures NumberOf(Get(kv, HeadKey(base)).value) == count
  {}

  /** A sequence is handed out by exactly one step, as the next number, and stays handed out. */
  lemma NextSequenceGranted(s: System, base: Text, steps: seq<Step>, p: nat, newId: Text)
    requires Fresh(s, base)
    ensures var before := Run(s, base, steps);
      var after := Apply(before, base, Advance(p, newId));
      && before.granted <= after.granted
      && (Busy(before, p) && before.appenders[p].pc.WritingHead? && after.appenders[p].pc.WritingRecord? ==>
        after.appenders[p].pc.sequence == |before.granted| + 1 && after.granted == before.granted + [p])
      && (after.granted != before.granted ==>
        after.appenders[p].pc == WritingRecord(|before.granted| + 1))
  {
    RunKeeps(s, base, steps);
    var before := Run(s, base, steps);
    ApplyKeeps(before, base, Advance(p, newId));
    if Busy(before, p) && Grants(before, base, p) { GranteeKnows(before, base, p, newId); }
    hide RunInv, HeadKey, RecordKey, Run;
  }
}
