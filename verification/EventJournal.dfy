/**
 The event journal with whole appends atomic (event_journal.EventJournal): a retention window over an unbounded log,
 and replay from a known event.
 */
module EventJournal {
  import opened Sequences
  import opened Texts
  import opened KvStore
  import opened KvCursor
  import opened KvPagination
  import opened EventKeys
  import opened EventAppenders

  // ---- the window ----

  /** The event ids appended so far, in order; event i has sequence i + 1. */
  type Log = seq<Text>

  ghost predicate DistinctIds(log: Log) {
    [] !in log && Distinct(log)
  }

  /** The record keys are exactly those of the sequences in (trimmed, head], and each record is the logged event. */
  ghost predicate Records(kv: Kv<Text, Stored>, base: Text, log: Log, trimmed: nat) {
    && (forall k :: k in kv.entries && IsRecordKey(base, k) ==>
      trimmed < NumberIn(base, k) <= |log| && k == RecordKey(base, NumberIn(base, k)))
    && (forall n :: trimmed < n <= |log| ==>
      RecordKey(base, n) in kv.entries && kv.entries[RecordKey(base, n)].value == Event(log[n - 1], n))
  }

  /** The sequence a record key spells. */
  function NumberIn(base: Text, k: Text): int
    requires IsRecordKey(base, k)
  {
    Value(k[|RecordsPrefix(base)|..])
  }

  /** The id keys are exactly those of the retained events, each with its sequence: the inverse of the records. */
  ghost predicate Ids(kv: Kv<Text, Stored>, base: Text, log: Log, trimmed: nat) {
    && (forall k :: k in kv.entries && IsIdKey(base, k) ==> IdIn(base, k) in log[Least(trimmed, |log|)..])
    && (forall i :: trimmed <= i < |log| ==>
      IdKey(base, log[i]) in kv.entries && kv.entries[IdKey(base, log[i])].value == Number(i + 1))
  }

  function IdIn(base: Text, k: Text): Text
    requires IsIdKey(base, k)
  {
    k[|IdsPrefix(base)|..]
  }

  /** A counter key: absent at zero. */
  ghost predicate Counter(kv: Kv<Text, Stored>, key: Text, n: nat) {
    if n == 0 then key !in kv.entries else key in kv.entries && kv.entries[key].value == Number(n)
  }

  /** How many events a journal with this retention has dropped. */
  function Trimmed(retention: nat, head: nat): nat {
    if head > retention then head - retention else 0
  }

  ghost predicate JournalInv(kv: Kv<Text, Stored>, base: Text, retention: nat, log: Log) {
    && WellFormed(kv)
    && DistinctIds(log)
    && Counter(kv, HeadKey(base), |log|)
    && Counter(kv, TrimKey(base), Trimmed(retention, |log|))
    && Records(kv, base, log, Trimmed(retention, |log|))
    && Ids(kv, base, log, Trimmed(retention, |log|))
  }

  lemma RecordKeyOf(base: Text, n: nat)
    ensures IsRecordKey(base, RecordKey(base, n)) && NumberIn(base, RecordKey(base, n)) == n
    ensures !IsIdKey(base, RecordKey(base, n))
    ensures RecordKey(base, n) != HeadKey(base) && RecordKey(base, n) != TrimKey(base)
  {
    RecordKeyInjective(base, n, n);
    ValueOfPadded(n, WIDTH);
    KeysApart(base);
    assert RecordKey(base, n)[|RecordsPrefix(base)|..] == Padded(n, WIDTH);
    hide RecordsPrefix, IsIdKey;
  }

  lemma IdKeyOf(base: Text, id: Text)
    ensures IsIdKey(base, IdKey(base, id)) && IdIn(base, IdKey(base, id)) == id
    ensures !IsRecordKey(base, IdKey(base, id))
    ensures IdKey(base, id) != HeadKey(base) && IdKey(base, id) != TrimKey(base)
  {
    IdKeyInjective(base, id, id);
    KeysApart(base);
    hide IdsPrefix, IsRecordKey;
  }

  /** The key an operation is about, for the operations of the journal. */
  predicate About(op: Op<Text, Stored>, key: Text) {
    match op
    case PutOp(k, _, _) => k == key
    case DeleteOp(ks) => ks == {key}
  }

  lemma RecordsUntouched(kv: Kv<Text, Stored>, base: Text, log: Log, trimmed: nat, op: Op<Text, Stored>, key: Text)
    requires Records(kv, base, log, trimmed) && About(op, key) && !IsRecordKey(base, key)
    ensures Records(Do(kv, op), base, log, trimmed)
  {
    forall n: nat ensures IsRecordKey(base, RecordKey(base, n)) { RecordKeyOf(base, n); }
    hide RecordKey, IsRecordKey, NumberIn;
  }

  lemma IdsUntouched(kv: Kv<Text, Stored>, base: Text, log: Log, trimmed: nat, op: Op<Text, Stored>, key: Text)
    requires Ids(kv, base, log, trimmed) && About(op, key) && !IsIdKey(base, key)
    ensures Ids(Do(kv, op), base, log, trimmed)
  {
    forall id: Text ensures IsIdKey(base, IdKey(base, id)) { IdKeyOf(base, id); }
    hide IdKey, IsIdKey, IdIn;
  }

  lemma RecordAdded(kv: Kv<Text, Stored>, base: Text, log: Log, trimmed: nat, id: Text)
    requires Records(kv, base, log, trimmed) && trimmed <= |log| && WellFormed(kv)
    ensures CasOk(kv, RecordKey(base, |log| + 1), Some(0))
    ensures Records(Put(kv, RecordKey(base, |log| + 1), Event(id, |log| + 1), Some(0)), base, log + [id], trimmed)
  {
    hide RecordKey, IsRecordKey, NumberIn, WellFormed, Records;
    var head, grown := |log|, log + [id];
    var key := RecordKey(base, head + 1);
    RecordKeyOf(base, head + 1);
    if key in kv.entries { RecordOf(kv, base, log, trimmed, key); }
    var after := Put(kv, key, Event(id, head + 1), Some(0));
    forall n | trimmed < n <= |grown|
      ensures RecordKey(base, n) in after.entries && after.entries[RecordKey(base, n)].value == Event(grown[n - 1], n)
    {
      if n <= head {
        RecordHeld(kv, base, log, trimmed, n);
        RecordKeyOf(base, n);
      }
    }
    forall k | k in after.entries && IsRecordKey(base, k)
      ensures trimmed < NumberIn(base, k) <= |grown| && k == RecordKey(base, NumberIn(base, k))
    {
      if k != key { RecordOf(kv, base, log, trimmed, k); }
    }
    RecordsAre(after, base, grown, trimmed);
  }

  lemma RecordOf(kv: Kv<Text, Stored>, base: Text, log: Log, trimmed: nat, k: Text)
    requires Records(kv, base, log, trimmed) && k in kv.entries && IsRecordKey(base, k)
    ensures trimmed < NumberIn(base, k) <= |log| && k == RecordKey(base, NumberIn(base, k))
  {
    hide RecordKey, IsRecordKey, NumberIn;
  }

  lemma RecordHeld(kv: Kv<Text, Stored>, base: Text, log: Log, trimmed: nat, n: nat)
    requires Records(kv, base, log, trimmed) && trimmed < n <= |log|
    ensures RecordKey(base, n) in kv.entries && kv.entries[RecordKey(base, n)].value == Event(log[n - 1], n)
  {
    hide RecordKey, IsRecordKey, NumberIn;
  }

  lemma RecordsAre(kv: Kv<Text, Stored>, base: Text, log: Log, trimmed: nat)
    requires forall k :: k in kv.entries && IsRecordKey(base, k) ==>
      trimmed < NumberIn(base, k) <= |log| && k == RecordKey(base, NumberIn(base, k))
    requires forall n :: trimmed < n <= |log| ==>
      RecordKey(base, n) in kv.entries && kv.entries[RecordKey(base, n)].value == Event(log[n - 1], n)
    ensures Records(kv, base, log, trimmed)
  {
    hide RecordKey, IsRecordKey, NumberIn;
  }

  lemma IdAdded(kv: Kv<Text, Stored>, base: Text, log: Log, trimmed: nat, id: Text)
    requires Ids(kv, base, log, trimmed) && trimmed <= |log| && WellFormed(kv) && id !in log
    ensures CasOk(kv, IdKey(base, id), Some(0))
    ensures Ids(Put(kv, IdKey(base, id), Number(|log| + 1), Some(0)), base, log + [id], trimmed)
  {
    var key, grown := IdKey(base, id), log + [id];
    IdKeyOf(base, id);
    hide IdKey, IsIdKey, IdIn, WellFormed;
    assert CasOk(kv, key, Some(0));
    var after := Put(kv, key, Number(|log| + 1), Some(0));
    assert grown[trimmed..] == log[trimmed..] + [id];
    forall k | k in after.entries && IsIdKey(base, k) ensures IdIn(base, k) in grown[trimmed..] {
      if k in kv.entries { assert IdIn(base, k) in log[trimmed..]; }
    }
    forall i | trimmed <= i < |grown|
      ensures IdKey(base, grown[i]) in after.entries && after.entries[IdKey(base, grown[i])].value == Number(i + 1)
    {
      IdKeyOf(base, grown[i]);
      assert i < |log| ==> grown[i] == log[i] && log[i] in log;
    }
  }

  lemma RecordDropped(kv: Kv<Text, Stored>, base: Text, log: Log, trimmed: nat)
    requires Records(kv, base, log, trimmed) && trimmed < |log|
    ensures Records(DeleteAll(kv, {RecordKey(base, trimmed + 1)}), base, log, trimmed + 1)
  {
    forall n: nat ensures IsRecordKey(base, RecordKey(base, n)) && NumberIn(base, RecordKey(base, n)) == n {
      RecordKeyOf(base, n);
    }
    hide RecordKey, IsRecordKey, NumberIn;
  }

  lemma IdDropped(kv: Kv<Text, Stored>, base: Text, log: Log, trimmed: nat)
    requires Ids(kv, base, log, trimmed) && trimmed < |log| && DistinctIds(log)
    ensures Ids(DeleteAll(kv, {IdKey(base, log[trimmed])}), base, log, trimmed + 1)
  {
    var key := IdKey(base, log[trimmed]);
    var after := DeleteAll(kv, {key});
    assert log[trimmed..] == [log[trimmed]] + log[trimmed + 1..];
    forall k | k in after.entries && IsIdKey(base, k) ensures IdIn(base, k) in log[trimmed + 1..] {
      assert k == IdKey(base, IdIn(base, k));
      assert IdIn(base, k) in log[trimmed..];
    }
    hide IdKey, IsIdKey, IdIn;
    forall i | trimmed + 1 <= i < |log|
      ensures IdKey(base, log[i]) in after.entries && after.entries[IdKey(base, log[i])].value == Number(i + 1)
    {
      IdKeyOf(base, log[i]);
      IdKeyOf(base, log[trimmed]);
    }
  }

  // ---- an append, store call by store call ----

  /** The journal in the middle of an append: the counters may be out of step with the log and the window. */
  ghost predicate Stage(kv: Kv<Text, Stored>, base: Text, log: Log, head: nat, mark: nat, trimmed: nat) {
    && WellFormed(kv)
    && DistinctIds(log)
    && Counter(kv, HeadKey(base), head)
    && Counter(kv, TrimKey(base), mark)
    && Records(kv, base, log, trimmed)
    && Ids(kv, base, log, trimmed)
  }

  lemma HeadAdvances(kv: Kv<Text, Stored>, base: Text, log: Log, head: nat, mark: nat, trimmed: nat)
    requires Stage(kv, base, log, head, mark, trimmed)
    ensures var r := Get(kv, HeadKey(base));
      var cas := Some(if r.value.Some? then r.index else 0);
      && NumberOf(r.value) == head && CasOk(kv, HeadKey(base), cas)
      && Stage(Put(kv, HeadKey(base), Number(head + 1), cas), base, log, head + 1, mark, trimmed)
  {
    KeysApart(base);
    var r := Get(kv, HeadKey(base));
    var cas := Some(if r.value.Some? then r.index else 0);
    var op := PutOp(HeadKey(base), Number(head + 1), cas);
    DoWellFormed(kv, op);
    RecordsUntouched(kv, base, log, trimmed, op, HeadKey(base));
    IdsUntouched(kv, base, log, trimmed, op, HeadKey(base));
    hide Records, Ids, HeadKey, TrimKey, IsRecordKey, IsIdKey, DistinctIds;
  }

  lemma MarkMoves(kv: Kv<Text, Stored>, base: Text, log: Log, head: nat, mark: nat, trimmed: nat)
    requires Stage(kv, base, log, head, mark, trimmed) && trimmed > 0
    ensures Stage(Put(kv, TrimKey(base), Number(trimmed), None), base, log, head, trimmed, trimmed)
  {
    KeysApart(base);
    var op := PutOp(TrimKey(base), Number(trimmed), None);
    DoWellFormed(kv, op);
    RecordsUntouched(kv, base, log, trimmed, op, TrimKey(base));
    IdsUntouched(kv, base, log, trimmed, op, TrimKey(base));
    hide Records, Ids, HeadKey, TrimKey, IsRecordKey, IsIdKey, WellFormed, DistinctIds;
  }

  lemma CountersUntouched(kv: Kv<Text, Stored>, base: Text, head: nat, mark: nat, op: Op<Text, Stored>, key: Text)
    requires Counter(kv, HeadKey(base), head) && Counter(kv, TrimKey(base), mark)
    requires About(op, key) && key != HeadKey(base) && key != TrimKey(base)
    ensures Counter(Do(kv, op), HeadKey(base), head) && Counter(Do(kv, op), TrimKey(base), mark)
  {
    hide HeadKey, TrimKey;
  }

  lemma EventStored(kv: Kv<Text, Stored>, base: Text, log: Log, head: nat, mark: nat, trimmed: nat, id: Text)
    requires Stage(kv, base, log, head, mark, trimmed) && trimmed <= |log| && id !in log && id != []
    ensures CasOk(kv, RecordKey(base, |log| + 1), Some(0))
    ensures var between := Put(kv, RecordKey(base, |log| + 1), Event(id, |log| + 1), Some(0));
      Stage(Put(between, IdKey(base, id), Number(|log| + 1), Some(0)), base, log + [id], head, mark, trimmed)
  {
    var n := |log| + 1;
    var recordKey, idKey := RecordKey(base, n), IdKey(base, id);
    RecordKeyOf(base, n);
    IdKeyOf(base, id);
    RecordAdded(kv, base, log, trimmed, id);
    var putRecord := PutOp(recordKey, Event(id, n), Some(0));
    var between := Do(kv, putRecord);
    DoWellFormed(kv, putRecord);
    IdsUntouched(kv, base, log, trimmed, putRecord, recordKey);
    CountersUntouched(kv, base, head, mark, putRecord, recordKey);
    var putId := PutOp(idKey, Number(n), Some(0));
    DoWellFormed(between, putId);
    RecordsUntouched(between, base, log + [id], trimmed, putId, idKey);
    IdAdded(between, base, log, trimmed, id);
    CountersUntouched(between, base, head, mark, putId, idKey);
    assert DistinctIds(log + [id]);
    hide Records, Ids, HeadKey, TrimKey, IsRecordKey, IsIdKey, WellFormed, Counter, RecordKey, IdKey, DistinctIds;
  }

  lemma OldestDropped(kv: Kv<Text, Stored>, base: Text, log: Log, head: nat, mark: nat, trimmed: nat)
    requires Stage(kv, base, log, head, mark, trimmed) && trimmed < |log|
    ensures Get(kv, RecordKey(base, trimmed + 1)).value == Some(Event(log[trimmed], trimmed + 1)) && log[trimmed] != []
    ensures var between := DeleteAll(kv, {RecordKey(base, trimmed + 1)});
      Stage(DeleteAll(between, {IdKey(base, log[trimmed])}), base, log, head, mark, trimmed + 1)
  {
    var recordKey, idKey := RecordKey(base, trimmed + 1), IdKey(base, log[trimmed]);
    RecordKeyOf(base, trimmed + 1);
    IdKeyOf(base, log[trimmed]);
    var dropRecord: Op<Text, Stored> := DeleteOp({recordKey});
    var dropId: Op<Text, Stored> := DeleteOp({idKey});
    var between := Do(kv, dropRecord);
    DoWellFormed(kv, dropRecord);
    DoWellFormed(between, dropId);
    RecordDropped(kv, base, log, trimmed);
    IdsUntouched(kv, base, log, trimmed, dropRecord, recordKey);
    CountersUntouched(kv, base, head, mark, dropRecord, recordKey);
    RecordsUntouched(between, base, log, trimmed + 1, dropId, idKey);
    IdDropped(between, base, log, trimmed);
    CountersUntouched(between, base, head, mark, dropId, idKey);
    assert log[trimmed] in log;
    assert Get(kv, recordKey).value == Some(Event(log[trimmed], trimmed + 1));
    hide Records, Ids, HeadKey, TrimKey, IsRecordKey, IsIdKey, WellFormed, Counter, RecordKey, IdKey;
  }

  // ---- replay ----

  /** The logged events at positions lo to hi, as replay returns them. */
  function EventsOf(log: Log, lo: nat, hi: nat): (r: seq<Stored>)
    requires hi <= |log|
    ensures |r| == if lo < hi then hi - lo else 0
  {
    if lo < hi then seq(hi - lo, i requires 0 <= i < hi - lo => Event(log[lo + i], lo + i + 1)) else []
  }

  function Position(log: Log, id: Text): (i: nat)
    requires id in log
    ensures i < |log| && log[i] == id
  {
    if log[0] == id then 0 else Position(log[1..], id) + 1
  }

  /** max(1, min(limit, 1000)) */
  function Requested(limit: int): (r: nat)
    ensures 1 <= r <= 1000
  {
    if limit < 1 then 1 else if limit > 1000 then 1000 else limit
  }

  predicate Given(afterId: Option<Text>) {
    afterId.Some? && afterId.value != []
  }

  /** What replay answers on a log: the events, and whether the client must start over. */
  function ReplayOf(log: Log, retention: nat, afterId: Option<Text>, limit: int): (seq<Stored>, bool) {
    var oldest := Trimmed(retention, |log|);
    if Given(afterId) && afterId.value !in log[oldest..] then ([], true)
    else
      var start := if Given(afterId) then Position(log, afterId.value) + 1 else oldest;
      (EventsOf(log, start, Least(start + Requested(limit), |log|)), false)
  }

  function SequenceOfEvent(e: Stored): nat {
    match e case Event(_, n) => n case Number(_) => 0
  }

  /** events.sort(key=lambda event: event.sequence) */
  function BySequence(events: seq<Stored>): seq<Stored> {
    if events == [] then [] else Place(events[0], BySequence(events[1..]))
  }

  function Place(e: Stored, sorted: seq<Stored>): seq<Stored> {
    if sorted == [] || SequenceOfEvent(e) <= SequenceOfEvent(sorted[0]) then [e] + sorted
    else [sorted[0]] + Place(e, sorted[1..])
  }

  lemma {:induction false} AlreadyBySequence(events: seq<Stored>)
    requires forall i :: 0 <= i < |events| - 1 ==> SequenceOfEvent(events[i]) <= SequenceOfEvent(events[i + 1])
    ensures BySequence(events) == events
  {
    if events != [] {
      AlreadyBySequence(events[1..]);
      assert |events| > 1 ==> events[1..][0] == events[1];
    }
  }

  /** The record keys of the window, in order. */
  function RecordKeys(base: Text, trimmed: nat, head: nat): seq<Text>
    requires trimmed <= head
  {
    seq(head - trimmed, i requires 0 <= i < head - trimmed => RecordKey(base, trimmed + 1 + i))
  }

  lemma WindowIncreasing(base: Text, trimmed: nat, head: nat)
    requires trimmed <= head < Pow10(WIDTH)
    ensures Increasing(RecordKeys(base, trimmed, head))
  {
    var keys := RecordKeys(base, trimmed, head);
    hide RecordKey, Less, Pow10;
    forall i, j | 0 <= i < j < |keys| ensures Less(keys[i], keys[j]) {
      RecordOrder(base, trimmed + 1 + i, trimmed + 1 + j);
    }
  }

  lemma WindowMember(kv: Kv<Text, Stored>, base: Text, log: Log, trimmed: nat, k: Text)
    requires Records(kv, base, log, trimmed) && trimmed <= |log|
    ensures k in RecordKeys(base, trimmed, |log|) <==> k in Matching(kv, RecordsPrefix(base))
  {
    var keys := RecordKeys(base, trimmed, |log|);
    hide RecordKey, RecordsPrefix, NumberIn;
    if k in Matching(kv, RecordsPrefix(base)) {
      assert IsRecordKey(base, k);
      assert keys[NumberIn(base, k) - trimmed - 1] == k;
    }
    if k in keys {
      var i :| 0 <= i < |keys| && keys[i] == k;
      RecordKeyOf(base, trimmed + 1 + i);
    }
  }

  /** Below 10^20 events, the store lists the window in sequence order. */
  lemma RecordsListed(kv: Kv<Text, Stored>, base: Text, log: Log, trimmed: nat)
    requires Records(kv, base, log, trimmed) && trimmed <= |log| < Pow10(WIDTH)
    ensures SortedSet(Matching(kv, RecordsPrefix(base))) == RecordKeys(base, trimmed, |log|)
  {
    hide *;
    WindowIncreasing(base, trimmed, |log|);
    var keys := RecordKeys(base, trimmed, |log|);
    forall k ensures k in keys <==> k in Matching(kv, RecordsPrefix(base)) { WindowMember(kv, base, log, trimmed, k); }
    IncreasingUnique(SortedSet(Matching(kv, RecordsPrefix(base))), keys);
  }

  /** The cursor after the first c records of the window. */
  ghost function CursorAt(base: Text, trimmed: nat, c: nat): Option<Text> {
    if c == 0 then None else Some(EncodeCursor(RecordsPrefix(base), RecordKey(base, trimmed + c)))
  }

  const PAGE_LIMIT := 1000

  /** Listing goes on at the record after the first c of the window. */
  lemma RecordPage(kv: Kv<Text, Stored>, base: Text, log: Log, trimmed: nat, c: nat)
    requires Records(kv, base, log, trimmed) && trimmed + c <= |log| < Pow10(WIDTH) && ScalarValues(base)
    ensures forall k :: k in RecordKeys(base, trimmed, |log|)[c..] ==> k in kv.entries
    ensures ListPage(kv, RecordsPrefix(base), CursorAt(base, trimmed, c), PAGE_LIMIT)
      == TakePage(kv, RecordsPrefix(base), RecordKeys(base, trimmed, |log|)[c..], PAGE_LIMIT)
  {
    var keys := RecordKeys(base, trimmed, |log|);
    WindowPresent(kv, base, log, trimmed, c);
    RecordsListed(kv, base, log, trimmed);
    CursorAtDecodes(base, trimmed, |log|, c);
    hide *;
    PageAt(kv, RecordsPrefix(base), keys, c, CursorAt(base, trimmed, c), PAGE_LIMIT);
  }

  lemma CursorAtDecodes(base: Text, trimmed: nat, head: nat, c: nat)
    requires trimmed + c <= head < Pow10(WIDTH) && ScalarValues(base)
    ensures DecodeCursor(CursorAt(base, trimmed, c), RecordsPrefix(base))
      == if c == 0 then NoCursor else After(RecordKeys(base, trimmed, head)[c - 1])
  {
    hide DecodeCursor, EncodeCursor, RecordKey, RecordsPrefix, Pow10, ScalarValues, Unpaired;
    if c > 0 {
      RecordKeyReadable(base, trimmed + c);
      CursorRoundTrip(RecordsPrefix(base), RecordKey(base, trimmed + c));
      assert RecordKeys(base, trimmed, head)[c - 1] == RecordKey(base, trimmed + c);
    } else {
      NoCursorStarts(RecordsPrefix(base));
    }
  }

  lemma NoCursorStarts(prefix: Text)
    ensures DecodeCursor(None, prefix) == NoCursor
  {}

  /** What is on that page. */
  lemma RecordPageItems(kv: Kv<Text, Stored>, base: Text, log: Log, trimmed: nat, c: nat)
    requires Records(kv, base, log, trimmed) && trimmed + c <= |log|
    requires forall k :: k in RecordKeys(base, trimmed, |log|)[c..] ==> k in kv.entries
    ensures var page := TakePage(kv, RecordsPrefix(base), RecordKeys(base, trimmed, |log|)[c..], PAGE_LIMIT);
      && page.Page?
      && |page.items| == Least(PAGE_LIMIT, |log| - trimmed - c)
      && (forall i :: 0 <= i < |page.items| ==>
        page.items[i].value == Event(log[trimmed + c + i], trimmed + c + i + 1))
      && page.next == if |log| - trimmed - c > PAGE_LIMIT then CursorAt(base, trimmed, c + PAGE_LIMIT) else None
  {
    hide EncodeCursor, RecordsPrefix, RecordKey, IsRecordKey, NumberIn;
  }

  lemma WindowPresent(kv: Kv<Text, Stored>, base: Text, log: Log, trimmed: nat, c: nat)
    requires Records(kv, base, log, trimmed) && trimmed + c <= |log|
    ensures forall k :: k in RecordKeys(base, trimmed, |log|)[c..] ==> k in kv.entries
  {
    hide RecordKey, IsRecordKey, NumberIn;
  }
}
