/** The journal as an object on the shared store: append, _trim and replay, and a client that follows it. */
module EventReplay {
  import opened Sequences
  import opened Texts
  import opened KvStore
  import opened KvCursor
  import opened KvPagination
  import opened EventKeys
  import opened EventAppenders
  import opened EventJournal

  class Journal {
    const store: LocalStore<Text, Stored>
    const base: Text
    const retention: nat
    ghost var log: Log

    ghost predicate Valid()
      reads this, store
    {
      ScalarValues(base) && retention >= 100 && JournalInv(store.Model(), base, retention, log)
    }

    constructor (store: LocalStore<Text, Stored>, streamId: Text, retentionEvents: int, ghost existing: Log)
      requires ScalarValues(streamId)
      requires var kept := if retentionEvents < 100 then 100 else retentionEvents;
        JournalInv(store.Model(), Lit("events/") + streamId, kept, existing)
      ensures Valid() && log == existing && this.store == store
      ensures base == Lit("events/") + streamId && retention == if retentionEvents < 100 then 100 else retentionEvents
    {
      this.store := store;
      base := Lit("events/") + streamId;
      retention := if retentionEvents < 100 then 100 else retentionEvents;
      log := existing;
    }

    /** append, nothing else running: the next sequence, or None where the original raises. */
    method Append(eventId: Text) returns (sequence: Option<nat>)
      requires Valid() && eventId !in log && eventId != []
      modifies this`log, store
      ensures Valid() && log == old(log) + [eventId]
      ensures sequence == Some(|log|)
    {
      hide Stage, JournalInv, HeadKey, RecordKey, IdKey, Put, CasOk, Get, ScalarValues;
      ghost var mark := Trimmed(retention, |log|);
      var next, tries, granted := 0, 0, false;
      OpenStage(store.Model(), base, retention, log);
      while tries < MAX_TRIES && !granted
        invariant log == old(log) && tries <= 1 && (tries == 1 ==> granted)
        invariant !granted ==> Stage(store.Model(), base, log, |log|, mark, mark)
        invariant granted ==> next == |log| + 1 && Stage(store.Model(), base, log, |log| + 1, mark, mark)
        decreases MAX_TRIES - tries
      {
        HeadAdvances(store.Model(), base, log, |log|, mark, mark);
        var current, index := store.KvGet(HeadKey(base));
        next := NumberOf(current) + 1;
        granted := store.KvPut(HeadKey(base), Number(next), Some(if current.Some? then index else 0));
        tries := tries + 1;
      }
      sequence := None;
      if granted {
        EventStored(store.Model(), base, log, |log| + 1, mark, mark, eventId);
        var recorded := store.KvPut(RecordKey(base, next), Event(eventId, next), Some(0));
        if recorded {
          var _ := store.KvPut(IdKey(base, eventId), Number(next), Some(0));
          log := log + [eventId];
          Trim(next);
          sequence := Some(next);
        }
      }
    }

    /** _trim: drops what the new head pushed out of the window. */
    method Trim(head: nat)
      requires ScalarValues(base) && retention >= 100 && head == |log| > 0
      requires Stage(store.Model(), base, log, head, Trimmed(retention, head - 1), Trimmed(retention, head - 1))
      modifies store
      ensures JournalInv(store.Model(), base, retention, log)
    {
      hide *;
      var cutoff := head as int - retention;
      ghost var mark := Trimmed(retention, head - 1);
      TrimmedAt(retention, head);
      if cutoff <= 0 {
        CloseStage(store.Model(), base, retention, log);
        return;
      }
      MarkRead(store.Model(), base, log, head, mark, mark);
      var trimmedRaw, _ := store.KvGet(TrimKey(base));
      var trimmedUntil := NumberOf(trimmedRaw);
      var sequence := trimmedUntil + 1;
      while sequence < cutoff + 1
        invariant trimmedUntil + 1 <= sequence <= cutoff + 1
        invariant Stage(store.Model(), base, log, head, mark, sequence - 1)
      {
        OldestDropped(store.Model(), base, log, head, mark, sequence - 1);
        var raw, _ := store.KvGet(RecordKey(base, sequence));
        if raw.Some? {
          var eventId := if raw.value.Event? then raw.value.id else [];
          store.KvDelete(RecordKey(base, sequence));
          if eventId != [] {
            store.KvDelete(IdKey(base, eventId));
          }
        }
        sequence := sequence + 1;
      }
      MarkMoves(store.Model(), base, log, head, mark, cutoff);
      var _ := store.KvPut(TrimKey(base), Number(cutoff), None);
      CloseStage(store.Model(), base, retention, log);
    }

    /** replay, nothing else running. */
    method Replay(afterId: Option<Text>, limit: int) returns (events: seq<Stored>, resetRequired: bool)
      requires Valid() && |log| < Pow10(WIDTH)
      ensures (events, resetRequired) == ReplayOf(log, retention, afterId, limit)
    {
      hide JournalInv, Ids, Records, EventsOf, ScalarValues, Pow10, IdKey, ReplayOf, BySequence, Front, Requested;
      hide NumberOf;
      var afterSequence := 0;
      resetRequired := false;
      if Given(afterId) {
        IdLookup(store.Model(), base, retention, log, afterId.value);
        var raw, _ := store.KvGet(IdKey(base, afterId.value));
        if raw.None? {
          ReplayResets(log, retention, afterId, limit);
          return [], true;
        }
        afterSequence := NumberOf(raw);
      }
      var requested := Requested(limit);
      ghost var oldest := Trimmed(retention, |log|);
      ghost var start := if Given(afterId) then afterSequence else oldest;
      WindowStored(store.Model(), base, retention, log);
      events := Scan(store, base, log, oldest, start, afterSequence, requested);
      ReplayAnswers(log, retention, afterId, limit, start);
      events := BySequence(events);
      events := Front(events, requested);
    }
  }

  /**
   What a replay brings, event by event: from the oldest retained one if no id is given, otherwise from the one after
   the given one, as many as asked for (at least one, at most a thousand) and there are; or a reset if that one is gone.
   */
  lemma ReplayTells(log: Log, retention: nat, afterId: Option<Text>, limit: int)
    requires DistinctIds(log)
    ensures var (events, reset) := ReplayOf(log, retention, afterId, limit);
      var oldest := if |log| > retention then |log| - retention else 0;
      var most := if limit < 1 then 1 else if limit > 1000 then 1000 else limit;
      && (afterId.None? || afterId.value == [] ==> !reset && Brings(events, log, oldest, most))
      && (afterId.Some? && afterId.value != [] ==>
        && (reset <==> forall i :: oldest <= i < |log| ==> log[i] != afterId.value)
        && (reset ==> events == [])
        && forall i :: oldest <= i < |log| && log[i] == afterId.value ==> Brings(events, log, i + 1, most))
  {
    hide Brings, EventsOf, Position;
    var oldest := if |log| > retention then |log| - retention else 0;
    BringsNext(log, oldest, limit);
    if afterId.Some? && afterId.value != [] {
      if afterId.value in log[oldest..] {
        var k :| 0 <= k < |log[oldest..]| && log[oldest..][k] == afterId.value;
        assert log[oldest + k] == afterId.value && log[oldest + k] in log;
        assert Position(log, afterId.value) == oldest + k;
        BringsNext(log, oldest + k + 1, limit);
        forall i | oldest <= i < |log| && log[i] == afterId.value ensures i == oldest + k {}
      } else {
        forall i | oldest <= i < |log| ensures log[i] != afterId.value { assert log[oldest..][i - oldest] == log[i]; }
      }
    }
  }

  lemma BringsNext(log: Log, start: nat, limit: int)
    requires start <= |log|
    ensures Brings(EventsOf(log, start, Least(start + Requested(limit), |log|)), log, start,
                   if limit < 1 then 1 else if limit > 1000 then 1000 else limit)
  {}

  /** As many events as wanted and there are, from this position of the log on. */
  ghost predicate Brings(events: seq<Stored>, log: Log, start: nat, most: nat) {
    && |events| == (if start >= |log| then 0 else if |log| - start < most then |log| - start else most)
    && forall i :: 0 <= i < |events| ==> start + i < |log| && events[i] == Event(log[start + i], start + i + 1)
  }

  lemma ReplayResets(log: Log, retention: nat, afterId: Option<Text>, limit: int)
    requires Given(afterId) && afterId.value !in log[Trimmed(retention, |log|)..]
    ensures ReplayOf(log, retention, afterId, limit) == ([], true)
  {}

  lemma ReplayAnswers(log: Log, retention: nat, afterId: Option<Text>, limit: int, start: nat)
    requires Given(afterId) ==> afterId.value in log[Trimmed(retention, |log|)..]
    requires start == if Given(afterId) then Position(log, afterId.value) + 1 else Trimmed(retention, |log|)
    ensures var hi := Least(start + Requested(limit), |log|);
      && ReplayOf(log, retention, afterId, limit) == (EventsOf(log, start, hi), false)
      && Front(BySequence(EventsOf(log, start, hi)), Requested(limit)) == EventsOf(log, start, hi)
  {
    hide EventsOf, BySequence, Position, Requested;
    EventsSorted(log, start, Least(start + Requested(limit), |log|));
  }

  /**
   Where the page loop of replay stands: c records of the window read, and either enough events or a cursor for the
   rest.
   */
  ghost predicate Standing(base: Text, log: Log, oldest: nat, start: nat, c: nat, requested: nat,
                           events: seq<Stored>, cursor: Option<Text>, more: bool) {
    && oldest + c <= |log| && |events| <= requested
    && events == EventsOf(log, start, oldest + c)
    && (|events| == requested || if more then cursor == CursorAt(base, oldest, c) else oldest + c == |log|)
  }

  /** The loop of replay over the pages of records. */
  method Scan(store: LocalStore<Text, Stored>, base: Text, ghost log: Log, ghost oldest: nat, ghost start: nat,
              afterSequence: nat, requested: nat)
    returns (events: seq<Stored>)
    requires Records(store.Model(), base, log, oldest) && oldest <= |log| < Pow10(WIDTH) && ScalarValues(base)
    requires requested > 0 && oldest <= start && (afterSequence == start || (afterSequence == 0 && start == oldest))
    ensures events == EventsOf(log, start, Least(start + requested, |log|))
  {
    hide *;
    events := [];
    var cursor: Option<Text> := None;
    var more := true;
    ghost var c := 0;
    ScanStarts(base, log, oldest, start, requested);
    while more && |events| < requested
      invariant Standing(base, log, oldest, start, c, requested, events, cursor, more)
      decreases |log| - oldest - c, more
    {
      StandingMeans(base, log, oldest, start, c, requested, events, cursor, more);
      PageItems(store.Model(), base, log, oldest, c);
      var page := KvList(store, RecordsPrefix(base), cursor, PAGE_LIMIT);
      ghost var done;
      events, done := Collect(page.items, log, start, oldest + c, afterSequence, events, requested);
      cursor := page.next;
      more := cursor.Some?;
      ScanContinues(base, log, oldest, start, c, requested, page, done, events);
      c := c + done;
    }
    ScanEnds(base, log, oldest, start, c, requested, events, cursor, more);
  }

  lemma ScanStarts(base: Text, log: Log, oldest: nat, start: nat, requested: nat)
    requires oldest <= |log| && oldest <= start
    ensures Standing(base, log, oldest, start, 0, requested, [], None, true)
  {}

  lemma StandingMeans(base: Text, log: Log, oldest: nat, start: nat, c: nat, requested: nat,
                      events: seq<Stored>, cursor: Option<Text>, more: bool)
    requires Standing(base, log, oldest, start, c, requested, events, cursor, more) && more && |events| < requested
    ensures oldest + c <= |log| && events == EventsOf(log, start, oldest + c) && cursor == CursorAt(base, oldest, c)
  {
    hide EventsOf, CursorAt;
  }

  lemma ScanContinues(base: Text, log: Log, oldest: nat, start: nat, c: nat, requested: nat, page: Page<Stored>,
                      done: nat, events: seq<Stored>)
    requires IsRecordPage(base, log, oldest, c, page)
    requires done <= |page.items| && events == EventsOf(log, start, oldest + c + done) && |events| <= requested
    requires done == |page.items| || |events| == requested
    ensures Standing(base, log, oldest, start, c + done, requested, events, page.next, page.next.Some?)
    ensures oldest + c + done <= |log| && (page.next.Some? && |events| < requested ==> done > 0)
  {
    hide EventsOf, CursorAt;
  }

  lemma ScanEnds(base: Text, log: Log, oldest: nat, start: nat, c: nat, requested: nat,
                 events: seq<Stored>, cursor: Option<Text>, more: bool)
    requires Standing(base, log, oldest, start, c, requested, events, cursor, more) && requested > 0
    requires !more || |events| >= requested
    ensures events == EventsOf(log, start, Least(start + requested, |log|))
  {
    EventsFull(log, start, oldest + c, requested);
    hide EventsOf, CursorAt;
  }

  /** events[:n] */
  function Front(events: seq<Stored>, n: nat): seq<Stored> {
    if |events| > n then events[..n] else events
  }

  /** The items are the records of the events from position `at` on. */
  ghost predicate ItemsAre(items: seq<Item<Stored>>, log: Log, at: nat) {
    at + |items| <= |log| && forall i :: 0 <= i < |items| ==> items[i].value == Event(log[at + i], at + i + 1)
  }

  /** The loop of replay over one page: events after afterSequence, until there are enough. */
  method Collect(items: seq<Item<Stored>>, ghost log: Log, ghost start: nat, ghost at: nat, afterSequence: nat,
                 had: seq<Stored>, requested: nat)
    returns (events: seq<Stored>, ghost done: nat)
    requires ItemsAre(items, log, at) && had == EventsOf(log, start, at) && |had| < requested
    requires afterSequence == start || (afterSequence == 0 && start <= at)
    ensures done <= |items| && events == EventsOf(log, start, at + done) && |events| <= requested
    ensures done == |items| || |events| == requested
  {
    hide EventsOf;
    events := had;
    var i := 0;
    while i < |items| && |events| < requested
      invariant i <= |items| && |events| <= requested
      invariant events == EventsOf(log, start, at + i)
    {
      var event := items[i].value;
      assert SequenceOfEvent(event) == at + i + 1;
      NextEvent(log, start, at + i);
      if SequenceOfEvent(event) > afterSequence {
        events := events + [event];
      }
      i := i + 1;
    }
    done := i;
  }

  /** The page after c records of the window: the next records, and a cursor exactly if there are more. */
  ghost predicate IsRecordPage(base: Text, log: Log, trimmed: nat, c: nat, page: Page<Stored>) {
    && page.Page?
    && ItemsAre(page.items, log, trimmed + c)
    && (page.next.Some? ==> page.items != [] && page.next == CursorAt(base, trimmed, c + |page.items|))
    && (page.next.None? ==> trimmed + c + |page.items| == |log|)
  }

  lemma PageItems(kv: Kv<Text, Stored>, base: Text, log: Log, trimmed: nat, c: nat)
    requires Records(kv, base, log, trimmed) && trimmed + c <= |log| < Pow10(WIDTH) && ScalarValues(base)
    ensures var page := ListPage(kv, RecordsPrefix(base), CursorAt(base, trimmed, c), PAGE_LIMIT);
      page.Page? && ItemsAre(page.items, log, trimmed + c) && IsRecordPage(base, log, trimmed, c, page)
  {
    hide Records, ScalarValues, RecordsPrefix, RecordKey, ListPage, RecordKeys, Pow10, TakePage, EncodeCursor;
    RecordPage(kv, base, log, trimmed, c);
    RecordPageItems(kv, base, log, trimmed, c);
  }

  lemma WindowStored(kv: Kv<Text, Stored>, base: Text, retention: nat, log: Log)
    requires JournalInv(kv, base, retention, log)
    ensures Records(kv, base, log, Trimmed(retention, |log|))
  {}

  /** The id of an event is stored exactly while the event is retained, with its sequence. */
  lemma IdLookup(kv: Kv<Text, Stored>, base: Text, retention: nat, log: Log, id: Text)
    requires JournalInv(kv, base, retention, log)
    ensures var raw := Get(kv, IdKey(base, id)).value;
      var oldest := Trimmed(retention, |log|);
      && (raw.Some? <==> id in log[oldest..])
      && (raw.Some? ==> NumberOf(raw) == Position(log, id) + 1 && Position(log, id) >= oldest)
  {
    hide Records, WellFormed;
    var oldest := Trimmed(retention, |log|);
    IdKeyOf(base, id);
    if id in log[oldest..] {
      var i := Position(log, id);
      var j :| 0 <= j < |log| - oldest && log[oldest..][j] == id;
      assert log[oldest + j] == id && i == oldest + j;
    }
    hide IdKey, IsIdKey, IdIn;
  }

  lemma NextEvent(log: Log, start: nat, at: nat)
    requires at < |log|
    ensures EventsOf(log, start, at + 1)
      == if at >= start then EventsOf(log, start, at) + [Event(log[at], at + 1)] else EventsOf(log, start, at)
  {}

  lemma EventsFull(log: Log, start: nat, hi: nat, requested: nat)
    requires hi <= |log| && |EventsOf(log, start, hi)| <= requested && requested > 0
    requires |EventsOf(log, start, hi)| == requested || hi == |log|
    ensures EventsOf(log, start, hi) == EventsOf(log, start, Least(start + requested, |log|))
  {}

  lemma EventsSorted(log: Log, start: nat, hi: nat)
    requires hi <= |log|
    ensures BySequence(EventsOf(log, start, hi)) == EventsOf(log, start, hi)
  {
    AlreadyBySequence(EventsOf(log, start, hi));
  }

  lemma OpenStage(kv: Kv<Text, Stored>, base: Text, retention: nat, log: Log)
    requires JournalInv(kv, base, retention, log)
    ensures Stage(kv, base, log, |log|, Trimmed(retention, |log|), Trimmed(retention, |log|))
  {
    hide WellFormed, Records, Ids;
  }

  lemma CloseStage(kv: Kv<Text, Stored>, base: Text, retention: nat, log: Log)
    requires Stage(kv, base, log, |log|, Trimmed(retention, |log|), Trimmed(retention, |log|))
    ensures JournalInv(kv, base, retention, log)
  {
    hide WellFormed, Records, Ids;
  }

  lemma TrimmedAt(retention: nat, head: nat)
    requires head > 0
    ensures head <= retention ==> Trimmed(retention, head) == Trimmed(retention, head - 1) == 0
    ensures head > retention ==>
      Trimmed(retention, head) == head - retention && Trimmed(retention, head - 1) == head - retention - 1
  {}

  lemma MarkRead(kv: Kv<Text, Stored>, base: Text, log: Log, head: nat, mark: nat, trimmed: nat)
    requires Stage(kv, base, log, head, mark, trimmed)
    ensures NumberOf(Get(kv, TrimKey(base)).value) == mark
  {
    hide WellFormed, Records, Ids, TrimKey;
  }

  // ---- what the window is ----

  ghost function WindowKeys(base: Text, trimmed: nat, head: nat): set<Text>
    requires trimmed <= head
    decreases head
  {
    if trimmed == head then {} else WindowKeys(base, trimmed, head - 1) + {RecordKey(base, head)}
  }

  lemma {:induction false} WindowKeysAre(base: Text, trimmed: nat, head: nat)
    requires trimmed <= head
    ensures forall k :: k in WindowKeys(base, trimmed, head) <==>
      IsRecordKey(base, k) && trimmed < NumberIn(base, k) <= head && k == RecordKey(base, NumberIn(base, k))
    ensures |WindowKeys(base, trimmed, head)| == head - trimmed
    decreases head
  {
    hide RecordKey, IsRecordKey, NumberIn;
    if trimmed < head {
      WindowKeysAre(base, trimmed, head - 1);
      RecordKeyOf(base, head);
      assert RecordKey(base, head) !in WindowKeys(base, trimmed, head - 1);
    }
  }

  /**
   The store holds the records of exactly the last `retention` events (all of them while there are fewer), and the id
   keys are their inverse.
   */
  lemma WindowExact(kv: Kv<Text, Stored>, base: Text, retention: nat, log: Log)
    requires JournalInv(kv, base, retention, log)
    ensures var oldest := Trimmed(retention, |log|);
      && Matching(kv, RecordsPrefix(base)) == WindowKeys(base, oldest, |log|)
      && |Matching(kv, RecordsPrefix(base))| == Least(retention, |log|)
    ensures forall id: Text, n: nat ::
      IdKey(base, id) in kv.entries && kv.entries[IdKey(base, id)].value == Number(n) <==>
      RecordKey(base, n) in kv.entries && kv.entries[RecordKey(base, n)].value == Event(id, n)
  {
    var oldest := Trimmed(retention, |log|);
    WindowMatches(kv, base, log, oldest);
    hide RecordKey, IdKey, RecordsPrefix, Matching, WindowKeys, IsRecordKey, IsIdKey, IdIn, NumberIn;
    forall id: Text, n: nat
      ensures IdKey(base, id) in kv.entries && kv.entries[IdKey(base, id)].value == Number(n) <==>
        RecordKey(base, n) in kv.entries && kv.entries[RecordKey(base, n)].value == Event(id, n)
    {
      IdsInverse(kv, base, log, oldest, id, n);
    }
  }

  lemma WindowMatches(kv: Kv<Text, Stored>, base: Text, log: Log, trimmed: nat)
    requires Records(kv, base, log, trimmed) && trimmed <= |log|
    ensures Matching(kv, RecordsPrefix(base)) == WindowKeys(base, trimmed, |log|)
    ensures |WindowKeys(base, trimmed, |log|)| == |log| - trimmed
  {
    hide RecordKey, NumberIn, RecordsPrefix, WindowKeys;
    WindowKeysAre(base, trimmed, |log|);
    forall k ensures k in Matching(kv, RecordsPrefix(base)) <==> k in WindowKeys(base, trimmed, |log|) {
      assert k in Matching(kv, RecordsPrefix(base)) <==> k in kv.entries && IsRecordKey(base, k);
    }
  }

  lemma IdsInverse(kv: Kv<Text, Stored>, base: Text, log: Log, trimmed: nat, id: Text, n: nat)
    requires Records(kv, base, log, trimmed) && Ids(kv, base, log, trimmed) && trimmed <= |log| && DistinctIds(log)
    ensures IdKey(base, id) in kv.entries && kv.entries[IdKey(base, id)].value == Number(n) <==>
      RecordKey(base, n) in kv.entries && kv.entries[RecordKey(base, n)].value == Event(id, n)
  {
    hide IdKey, RecordKey, IsIdKey, IsRecordKey, IdIn, NumberIn;
    IdKeyOf(base, id);
    RecordKeyOf(base, n);
    if IdKey(base, id) in kv.entries {
      var j :| 0 <= j < |log| - trimmed && log[trimmed..][j] == id;
      assert log[trimmed + j] == id;
    }
  }

  /** A store without any of the stream's keys is its journal with nothing appended; so is the empty store. */
  lemma FreshStoreIsJournal(kv: Kv<Text, Stored>, base: Text, retention: nat)
    requires WellFormed(kv) && forall k :: Under(base, k) ==> k !in kv.entries
    ensures JournalInv(kv, base, retention, [])
  {
    KeysUnder(base);
    hide Under, WellFormed, HeadKey, TrimKey, RecordKey, IdKey, IsRecordKey, IsIdKey, NumberIn, IdIn;
  }

  /** Whatever other components write under other keys, the journal stays as it is. */
  lemma OthersKeepJournal(kv: Kv<Text, Stored>, base: Text, retention: nat, log: Log, op: Op<Text, Stored>)
    requires JournalInv(kv, base, retention, log) && Elsewhere(base, op)
    ensures JournalInv(Do(kv, op), base, retention, log)
  {
    DoWellFormed(kv, op);
    var after := Do(kv, op);
    assert SameUnder(kv, after, base);
    hide Do, Elsewhere, WellFormed, Counter, Records, Ids;
    UnderAgrees(kv, after, base, log, Trimmed(retention, |log|));
  }

  /** The two stores have the same entries at the stream's keys. */
  ghost predicate SameUnder(kv: Kv<Text, Stored>, after: Kv<Text, Stored>, base: Text) {
    forall k :: Under(base, k) ==>
      (k in kv.entries <==> k in after.entries) && (k in kv.entries ==> kv.entries[k] == after.entries[k])
  }

  lemma UnderAgrees(kv: Kv<Text, Stored>, after: Kv<Text, Stored>, base: Text, log: Log, trimmed: nat)
    requires SameUnder(kv, after, base)
    ensures forall n :: Counter(kv, HeadKey(base), n) ==> Counter(after, HeadKey(base), n)
    ensures forall n :: Counter(kv, TrimKey(base), n) ==> Counter(after, TrimKey(base), n)
    ensures Records(kv, base, log, trimmed) ==> Records(after, base, log, trimmed)
    ensures Ids(kv, base, log, trimmed) ==> Ids(after, base, log, trimmed)
  {
    KeysUnder(base);
    hide Under, HeadKey, TrimKey, RecordKey, IdKey, IsRecordKey, IsIdKey, NumberIn, IdIn;
  }

  // ---- following ----

  /** A client that replays from the last event it got; lost once it is told to start over. */
  datatype Client = Client(received: seq<Stored>, lost: bool)

  function LastId(received: seq<Stored>): Option<Text> {
    if received == [] then None
    else match received[|received| - 1] case Event(id, _) => Some(id) case Number(_) => None
  }

  function Poll(c: Client, log: Log, retention: nat, limit: int): Client {
    if c.lost then c
    else
      var (events, reset) := ReplayOf(log, retention, LastId(c.received), limit);
      if reset then c.(lost := true) else Client(c.received + events, false)
  }

  function Follow(logs: seq<Log>, retention: nat, limits: seq<int>): Client
    requires |logs| == |limits|
  {
    var n := |logs|;
    if n == 0 then Client([], false)
    else Poll(Follow(logs[..n - 1], retention, limits[..n - 1]), logs[n - 1], retention, limits[n - 1])
  }

  /** The journal only grew between the polls. */
  ghost predicate Growing(logs: seq<Log>) {
    forall i, j :: 0 <= i <= j < |logs| ==> logs[i] <= logs[j]
  }

  /** What was received is one stretch of the log, in order, each event once. */
  ghost predicate Stretch(received: seq<Stored>, log: Log) {
    received != [] ==>
      && 1 <= SequenceOfEvent(received[0]) <= SequenceOfEvent(received[0]) - 1 + |received| <= |log|
      && received == EventsOf(log, SequenceOfEvent(received[0]) - 1, SequenceOfEvent(received[0]) - 1 + |received|)
  }

  /** Where a client that holds log[first..end] goes on. */
  lemma ReplayContinues(received: seq<Stored>, log: Log, retention: nat, limit: int, end: nat)
    requires DistinctIds(log) && Stretch(received, log) && received != []
    requires end == SequenceOfEvent(received[0]) - 1 + |received|
    ensures 0 < end <= |log| && LastId(received) == Some(log[end - 1])
    ensures ReplayOf(log, retention, LastId(received), limit) ==
      if log[end - 1] in log[Trimmed(retention, |log|)..] then
        (EventsOf(log, end, Least(end + Requested(limit), |log|)), false)
      else ([], true)
  {
    hide *;
    LastHeld(received, log, end);
    ReplayAfter(log, retention, limit, end);
  }

  lemma LastHeld(received: seq<Stored>, log: Log, end: int)
    requires DistinctIds(log) && Stretch(received, log) && received != []
    requires end == SequenceOfEvent(received[0]) - 1 + |received|
    ensures 0 < end <= |log| && LastId(received) == Some(log[end - 1]) && log[end - 1] != []
  {
    hide EventsOf;
    var first := SequenceOfEvent(received[0]) - 1;
    EventsAre(log, first, end);
    assert received[|received| - 1] == Event(log[end - 1], end);
    assert log[end - 1] in log;
  }

  lemma ReplayAfter(log: Log, retention: nat, limit: int, end: nat)
    requires DistinctIds(log) && 0 < end <= |log| && log[end - 1] != []
    ensures ReplayOf(log, retention, Some(log[end - 1]), limit) ==
      if log[end - 1] in log[Trimmed(retention, |log|)..] then
        (EventsOf(log, end, Least(end + Requested(limit), |log|)), false)
      else ([], true)
  {
    hide EventsOf, Requested, Position;
    assert log[end - 1] in log;
    assert Position(log, log[end - 1]) == end - 1;
  }

  lemma StretchExtends(received: seq<Stored>, log: Log, start: nat, hi: nat)
    requires Stretch(received, log) && start <= hi <= |log|
    requires received != [] ==> start == SequenceOfEvent(received[0]) - 1 + |received|
    ensures Stretch(received + EventsOf(log, start, hi), log)
    ensures hi > start ==> LastId(received + EventsOf(log, start, hi)) == Some(log[hi - 1])
  {
    hide EventsOf, LastId;
    var more := EventsOf(log, start, hi);
    EventsAre(log, start, hi);
    if received == [] {
      assert received + more == more;
      MakeStretch(received + more, log, start);
    } else {
      var first := SequenceOfEvent(received[0]) - 1;
      EventsJoin(log, first, start, hi);
      EventsAre(log, first, hi);
      MakeStretch(received + more, log, first);
    }
  }

  lemma MakeStretch(received: seq<Stored>, log: Log, first: nat)
    requires first + |received| <= |log| && received == EventsOf(log, first, first + |received|)
    ensures Stretch(received, log)
    ensures received != [] ==> LastId(received) == Some(log[first + |received| - 1])
  {
    hide EventsOf;
    EventsAre(log, first, first + |received|);
  }

  lemma EventsAre(log: Log, lo: nat, hi: nat)
    requires lo <= hi <= |log|
    ensures |EventsOf(log, lo, hi)| == hi - lo
    ensures forall i :: 0 <= i < hi - lo ==> EventsOf(log, lo, hi)[i] == Event(log[lo + i], lo + i + 1)
  {}

  lemma EventsJoin(log: Log, lo: nat, mid: nat, hi: nat)
    requires lo <= mid <= hi <= |log|
    ensures EventsOf(log, lo, mid) + EventsOf(log, mid, hi) == EventsOf(log, lo, hi)
  {}

  /**
   One poll extends the stretch; it says "start over" only when the client's last event is gone, and brings everything
   up to the head when it brings fewer events than asked for.
   */
  lemma PollExtends(c: Client, log: Log, retention: nat, limit: int)
    requires DistinctIds(log) && Stretch(c.received, log) && retention >= 100
    ensures Stretch(Poll(c, log, retention, limit).received, log)
    ensures c.received <= Poll(c, log, retention, limit).received
    ensures !c.lost ==> (Poll(c, log, retention, limit).lost <==>
      LastId(c.received).Some? && LastId(c.received).value !in log[Trimmed(retention, |log|)..])
    ensures var next := Poll(c, log, retention, limit);
      !next.lost && |next.received| < |c.received| + Requested(limit) && log != [] ==>
        LastId(next.received) == Some(log[|log| - 1])
  {
    hide Stretch, EventsOf, LastId;
    if !c.lost {
      var oldest := Trimmed(retention, |log|);
      if c.received == [] {
        assert LastId(c.received) == None by { NoLastId(); }
        StretchExtends(c.received, log, oldest, Least(oldest + Requested(limit), |log|));
      } else {
        var end := SequenceOfEvent(c.received[0]) - 1 + |c.received|;
        StretchEnd(c.received, log);
        ReplayContinues(c.received, log, retention, limit, end);
        StretchExtends(c.received, log, end, Least(end + Requested(limit), |log|));
        NoneAfterHead(c.received, log);
      }
    }
  }

  lemma NoLastId()
    ensures LastId([]) == None
  {}

  lemma StretchEnd(received: seq<Stored>, log: Log)
    requires Stretch(received, log) && received != []
    ensures 0 < SequenceOfEvent(received[0]) - 1 + |received| <= |log|
  {}

  lemma NoneAfterHead(received: seq<Stored>, log: Log)
    ensures received + EventsOf(log, |log|, |log|) == received
  {}

  lemma StretchGrows(received: seq<Stored>, log: Log, longer: Log)
    requires Stretch(received, log) && log <= longer
    ensures Stretch(received, longer)
  {}

  /**
   Following by the last id: however the journal grows and trims between polls, the client holds one stretch of the log
   without gap or repeat, or was told to start over.
   */
  lemma {:induction false} FollowHasNoGap(logs: seq<Log>, retention: nat, limits: seq<int>)
    requires |logs| == |limits| && logs != [] && Growing(logs) && DistinctIds(logs[|logs| - 1]) && retention >= 100
    ensures Stretch(Follow(logs, retention, limits).received, logs[|logs| - 1])
  {
    var n := |logs|;
    var before := Follow(logs[..n - 1], retention, limits[..n - 1]);
    if n > 1 {
      assert logs[..n - 1][n - 2] == logs[n - 2] <= logs[n - 1];
      FollowHasNoGap(logs[..n - 1], retention, limits[..n - 1]);
      StretchGrows(before.received, logs[n - 2], logs[n - 1]);
    }
    hide Stretch, ReplayOf;
    assert Stretch(before.received, logs[n - 1]) by { if n == 1 { EmptyStretch(logs[0]); } }
    PollExtends(before, logs[n - 1], retention, limits[n - 1]);
  }

  lemma EmptyStretch(log: Log)
    ensures Stretch([], log)
  {}
}
