/** Why the journal's window needs whole appends: a trim passes over the record that a slow append has yet to write. */
module EventSlowAppend {
  import opened Texts
  import opened KvStore
  import opened EventKeys
  import opened EventAppenders
  import Appenders = EventAppenders

  const RETENTION: nat := 100

  /** Appender 1 holds sequence 1 and has not written its record; n sequences are given out and nothing is trimmed. */
  ghost predicate Waiting(s: System, base: Text, n: nat) {
    && RunInv(s, base) && |s.granted| == n
    && TrimKey(base) !in s.kv.entries && RecordKey(base, 1) !in s.kv.entries
    && 1 in s.appenders && s.appenders[1].pc == WritingRecord(1)
  }

  /** Appender 2 is at this point meanwhile. */
  ghost predicate Doing(s: System, base: Text, n: nat, pc: Pc) {
    Waiting(s, base, n) && 2 in s.appenders && s.appenders[2].pc == pc && s.appenders[2].retention == RETENTION
  }

  lemma HeadRead(s: System, base: Text, n: nat, id: Text)
    requires Doing(s, base, n, ReadingHead(0))
    ensures var t := Apply(s, base, Advance(2, id));
      t.kv == s.kv && Doing(t, base, n, WritingHead(Get(t.kv, HeadKey(base)), 0))
  {
    hide RunInv, HeadKey, TrimKey, RecordKey;
    ApplyKeeps(s, base, Advance(2, id));
  }

  lemma HeadGranted(s: System, base: Text, n: nat, id: Text)
    requires Doing(s, base, n, WritingHead(Get(s.kv, HeadKey(base)), 0))
    ensures Doing(Apply(s, base, Advance(2, id)), base, n + 1, WritingRecord(n + 1))
  {
    hide RunInv, HeadKey, TrimKey, RecordKey, WellFormed;
    HeadHolds(s, base);
    KeysApart(base);
    RecordKeyInjective(base, 1, 1);
    ApplyKeeps(s, base, Advance(2, id));
  }

  lemma HeadHolds(s: System, base: Text)
    requires RunInv(s, base)
    ensures NumberOf(Get(s.kv, HeadKey(base)).value) == |s.granted|
  {
    hide HeadKey, RecordKey;
  }

  lemma RecordPut(s: System, base: Text, n: nat, m: nat, id: Text)
    requires Doing(s, base, n, WritingRecord(m)) && m != 1
    ensures Doing(Apply(s, base, Advance(2, id)), base, n, WritingId(m, id))
  {
    hide RunInv, HeadKey, TrimKey, RecordKey, IsRecordKey;
    RecordFree(s, base, 2, m);
    KeysApart(base);
    RecordKeyInjective(base, 1, m);
    RecordKeyInjective(base, m, m);
    ApplyKeeps(s, base, Advance(2, id));
  }

  lemma RecordFree(s: System, base: Text, p: nat, m: nat)
    requires RunInv(s, base) && p in s.appenders && s.appenders[p].pc == WritingRecord(m)
    ensures RecordKey(base, m) !in s.kv.entries
  {
    hide StoreInv, RecordKey;
  }

  lemma IdPut(s: System, base: Text, n: nat, m: nat, id: Text, newId: Text)
    requires Doing(s, base, n, WritingId(m, id))
    ensures Doing(Apply(s, base, Advance(2, newId)), base, n, if m > RETENTION then ReadingTrimmed(m) else Returned(m))
  {
    hide RunInv, HeadKey, TrimKey, RecordKey, IdKey, IsRecordKey, IsIdKey;
    KeysApart(base);
    RecordKeyInjective(base, 1, 1);
    IdKeyInjective(base, id, id);
    ApplyKeeps(s, base, Advance(2, newId));
  }

  function Append(id: Text): seq<Step> {
    [Begin(2, RETENTION), Advance(2, id), Advance(2, id), Advance(2, id), Advance(2, id)]
  }

  lemma RunSnoc(s: System, base: Text, steps: seq<Step>, step: Step)
    ensures Appenders.Run(s, base, steps + [step]) == Apply(Appenders.Run(s, base, steps), base, step)
  {
    assert (steps + [step])[..|steps|] == steps;
  }

  /** One more whole append while appender 1 waits. */
  lemma AppendMeanwhile(s: System, base: Text, steps: seq<Step>, n: nat, id: Text)
    requires Waiting(Appenders.Run(s, base, steps), base, n) && !Busy(Appenders.Run(s, base, steps), 2) && n >= 1
    ensures Doing(Appenders.Run(s, base, steps + Append(id)), base, n + 1,
                  if n + 1 > RETENTION then ReadingTrimmed(n + 1) else Returned(n + 1))
  {
    hide Appenders.Run, Apply, RunInv, Doing, Waiting, Get, HeadKey;
    var a, b := Begin(2, RETENTION), Advance(2, id);
    Begins(Appenders.Run(s, base, steps), base, n);
    RunSnoc(s, base, steps, a);
    RunSnoc(s, base, steps + [a], b);
    RunSnoc(s, base, steps + [a] + [b], b);
    RunSnoc(s, base, steps + [a] + [b] + [b], b);
    RunSnoc(s, base, steps + [a] + [b] + [b] + [b], b);
    assert steps + [a] + [b] + [b] + [b] + [b] == steps + Append(id);
    HeadRead(Appenders.Run(s, base, steps + [a]), base, n, id);
    HeadGranted(Appenders.Run(s, base, steps + [a] + [b]), base, n, id);
    RecordPut(Appenders.Run(s, base, steps + [a] + [b] + [b]), base, n + 1, n + 1, id);
    IdPut(Appenders.Run(s, base, steps + [a] + [b] + [b] + [b]), base, n + 1, n + 1, id, id);
  }

  lemma Begins(s: System, base: Text, n: nat)
    requires Waiting(s, base, n) && !Busy(s, 2)
    ensures Doing(Apply(s, base, Begin(2, RETENTION)), base, n, ReadingHead(0))
  {
    hide RunInv, TrimKey, RecordKey;
    ApplyKeeps(s, base, Begin(2, RETENTION));
  }

  function Appends(ids: seq<Text>): seq<Step> {
    if ids == [] then [] else Appends(ids[..|ids| - 1]) + Append(ids[|ids| - 1])
  }

  lemma {:induction false} AppendsMeanwhile(s: System, base: Text, steps: seq<Step>, ids: seq<Text>)
    requires Waiting(Appenders.Run(s, base, steps), base, 1) && !Busy(Appenders.Run(s, base, steps), 2)
    requires |ids| < RETENTION
    ensures var t := Appenders.Run(s, base, steps + Appends(ids)); Waiting(t, base, 1 + |ids|) && !Busy(t, 2)
  {
    hide Appenders.Run, RunInv;
    if ids == [] {
      assert steps + Appends(ids) == steps;
    } else {
      var front := ids[..|ids| - 1];
      AppendsMeanwhile(s, base, steps, front);
      AppendMeanwhile(s, base, steps + Appends(front), |ids|, ids[|ids| - 1]);
      assert steps + Appends(front) + Append(ids[|ids| - 1]) == steps + Appends(ids);
    }
  }

  /** The trim of sequence 101 finds no record 1 and moves on; then record 1 is written. */
  lemma TrimMisses(s: System, base: Text, id: Text, slow: Text)
    requires Doing(s, base, 101, ReadingTrimmed(101))
    ensures var a, b := Advance(2, id), Advance(1, slow);
      var t := Apply(Apply(Apply(Apply(s, base, a), base, a), base, a), base, b);
      && t.kv.entries.Keys >= {TrimKey(base), RecordKey(base, 1)}
      && t.kv.entries[TrimKey(base)].value == Number(1)
      && t.kv.entries[RecordKey(base, 1)].value == Event(slow, 1)
  {
    hide RunInv, HeadKey, TrimKey, RecordKey, IsRecordKey;
    KeysApart(base);
    RecordKeyInjective(base, 1, 1);
    RecordFree(s, base, 1, 1);
  }

  lemma SlowStarts(s: System, base: Text, slow: Text)
    requires Fresh(s, base)
    ensures var steps := [Begin(1, RETENTION), Advance(1, slow), Advance(1, slow)];
      Waiting(Appenders.Run(s, base, steps), base, 1) && !Busy(Appenders.Run(s, base, steps), 2)
  {
    hide HeadKey, TrimKey, RecordKey, Under, RunInv, WellFormed;
    var s1 := Apply(s, base, Begin(1, RETENTION));
    var s2 := Apply(s1, base, Advance(1, slow));
    RunKeeps(s, base, []);
    RunSnoc(s, base, [], Begin(1, RETENTION));
    RunSnoc(s, base, [Begin(1, RETENTION)], Advance(1, slow));
    RunSnoc(s, base, [Begin(1, RETENTION), Advance(1, slow)], Advance(1, slow));
    assert [] + [Begin(1, RETENTION)] == [Begin(1, RETENTION)];
    assert [Begin(1, RETENTION)] + [Advance(1, slow)] == [Begin(1, RETENTION), Advance(1, slow)];
    assert [Begin(1, RETENTION), Advance(1, slow)] + [Advance(1, slow)]
      == [Begin(1, RETENTION), Advance(1, slow), Advance(1, slow)];
    ApplyKeeps(s, base, Begin(1, RETENTION));
    ApplyKeeps(s1, base, Advance(1, slow));
    FirstGranted(s, base, slow);
  }

  lemma FirstGranted(s: System, base: Text, slow: Text)
    requires Fresh(s, base) && RunInv(Apply(Apply(s, base, Begin(1, RETENTION)), base, Advance(1, slow)), base)
    ensures var s2 := Apply(Apply(s, base, Begin(1, RETENTION)), base, Advance(1, slow));
      var t := Apply(s2, base, Advance(1, slow));
      Waiting(t, base, 1) && !Busy(t, 2)
  {
    hide HeadKey, TrimKey, RecordKey, Under, RunInv, WellFormed;
    KeysUnder(base);
    KeysApart(base);
    RecordKeyInjective(base, 1, 1);
    var s2 := Apply(Apply(s, base, Begin(1, RETENTION)), base, Advance(1, slow));
    ApplyKeeps(s2, base, Advance(1, slow));
    assert s2.kv == s.kv && HeadKey(base) !in s.kv.entries;
    assert s2.appenders[1].pc == WritingHead(Get(s.kv, HeadKey(base)), 0);
  }

  /**
   After a hundred appends that overtake it, an append writes its record below trimmed_until: the record stays, outside
   the window, and every later trim starts behind it.
   */
  lemma SlowRecordOutlivesTrim(s: System, base: Text, slow: Text, ids: seq<Text>) returns (steps: seq<Step>)
    requires Fresh(s, base) && |ids| == RETENTION
    ensures var t := Appenders.Run(s, base, steps);
      && TrimKey(base) in t.kv.entries && t.kv.entries[TrimKey(base)].value == Number(1)
      && RecordKey(base, 1) in t.kv.entries && t.kv.entries[RecordKey(base, 1)].value == Event(slow, 1)
  {
    hide Appenders.Run, Apply, Waiting, Doing;
    var id := ids[|ids| - 1];
    var a, b := Advance(2, id), Advance(1, slow);
    var start := [Begin(1, RETENTION), b, b];
    SlowStarts(s, base, slow);
    AppendsMeanwhile(s, base, start, ids[..|ids| - 1]);
    var most := start + Appends(ids[..|ids| - 1]);
    AppendMeanwhile(s, base, most, RETENTION, id);
    var all := most + Append(id);
    TrimMisses(Appenders.Run(s, base, all), base, id, slow);
    RunSnoc(s, base, all, a);
    RunSnoc(s, base, all + [a], a);
    RunSnoc(s, base, all + [a] + [a], a);
    RunSnoc(s, base, all + [a] + [a] + [a], b);
    steps := all + [a] + [a] + [a] + [b];
  }
}
