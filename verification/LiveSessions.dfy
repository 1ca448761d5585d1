/**
 The live session hub (live_sessions.LiveSessionHub): bounded ring buffers over one unbounded log per task, kept for the
 most recently published tasks.
 */
module LiveSessions {
  import opened Sequences
  import opened Texts

  type Key = (Text, Text)

  /** What is published, and the monotonic clock at that moment; the original also stamps the time of day. */
  datatype Body<+P> = Body(at: real, attemptId: Text, sessionId: Text, payload: P)

  datatype Update<+P> = Update(sequence: nat, body: Body<P>)

  datatype Meta = Meta(updatedAt: real, attemptId: Text, sessionId: Text)

  const ACTIVE_SECONDS := 10.0

  function MetaOf<P>(body: Body<P>): Meta {
    Meta(body.at, body.attemptId, body.sessionId)
  }

  // ---- the unbounded view ----

  /** Tasks by last publication, oldest first, and everything published to each since its buffer was made. */
  datatype Hub<+P> = Hub(recency: seq<Key>, logs: map<Key, seq<Body<P>>>)

  function Without(s: seq<Key>, k: Key): (r: seq<Key>)
    ensures k !in r && forall x :: x in r <==> x in s && x != k
    ensures |r| <= |s|
  {
    if s == [] then [] else if s[0] == k then Without(s[1..], k) else [s[0]] + Without(s[1..], k)
  }

  /** Room for one more: the least recently published go. */
  function Evict<P>(h: Hub<P>, maxTasks: nat): (r: Hub<P>)
    requires maxTasks > 0
    ensures |r.recency| < maxTasks
    decreases |h.recency|
  {
    if |h.recency| < maxTasks then h else Evict(Hub(h.recency[1..], h.logs - {h.recency[0]}), maxTasks)
  }

  function Publish<P>(h: Hub<P>, maxTasks: nat, key: Key, body: Body<P>): Hub<P>
    requires maxTasks > 0
  {
    if key in h.logs then Hub(Without(h.recency, key) + [key], h.logs[key := h.logs[key] + [body]])
    else
      var room := Evict(h, maxTasks);
      Hub(room.recency + [key], room.logs[key := [body]])
  }

  function Clear<P>(h: Hub<P>, key: Key): Hub<P> {
    Hub(Without(h.recency, key), h.logs - {key})
  }

  /** The log from position lo to hi as numbered updates. */
  function Numbered<P>(log: seq<Body<P>>, lo: nat, hi: nat): (r: seq<Update<P>>)
    requires hi <= |log|
    ensures |r| == if lo < hi then hi - lo else 0
    ensures forall i :: 0 <= i < |r| ==> r[i] == Update(lo + i + 1, log[lo + i])
  {
    if lo < hi then seq(hi - lo, i requires 0 <= i < hi - lo => Update(lo + i + 1, log[lo + i])) else []
  }

  /** How many entries of a log of length n the ring buffer has lost. */
  function Lost(n: nat, maxEvents: nat): (r: nat)
    ensures r <= n && (maxEvents > 0 && n > 0 ==> r < n)
  {
    if n > maxEvents then n - maxEvents else 0
  }

  /** max(1, min(int(limit or 500), 2000)) */
  function Clamped(limit: int): (r: nat)
    ensures 1 <= r <= 2000
  {
    var given := if limit == 0 then 500 else limit;
    if given < 1 then 1 else if given > 2000 then 2000 else given
  }

  datatype Snapshot<+P> = Snapshot(
    updates: seq<Update<P>>, cursor: int, active: bool, attemptId: Text, sessionId: Text, truncated: bool)

  /** What a snapshot of a published task, taken at `now`, shows of its log. */
  function SnapshotOf<P>(log: seq<Body<P>>, maxEvents: nat, after: int, limit: int, now: real): Snapshot<P>
    requires log != [] && maxEvents > 0
  {
    var n, lost := |log|, Lost(|log|, maxEvents);
    var lo := if after < lost then lost else after;
    var hi := Least(lo + Clamped(limit), n);
    Snapshot(if lo < n then Numbered(log, lo, hi) else [], if lo < n then hi else after,
             now - log[n - 1].at < ACTIVE_SECONDS, log[n - 1].attemptId, log[n - 1].sessionId, 0 < after < lost)
  }

  function SnapshotMissing<P>(after: int): Snapshot<P> {
    Snapshot([], after, false, [], [], false)
  }

  // ---- the hub ----

  /** A ring buffer and its counter stand for a log: the last maxEvents entries, with consecutive sequence numbers. */
  ghost predicate Represents<P>(buffer: seq<Update<P>>, count: nat, meta: Meta, log: seq<Body<P>>, maxEvents: nat) {
    && log != [] && count == |log|
    && buffer == Numbered(log, Lost(|log|, maxEvents), |log|)
    && meta == MetaOf(log[|log| - 1])
  }

  /** The three maps have exactly the keys of the order, and what they hold for a key stands for its log. */
  ghost predicate Consistent<P>(order: seq<Key>, buffers: map<Key, seq<Update<P>>>, counts: map<Key, nat>,
                                meta: map<Key, Meta>, logs: map<Key, seq<Body<P>>>, maxEvents: nat) {
    && Distinct(order)
    && buffers.Keys == counts.Keys == meta.Keys == logs.Keys == (set k | k in order)
    && forall k :: k in logs ==> Represents(buffers[k], counts[k], meta[k], logs[k], maxEvents)
  }

  class LiveSessionHub<P> {
    /** The ordered dictionary of buffers is its key order and the buffers. */
    var order: seq<Key>
    var buffers: map<Key, seq<Update<P>>>
    var counts: map<Key, nat>
    var meta: map<Key, Meta>
    const maxEvents: nat
    const maxTasks: nat
    ghost var logs: map<Key, seq<Body<P>>>

    /** At most maxTasks buffers, one key set, and each buffer is the end of its log. */
    ghost predicate Valid()
      reads this
    {
      && maxEvents > 0 && maxTasks > 0 && |order| <= maxTasks
      && Consistent(order, buffers, counts, meta, logs, maxEvents)
    }

    ghost function View(): Hub<P>
      reads this
    {
      Hub(order, logs)
    }

    constructor (maxEvents: int, maxTasks: int)
      ensures Valid() && View() == Hub([], map[])
      ensures this.maxEvents == (if maxEvents < 1 then 1 else maxEvents)
      ensures this.maxTasks == (if maxTasks < 1 then 1 else maxTasks)
    {
      order, buffers, counts, meta, logs := [], map[], map[], map[], map[];
      this.maxEvents := if maxEvents < 1 then 1 else maxEvents;
      this.maxTasks := if maxTasks < 1 then 1 else maxTasks;
    }

    method PublishUpdate(key: Key, body: Body<P>) returns (sequence: nat)
      requires Valid()
      modifies this
      ensures Valid()
      ensures View() == Publish(old(View()), maxTasks, key, body)
      ensures key in logs && sequence == |logs[key]|
    {
      hide Consistent, Without, Appended;
      var buffer: seq<Update<P>>, count := [], 0;
      ConsistentKeys(order, buffers, counts, meta, logs, maxEvents);
      if key !in buffers {
        while |order| >= maxTasks
          invariant Consistent(order, buffers, counts, meta, logs, maxEvents) && key !in buffers && key !in logs
          invariant Evict(View(), maxTasks) == Evict(old(View()), maxTasks)
          decreases |order|
        {
          DropOldest(order, buffers, counts, meta, logs, maxEvents, maxTasks);
          var oldKey := order[0];
          order := order[1..];
          buffers := buffers - {oldKey};
          counts := counts - {oldKey};
          meta := meta - {oldKey};
          logs := logs - {oldKey};
        }
        AddNew(order, buffers, counts, meta, logs, maxEvents, key, body);
        order := order + [key];
      } else {
        AddTo(order, buffers, counts, meta, logs, maxEvents, key, body);
        order := Without(order, key) + [key];
        buffer, count := buffers[key], counts[key];
      }
      sequence := count + 1;
      counts := counts[key := sequence];
      buffers := buffers[key := Appended(buffer, Update(sequence, body), maxEvents)];
      meta := meta[key := MetaOf(body)];
      logs := logs[key := if key in logs then logs[key] + [body] else [body]];
    }

    method TakeSnapshot(key: Key, after: int, limit: int, now: real) returns (s: Snapshot<P>)
      requires Valid()
      ensures s == if key in logs then SnapshotOf(logs[key], maxEvents, after, limit, now) else SnapshotMissing(after)
      ensures key !in logs ==>
        s.updates == [] && s.cursor == after && !s.active && !s.truncated && s.attemptId == [] && s.sessionId == []
    {
      hide Consistent, SnapshotOf, NewerThan;
      ConsistentKeys(order, buffers, counts, meta, logs, maxEvents);
      if key !in buffers {
        return Snapshot([], after, false, [], [], false);
      }
      var buffer := buffers[key];
      ConsistentAt(order, buffers, counts, meta, logs, maxEvents, key);
      SnapshotRead(buffer, counts[key], meta[key], logs[key], maxEvents, after, limit, now);
      var updates := FirstOf(NewerThan(buffer, after), Clamped(limit));
      var oldest := buffer[0].sequence;
      s := Snapshot(updates, if updates != [] then updates[|updates| - 1].sequence else after,
                    now - meta[key].updatedAt < ACTIVE_SECONDS, meta[key].attemptId, meta[key].sessionId,
                    after > 0 && after < oldest - 1);
    }

    method ClearTask(key: Key)
      requires Valid()
      modifies this
      ensures Valid()
      ensures View() == Clear(old(View()), key)
    {
      hide Consistent, Without;
      RemoveKey(order, buffers, counts, meta, logs, maxEvents, key);
      order := Without(order, key);
      buffers := buffers - {key};
      counts := counts - {key};
      meta := meta - {key};
      logs := logs - {key};
    }
  }

  function NewerThan<P>(buffer: seq<Update<P>>, after: int): seq<Update<P>> {
    if buffer == [] then []
    else (if buffer[0].sequence > after then [buffer[0]] else []) + NewerThan(buffer[1..], after)
  }

  lemma {:induction false} NewerNumbered<P>(log: seq<Body<P>>, lo: nat, after: int)
    requires lo <= |log|
    ensures NewerThan(Numbered(log, lo, |log|), after)
      == Numbered(log, if after < lo then lo else if after < |log| then after else |log|, |log|)
    decreases |log| - lo
  {
    if lo < |log| {
      var all := Numbered(log, lo, |log|);
      assert all[1..] == Numbered(log, lo + 1, |log|);
      NewerNumbered(log, lo + 1, after);
    }
  }

  lemma DropHead(s: seq<Key>)
    requires s != [] && Distinct(s)
    ensures Distinct(s[1..]) && (set k | k in s[1..]) == (set k | k in s) - {s[0]}
  {
    assert s == [s[0]] + s[1..];
  }

  lemma {:induction false} MovedToEnd(s: seq<Key>, k: Key)
    requires Distinct(s)
    ensures Distinct(Without(s, k)) && Distinct(Without(s, k) + [k])
    ensures (set x | x in Without(s, k)) == (set x | x in s) - {k}
    ensures |Without(s, k)| == if k in s then |s| - 1 else |s|
  {
    if s != [] {
      MovedToEnd(s[1..], k);
      assert s == [s[0]] + s[1..];
      assert s[0] !in s[1..];
      assert forall i :: 0 <= i < |Without(s[1..], k)| ==> Without(s[1..], k)[i] in s[1..];
    }
  }

  /** Appending to a full deque drops its oldest entry. */
  function Appended<P>(buffer: seq<Update<P>>, update: Update<P>, maxEvents: nat): seq<Update<P>> {
    if |buffer| >= maxEvents then (buffer + [update])[1..] else buffer + [update]
  }

  /** [:n] */
  function FirstOf<P>(updates: seq<Update<P>>, n: nat): seq<Update<P>> {
    if |updates| > n then updates[..n] else updates
  }

  lemma RingAppend<P>(buffer: seq<Update<P>>, count: nat, meta: Meta, log: seq<Body<P>>, body: Body<P>, maxEvents: nat)
    requires maxEvents > 0
    requires (log == [] && buffer == [] && count == 0) || Represents(buffer, count, meta, log, maxEvents)
    ensures Represents(Appended(buffer, Update(count + 1, body), maxEvents), count + 1, MetaOf(body),
                       log + [body], maxEvents)
  {
    var grown, n := log + [body], |log|;
    var lost, next := Lost(n, maxEvents), Lost(n + 1, maxEvents);
    NumberedSnoc(log, body, lost);
    assert buffer + [Update(n + 1, body)] == Numbered(grown, lost, n + 1);
    if n >= maxEvents { assert Numbered(grown, lost, n + 1)[1..] == Numbered(grown, next, n + 1); }
  }

  lemma NumberedSnoc<P>(log: seq<Body<P>>, body: Body<P>, lo: nat)
    requires lo <= |log|
    ensures Numbered(log + [body], lo, |log| + 1) == Numbered(log, lo, |log|) + [Update(|log| + 1, body)]
  {}

  lemma ConsistentKeys<P>(order: seq<Key>, buffers: map<Key, seq<Update<P>>>, counts: map<Key, nat>,
                          meta: map<Key, Meta>, logs: map<Key, seq<Body<P>>>, maxEvents: nat)
    requires Consistent(order, buffers, counts, meta, logs, maxEvents)
    ensures buffers.Keys == counts.Keys == meta.Keys == logs.Keys
  {}

  lemma ConsistentAt<P>(order: seq<Key>, buffers: map<Key, seq<Update<P>>>, counts: map<Key, nat>,
                        meta: map<Key, Meta>, logs: map<Key, seq<Body<P>>>, maxEvents: nat, key: Key)
    requires Consistent(order, buffers, counts, meta, logs, maxEvents) && key in buffers
    ensures key in counts && key in meta && key in logs
    ensures Represents(buffers[key], counts[key], meta[key], logs[key], maxEvents)
  {}

  lemma DropOldest<P>(order: seq<Key>, buffers: map<Key, seq<Update<P>>>, counts: map<Key, nat>,
                      meta: map<Key, Meta>, logs: map<Key, seq<Body<P>>>, maxEvents: nat, maxTasks: nat)
    requires Consistent(order, buffers, counts, meta, logs, maxEvents) && |order| >= maxTasks > 0
    ensures var k := order[0];
      && Consistent(order[1..], buffers - {k}, counts - {k}, meta - {k}, logs - {k}, maxEvents)
      && Evict(Hub(order, logs), maxTasks) == Evict(Hub(order[1..], logs - {k}), maxTasks)
  {
    hide Represents;
    DropHead(order);
  }

  lemma AddNew<P>(order: seq<Key>, buffers: map<Key, seq<Update<P>>>, counts: map<Key, nat>,
                  meta: map<Key, Meta>, logs: map<Key, seq<Body<P>>>, maxEvents: nat, key: Key, body: Body<P>)
    requires Consistent(order, buffers, counts, meta, logs, maxEvents) && key !in logs && maxEvents > 0
    ensures Consistent(order + [key], buffers[key := Appended([], Update(1, body), maxEvents)], counts[key := 1],
                       meta[key := MetaOf(body)], logs[key := [body]], maxEvents)
  {
    hide Represents, Appended, Distinct;
    RingAppend([], 0, MetaOf(body), [], body, maxEvents);
    assert [] + [body] == [body];
    KeyAdded(order, key);
  }

  lemma KeyAdded(s: seq<Key>, k: Key)
    requires Distinct(s) && k !in s
    ensures Distinct(s + [k]) && (set x | x in s + [k]) == (set x | x in s) + {k}
  {}

  lemma AddTo<P>(order: seq<Key>, buffers: map<Key, seq<Update<P>>>, counts: map<Key, nat>,
                 meta: map<Key, Meta>, logs: map<Key, seq<Body<P>>>, maxEvents: nat, key: Key, body: Body<P>)
    requires Consistent(order, buffers, counts, meta, logs, maxEvents) && key in logs && maxEvents > 0
    ensures |Without(order, key)| + 1 == |order| && counts[key] == |logs[key]|
    ensures Consistent(Without(order, key) + [key],
                       buffers[key := Appended(buffers[key], Update(counts[key] + 1, body), maxEvents)],
                       counts[key := counts[key] + 1], meta[key := MetaOf(body)],
                       logs[key := logs[key] + [body]], maxEvents)
  {
    hide Represents, Appended, Without, Distinct;
    RingAppend(buffers[key], counts[key], meta[key], logs[key], body, maxEvents);
    RepresentsCount(buffers[key], counts[key], meta[key], logs[key], maxEvents);
    MovedToEnd(order, key);
    KeyAdded(Without(order, key), key);
  }

  lemma RepresentsCount<P>(buffer: seq<Update<P>>, count: nat, meta: Meta, log: seq<Body<P>>, maxEvents: nat)
    requires Represents(buffer, count, meta, log, maxEvents)
    ensures count == |log|
  {}

  lemma RemoveKey<P>(order: seq<Key>, buffers: map<Key, seq<Update<P>>>, counts: map<Key, nat>,
                     meta: map<Key, Meta>, logs: map<Key, seq<Body<P>>>, maxEvents: nat, key: Key)
    requires Consistent(order, buffers, counts, meta, logs, maxEvents)
    ensures Consistent(Without(order, key), buffers - {key}, counts - {key}, meta - {key}, logs - {key}, maxEvents)
  {
    hide Represents, Without, Distinct;
    MovedToEnd(order, key);
  }

  /** Reading the ring buffer gives the snapshot of the log. */
  lemma SnapshotRead<P>(
    buffer: seq<Update<P>>, count: nat, meta: Meta, log: seq<Body<P>>, maxEvents: nat, after: int, limit: int,
    now: real)
    requires maxEvents > 0 && Represents(buffer, count, meta, log, maxEvents)
    ensures buffer != []
    ensures var updates := FirstOf(NewerThan(buffer, after), Clamped(limit));
      SnapshotOf(log, maxEvents, after, limit, now) == Snapshot(updates,
        if updates != [] then updates[|updates| - 1].sequence else after,
        now - meta.updatedAt < ACTIVE_SECONDS, meta.attemptId, meta.sessionId,
        after > 0 && after < buffer[0].sequence - 1)
  {
    hide Clamped, NewerThan, Numbered;
    var n, lost := |log|, Lost(|log|, maxEvents);
    NewerNumbered(log, lost, after);
    var lo := if after < lost then lost else if after < n then after else n;
    FirstNumbered(log, lo, Clamped(limit));
  }

  lemma FirstNumbered<P>(log: seq<Body<P>>, lo: nat, count: nat)
    requires lo <= |log|
    ensures FirstOf(Numbered(log, lo, |log|), count) == Numbered(log, lo, Least(lo + count, |log|))
  {}

  // ---- least recently published ----

  datatype Op<+P> = PublishOp(key: Key, body: Body<P>) | ClearOp(key: Key)

  function Run<P>(ops: seq<Op<P>>, maxTasks: nat): Hub<P>
    requires maxTasks > 0
  {
    if ops == [] then Hub([], map[])
    else
      var h := Run(ops[..|ops| - 1], maxTasks);
      match ops[|ops| - 1]
      case PublishOp(key, body) => Publish(h, maxTasks, key, body)
      case ClearOp(key) => Clear(h, key)
  }

  /** When the key was last published to, or -1. */
  function LastPublished<P>(ops: seq<Op<P>>, k: Key): (at: int)
    ensures -1 <= at < |ops|
  {
    if ops == [] then -1
    else if ops[|ops| - 1].PublishOp? && ops[|ops| - 1].key == k then |ops| - 1
    else LastPublished(ops[..|ops| - 1], k)
  }

  /** The tasks kept are in the order of their last publications. */
  ghost predicate ByLastPublication<P>(recency: seq<Key>, ops: seq<Op<P>>) {
    forall i, j :: 0 <= i < j < |recency| ==> LastPublished(ops, recency[i]) < LastPublished(ops, recency[j])
  }

  ghost predicate HubInv<P>(h: Hub<P>, ops: seq<Op<P>>, maxTasks: nat) {
    && |h.recency| <= maxTasks && h.logs.Keys == (set k | k in h.recency)
    && ByLastPublication(h.recency, ops)
    && forall k :: k in h.logs ==> h.logs[k] != [] && LastPublished(ops, k) >= 0
  }

  lemma {:induction false} WithoutKeepsOrder<P>(s: seq<Key>, k: Key, ops: seq<Op<P>>)
    requires ByLastPublication(s, ops)
    ensures ByLastPublication(Without(s, k), ops)
    ensures k in s ==> |Without(s, k)| < |s|
    ensures (set x | x in Without(s, k)) == (set x | x in s) - {k}
  {
    if s != [] {
      assert forall i :: 0 <= i < |s[1..]| ==> s[1..][i] == s[i + 1];
      WithoutKeepsOrder(s[1..], k, ops);
      assert s == [s[0]] + s[1..];
      var rest := Without(s[1..], k);
      forall j | 0 <= j < |rest| ensures LastPublished(ops, s[0]) < LastPublished(ops, rest[j]) {
        assert rest[j] in s[1..];
      }
    }
  }

  /** What is evicted was published to before everything that stays. */
  lemma {:induction false} EvictsOldest<P>(h: Hub<P>, maxTasks: nat, ops: seq<Op<P>>)
    requires maxTasks > 0 && HubInv(h, ops, |h.recency|)
    ensures var room := Evict(h, maxTasks);
      && HubInv(room, ops, maxTasks - 1)
      && (forall k :: k in room.logs ==> k in h.logs && room.logs[k] == h.logs[k])
      && (forall out, kept :: out in h.logs && out !in room.logs && kept in room.logs ==>
        LastPublished(ops, out) < LastPublished(ops, kept))
    decreases |h.recency|
  {
    if |h.recency| >= maxTasks {
      HeadIsOldest(h, ops);
      hide LastPublished, HubInv;
      EvictsOldest(Hub(h.recency[1..], h.logs - {h.recency[0]}), maxTasks, ops);
    } else {
      hide LastPublished;
    }
  }

  /** The head of the recency list is the least recently published task; without it the list is still in order. */
  lemma HeadIsOldest<P>(h: Hub<P>, ops: seq<Op<P>>)
    requires HubInv(h, ops, |h.recency|) && h.recency != []
    ensures var next := Hub(h.recency[1..], h.logs - {h.recency[0]});
      && HubInv(next, ops, |next.recency|)
      && forall kept :: kept in next.logs ==> LastPublished(ops, h.recency[0]) < LastPublished(ops, kept)
  {
    hide LastPublished, ByLastPublication;
    var k := h.recency[0];
    TailOrder(h.recency, ops);
    DropHead(h.recency);
    assert (h.logs - {k}).Keys == h.logs.Keys - {k};
    forall kept | kept in h.logs - {k} ensures LastPublished(ops, k) < LastPublished(ops, kept) {
      assert kept in h.recency[1..];
    }
  }

  lemma TailOrder<P>(recency: seq<Key>, ops: seq<Op<P>>)
    requires recency != [] && ByLastPublication(recency, ops)
    ensures ByLastPublication(recency[1..], ops) && Distinct(recency)
    ensures forall x :: x in recency[1..] ==> LastPublished(ops, recency[0]) < LastPublished(ops, x)
  {
    hide LastPublished;
    var tail := recency[1..];
    assert forall j :: 0 <= j < |tail| ==> tail[j] == recency[j + 1];
  }

  lemma PublishKeepsOrder<P>(s: seq<Key>, key: Key, body: Body<P>, ops: seq<Op<P>>)
    requires ByLastPublication(s, ops) && key !in s
    ensures ByLastPublication(s + [key], ops + [PublishOp(key, body)])
    ensures LastPublished(ops + [PublishOp(key, body)], key) == |ops|
    ensures forall k :: k != key ==> LastPublished(ops + [PublishOp(key, body)], k) == LastPublished(ops, k)
  {
    LastPublishedSnoc(ops, PublishOp(key, body));
    hide LastPublished;
  }

  lemma LastPublishedSnoc<P>(ops: seq<Op<P>>, op: Op<P>)
    ensures forall k ::
      LastPublished(ops + [op], k) == if op.PublishOp? && op.key == k then |ops| else LastPublished(ops, k)
  {
    assert (ops + [op])[..|ops|] == ops;
  }

  lemma ClearKeepsOrder<P>(key: Key, ops: seq<Op<P>>)
    ensures forall k :: LastPublished(ops + [ClearOp(key)], k) == LastPublished(ops, k)
  {
    LastPublishedSnoc(ops, ClearOp(key));
  }

  lemma PublishKeepsInv<P>(h: Hub<P>, ops: seq<Op<P>>, maxTasks: nat, key: Key, body: Body<P>)
    requires maxTasks > 0 && HubInv(h, ops, maxTasks)
    ensures HubInv(Publish(h, maxTasks, key, body), ops + [PublishOp(key, body)], maxTasks)
  {
    hide LastPublished, Without, Evict, ByLastPublication;
    if key in h.logs {
      WithoutKeepsOrder(h.recency, key, ops);
      PublishKeepsOrder(Without(h.recency, key), key, body, ops);
      assert key in h.recency;
      KeysOfSnoc(Without(h.recency, key), key);
    } else {
      EvictsOldest(h, maxTasks, ops);
      var room := Evict(h, maxTasks);
      PublishKeepsOrder(room.recency, key, body, ops);
      KeysOfSnoc(room.recency, key);
    }
  }

  lemma KeysOfSnoc(s: seq<Key>, k: Key)
    ensures (set x | x in s + [k]) == (set x | x in s) + {k}
  {}

  /** Every run: at most maxTasks tasks, ordered by their last publication. */
  lemma {:induction false} RunInv<P>(ops: seq<Op<P>>, maxTasks: nat)
    requires maxTasks > 0
    ensures HubInv(Run(ops, maxTasks), ops, maxTasks)
  {
    if ops != [] {
      var before, op := ops[..|ops| - 1], ops[|ops| - 1];
      RunInv(before, maxTasks);
      var h := Run(before, maxTasks);
      assert ops == before + [op];
      if op.PublishOp? {
        PublishKeepsInv(h, before, maxTasks, op.key, op.body);
      } else {
        ClearKeepsOrder(op.key, before);
        WithoutKeepsOrder(h.recency, op.key, before);
        hide LastPublished, Without;
      }
    }
  }

  /** After any history, publishing evicts only tasks whose last publication is older than that of every task kept. */
  lemma LeastRecentlyPublishedGo<P>(ops: seq<Op<P>>, maxTasks: nat, key: Key, body: Body<P>, out: Key, kept: Key)
    requires maxTasks > 0
    requires var h := Run(ops, maxTasks);
      var after := Publish(h, maxTasks, key, body);
      out in h.logs && out !in after.logs && kept in h.logs && kept in after.logs
    ensures LastPublished(ops, out) < LastPublished(ops, kept)
  {
    RunInv(ops, maxTasks);
    var h := Run(ops, maxTasks);
    hide LastPublished, Run;
    EvictsOldest(h, maxTasks, ops);
  }

  /** It evicts exactly when a new task comes to a full hub, and then a single one: the least recently published. */
  lemma EvictsOneWhenFull<P>(ops: seq<Op<P>>, maxTasks: nat, key: Key, body: Body<P>)
    requires maxTasks > 0
    ensures var h := Run(ops, maxTasks);
      var after := Publish(h, maxTasks, key, body);
      && (key !in h.logs && |h.recency| == maxTasks ==>
        h.recency != [] && h.recency[0] in h.logs && after.logs.Keys == h.logs.Keys - {h.recency[0]} + {key})
      && (key in h.logs || |h.recency| < maxTasks ==> after.logs.Keys == h.logs.Keys + {key})
  {
    RunInv(ops, maxTasks);
    var h := Run(ops, maxTasks);
    hide LastPublished, Run;
    if key !in h.logs && |h.recency| == maxTasks {
      assert Evict(h, maxTasks) == Hub(h.recency[1..], h.logs - {h.recency[0]});
    }
  }

  // ---- following a task ----

  /** An update was published but is no longer in the ring buffer. */
  ghost predicate Gone<P>(log: seq<Body<P>>, maxEvents: nat, sequence: int) {
    && 1 <= sequence <= |log|
    && forall i :: 0 <= i < |Numbered(log, Lost(|log|, maxEvents), |log|)| ==>
      Numbered(log, Lost(|log|, maxEvents), |log|)[i].sequence != sequence
  }

  /** `truncated` is set exactly when the client has a position and something after it is gone. */
  lemma TruncatedWhenLost<P>(log: seq<Body<P>>, maxEvents: nat, after: int, limit: int, now: real)
    requires log != [] && maxEvents > 0
    ensures SnapshotOf(log, maxEvents, after, limit, now).truncated <==>
      after >= 1 && exists s :: after < s && Gone(log, maxEvents, s)
  {
    var lost := Lost(|log|, maxEvents);
    var buffer := Numbered(log, lost, |log|);
    forall s ensures Gone(log, maxEvents, s) <==> 1 <= s <= lost {
      if lost < s <= |log| { assert buffer[s - lost - 1].sequence == s; }
    }
    if 1 <= after < lost { assert Gone(log, maxEvents, after + 1); }
  }

  /**
   A task shows as active exactly when something was published to it in the last ten seconds of the monotonic clock.
   */
  lemma ActiveWhenRecent<P>(log: seq<Body<P>>, maxEvents: nat, after: int, limit: int, now: real)
    requires log != [] && maxEvents > 0 && forall i, j :: 0 <= i <= j < |log| ==> log[i].at <= log[j].at
    ensures SnapshotOf(log, maxEvents, after, limit, now).active <==>
      exists i :: 0 <= i < |log| && now - log[i].at < 10.0
  {}

  /** How many updates a poll asks for, and when. */
  datatype Ask = Ask(limit: int, now: real)

  /**
   How many updates a snapshot brings: the newer ones still kept, at most the limit, which is 500 if 0 and within
   1..2000.
   */
  lemma SnapshotAnswers<P>(log: seq<Body<P>>, maxEvents: nat, after: int, limit: int, now: real)
    requires log != [] && maxEvents > 0
    ensures var s := SnapshotOf(log, maxEvents, after, limit, now);
      var n := |log|;
      var kept := if n > maxEvents then maxEvents else n;
      var newer := if after >= n then 0 else if after <= n - kept then kept else n - after;
      var most := if limit == 0 then 500 else if limit < 1 then 1 else if limit > 2000 then 2000 else limit;
      && |s.updates| == Least(most, newer)
      && (newer == 0 ==> s.cursor == after)
      && (newer > 0 ==>
        s.updates[0].sequence == n - newer + 1 && s.cursor == n - newer + |s.updates|
        && s.updates[|s.updates| - 1].sequence == s.cursor)
      && (forall i :: 0 <= i < |s.updates| ==> s.updates[i].body == log[s.updates[i].sequence - 1])
      && s.attemptId == log[n - 1].attemptId && s.sessionId == log[n - 1].sessionId
  {}

  datatype Follower<+P> = Follower(received: seq<Update<P>>, cursor: int, cut: bool)

  function Poll<P>(f: Follower<P>, log: seq<Body<P>>, maxEvents: nat, ask: Ask): Follower<P>
    requires log != [] && maxEvents > 0
  {
    var s := SnapshotOf(log, maxEvents, f.cursor, ask.limit, ask.now);
    Follower(f.received + s.updates, s.cursor, f.cut || s.truncated)
  }

  /** Polling from `after` while the task goes on being published to. */
  function Follow<P>(after: int, logs: seq<seq<Body<P>>>, maxEvents: nat, asks: seq<Ask>): Follower<P>
    requires maxEvents > 0 && |logs| == |asks| && forall i :: 0 <= i < |logs| ==> logs[i] != []
  {
    var n := |logs|;
    if n == 0 then Follower([], after, false)
    else Poll(Follow(after, logs[..n - 1], maxEvents, asks[..n - 1]), logs[n - 1], maxEvents, asks[n - 1])
  }

  /** Where a client that starts at `after` begins: there, or at the oldest update kept at its first poll. */
  function StartOf<P>(after: int, log: seq<Body<P>>, maxEvents: nat): nat {
    if after >= 1 then after else Lost(|log|, maxEvents)
  }

  /**
   Unless cut, the client holds the log from `start` to its cursor (a cursor past the end is one still to be reached).
   */
  ghost predicate Stretch<P>(f: Follower<P>, start: nat, log: seq<Body<P>>) {
    && f.cursor >= 1 && start <= f.cursor && (f.cursor <= |log| || f.cursor == start)
    && (!f.cut ==> f.received == Numbered(log, start, Least(f.cursor, |log|)))
  }

  lemma FirstPoll<P>(after: int, log: seq<Body<P>>, maxEvents: nat, ask: Ask)
    requires log != [] && maxEvents > 0
    ensures Stretch(Poll(Follower([], after, false), log, maxEvents, ask), StartOf(after, log, maxEvents), log)
  {}

  lemma PollContinues<P>(f: Follower<P>, start: nat, log: seq<Body<P>>, maxEvents: nat, ask: Ask)
    requires log != [] && maxEvents > 0 && Stretch(f, start, log)
    ensures var next := Poll(f, log, maxEvents, ask);
      Stretch(next, start, log) && (next.cursor < f.cursor + Clamped(ask.limit) ==> next.cursor >= |log|)
  {}

  lemma StretchGrows<P>(f: Follower<P>, start: nat, log: seq<Body<P>>, longer: seq<Body<P>>)
    requires Stretch(f, start, log) && log <= longer
    ensures Stretch(f, start, longer)
  {
    assert forall i :: 0 <= i < |log| ==> log[i] == longer[i];
  }

  /**
   Within one buffer lifetime, following the cursor from any position reproduces the log from there, and from position 0
   the log from the oldest update kept at the first poll, without gap or repeat, unless some poll said `truncated`.
   */
  lemma {:induction false} FollowReproducesLog<P>(after: int, logs: seq<seq<Body<P>>>, maxEvents: nat, asks: seq<Ask>)
    requires maxEvents > 0 && |logs| == |asks| > 0 && forall i :: 0 <= i < |logs| ==> logs[i] != []
    requires forall i, j :: 0 <= i <= j < |logs| ==> logs[i] <= logs[j]
    ensures Stretch(Follow(after, logs, maxEvents, asks), StartOf(after, logs[0], maxEvents), logs[|logs| - 1])
  {
    hide Stretch, Poll, StartOf;
    var n := |logs|;
    var start := StartOf(after, logs[0], maxEvents);
    if n == 1 {
      FirstPoll(after, logs[0], maxEvents, asks[0]);
      assert Follow(after, logs[..0], maxEvents, asks[..0]) == Follower([], after, false);
    } else {
      var earlier := logs[..n - 1];
      assert forall i :: 0 <= i < n - 1 ==> earlier[i] == logs[i];
      FollowReproducesLog(after, earlier, maxEvents, asks[..n - 1]);
      var before := Follow(after, earlier, maxEvents, asks[..n - 1]);
      StretchGrows(before, start, logs[n - 2], logs[n - 1]);
      PollContinues(before, start, logs[n - 1], maxEvents, asks[n - 1]);
    }
  }
}
