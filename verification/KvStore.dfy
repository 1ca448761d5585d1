/** The compare-and-swap map every protocol of the framework runs on (local_store.LocalStore). */
module KvStore {
  datatype Option<+T> = None | Some(value: T)

  datatype Entry<+V> = Entry(value: V, index: nat)

  /** The store as a value: the present keys and the global modify index. */
  datatype Kv<!K, +V> = Kv(entries: map<K, Entry<V>>, index: nat)

  /** What kv_get returns: the value and its index, or nothing and the global index. */
  datatype Read<+V> = Read(value: Option<V>, index: nat)

  const FIRST_INDEX: nat := 100

  function Empty<K, V>(): Kv<K, V> {
    Kv(map[], FIRST_INDEX)
  }

  function Get<K, V>(kv: Kv<K, V>, k: K): Read<V> {
    if k in kv.entries then Read(Some(kv.entries[k].value), kv.entries[k].index) else Read(None, kv.index)
  }

  /** The index a compare-and-swap is compared with: 0 for an absent key. */
  function CurrentIndex<K, V>(kv: Kv<K, V>, k: K): nat {
    if k in kv.entries then kv.entries[k].index else 0
  }

  predicate CasOk<K, V>(kv: Kv<K, V>, k: K, cas: Option<nat>) {
    cas.None? || CurrentIndex(kv, k) == cas.value
  }

  function Put<K, V>(kv: Kv<K, V>, k: K, v: V, cas: Option<nat>): Kv<K, V> {
    if CasOk(kv, k, cas) then Kv(kv.entries[k := Entry(v, kv.index + 1)], kv.index + 1) else kv
  }

  /** Deletes the present keys among ks; the index moves only when there are some. */
  function DeleteAll<K, V>(kv: Kv<K, V>, ks: set<K>): Kv<K, V> {
    if ks !! kv.entries.Keys then kv else Kv(kv.entries - ks, kv.index + 1)
  }

  class LocalStore<K(==), V> {
    var entries: map<K, Entry<V>>
    var globalIndex: nat

    ghost function Model(): Kv<K, V>
      reads this
    {
      Kv(entries, globalIndex)
    }

    constructor ()
      ensures Model() == Empty()
    {
      entries, globalIndex := map[], FIRST_INDEX;
    }

    method KvGet(key: K) returns (value: Option<V>, index: nat)
      ensures Read(value, index) == Get(Model(), key)
    {
      if key in entries {
        return Some(entries[key].value), entries[key].index;
      }
      return None, globalIndex;
    }

    method KvPut(key: K, value: V, cas: Option<nat>) returns (ok: bool)
      modifies this
      ensures ok == CasOk(old(Model()), key, cas)
      ensures Model() == Put(old(Model()), key, value, cas)
    {
      if cas.Some? {
        var currentIndex := if key in entries then entries[key].index else 0;
        if currentIndex != cas.value {
          return false;
        }
      }
      globalIndex := globalIndex + 1;
      entries := entries[key := Entry(value, globalIndex)];
      return true;
    }

    method KvDelete(key: K)
      modifies this
      ensures Model() == DeleteAll(old(Model()), {key})
    {
      if key in entries {
        entries := entries - {key};
        globalIndex := globalIndex + 1;
      }
    }

    /** kv_delete with recurse: every key the prefix selects. */
    method KvDeleteRecurse(selected: K -> bool)
      modifies this
      ensures Model() == DeleteAll(old(Model()), set k | k in old(entries) && selected(k))
    {
      var doomed := set k | k in entries && selected(k);
      entries := entries - doomed;
      if doomed != {} {
        globalIndex := globalIndex + 1;
      }
    }
  }

  // ---- histories ----

  datatype Op<!K, +V> =
    | PutOp(key: K, value: V, cas: Option<nat>)
    | DeleteOp(keys: set<K>)

  function Do<K, V>(kv: Kv<K, V>, op: Op<K, V>): Kv<K, V> {
    match op
    case PutOp(k, v, cas) => Put(kv, k, v, cas)
    case DeleteOp(ks) => DeleteAll(kv, ks)
  }

  function Run<K, V>(kv: Kv<K, V>, ops: seq<Op<K, V>>): Kv<K, V> {
    if ops == [] then kv else Do(Run(kv, ops[..|ops| - 1]), ops[|ops| - 1])
  }

  /** The operation really writes or deletes the key. */
  predicate Touches<K, V>(kv: Kv<K, V>, op: Op<K, V>, k: K) {
    match op
    case PutOp(key, _, cas) => key == k && CasOk(kv, k, cas)
    case DeleteOp(ks) => k in ks && k in kv.entries
  }

  ghost predicate WellFormed<K(!new), V>(kv: Kv<K, V>) {
    && kv.index >= FIRST_INDEX
    && forall k :: k in kv.entries ==> FIRST_INDEX < kv.entries[k].index <= kv.index
  }

  lemma EmptyWellFormed<K(!new), V>()
    ensures WellFormed(Empty<K, V>())
  {}

  lemma DoWellFormed<K(!new), V>(kv: Kv<K, V>, op: Op<K, V>)
    requires WellFormed(kv)
    ensures WellFormed(Do(kv, op)) && kv.index <= Do(kv, op).index
  {}

  lemma {:induction false} RunWellFormed<K(!new), V>(kv: Kv<K, V>, ops: seq<Op<K, V>>)
    requires WellFormed(kv)
    ensures WellFormed(Run(kv, ops)) && kv.index <= Run(kv, ops).index
  {
    if ops != [] {
      RunWellFormed(kv, ops[..|ops| - 1]);
      DoWellFormed(Run(kv, ops[..|ops| - 1]), ops[|ops| - 1]);
    }
  }

  /** Some operation of the history wrote or deleted k. */
  predicate Touched<K, V>(kv: Kv<K, V>, ops: seq<Op<K, V>>, k: K) {
    exists j :: 0 <= j < |ops| && Touches(Run(kv, ops[..j]), ops[j], k)
  }

  lemma TouchedSnoc<K, V>(kv: Kv<K, V>, ops: seq<Op<K, V>>, k: K)
    requires ops != []
    ensures Touched(kv, ops, k) <==>
      Touched(kv, ops[..|ops| - 1], k) || Touches(Run(kv, ops[..|ops| - 1]), ops[|ops| - 1], k)
  {
    var shorter := ops[..|ops| - 1];
    assert forall j :: 0 <= j < |shorter| ==> shorter[..j] == ops[..j] && shorter[j] == ops[j];
  }

  lemma {:induction false} AfterHistory<K(!new), V>(kv: Kv<K, V>, ops: seq<Op<K, V>>, k: K)
    requires WellFormed(kv)
    ensures !Touched(kv, ops, k) ==>
      && (k in Run(kv, ops).entries <==> k in kv.entries)
      && (k in kv.entries ==> Run(kv, ops).entries[k] == kv.entries[k])
    ensures Touched(kv, ops, k) ==> CurrentIndex(Run(kv, ops), k) == 0 || CurrentIndex(Run(kv, ops), k) > kv.index
  {
    if ops != [] {
      AfterHistory(kv, ops[..|ops| - 1], k);
      RunWellFormed(kv, ops[..|ops| - 1]);
      TouchedSnoc(kv, ops, k);
    }
  }

  /**
   No ABA: after a read of a present key, a compare-and-swap on the index it returned succeeds
   exactly when nothing has written or deleted the key since.
   */
  lemma NoAba<K(!new), V>(kv: Kv<K, V>, ops: seq<Op<K, V>>, k: K)
    requires WellFormed(kv) && k in kv.entries
    ensures CasOk(Run(kv, ops), k, Some(Get(kv, k).index)) <==> !Touched(kv, ops, k)
    ensures CasOk(Run(kv, ops), k, Some(Get(kv, k).index)) ==> Get(Run(kv, ops), k) == Get(kv, k)
  {
    AfterHistory(kv, ops, k);
  }

  /** How many operations of the history changed the store. */
  ghost function Changes<K(!new), V>(kv: Kv<K, V>, ops: seq<Op<K, V>>): nat {
    if ops == [] then 0
    else
      var front, last := ops[..|ops| - 1], ops[|ops| - 1];
      Changes(kv, front) + if exists k :: Touches(Run(kv, front), last, k) then 1 else 0
  }

  /**
   The global index counts the changes from 100 on: every write and every delete that removed something moves it by one.
   */
  lemma {:induction false} IndexCountsChanges<K(!new), V>(kv: Kv<K, V>, ops: seq<Op<K, V>>)
    ensures Run(kv, ops).index == kv.index + Changes(kv, ops)
  {
    if ops != [] {
      var front, last := ops[..|ops| - 1], ops[|ops| - 1];
      IndexCountsChanges(kv, front);
      var before := Run(kv, front);
      match last
      case PutOp(key, _, cas) => if CasOk(before, key, cas) { assert Touches(before, last, key); }
      case DeleteOp(ks) => if k :| k in ks && k in before.entries { assert Touches(before, last, k); }
    }
  }

  /** A written entry carries the global index of its write, a new store starts at 100 and has nothing. */
  lemma WriteCarriesIndex<K(!new), V>(kv: Kv<K, V>, k: K, v: V, cas: Option<nat>)
    requires CasOk(kv, k, cas)
    ensures Get(Put(kv, k, v, cas), k) == Read(Some(v), kv.index + 1) && Put(kv, k, v, cas).index == kv.index + 1
    ensures forall x :: x in kv.entries && x != k ==> Put(kv, k, v, cas).entries[x] == kv.entries[x]
    ensures Get(Empty<K, V>(), k) == Read(None, 100)
  {}

  /** cas=0 is "create": it succeeds exactly on an absent key. */
  lemma CasZeroCreates<K(!new), V>(kv: Kv<K, V>, ops: seq<Op<K, V>>, k: K)
    requires WellFormed(kv)
    ensures CasOk(Run(kv, ops), k, Some(0)) <==> k !in Run(kv, ops).entries
  {
    RunWellFormed(kv, ops);
  }

  /** The index a missed read returns never lets a later compare-and-swap on that key through. */
  lemma MissedReadNeverWrites<K(!new), V>(kv: Kv<K, V>, ops: seq<Op<K, V>>, k: K)
    requires WellFormed(kv) && k !in kv.entries
    ensures !CasOk(Run(kv, ops), k, Some(Get(kv, k).index))
  {
    AfterHistory(kv, ops, k);
  }

  // ---- the same fact one step at a time, as the protocols use it ----

  /** r is what some earlier read of k returned. */
  ghost predicate Remembers<K, V>(kv: Kv<K, V>, k: K, r: Read<V>) {
    && FIRST_INDEX <= r.index <= kv.index
    && (CurrentIndex(kv, k) == r.index ==> r.value == Get(kv, k).value)
  }

  lemma RememberNow<K(!new), V>(kv: Kv<K, V>, k: K)
    requires WellFormed(kv)
    ensures Remembers(kv, k, Get(kv, k))
  {}

  lemma RememberLater<K(!new), V>(kv: Kv<K, V>, op: Op<K, V>, k: K, r: Read<V>)
    requires WellFormed(kv) && Remembers(kv, k, r)
    ensures Remembers(Do(kv, op), k, r)
  {}
}
