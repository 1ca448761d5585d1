/**
 Paged listing of keys (kv_pagination.paginate_items, LocalStore.kv_list): what one page holds, and what a scan of
 several pages returns while the store changes between them.
 */
module KvPagination {
  import opened Texts
  import opened KvStore
  import opened KvCursor

  const MAX_KV_LIST_LIMIT := 1000

  datatype Item<+V> = Item(key: Text, value: V, modifyIndex: nat)

  /** A page, or the ValueError for a bad limit or cursor. */
  datatype Page<+V> = Rejected | Page(items: seq<Item<V>>, next: Option<Text>)

  predicate LegalLimit(limit: int) {
    1 <= limit <= MAX_KV_LIST_LIMIT
  }

  function Matching<V>(kv: Kv<Text, V>, prefix: Text): set<Text> {
    set k | k in kv.entries && prefix <= k
  }

  /** The ordered keys strictly after the cursor's key. */
  function KeptAfter(s: seq<Text>, after: Text): seq<Text> {
    if s == [] then [] else (if Less(after, s[0]) then [s[0]] else []) + KeptAfter(s[1..], after)
  }

  lemma {:induction false} KeptAfterMembers(s: seq<Text>, after: Text)
    requires Increasing(s)
    ensures Increasing(KeptAfter(s, after))
    ensures forall k :: k in KeptAfter(s, after) <==> k in s && Less(after, k)
  {
    if s != [] {
      KeptAfterMembers(s[1..], after);
      forall k ensures k in s <==> k == s[0] || k in s[1..] {
        assert s == [s[0]] + s[1..];
      }
      var tail := KeptAfter(s[1..], after);
      forall j | 0 <= j < |tail| ensures Less(s[0], tail[j]) {
        assert tail[j] in s[1..];
      }
    }
  }

  function ItemAt<V>(kv: Kv<Text, V>, key: Text): Item<V>
    requires key in kv.entries
  {
    Item(key, kv.entries[key].value, kv.entries[key].index)
  }

  function TakePage<V>(kv: Kv<Text, V>, prefix: Text, ordered: seq<Text>, limit: nat): Page<V>
    requires limit > 0
    requires forall k :: k in ordered ==> k in kv.entries
  {
    var count := if limit < |ordered| then limit else |ordered|;
    var page := seq(count, i requires 0 <= i < count => ItemAt(kv, ordered[i]));
    Page(page, if |ordered| > count then Some(EncodeCursor(prefix, ordered[count - 1])) else None)
  }

  function ListPage<V>(kv: Kv<Text, V>, prefix: Text, cursor: Option<Text>, limit: int): Page<V> {
    if !LegalLimit(limit) then Rejected
    else
      var ordered := SortedSet(Matching(kv, prefix));
      match DecodeCursor(cursor, prefix)
      case Invalid => Rejected
      case NoCursor => TakePage(kv, prefix, ordered, limit)
      case After(key) =>
        KeptAfterMembers(ordered, key);
        TakePage(kv, prefix, KeptAfter(ordered, key), limit)
  }

  // ---- one page ----

  function Keys<V>(items: seq<Item<V>>): (r: seq<Text>)
    ensures |r| == |items|
  {
    seq(|items|, i requires 0 <= i < |items| => items[i].key)
  }

  /** Whether key k comes after where the listing stands. */
  predicate Beyond(after: Option<Text>, k: Text) {
    after.None? || Less(after.value, k)
  }

  /** The least matching keys beyond `after`, with their entries, and a cursor exactly if some are left over. */
  ghost predicate IsPage<V>(kv: Kv<Text, V>, prefix: Text, after: Option<Text>, limit: int, page: Page<V>)
    requires LegalLimit(limit)
  {
    && page.Page?
    && var keys := Keys(page.items);
    && Increasing(keys) && |keys| <= limit
    && (forall i :: 0 <= i < |keys| ==>
      && keys[i] in Matching(kv, prefix) && Beyond(after, keys[i])
      && page.items[i] == ItemAt(kv, keys[i]))
    && (page.next.Some? ==>
      && |keys| == limit && page.next == Some(EncodeCursor(prefix, keys[limit - 1])))
    && (forall k :: k in Matching(kv, prefix) && Beyond(after, k) ==>
      k in keys || (page.next.Some? && Less(keys[limit - 1], k)))
    && (page.next.Some? ==> exists k :: k in Matching(kv, prefix) && Beyond(after, k) && k !in keys)
  }

  lemma TakePageMeaning<V>(kv: Kv<Text, V>, prefix: Text, after: Option<Text>, ordered: seq<Text>, limit: nat)
    requires LegalLimit(limit) && Increasing(ordered)
    requires forall k :: k in ordered <==> k in Matching(kv, prefix) && Beyond(after, k)
    ensures IsPage(kv, prefix, after, limit, TakePage(kv, prefix, ordered, limit))
  {
    hide EncodeCursor, Beyond;
    var page := TakePage(kv, prefix, ordered, limit);
    var keys := Keys(page.items);
    forall i | 0 <= i < |keys| ensures keys[i] == ordered[i] && keys[i] in Matching(kv, prefix) {
      assert ordered[i] in ordered;
    }
    forall k | k in Matching(kv, prefix) && Beyond(after, k)
      ensures k in keys || (page.next.Some? && Less(keys[limit - 1], k))
    {
      var j :| 0 <= j < |ordered| && ordered[j] == k;
      if j < |keys| { assert keys[j] == k; }
    }
    if page.next.Some? {
      var k := ordered[limit];
      assert k in ordered;
      if k in keys {
        var i :| 0 <= i < |keys| && keys[i] == k;
        LessIrreflexive(k);
      }
    }
  }

  /** One page, from where its cursor says; the cursor is the one of a listing with the same prefix or none. */
  lemma PageMeaning<V>(kv: Kv<Text, V>, prefix: Text, cursor: Option<Text>, after: Option<Text>, limit: int)
    requires LegalLimit(limit)
    requires DecodeCursor(cursor, prefix) == if after.None? then NoCursor else After(after.value)
    ensures IsPage(kv, prefix, after, limit, ListPage(kv, prefix, cursor, limit))
  {
    hide DecodeCursor, IsPage, TakePage;
    var ordered := SortedSet(Matching(kv, prefix));
    if after.None? {
      TakePageMeaning(kv, prefix, after, ordered, limit);
    } else {
      KeptAfterMembers(ordered, after.value);
      TakePageMeaning(kv, prefix, after, KeptAfter(ordered, after.value), limit);
    }
  }

  // ---- the listing method ----

  function StandingAt(decoded: Decoded): Option<Text> {
    if decoded.After? then Some(decoded.key) else None
  }

  /** Refuses a bad limit or cursor; otherwise a page of the store from where the cursor stands. */
  method KvList<V>(store: LocalStore<Text, V>, prefix: Text, cursor: Option<Text>, limit: int) returns (page: Page<V>)
    ensures page.Rejected? <==> limit < 1 || limit > 1000 || DecodeCursor(cursor, prefix).Invalid?
    ensures page.Page? ==> IsPage(store.Model(), prefix, StandingAt(DecodeCursor(cursor, prefix)), limit, page)
    ensures page == ListPage(store.Model(), prefix, cursor, limit)
  {
    hide DecodeCursor, IsPage, EncodeCursor, Less;
    if limit < 1 || limit > MAX_KV_LIST_LIMIT {
      return Rejected;
    }
    var afterKey := DecodeCursor(cursor, prefix);
    if afterKey.Invalid? {
      return Rejected;
    }
    var ordered := SortedSet(set k | k in store.entries && prefix <= k);
    if afterKey.After? {
      KeptAfterMembers(ordered, afterKey.key);
      ordered := StrictlyAfter(ordered, afterKey.key);
    }
    page := FirstPage(store, prefix, ordered, limit);
    PageMeaning(store.Model(), prefix, cursor, StandingAt(afterKey), limit);
  }

  /** ordered[:limit] with the entries, and a cursor for the last one if some are left. */
  method FirstPage<V>(store: LocalStore<Text, V>, prefix: Text, ordered: seq<Text>, limit: nat) returns (page: Page<V>)
    requires limit > 0 && forall k :: k in ordered ==> k in store.entries
    ensures page == TakePage(store.Model(), prefix, ordered, limit)
  {
    hide EncodeCursor;
    var items: seq<Item<V>> := [];
    while |items| < limit && |items| < |ordered|
      invariant |items| <= limit && |items| <= |ordered|
      invariant forall i :: 0 <= i < |items| ==> items[i] == ItemAt(store.Model(), ordered[i])
    {
      var k := ordered[|items|];
      items := items + [Item(k, store.entries[k].value, store.entries[k].index)];
    }
    var next := None;
    if |ordered| > |items| && items != [] {
      next := Some(EncodeCursor(prefix, items[|items| - 1].key));
    }
    page := Page(items, next);
  }

  method StrictlyAfter(ordered: seq<Text>, afterKey: Text) returns (kept: seq<Text>)
    ensures kept == KeptAfter(ordered, afterKey)
  {
    hide Less;
    kept := [];
    for i := 0 to |ordered|
      invariant kept + KeptAfter(ordered[i..], afterKey) == KeptAfter(ordered, afterKey)
    {
      if Less(afterKey, ordered[i]) {
        kept := kept + [ordered[i]];
      }
      assert ordered[i..][1..] == ordered[i + 1..];
    }
  }

  /**
   The cursor of another prefix is refused, whatever the store holds; one of this prefix is refused only with its limit.
   */
  lemma BadRequestsRefused<V>(kv: Kv<Text, V>, prefix: Text, other: Text, key: Text, limit: int)
    requires ScalarValues(other) && ScalarValues(key)
    ensures ListPage(kv, prefix, Some(EncodeCursor(other, key)), limit).Rejected? <==>
      other != prefix || limit < 1 || limit > 1000
  {
    ScalarRoundTrip(other, key, prefix);
    hide DecodeCursor, EncodeCursor, ScalarValues;
  }

  lemma {:induction false} KeptAfterAt(s: seq<Text>, c: nat)
    requires Increasing(s) && 0 < c <= |s|
    ensures KeptAfter(s, s[c - 1]) == s[c..]
  {
    KeptAfterMembers(s, s[c - 1]);
    forall k ensures k in KeptAfter(s, s[c - 1]) <==> k in s[c..] {
      if k in s && Less(s[c - 1], k) {
        var j :| 0 <= j < |s| && s[j] == k;
        if j < c - 1 {
          LessTransitive(s[c - 1], s[j], s[c - 1]);
        }
        LessIrreflexive(s[c - 1]);
        assert s[c..][j - c] == k;
      }
    }
    IncreasingUnique(KeptAfter(s, s[c - 1]), s[c..]);
  }

  /** Listing with the cursor of the c-th matching key continues right after it. */
  lemma PageAt<V>(kv: Kv<Text, V>, prefix: Text, keys: seq<Text>, c: nat, cursor: Option<Text>, limit: int)
    requires LegalLimit(limit) && keys == SortedSet(Matching(kv, prefix)) && c <= |keys|
    requires DecodeCursor(cursor, prefix) == if c == 0 then NoCursor else After(keys[c - 1])
    requires forall k :: k in keys[c..] ==> k in kv.entries
    ensures ListPage(kv, prefix, cursor, limit) == TakePage(kv, prefix, keys[c..], limit)
  {
    hide DecodeCursor, TakePage, KeptAfter, Matching;
    if c == 0 {
      assert keys[0..] == keys;
    } else {
      KeptAfterAt(keys, c);
    }
  }

  // ---- a scan ----

  function NextOf<V>(pages: seq<Page<V>>, i: nat): Option<Text>
    requires i <= |pages|
  {
    if i == 0 || pages[i - 1].Rejected? then None else pages[i - 1].next
  }

  /** Page i was listed on stores[i] with the cursor of page i - 1; the scan went on only while there was one. */
  ghost predicate ScanOf<V>(stores: seq<Kv<Text, V>>, prefix: Text, limits: seq<int>, pages: seq<Page<V>>) {
    && |stores| == |limits| == |pages|
    && (forall i :: 0 <= i < |pages| ==> LegalLimit(limits[i]))
    && (forall i :: 0 <= i < |pages| ==>
      && pages[i] == ListPage(stores[i], prefix, NextOf(pages, i), limits[i])
      && (i > 0 ==> NextOf(pages, i).Some?))
  }

  function PageKeys<V>(page: Page<V>): seq<Text> {
    if page.Page? then Keys(page.items) else []
  }

  function Collected<V>(pages: seq<Page<V>>, n: nat): seq<Text>
    requires n <= |pages|
  {
    if n == 0 then [] else Collected(pages, n - 1) + PageKeys(pages[n - 1])
  }

  /** Where the scan goes on: at the last key returned, as its cursor gives it back. */
  function ResumesAt(keys: seq<Text>): Option<Text> {
    if keys == [] then None else Some(Merged(keys[|keys| - 1]))
  }

  ghost predicate Throughout<V>(stores: seq<Kv<Text, V>>, prefix: Text, n: nat, k: Text)
    requires n <= |stores|
  {
    forall i :: 0 <= i < n ==> k in Matching(stores[i], prefix)
  }

  /** The page's cursor came back as a later key than it was made from, and k lies in between. */
  predicate SkippedAt<V>(page: Page<V>, k: Text) {
    && page.Page? && page.next.Some? && page.items != []
    && var last := page.items[|page.items| - 1].key;
    Less(last, k) && !Less(Merged(last), k)
  }

  ghost predicate Skipped<V>(pages: seq<Page<V>>, n: nat, k: Text)
    requires n <= |pages|
  {
    exists i :: 0 <= i < n && SkippedAt(pages[i], k)
  }

  /** The cursor is that of the last key returned. */
  ghost predicate Stands(prefix: Text, keys: seq<Text>, next: Option<Text>) {
    next.Some? ==> keys != [] && next == Some(EncodeCursor(prefix, keys[|keys| - 1]))
  }

  /** A key is still to come: the scan goes on, and the key is past the point where it does. */
  ghost predicate Ahead(keys: seq<Text>, next: Option<Text>, k: Text) {
    next.Some? && keys != [] && Less(Merged(keys[|keys| - 1]), k)
  }

  ghost predicate NonePassed<V>(stores: seq<Kv<Text, V>>, prefix: Text, pages: seq<Page<V>>, n: nat)
    requires n <= |stores| == |pages|
  {
    forall k :: Throughout(stores, prefix, n, k) ==>
      k in Collected(pages, n) || Ahead(Collected(pages, n), NextOf(pages, n), k) || Skipped(pages, n, k)
  }

  /**
   After n pages: the cursor stands at the last key returned, and no key present all along was passed over otherwise.
   */
  ghost predicate ScanInv<V>(stores: seq<Kv<Text, V>>, prefix: Text, pages: seq<Page<V>>, n: nat)
    requires n <= |stores| == |pages|
  {
    && Increasing(Collected(pages, n))
    && Stands(prefix, Collected(pages, n), NextOf(pages, n))
    && (n > 0 ==> pages[n - 1].Page? && NonePassed(stores, prefix, pages, n))
  }

  lemma IncreasingConcat(a: seq<Text>, b: seq<Text>)
    requires Increasing(a) && Increasing(b)
    requires a != [] ==> forall i :: 0 <= i < |b| ==> Less(a[|a| - 1], b[i])
    ensures Increasing(a + b)
  {
    forall i, j | 0 <= i < |a| && 0 <= j < |b| ensures Less(a[i], b[j]) {
      if i < |a| - 1 { LessTransitive(a[i], a[|a| - 1], b[j]); }
    }
  }

  /** Past where a cursor comes back to is past the key it was made from. */
  lemma PastMerged(key: Text, k: Text)
    requires Less(Merged(key), k)
    ensures Less(key, k)
  {
    MergedShorter(key);
    if !Unpaired(key) {
      MergedGrows(key);
      LessAppend(key, 0);
      hide Less, Merged, Unpaired;
      LessTransitive(key, key + [0], Merged(key));
      LessTransitive(key, Merged(key), k);
    }
  }

  /** The cursor the scan stands on decodes to where it goes on. */
  lemma CursorStands<V>(stores: seq<Kv<Text, V>>, prefix: Text, pages: seq<Page<V>>, n: nat)
    requires n <= |stores| == |pages| && Unpaired(prefix) && ScanInv(stores, prefix, pages, n)
    requires n > 0 ==> NextOf(pages, n).Some?
    ensures var after := ResumesAt(Collected(pages, n));
      DecodeCursor(NextOf(pages, n), prefix) == if after.None? then NoCursor else After(after.value)
  {
    hide EncodeCursor, Unpaired, NonePassed, Increasing, Merged;
    if n > 0 {
      hide DecodeCursor, Collected;
      var keys := Collected(pages, n);
      EncodedDecodes(prefix, keys[|keys| - 1], prefix);
      MergedShorter(prefix);
    }
  }

  lemma ScanStep<V>(stores: seq<Kv<Text, V>>, prefix: Text, limits: seq<int>, pages: seq<Page<V>>, n: nat)
    requires ScanOf(stores, prefix, limits, pages) && Unpaired(prefix) && n < |pages|
    requires ScanInv(stores, prefix, pages, n)
    ensures IsPage(stores[n], prefix, ResumesAt(Collected(pages, n)), limits[n], pages[n])
    ensures ScanInv(stores, prefix, pages, n + 1)
  {
    hide ScanInv, IsPage, ListPage, Collected, ResumesAt, Unpaired;
    CursorStands(stores, prefix, pages, n);
    PageMeaning(stores[n], prefix, NextOf(pages, n), ResumesAt(Collected(pages, n)), limits[n]);
    PageExtends(stores, prefix, limits, pages, n);
  }

  /** A key that the earlier pages had not passed is not passed by the next one, unless its cursor skips it. */
  lemma NothingPassed<V>(kv: Kv<Text, V>, prefix: Text, was: seq<Text>, limit: int, page: Page<V>, k: Text)
    requires LegalLimit(limit) && IsPage(kv, prefix, ResumesAt(was), limit, page)
    requires k in Matching(kv, prefix) && (k in was || Beyond(ResumesAt(was), k))
    ensures var keys := was + Keys(page.items);
      k in keys || Ahead(keys, page.next, k) || SkippedAt(page, k)
  {
    hide EncodeCursor, Less, Matching, Merged;
    var keys := Keys(page.items);
    if page.next.Some? { assert (was + keys)[|was + keys| - 1] == keys[limit - 1] == page.items[|page.items| - 1].key; }
  }

  /** The next page continues in order, and its cursor stands at its last key. */
  lemma PageContinues<V>(kv: Kv<Text, V>, prefix: Text, was: seq<Text>, limit: int, page: Page<V>)
    requires LegalLimit(limit) && IsPage(kv, prefix, ResumesAt(was), limit, page) && Increasing(was)
    ensures Increasing(was + Keys(page.items))
    ensures Stands(prefix, was + Keys(page.items), page.next)
  {
    hide EncodeCursor, Less, Merged, Matching;
    var keys := Keys(page.items);
    if was != [] {
      forall i | 0 <= i < |keys| ensures Less(was[|was| - 1], keys[i]) { PastMerged(was[|was| - 1], keys[i]); }
    }
    IncreasingConcat(was, keys);
    if page.next.Some? { assert (was + keys)[|was + keys| - 1] == keys[limit - 1]; }
  }

  lemma StillNonePassed<V>(stores: seq<Kv<Text, V>>, prefix: Text, limits: seq<int>, pages: seq<Page<V>>, n: nat)
    requires n < |stores| == |pages| == |limits| && LegalLimit(limits[n]) && pages[n].Page?
    requires IsPage(stores[n], prefix, ResumesAt(Collected(pages, n)), limits[n], pages[n])
    requires n > 0 ==> NextOf(pages, n).Some? && NonePassed(stores, prefix, pages, n)
    ensures NonePassed(stores, prefix, pages, n + 1)
  {
    hide IsPage, Keys, Less, Matching, Merged, SkippedAt;
    var m := n + 1;
    forall k | Throughout(stores, prefix, m, k)
      ensures k in Collected(pages, m) || Ahead(Collected(pages, m), NextOf(pages, m), k) || Skipped(pages, m, k)
    {
      assert Throughout(stores, prefix, n, k);
      assert k in Matching(stores[n], prefix);
      if !Skipped(pages, n, k) {
        NothingPassed(stores[n], prefix, Collected(pages, n), limits[n], pages[n], k);
      }
    }
  }

  lemma PageExtends<V>(stores: seq<Kv<Text, V>>, prefix: Text, limits: seq<int>, pages: seq<Page<V>>, n: nat)
    requires n < |pages| == |stores| == |limits|
    requires ScanInv(stores, prefix, pages, n) && LegalLimit(limits[n])
    requires n > 0 ==> NextOf(pages, n).Some?
    requires IsPage(stores[n], prefix, ResumesAt(Collected(pages, n)), limits[n], pages[n])
    ensures ScanInv(stores, prefix, pages, n + 1)
  {
    assert pages[n].Page?;
    hide IsPage, Stands, NonePassed, Keys, Increasing, ResumesAt;
    PageContinues(stores[n], prefix, Collected(pages, n), limits[n], pages[n]);
    StillNonePassed(stores, prefix, limits, pages, n);
  }

  lemma {:induction false} ScanInvAt<V>(
    stores: seq<Kv<Text, V>>, prefix: Text, limits: seq<int>, pages: seq<Page<V>>, n: nat)
    requires ScanOf(stores, prefix, limits, pages) && Unpaired(prefix) && n <= |pages|
    ensures ScanInv(stores, prefix, pages, n)
  {
    hide *;
    ScanOfSizes(stores, prefix, limits, pages);
    if n == 0 {
      ScanStarts(stores, prefix, pages);
    } else {
      ScanInvAt(stores, prefix, limits, pages, n - 1);
      ScanStep(stores, prefix, limits, pages, n - 1);
    }
  }

  lemma ScanStarts<V>(stores: seq<Kv<Text, V>>, prefix: Text, pages: seq<Page<V>>)
    requires |stores| == |pages|
    ensures ScanInv(stores, prefix, pages, 0)
  {}

  lemma ScanOfSizes<V>(stores: seq<Kv<Text, V>>, prefix: Text, limits: seq<int>, pages: seq<Page<V>>)
    requires ScanOf(stores, prefix, limits, pages)
    ensures |stores| == |limits| == |pages| && forall i :: 0 <= i < |limits| ==> LegalLimit(limits[i])
    ensures forall i :: 0 < i < |pages| ==> NextOf(pages, i).Some?
  {}

  /** Page i starts where the pages before it say; all of a scan's facts about one page. */
  lemma PageOfScan<V>(stores: seq<Kv<Text, V>>, prefix: Text, limits: seq<int>, pages: seq<Page<V>>, i: nat)
    requires ScanOf(stores, prefix, limits, pages) && Unpaired(prefix) && i < |pages|
    ensures LegalLimit(limits[i]) && IsPage(stores[i], prefix, ResumesAt(Collected(pages, i)), limits[i], pages[i])
    ensures Increasing(Collected(pages, i + 1))
  {
    hide *;
    ScanOfSizes(stores, prefix, limits, pages);
    ScanInvAt(stores, prefix, limits, pages, i);
    ScanInvAt(stores, prefix, limits, pages, i + 1);
    ScanStep(stores, prefix, limits, pages, i);
    IncreasingIn(stores, prefix, pages, i + 1);
  }

  lemma IncreasingIn<V>(stores: seq<Kv<Text, V>>, prefix: Text, pages: seq<Page<V>>, n: nat)
    requires n <= |stores| == |pages| && ScanInv(stores, prefix, pages, n)
    ensures Increasing(Collected(pages, n))
  {}

  // ---- what a scan skips, it never returns ----

  lemma {:induction false} CollectedFrom<V>(pages: seq<Page<V>>, i: nat, n: nat, x: Text)
    requires i <= n <= |pages| && x in Collected(pages, n)
    ensures x in Collected(pages, i) || exists j :: i <= j < n && x in PageKeys(pages[j])
  {
    if i < n && x !in PageKeys(pages[n - 1]) { CollectedFrom(pages, i, n - 1, x); }
  }

  lemma CollectedEnds<V>(pages: seq<Page<V>>, i: nat)
    requires i < |pages| && pages[i].Page? && pages[i].items != []
    ensures var keys := Collected(pages, i + 1);
      keys != [] && keys[|keys| - 1] == pages[i].items[|pages[i].items| - 1].key
  {}

  /** Pages after page i hold keys past the point where its cursor resumes. */
  lemma {:induction false} LaterPagesPast<V>(
    stores: seq<Kv<Text, V>>, prefix: Text, limits: seq<int>, pages: seq<Page<V>>, i: nat, j: nat, x: Text)
    requires ScanOf(stores, prefix, limits, pages) && Unpaired(prefix) && i < j < |pages|
    requires pages[i].Page? && pages[i].items != [] && x in PageKeys(pages[j])
    ensures Less(Merged(pages[i].items[|pages[i].items| - 1].key), x)
  {
    hide ScanOf, Unpaired, Less, Merged, Collected, EncodeCursor;
    PageOfScan(stores, prefix, limits, pages, j);
    if j == i + 1 {
      CollectedEnds(pages, i);
    } else {
      PageOfScan(stores, prefix, limits, pages, j - 1);
      ScanOfSizes(stores, prefix, limits, pages);
      assert NextOf(pages, j) == pages[j - 1].next && pages[j - 1].next.Some?;
      CollectedEnds(pages, j - 1);
      var last := pages[j - 1].items[|pages[j - 1].items| - 1].key;
      assert PageKeys(pages[j - 1])[|pages[j - 1].items| - 1] == last;
      LaterPagesPast(stores, prefix, limits, pages, i, j - 1, last);
      PastMerged(last, x);
      LessTransitive(Merged(pages[i].items[|pages[i].items| - 1].key), last, x);
    }
  }

  lemma SkippedNotReturned<V>(
    stores: seq<Kv<Text, V>>, prefix: Text, limits: seq<int>, pages: seq<Page<V>>, i: nat, k: Text)
    requires ScanOf(stores, prefix, limits, pages) && Unpaired(prefix) && i < |pages| && SkippedAt(pages[i], k)
    ensures k !in Collected(pages, |pages|)
  {
    hide ScanOf, Unpaired, Less, Merged, Collected, IsPage;
    if k in Collected(pages, |pages|) {
      CollectedFrom(pages, i + 1, |pages|, k);
      var keys := Collected(pages, i + 1);
      if k in keys {
        PageOfScan(stores, prefix, limits, pages, i);
        CollectedEnds(pages, i);
        NotPastLast(keys, k);
      } else {
        var j :| i + 1 <= j < |pages| && k in PageKeys(pages[j]);
        LaterPagesPast(stores, prefix, limits, pages, i, j, k);
      }
    }
  }

  lemma NotPastLast(s: seq<Text>, x: Text)
    requires Increasing(s) && x in s
    ensures !Less(s[|s| - 1], x)
  {
    hide Less;
    var i :| 0 <= i < |s| && s[i] == x;
    if Less(s[|s| - 1], x) {
      LessIrreflexive(x);
      LessTransitive(s[|s| - 1], x, s[|s| - 1]);
      LessIrreflexive(s[|s| - 1]);
    }
  }

  /** The item is an entry of this store, as it is there. */
  ghost predicate ItemFrom<V>(kv: Kv<Text, V>, prefix: Text, item: Item<V>) {
    item.key in Matching(kv, prefix) && item == ItemAt(kv, item.key)
  }

  /**
   A scan over a changing store never fails and returns keys in strictly increasing order, with their entries. Once it
   ends, a key that was there for all of its pages has been returned exactly when no page's cursor skipped it.
   */
  lemma ScanComplete<V>(stores: seq<Kv<Text, V>>, prefix: Text, limits: seq<int>, pages: seq<Page<V>>)
    requires ScanOf(stores, prefix, limits, pages) && Unpaired(prefix) && pages != []
    ensures forall i :: 0 <= i < |pages| ==> pages[i].Page?
    ensures Increasing(Collected(pages, |pages|))
    ensures forall i, j :: 0 <= i < |pages| && 0 <= j < |pages[i].items| ==>
      ItemFrom(stores[i], prefix, pages[i].items[j])
    ensures NextOf(pages, |pages|).None? ==>
      forall k :: Throughout(stores, prefix, |pages|, k) ==>
        (k in Collected(pages, |pages|) <==> !Skipped(pages, |pages|, k))
  {
    hide ScanOf, SkippedAt, Collected, Stands, Merged, Less, Unpaired, EncodeCursor;
    ScanInvAt(stores, prefix, limits, pages, |pages|);
    ScanOfSizes(stores, prefix, limits, pages);
    forall i | 0 <= i < |pages|
      ensures pages[i].Page? && forall j :: 0 <= j < |pages[i].items| ==> ItemFrom(stores[i], prefix, pages[i].items[j])
    {
      PageOfScan(stores, prefix, limits, pages, i);
    }
    forall k | Skipped(pages, |pages|, k) ensures k !in Collected(pages, |pages|) {
      var i :| 0 <= i < |pages| && SkippedAt(pages[i], k);
      SkippedNotReturned(stores, prefix, limits, pages, i, k);
    }
  }

  /** Keys without a surrogate pair, so all keys of Unicode scalar values: their cursors skip nothing. */
  lemma UnpairedSkipsNothing<V>(
    stores: seq<Kv<Text, V>>, prefix: Text, limits: seq<int>, pages: seq<Page<V>>, k: Text)
    requires ScanOf(stores, prefix, limits, pages) && Unpaired(prefix) && pages != []
    requires forall i, x :: 0 <= i < |stores| && x in Matching(stores[i], prefix) ==> Unpaired(x)
    ensures !Skipped(pages, |pages|, k)
  {
    hide ScanOf, Unpaired, Less, Merged, Matching;
    ScanComplete(stores, prefix, limits, pages);
    ScanOfSizes(stores, prefix, limits, pages);
    forall i | 0 <= i < |pages| ensures !SkippedAt(pages[i], k) {
      if pages[i].items != [] {
        var item := pages[i].items[|pages[i].items| - 1];
        assert ItemFrom(stores[i], prefix, item);
        MergedShorter(item.key);
      }
    }
  }

  /** With a surrogate pair in the prefix itself, only the first page is ever listed: its cursor is refused. */
  lemma PairedPrefixRefused<V>(stores: seq<Kv<Text, V>>, prefix: Text, limits: seq<int>, pages: seq<Page<V>>)
    requires ScanOf(stores, prefix, limits, pages) && !Unpaired(prefix) && |pages| >= 2
    ensures pages[0].Page? && pages[1].Rejected?
  {
    hide Unpaired, Less, Merged, EncodeCursor, Matching;
    PageMeaning(stores[0], prefix, None, None, limits[0]);
    assert pages[1] == ListPage(stores[1], prefix, NextOf(pages, 1), limits[1]) && NextOf(pages, 1).Some?;
    var keys := Keys(pages[0].items);
    EncodedDecodes(prefix, keys[|keys| - 1], prefix);
    MergedShorter(prefix);
  }

  /** Each page but the last brings at least one new key. */
  lemma {:induction false} ScanProgress<V>(
    stores: seq<Kv<Text, V>>, prefix: Text, limits: seq<int>, pages: seq<Page<V>>, n: nat)
    requires ScanOf(stores, prefix, limits, pages) && Unpaired(prefix) && n <= |pages|
    requires NextOf(pages, n).Some?
    ensures |Collected(pages, n)| >= n
  {
    ScanOfSizes(stores, prefix, limits, pages);
    PageOfScan(stores, prefix, limits, pages, n - 1);
    hide ScanOf, Unpaired, EncodeCursor;
    if n > 1 { ScanProgress(stores, prefix, limits, pages, n - 1); }
  }

  lemma {:induction false} CollectedMatch<V>(
    stores: seq<Kv<Text, V>>, prefix: Text, limits: seq<int>, pages: seq<Page<V>>, n: nat, kv: Kv<Text, V>)
    requires ScanOf(stores, prefix, limits, pages) && Unpaired(prefix) && n <= |pages|
    requires forall i :: 0 <= i < |stores| ==> stores[i] == kv
    ensures forall k :: k in Collected(pages, n) ==> k in Matching(kv, prefix)
  {
    hide ScanOf, Matching, Increasing, Less, EncodeCursor, ResumesAt, Unpaired;
    if n > 0 {
      CollectedMatch(stores, prefix, limits, pages, n - 1, kv);
      ScanOfSizes(stores, prefix, limits, pages);
      PageOfScan(stores, prefix, limits, pages, n - 1);
    }
  }

  /** An increasing list within a set is no longer than the set. */
  lemma IncreasingFits(s: seq<Text>, of: set<Text>)
    requires Increasing(s) && forall k :: k in s ==> k in of
    ensures |s| <= |of|
  {
    if s != [] {
      TailMembersAll(s);
      IncreasingFits(s[1..], of - {s[0]});
    }
  }

  lemma TailMembersAll(s: seq<Text>)
    requires s != [] && Increasing(s)
    ensures forall k :: k in s[1..] <==> k in s && k != s[0]
  {
    forall k ensures k in s[1..] <==> k in s && k != s[0] { TailMembers(s, k); }
  }

  /**
   On an unchanged store: the pages of a finished scan concatenate to the sorted matching keys exactly when no matching
   key was skipped, and a scan that still has a cursor has at most as many pages as there are matching keys, so it ends.
   */
  lemma {:induction false} UnchangedScan<V>(
    stores: seq<Kv<Text, V>>, prefix: Text, limits: seq<int>, pages: seq<Page<V>>, kv: Kv<Text, V>)
    requires ScanOf(stores, prefix, limits, pages) && Unpaired(prefix) && pages != []
    requires forall i :: 0 <= i < |stores| ==> stores[i] == kv
    ensures NextOf(pages, |pages|).None? ==>
      ((forall k :: k in Matching(kv, prefix) ==> !Skipped(pages, |pages|, k))
        <==> Collected(pages, |pages|) == SortedSet(Matching(kv, prefix)))
    ensures NextOf(pages, |pages|).Some? ==> |pages| <= |Matching(kv, prefix)|
  {
    hide ScanOf, Skipped, Collected, Unpaired, Less;
    var n := |pages|;
    ScanComplete(stores, prefix, limits, pages);
    ScanOfSizes(stores, prefix, limits, pages);
    CollectedMatch(stores, prefix, limits, pages, n, kv);
    var keys, all := Collected(pages, n), SortedSet(Matching(kv, prefix));
    if NextOf(pages, n).None? {
      assert forall k :: k in Matching(kv, prefix) ==> Throughout(stores, prefix, n, k);
      if forall k :: k in Matching(kv, prefix) ==> !Skipped(pages, n, k) {
        IncreasingUnique(keys, all);
      }
    } else {
      ScanProgress(stores, prefix, limits, pages, n);
      IncreasingFits(keys, Matching(kv, prefix));
    }
  }

  /**
   The failing side: a key that is a surrogate pair makes a scan by single keys end before a later key was returned.
   */
  lemma PairedKeyHidesAnother<V>(a: Entry<V>, b: Entry<V>, index: nat)
    ensures var paired, later := [0xD800, 0xDC00], [0xD800, 0xDC01];
      var kv: Kv<Text, V> := Kv(map[paired := a, later := b], index);
      var first := ListPage(kv, [], None, 1);
      && first.Page? && Keys(first.items) == [paired] && first.next.Some?
      && ListPage(kv, [], first.next, 1) == Page([], None)
  {
    hide *;
    var paired: Text, later: Text := [0xD800, 0xDC00], [0xD800, 0xDC01];
    PairedOrder();
    PairedKeyChanges([]) by { NothingPaired(); }
    TwoKeys(Kv(map[paired := a, later := b], index), paired, later, [0x1_0000]);
  }

  lemma PairedOrder()
    ensures var paired: Text, later: Text, merged: Text := [0xD800, 0xDC00], [0xD800, 0xDC01], [0x1_0000];
      paired != later && Less(paired, later) && !Less(later, paired) && !Less(merged, paired) && !Less(merged, later)
  {
    var paired: Text, later: Text := [0xD800, 0xDC00], [0xD800, 0xDC01];
    assert paired[1] != later[1];
  }

  lemma NothingPaired()
    ensures Unpaired([])
  {}

  lemma TwoKeys<V>(kv: Kv<Text, V>, k: Text, later: Text, after: Text)
    requires kv.entries.Keys == {k, later} && k != later && Less(k, later) && !Less(later, k)
    requires DecodeCursor(Some(EncodeCursor([], k)), []) == After(after) && !Less(after, k) && !Less(after, later)
    ensures var first := ListPage(kv, [], None, 1);
      && first.Page? && Keys(first.items) == [k] && first.next.Some?
      && ListPage(kv, [], first.next, 1) == Page([], None)
  {
    hide Less, ListPage, EncodeCursor, DecodeCursor, IsPage;
    var first := ListPage(kv, [], None, 1);
    NoCursorGiven([]);
    PageMeaning(kv, [], None, None, 1);
    FirstOfTwo(kv, k, later, first);
    PageMeaning(kv, [], first.next, Some(after), 1);
    NothingBeyond(kv, [], Some(after), ListPage(kv, [], first.next, 1));
  }

  lemma NoCursorGiven(prefix: Text)
    ensures DecodeCursor(None, prefix) == NoCursor
  {}

  lemma FirstOfTwo<V>(kv: Kv<Text, V>, k: Text, later: Text, page: Page<V>)
    requires kv.entries.Keys == {k, later} && Less(k, later) && !Less(later, k) && k != later
    requires IsPage(kv, [], None, 1, page)
    ensures page.Page? && Keys(page.items) == [k] && page.next == Some(EncodeCursor([], k))
  {
    hide EncodeCursor, Less;
    var keys := Keys(page.items);
    assert k in Matching(kv, []) && later in Matching(kv, []);
    assert page.next.Some? || (k in keys && later in keys);
  }

  lemma NothingBeyond<V>(kv: Kv<Text, V>, prefix: Text, after: Option<Text>, page: Page<V>)
    requires IsPage(kv, prefix, after, 1, page) && forall k :: k in kv.entries ==> !Beyond(after, k)
    ensures page == Page([], None)
  {
    hide EncodeCursor, Beyond, Less;
    var keys := Keys(page.items);
    assert forall k :: k in Matching(kv, prefix) ==> k in kv.entries;
    assert forall k :: k in keys ==> k in Matching(kv, prefix) && Beyond(after, k);
    SomeMember(keys);
  }
}
