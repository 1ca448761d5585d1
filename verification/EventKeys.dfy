/** The store keys of the event journal (event_journal.py): zero-padded sequence numbers and the key families. */
module EventKeys {
  import opened Texts
  import opened KvCursor

  const WIDTH := 20

  /** f"{n:0{width}d}": the decimal digits of n, padded with zeros to at least width. */
  function Padded(n: nat, width: nat): (t: Text)
    ensures |t| >= 1 && |t| >= width
    ensures forall i :: 0 <= i < |t| ==> 0x30 <= t[i] <= 0x39
    decreases n + width
  {
    if n < 10 && width <= 1 then [0x30 + n]
    else Padded(n / 10, if width == 0 then 0 else width - 1) + [0x30 + n % 10]
  }

  function Value(digits: Text): int {
    if digits == [] then 0 else Value(digits[..|digits| - 1]) * 10 + (digits[|digits| - 1] as int - 0x30)
  }

  lemma {:induction false} ValueOfPadded(n: nat, width: nat)
    ensures Value(Padded(n, width)) == n
    decreases n + width
  {
    if n < 10 && width <= 1 {
      assert Value([0x30 + n]) == Value([]) * 10 + n;
    } else {
      var front := Padded(n / 10, if width == 0 then 0 else width - 1);
      ValueOfPadded(n / 10, if width == 0 then 0 else width - 1);
      assert Padded(n, width)[..|Padded(n, width)| - 1] == front;
    }
  }

  function Pow10(width: nat): nat {
    if width == 0 then 1 else 10 * Pow10(width - 1)
  }

  lemma {:induction false} PaddedLength(n: nat, width: nat)
    requires 1 <= width && n < Pow10(width)
    ensures |Padded(n, width)| == width
  {
    if width > 1 { PaddedLength(n / 10, width - 1); }
  }

  lemma {:induction false} LessFront(a: Text, b: Text, x: Text, y: Text)
    requires |a| == |b| && Less(a, b)
    ensures Less(a + x, b + y)
  {
    assert a[0] == (a + x)[0] && b[0] == (b + y)[0];
    if a[0] == b[0] {
      assert (a + x)[1..] == a[1..] + x && (b + y)[1..] == b[1..] + y;
      LessFront(a[1..], b[1..], x, y);
    }
  }

  lemma {:induction false} LessBack(a: Text, x: Text, y: Text)
    requires Less(x, y)
    ensures Less(a + x, a + y)
  {
    if a == [] {
      assert a + x == x && a + y == y;
    } else {
      LessBack(a[1..], x, y);
      assert (a + x)[1..] == a[1..] + x && (a + y)[1..] == a[1..] + y;
      assert (a + x)[0] == (a + y)[0] == a[0];
    }
  }

  /** Within the width, the order of the padded texts is the order of the numbers. */
  lemma {:induction false} PaddedOrder(n: nat, m: nat, width: nat)
    requires 1 <= width && n < m < Pow10(width)
    ensures Less(Padded(n, width), Padded(m, width))
  {
    if width > 1 {
      var a, b := Padded(n / 10, width - 1), Padded(m / 10, width - 1);
      if n / 10 < m / 10 {
        PaddedLength(n / 10, width - 1);
        PaddedLength(m / 10, width - 1);
        PaddedOrder(n / 10, m / 10, width - 1);
        LessFront(a, b, [0x30 + n % 10], [0x30 + m % 10]);
      } else {
        LessBack(a, [0x30 + n % 10], [0x30 + m % 10]);
      }
    }
  }

  // ---- keys ----

  function HeadKey(base: Text): Text {
    base + Lit("/head")
  }

  function TrimKey(base: Text): Text {
    base + Lit("/trimmed_until")
  }

  function RecordsPrefix(base: Text): Text {
    base + Lit("/records/")
  }

  function RecordKey(base: Text, sequence: nat): Text {
    RecordsPrefix(base) + Padded(sequence, WIDTH)
  }

  function IdsPrefix(base: Text): Text {
    base + Lit("/ids/")
  }

  function IdKey(base: Text, id: Text): Text {
    IdsPrefix(base) + id
  }

  predicate IsRecordKey(base: Text, k: Text) {
    RecordsPrefix(base) <= k
  }

  predicate IsIdKey(base: Text, k: Text) {
    IdsPrefix(base) <= k
  }

  /** The key belongs to the stream with this base: it goes on behind its slash. */
  predicate Under(base: Text, k: Text) {
    base + Lit("/") <= k
  }

  lemma KeysUnder(base: Text)
    ensures Under(base, HeadKey(base)) && Under(base, TrimKey(base))
    ensures forall k :: IsRecordKey(base, k) || IsIdKey(base, k) ==> Under(base, k)
    ensures forall n: nat :: Under(base, RecordKey(base, n))
    ensures forall id: Text :: Under(base, IdKey(base, id))
  {
    var p := base + Lit("/");
    assert HeadKey(base)[..|p|] == p && TrimKey(base)[..|p|] == p;
    assert RecordsPrefix(base)[..|p|] == p && IdsPrefix(base)[..|p|] == p;
    assert p <= RecordsPrefix(base) && p <= IdsPrefix(base);
    hide Padded;
  }

  /** The character after the base and its slash tells the four families apart. */
  lemma KeysApart(base: Text)
    ensures HeadKey(base) != TrimKey(base)
    ensures !IsRecordKey(base, HeadKey(base)) && !IsRecordKey(base, TrimKey(base))
    ensures !IsIdKey(base, HeadKey(base)) && !IsIdKey(base, TrimKey(base))
    ensures forall k :: !(IsRecordKey(base, k) && IsIdKey(base, k))
  {
    var n := |base|;
    assert HeadKey(base)[n + 1] == 'h' as int && TrimKey(base)[n + 1] == 't' as int;
    assert RecordsPrefix(base)[n + 1] == 'r' as int && IdsPrefix(base)[n + 1] == 'i' as int;
    forall k ensures !(IsRecordKey(base, k) && IsIdKey(base, k)) {
      assert IsRecordKey(base, k) ==> |k| > n + 1 && k[n + 1] == 'r' as int;
      assert IsIdKey(base, k) ==> |k| > n + 1 && k[n + 1] == 'i' as int;
    }
  }

  lemma RecordKeyInjective(base: Text, n: nat, m: nat)
    ensures IsRecordKey(base, RecordKey(base, n))
    ensures RecordKey(base, n) == RecordKey(base, m) ==> n == m
  {
    ValueOfPadded(n, WIDTH);
    ValueOfPadded(m, WIDTH);
    var p := RecordsPrefix(base);
    assert RecordKey(base, n)[|p|..] == Padded(n, WIDTH) && RecordKey(base, m)[|p|..] == Padded(m, WIDTH);
  }

  lemma IdKeyInjective(base: Text, a: Text, b: Text)
    ensures IsIdKey(base, IdKey(base, a))
    ensures IdKey(base, a) == IdKey(base, b) ==> a == b
  {
    var p := IdsPrefix(base);
    assert IdKey(base, a)[|p|..] == a && IdKey(base, b)[|p|..] == b;
  }

  /** Below 10^20 the store lists records in sequence order. */
  lemma RecordOrder(base: Text, n: nat, m: nat)
    requires n < m < Pow10(WIDTH)
    ensures Less(RecordKey(base, n), RecordKey(base, m))
  {
    PaddedOrder(n, m, WIDTH);
    LessBack(RecordsPrefix(base), Padded(n, WIDTH), Padded(m, WIDTH));
  }

  lemma {:induction false} PaddedZeros(width: nat)
    requires width >= 1
    ensures Padded(0, width) == seq(width, _ => 0x30)
  {
    if width > 1 {
      PaddedZeros(width - 1);
      assert seq(width - 1, _ => 0x30) + [0x30] == seq(width, _ => 0x30);
    } else {
      assert seq(1, _ => 0x30) == [0x30];
    }
  }

  lemma LitConcat(a: string, b: string)
    ensures Lit(a) + Lit(b) == Lit(a + b)
  {}

  lemma NumberSpelled()
    ensures Padded(42, WIDTH) == Lit("000000000000000000") + Lit("42")
  {
    PaddedZeros(18);
    assert Padded(4, 19) == Padded(0, 18) + [0x34] && Padded(42, 20) == Padded(4, 19) + [0x32];
    hide Padded;
    assert |"000000000000000000"| == 18;
    assert Lit("000000000000000000") == seq(18, _ => 0x30);
    assert Lit("42") == [0x34] + [0x32];
  }

  /** The keys of a stream in full, by example. */
  lemma KeysSpelled(id: string)
    ensures var base := Lit("events/global");
      && HeadKey(base) == Lit("events/global" + "/head")
      && TrimKey(base) == Lit("events/global" + "/trimmed_until")
      && RecordKey(base, 42) == Lit("events/global" + "/records/") + Lit("000000000000000000") + Lit("42")
      && IdKey(base, Lit(id)) == Lit("events/global" + "/ids/") + Lit(id)
  {
    NumberSpelled();
    hide Padded, Lit;
    LitConcat("events/global", "/head");
    LitConcat("events/global", "/trimmed_until");
    LitConcat("events/global", "/records/");
    LitConcat("events/global", "/ids/");
  }

  /** A cursor carries record keys unchanged. */
  lemma RecordKeyReadable(base: Text, n: nat)
    requires ScalarValues(base)
    ensures Unpaired(RecordsPrefix(base)) && Unpaired(RecordKey(base, n))
  {
    hide Padded;
  }
}
