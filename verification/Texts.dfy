/** Python strings: sequences of code points, surrogates included, compared code point by code point. */
module Texts {
  type CodePoint = c: int | 0 <= c < 0x11_0000
  type Text = seq<CodePoint>

  /** The text a Dafny literal stands for. */
  function Lit(s: string): Text {
    seq(|s|, i requires 0 <= i < |s| => s[i] as int)
  }

  /** str.isspace on one character. */
  predicate Space(c: CodePoint) {
    9 <= c <= 13 || 28 <= c <= 32 || c == 0x85 || c == 0xA0 || c == 0x1680 || 0x2000 <= c <= 0x200A
    || c == 0x2028 || c == 0x2029 || c == 0x202F || c == 0x205F || c == 0x3000
  }

  /** str.strip() */
  function Strip(t: Text): Text {
    if t == [] then t
    else if Space(t[0]) then Strip(t[1..])
    else if Space(t[|t| - 1]) then Strip(t[..|t| - 1])
    else t
  }

  /** The whitespace of str.isspace, character by character. */
  lemma WhitespaceIs(c: CodePoint)
    ensures Space(c) <==> c in {
      9, 10, 11, 12, 13, 28, 29, 30, 31, 32, 0x85, 0xA0, 0x1680, 0x2000, 0x2001, 0x2002, 0x2003, 0x2004, 0x2005, 0x2006,
      0x2007, 0x2008, 0x2009, 0x200A, 0x2028, 0x2029, 0x202F, 0x205F, 0x3000}
  {}

  /** Stripping takes whitespace off both ends until neither has any left, and nothing else. */
  lemma {:induction false} StripIs(t: Text) returns (i: nat, j: nat)
    ensures i <= j <= |t| && Strip(t) == t[i..j]
    ensures forall k :: 0 <= k < i || j <= k < |t| ==> Space(t[k])
    ensures i < j ==> !Space(t[i]) && !Space(t[j - 1])
    decreases |t|
  {
    hide Space;
    i, j := 0, |t|;
    if t != [] && Space(t[0]) {
      var a, b := StripIs(t[1..]);
      i, j := a + 1, b + 1;
      assert t[1..][a..b] == t[i..j];
      assert forall k :: 1 <= k < |t| ==> t[k] == t[1..][k - 1];
    } else if t != [] && Space(t[|t| - 1]) {
      i, j := StripIs(t[..|t| - 1]);
      assert t[..|t| - 1][i..j] == t[i..j];
    } else {
      assert t[0..|t|] == t;
    }
  }

  /** Nothing left after str.strip(). */
  predicate Blank(t: Text) {
    forall c :: c in t ==> Space(c)
  }

  /** Python's `a < b` on strings. */
  predicate Less(a: Text, b: Text) {
    b != [] && (a == [] || a[0] < b[0] || (a[0] == b[0] && Less(a[1..], b[1..])))
  }

  lemma LessIrreflexive(a: Text)
    ensures !Less(a, a)
  {}

  lemma LessTransitive(a: Text, b: Text, c: Text)
    requires Less(a, b) && Less(b, c)
    ensures Less(a, c)
  {}

  lemma LessTotal(a: Text, b: Text)
    ensures a == b || Less(a, b) || Less(b, a)
  {
    if a != [] && b != [] && a[0] == b[0] {
      LessTotal(a[1..], b[1..]);
      assert a == [a[0]] + a[1..] && b == [b[0]] + b[1..];
    }
  }

  ghost predicate Increasing(s: seq<Text>) {
    forall i, j :: 0 <= i < j < |s| ==> Less(s[i], s[j])
  }

  lemma LeastExists(s: set<Text>) returns (least: Text)
    requires s != {}
    ensures least in s && forall y :: y in s && y != least ==> Less(least, y)
  {
    var x :| x in s;
    if s == {x} {
      least := x;
    } else {
      var m := LeastExists(s - {x});
      LessTotal(x, m);
      least := if Less(x, m) then x else m;
      forall y | y in s && y != least ensures Less(least, y) {
        if y != x && y != m && least == x { LessTransitive(x, m, y); }
      }
    }
  }

  lemma LeastUnique(s: set<Text>)
    requires s != {}
    ensures exists x :: x in s && forall y :: y in s && y != x ==> Less(x, y)
    ensures forall x, y :: x in s && y in s && Less(x, y) ==> !Less(y, x)
  {
    hide Less;
    var least := LeastExists(s);
    forall x, y | Less(x, y) ensures !Less(y, x) {
      if Less(y, x) {
        LessTransitive(x, y, x);
        LessIrreflexive(x);
      }
    }
  }

  /** Python's `sorted` on a set of strings. */
  function SortedSet(s: set<Text>): (r: seq<Text>)
    ensures Increasing(r)
    ensures forall x :: x in r <==> x in s
    ensures |r| == |s|
  {
    if s == {} then []
    else
      LeastUnique(s);
      var x :| x in s && forall y :: y in s && y != x ==> Less(x, y);
      [x] + SortedSet(s - {x})
  }

  lemma SomeMember(s: seq<Text>)
    ensures s == [] || exists x :: x in s
  {
    if s != [] { assert s[0] in s; }
  }

  /** A strictly increasing sequence is determined by its elements. */
  lemma IncreasingUnique(a: seq<Text>, b: seq<Text>)
    requires Increasing(a) && Increasing(b)
    requires forall x :: x in a <==> x in b
    ensures a == b
  {
    if |a| == 0 || |b| == 0 {
      SomeMember(a);
      SomeMember(b);
    } else {
      HeadIsLeast(a, b);
      HeadIsLeast(b, a);
      if a[0] != b[0] {
        LessTransitive(a[0], b[0], a[0]);
        LessIrreflexive(a[0]);
      }
      forall x ensures x in a[1..] <==> x in b[1..] {
        TailMembers(a, x);
        TailMembers(b, x);
      }
      IncreasingUnique(a[1..], b[1..]);
      assert a == [a[0]] + a[1..] && b == [b[0]] + b[1..];
    }
  }

  lemma HeadIsLeast(a: seq<Text>, b: seq<Text>)
    requires a != [] && b != [] && Increasing(a) && b[0] in a
    ensures a[0] == b[0] || Less(a[0], b[0])
  {
    var i :| 0 <= i < |a| && a[i] == b[0];
  }

  lemma TailMembers(a: seq<Text>, x: Text)
    requires a != [] && Increasing(a)
    ensures x in a[1..] <==> x in a && x != a[0]
  {
    LessIrreflexive(a[0]);
  }

  /** Python's `sorted` on a list of strings: duplicates stay. */
  function Sorted(s: seq<Text>): (r: seq<Text>)
    ensures multiset(r) == multiset(s)
  {
    if s == [] then []
    else
      assert s == [s[0]] + s[1..];
      Insert(s[0], Sorted(s[1..]))
  }

  function Insert(x: Text, s: seq<Text>): (r: seq<Text>)
    ensures multiset(r) == multiset(s) + multiset{x}
  {
    if s == [] || !Less(s[0], x) then [x] + s
    else
      assert s == [s[0]] + s[1..];
      [s[0]] + Insert(x, s[1..])
  }

  ghost predicate InOrder(s: seq<Text>) {
    forall i, j :: 0 <= i < j < |s| ==> !Less(s[j], s[i])
  }

  /** The sorted list is in order; it has the same elements by its own contract. */
  lemma {:induction false} SortedInOrder(s: seq<Text>)
    ensures InOrder(Sorted(s))
  {
    hide Less, InOrder, Insert;
    if s == [] {
      EmptyInOrder();
    } else {
      SortedInOrder(s[1..]);
      InsertInOrder(s[0], Sorted(s[1..]));
    }
  }

  lemma EmptyInOrder()
    ensures InOrder([])
  {}

  lemma {:induction false} InsertInOrder(x: Text, s: seq<Text>)
    requires InOrder(s)
    ensures InOrder(Insert(x, s))
  {
    hide Less;
    if s == [] || !Less(s[0], x) {
      forall j | 0 <= j < |s| ensures !Less(s[j], x) {
        if j > 0 && Less(s[j], x) { NotLessTransitive(s[0], s[j], x); }
      }
    } else {
      var rest := Insert(x, s[1..]);
      InsertInOrder(x, s[1..]);
      forall j | 0 <= j < |rest| ensures !Less(rest[j], s[0]) {
        assert rest[j] in multiset(rest);
        if rest[j] == x {
          if Less(x, s[0]) {
            LessTransitive(x, s[0], x);
            LessIrreflexive(x);
          }
        } else {
          var k :| 0 <= k < |s[1..]| && s[1..][k] == rest[j];
          assert s[k + 1] == rest[j];
        }
      }
      FirstInOrder(s[0], rest);
      assert Insert(x, s) == [s[0]] + rest;
    }
  }

  lemma FirstInOrder(x: Text, s: seq<Text>)
    requires InOrder(s) && forall j :: 0 <= j < |s| ==> !Less(s[j], x)
    ensures InOrder([x] + s)
  {
    hide Less;
  }

  lemma NotLessTransitive(a: Text, b: Text, c: Text)
    requires !Less(a, c) && !Less(b, a)
    ensures !Less(b, c)
  {
    hide Less;
    LessTotal(a, c);
    LessTotal(a, b);
    if Less(b, c) {
      if Less(c, a) { LessTransitive(b, c, a); }
    }
  }
}
