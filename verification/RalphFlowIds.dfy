/** The task ids the ralph-flow compiler makes up are told apart by their "__check" mark. */
module RalphFlowIds {
  import opened Texts
  import opened EventKeys
  import opened TemplateValidation
  import opened RalphFlow

  predicate IsCheckOf(s: Step, x: Text) {
    x in CheckIds(s)
  }

  /** Step ids carry no surrounding space. */
  ghost predicate Trimmed(steps: seq<Step>) {
    forall i :: 0 <= i < |steps| ==> Strip(steps[i].id) == steps[i].id
  }

  ghost predicate LegalIds(steps: seq<Step>) {
    forall i :: 0 <= i < |steps| ==> LegalId(steps[i].id)
  }

  /** No step id is a check id of any step. */
  ghost predicate Clashless(steps: seq<Step>) {
    forall i, j :: 0 <= i < |steps| && 0 <= j < |steps| ==> !IsCheckOf(steps[i], steps[j].id)
  }

  ghost predicate GoodIds(steps: seq<Step>) {
    Trimmed(steps) && LegalIds(steps) && Clashless(steps)
  }

  ghost predicate Clean(id: Text) {
    LegalId(id) && Strip(id) == id
  }

  function Marked(id: Text, tail: Text): Text {
    id + MARK() + tail
  }

  ghost predicate AllDigits(t: Text) {
    forall i :: 0 <= i < |t| ==> 0x30 <= t[i] <= 0x39
  }

  lemma TailBehindMark(id: Text, tail: Text)
    ensures forall k :: |id| + |MARK()| <= k < |Marked(id, tail)| ==> Marked(id, tail)[k] == tail[k - |id| - |MARK()|]
  {}

  /** The last letter of the mark is no digit, so the longer tail would have to hold it. */
  lemma TailsAsLong(a: Text, b: Text, x: Text, y: Text)
    requires AllDigits(y) && Marked(a, x) == Marked(b, y)
    ensures |x| >= |y|
  {
    var m := MARK();
    assert |m| == 7 && m[6] == 'k' as int;
    var k := |a| + 6;
    assert Marked(a, x)[k] == m[6];
    TailBehindMark(b, y);
  }

  /** A marked id tells its step and its tail, whatever the step's id is. */
  lemma MarkedSplits(a: Text, b: Text, x: Text, y: Text)
    requires AllDigits(x) && AllDigits(y) && Marked(a, x) == Marked(b, y)
    ensures a == b && x == y
  {
    TailsAsLong(a, b, x, y);
    TailsAsLong(b, a, y, x);
    assert a == Marked(a, x)[..|a|] && b == Marked(b, y)[..|b|];
    assert x == Marked(a, x)[|a| + |MARK()|..] && y == Marked(b, y)[|b| + |MARK()|..];
  }

  /** What stands behind the mark. */
  function TailOf(s: Step, index: nat): Text
    requires index < |CheckIds(s)|
  {
    if Votes(s) == [] then [] else Padded(index + 1, 1)
  }

  lemma CheckIdMarked(s: Step, index: nat)
    requires index < |CheckIds(s)|
    ensures CheckIds(s)[index] == Marked(s.id, TailOf(s, index)) && AllDigits(TailOf(s, index))
  {
    hide Padded;
    if Votes(s) == [] {
      assert CheckIds(s) == [s.id + MARK()] && index == 0;
      assert s.id + MARK() + [] == s.id + MARK();
    } else {
      assert CheckIds(s)[index] == CheckId(s.id, index + 1);
      assert CheckId(s.id, index + 1) == Marked(s.id, TailOf(s, index));
    }
  }

  lemma TailsDiffer(s: Step, i: nat, j: nat)
    requires i < |CheckIds(s)| && j < |CheckIds(s)| && TailOf(s, i) == TailOf(s, j)
    ensures i == j
  {
    if Votes(s) != [] {
      ValueOfPadded(i + 1, 1);
      ValueOfPadded(j + 1, 1);
    }
  }

  /** Check ids are not the id of their own step, belong to one step id, and differ within a step. */
  lemma CheckIdsApart(s: Step, i: nat, u: Step, j: nat)
    requires i < |CheckIds(s)| && j < |CheckIds(u)|
    ensures CheckIds(s)[i] != s.id
    ensures CheckIds(s)[i] == CheckIds(u)[j] ==> s.id == u.id && (s == u ==> i == j)
  {
    CheckIdMarked(s, i);
    CheckIdMarked(u, j);
    assert |CheckIds(s)[i]| > |s.id|;
    if CheckIds(s)[i] == CheckIds(u)[j] {
      MarkedSplits(s.id, u.id, TailOf(s, i), TailOf(u, j));
      if s == u { TailsDiffer(s, i, j); }
    }
  }

  // ---- trimming ----

  lemma {:induction false} StripShortens(t: Text)
    ensures |Strip(t)| <= |t|
    decreases |t|
  {
    if t != [] {
      if Space(t[0]) {
        StripShortens(t[1..]);
      } else if Space(t[|t| - 1]) {
        StripShortens(t[..|t| - 1]);
      }
    }
  }

  lemma TrimmedEnds(t: Text)
    requires t != []
    ensures Strip(t) == t <==> !Space(t[0]) && !Space(t[|t| - 1])
  {
    StripShortens(t[1..]);
    StripShortens(t[..|t| - 1]);
  }

  /** Check ids are as admissible as the step ids they are made from. */
  lemma CheckIdGood(s: Step, index: nat)
    requires index < |CheckIds(s)| && Clean(s.id)
    ensures Clean(CheckIds(s)[index])
  {
    hide Strip, CheckIds, Padded;
    CheckIdMarked(s, index);
    TrimmedEnds(s.id);
    var tail := TailOf(s, index);
    var c := Marked(s.id, tail);
    var m := MARK();
    assert |m| == 7 && m[6] == 'k' as int;
    assert forall i :: 0 <= i < |m| ==> m[i] != '/' as int && m[i] != '\\' as int;
    assert c[0] == s.id[0];
    assert c[|c| - 1] == if tail == [] then m[6] else tail[|tail| - 1];
    TrimmedEnds(c);
  }
}
