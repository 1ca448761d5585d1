/**
 The opaque list cursor of kv_pagination: a JSON object (RFC 8259, section 7 for strings) in unpadded
 URL-safe base64 (RFC 4648, sections 3.2 and 5).
 */
module KvCursor {
  import opened Texts
  import opened KvStore

  type Byte = b: int | 0 <= b < 256

  const QUOTE: CodePoint := 0x22
  const BACKSLASH: CodePoint := 0x5C
  const EQUALS: CodePoint := 0x3D

  // ---- base64 ----

  function Symbol(v: int): CodePoint
    requires 0 <= v < 64
  {
    if v < 26 then 0x41 + v
    else if v < 52 then 0x61 + v - 26
    else if v < 62 then 0x30 + v - 52
    else if v == 62 then 0x2D
    else 0x5F
  }

  function SymbolValue(c: CodePoint): (v: int)
    ensures -1 <= v < 64
  {
    if 0x41 <= c <= 0x5A then c - 0x41
    else if 0x61 <= c <= 0x7A then c - 0x61 + 26
    else if 0x30 <= c <= 0x39 then c - 0x30 + 52
    else if c == 0x2D then 62
    else if c == 0x5F then 63
    else -1
  }

  lemma SymbolRoundTrip(v: int)
    requires 0 <= v < 64
    ensures SymbolValue(Symbol(v)) == v && Symbol(v) != EQUALS
  {}

  /** base64.urlsafe_b64encode, with its padding. */
  function Base64(b: seq<Byte>): Text {
    if |b| == 0 then []
    else if |b| == 1 then [Symbol(b[0] / 4), Symbol(b[0] % 4 * 16), EQUALS, EQUALS]
    else if |b| == 2 then [Symbol(b[0] / 4), Symbol(b[0] % 4 * 16 + b[1] / 16), Symbol(b[1] % 16 * 4), EQUALS]
    else
      [Symbol(b[0] / 4), Symbol(b[0] % 4 * 16 + b[1] / 16), Symbol(b[1] % 16 * 4 + b[2] / 64), Symbol(b[2] % 64)]
      + Base64(b[3..])
  }

  /** base64.urlsafe_b64decode on the characters of the alphabet. */
  function Unbase64(t: Text): Option<seq<Byte>> {
    if |t| == 0 then Some([])
    else if |t| < 4 then None
    else
      var v0, v1, v2, v3 := SymbolValue(t[0]), SymbolValue(t[1]), SymbolValue(t[2]), SymbolValue(t[3]);
      if v0 < 0 || v1 < 0 then None
      else if |t| == 4 && t[2] == EQUALS && t[3] == EQUALS then Some([v0 * 4 + v1 / 16])
      else if v2 < 0 then None
      else if |t| == 4 && t[3] == EQUALS then Some([v0 * 4 + v1 / 16, v1 % 16 * 16 + v2 / 4])
      else if v3 < 0 then None
      else
        var rest := Unbase64(t[4..]);
        if rest.None? then None
        else Some([v0 * 4 + v1 / 16, v1 % 16 * 16 + v2 / 4, v2 % 4 * 64 + v3] + rest.value)
  }

  /** The six-bit digits of three bytes spell the bytes again. */
  lemma DigitsSpellBytes(x: Byte, y: Byte, z: Byte)
    ensures 0 <= x / 4 < 64 && 0 <= x % 4 * 16 + y / 16 < 64 && 0 <= y % 16 * 4 + z / 64 < 64 && 0 <= z % 64 < 64
    ensures x / 4 * 4 + (x % 4 * 16 + y / 16) / 16 == x
    ensures (x % 4 * 16 + y / 16) % 16 * 16 + (y % 16 * 4 + z / 64) / 4 == y
    ensures (y % 16 * 4 + z / 64) % 4 * 64 + z % 64 == z
  {
    assert (x % 4 * 16 + y / 16) / 16 == x % 4;
    assert (x % 4 * 16 + y / 16) % 16 == y / 16;
    assert (y % 16 * 4 + z / 64) / 4 == y % 16;
    assert (y % 16 * 4 + z / 64) % 4 == z / 64;
  }

  lemma UnbaseGroup(v0: int, v1: int, v2: int, v3: int, rest: Text)
    requires 0 <= v0 < 64 && 0 <= v1 < 64 && 0 <= v2 < 64 && 0 <= v3 < 64
    ensures Unbase64(rest).Some? ==>
      Unbase64([Symbol(v0), Symbol(v1), Symbol(v2), Symbol(v3)] + rest)
        == Some([v0 * 4 + v1 / 16, v1 % 16 * 16 + v2 / 4, v2 % 4 * 64 + v3] + Unbase64(rest).value)
  {
    SymbolRoundTrip(v0);
    SymbolRoundTrip(v1);
    SymbolRoundTrip(v2);
    SymbolRoundTrip(v3);
    hide Symbol, SymbolValue;
    var t := [Symbol(v0), Symbol(v1), Symbol(v2), Symbol(v3)] + rest;
    assert t[4..] == rest;
  }

  lemma UnbaseTail(v0: int, v1: int, v2: int)
    requires 0 <= v0 < 64 && 0 <= v1 < 64 && 0 <= v2 < 64
    ensures Unbase64([Symbol(v0), Symbol(v1), EQUALS, EQUALS]) == Some([v0 * 4 + v1 / 16])
    ensures Unbase64([Symbol(v0), Symbol(v1), Symbol(v2), EQUALS]) == Some([v0 * 4 + v1 / 16, v1 % 16 * 16 + v2 / 4])
  {
    SymbolRoundTrip(v0);
    SymbolRoundTrip(v1);
    SymbolRoundTrip(v2);
    hide Symbol, SymbolValue;
  }

  /** Decoding what was encoded gives the bytes back (RFC 4648 sections 4 and 5). */
  lemma {:induction false} Base64RoundTrip(b: seq<Byte>)
    ensures Unbase64(Base64(b)) == Some(b)
  {
    hide Symbol, SymbolValue, Unbase64;
    if |b| == 0 {
      assert Unbase64([]) == Some([]) by { UnbaseEmpty(); }
    } else if |b| == 1 {
      DigitsSpellBytes(b[0], 0, 0);
      UnbaseTail(b[0] / 4, b[0] % 4 * 16, 0);
      assert b == [b[0]];
    } else if |b| == 2 {
      DigitsSpellBytes(b[0], b[1], 0);
      UnbaseTail(b[0] / 4, b[0] % 4 * 16 + b[1] / 16, b[1] % 16 * 4);
      assert b == [b[0], b[1]];
    } else {
      DigitsSpellBytes(b[0], b[1], b[2]);
      Base64RoundTrip(b[3..]);
      UnbaseGroup(b[0] / 4, b[0] % 4 * 16 + b[1] / 16, b[1] % 16 * 4 + b[2] / 64, b[2] % 64, Base64(b[3..]));
      assert b == [b[0], b[1], b[2]] + b[3..];
    }
  }

  lemma UnbaseEmpty()
    ensures Unbase64([]) == Some([])
  {}

  /** rstrip("="). */
  function StripPadding(t: Text): Text {
    if t != [] && t[|t| - 1] == EQUALS then StripPadding(t[..|t| - 1]) else t
  }

  /** "=" * (-len(t) % 4). */
  function Padding(t: Text): Text {
    seq((4 - |t| % 4) % 4, i => EQUALS)
  }

  lemma {:induction false} StripKeeps(a: Text, b: Text)
    requires a == [] || a[|a| - 1] != EQUALS
    ensures StripPadding(a + b) == a + StripPadding(b)
  {
    if b == [] {
      assert a + b == a;
    } else {
      assert (a + b)[..|a + b| - 1] == a + b[..|b| - 1];
      StripKeeps(a, b[..|b| - 1]);
      assert a + b == a + b;
    }
  }

  lemma StripOne(t: Text)
    ensures t == [] || t[|t| - 1] != EQUALS ==> StripPadding(t) == t
    ensures StripPadding(t + [EQUALS]) == StripPadding(t)
  {
    assert (t + [EQUALS])[..|t|] == t;
  }

  lemma PaddingOf(a: Text, t: Text)
    requires |a| % 4 == 0
    ensures Padding(a + t) == Padding(t)
  {}

  /** What rstrip removed from a full text t + p comes back when the rest t has the length for it. */
  ghost predicate Restores(full: Text) {
    |full| % 4 == 0 && StripPadding(full) + Padding(StripPadding(full)) == full
  }

  lemma TailRestores(t: Text)
    requires 2 <= |t| <= 3 && t[|t| - 1] != EQUALS
    ensures Restores(if |t| == 2 then t + [EQUALS, EQUALS] else t + [EQUALS])
  {
    StripOne(t);
    if |t| == 2 {
      StripOne(t + [EQUALS]);
      assert t + [EQUALS, EQUALS] == t + [EQUALS] + [EQUALS];
      assert Padding(t) == [EQUALS, EQUALS];
    } else {
      assert Padding(t) == [EQUALS];
    }
  }

  lemma GroupRestores(a: Text, rest: Text)
    requires |a| == 4 && a[3] != EQUALS && Restores(rest)
    ensures Restores(a + rest)
  {
    var t := StripPadding(rest);
    StripKeeps(a, rest);
    PaddingOf(a, t);
    assert a + t + Padding(t) == a + (t + Padding(t));
  }

  /** What rstrip removed is what the decoder puts back: -len mod 4 equals signs (RFC 4648 section 3.2). */
  lemma {:induction false} PaddingRestored(b: seq<Byte>)
    ensures Restores(Base64(b))
  {
    hide Symbol, SymbolValue, StripPadding, Restores;
    if |b| == 0 {
      EmptyRestores();
    } else if |b| == 1 {
      DigitsSpellBytes(b[0], 0, 0);
      SymbolRoundTrip(b[0] % 4 * 16);
      var t := [Symbol(b[0] / 4), Symbol(b[0] % 4 * 16)];
      TailRestores(t);
      assert Base64(b) == t + [EQUALS, EQUALS];
    } else if |b| == 2 {
      DigitsSpellBytes(b[0], b[1], 0);
      SymbolRoundTrip(b[1] % 16 * 4);
      var t := [Symbol(b[0] / 4), Symbol(b[0] % 4 * 16 + b[1] / 16), Symbol(b[1] % 16 * 4)];
      TailRestores(t);
      assert Base64(b) == t + [EQUALS];
    } else {
      DigitsSpellBytes(b[0], b[1], b[2]);
      SymbolRoundTrip(b[2] % 64);
      PaddingRestored(b[3..]);
      GroupRestores([Symbol(b[0] / 4), Symbol(b[0] % 4 * 16 + b[1] / 16),
                     Symbol(b[1] % 16 * 4 + b[2] / 64), Symbol(b[2] % 64)], Base64(b[3..]));
    }
  }

  lemma EmptyRestores()
    ensures Restores([])
  {
    StripOne([]);
  }

  // ---- JSON strings ----

  predicate High(c: int) { 0xD800 <= c <= 0xDBFF }

  predicate Low(c: int) { 0xDC00 <= c <= 0xDFFF }

  /** The code point of a surrogate pair. */
  function Combined(high: int, low: int): CodePoint
    requires High(high) && Low(low)
  {
    0x1_0000 + (high - 0xD800) * 0x400 + (low - 0xDC00)
  }

  function HighOf(c: CodePoint): (u: int)
    requires c >= 0x1_0000
    ensures High(u)
  {
    0xD800 + (c - 0x1_0000) / 0x400
  }

  function LowOf(c: CodePoint): (u: int)
    requires c >= 0x1_0000
    ensures Low(u) && Combined(HighOf(c), u) == c
  {
    0xDC00 + (c - 0x1_0000) % 0x400
  }

  function HexDigit(v: int): CodePoint
    requires 0 <= v < 16
  {
    if v < 10 then 0x30 + v else 0x61 + v - 10
  }

  function HexValue(c: CodePoint): (v: int)
    ensures -1 <= v < 16
  {
    if 0x30 <= c <= 0x39 then c - 0x30
    else if 0x61 <= c <= 0x66 then c - 0x61 + 10
    else if 0x41 <= c <= 0x46 then c - 0x41 + 10
    else -1
  }

  /** A \uXXXX escape. */
  function UnicodeEscape(u: int): Text
    requires 0 <= u < 0x1_0000
  {
    [BACKSLASH, 0x75, HexDigit(u / 4096), HexDigit(u / 256 % 16), HexDigit(u / 16 % 16), HexDigit(u % 16)]
  }

  /** The four hex digits at the start of s. */
  function FourHex(s: Text): Option<int> {
    if |s| < 4 || HexValue(s[0]) < 0 || HexValue(s[1]) < 0 || HexValue(s[2]) < 0 || HexValue(s[3]) < 0 then None
    else Some(HexValue(s[0]) * 4096 + HexValue(s[1]) * 256 + HexValue(s[2]) * 16 + HexValue(s[3]))
  }

  lemma HexRoundTrip(v: int)
    requires 0 <= v < 16
    ensures HexValue(HexDigit(v)) == v
  {}

  lemma HexSplit(u: int)
    requires 0 <= u < 0x1_0000
    ensures 0 <= u / 4096 < 16
    ensures u == u / 4096 * 4096 + u / 256 % 16 * 256 + u / 16 % 16 * 16 + u % 16
  {
    assert u / 16 / 16 == u / 256 && u / 256 / 16 == u / 4096;
  }

  lemma FourHexRoundTrip(u: int, rest: Text)
    requires 0 <= u < 0x1_0000
    ensures FourHex(UnicodeEscape(u)[2..] + rest) == Some(u)
  {
    HexSplit(u);
    HexRoundTrip(u / 4096);
    HexRoundTrip(u / 256 % 16);
    HexRoundTrip(u / 16 % 16);
    HexRoundTrip(u % 16);
    hide HexDigit, HexValue;
    var s := UnicodeEscape(u)[2..] + rest;
    assert s[0] == HexDigit(u / 4096) && s[1] == HexDigit(u / 256 % 16);
    assert s[2] == HexDigit(u / 16 % 16) && s[3] == HexDigit(u % 16);
  }

  /** The letter of a two-character escape, or 0. */
  function ShortEscape(c: CodePoint): CodePoint {
    if c == QUOTE || c == BACKSLASH then c
    else if c == 8 then 0x62
    else if c == 9 then 0x74
    else if c == 10 then 0x6E
    else if c == 12 then 0x66
    else if c == 13 then 0x72
    else 0
  }

  function ShortMeaning(c: CodePoint): Option<CodePoint> {
    if c == QUOTE || c == BACKSLASH || c == 0x2F then Some(c)
    else if c == 0x62 then Some(8)
    else if c == 0x74 then Some(9)
    else if c == 0x6E then Some(10)
    else if c == 0x66 then Some(12)
    else if c == 0x72 then Some(13)
    else None
  }

  /** json.dumps with ensure_ascii: one character of a string. */
  function EscapeOne(c: CodePoint): Text {
    if ShortEscape(c) != 0 then [BACKSLASH, ShortEscape(c)]
    else if 0x20 <= c <= 0x7E then [c]
    else if c < 0x1_0000 then UnicodeEscape(c)
    else UnicodeEscape(HighOf(c)) + UnicodeEscape(LowOf(c))
  }

  function Escape(t: Text): Text {
    if t == [] then [] else EscapeOne(t[0]) + Escape(t[1..])
  }

  /** json.loads after an opening quote: the string, and what follows its closing quote. */
  function Unescape(s: Text): (r: Option<(Text, Text)>)
    ensures r.Some? ==> |r.value.1| < |s|
    decreases |s|
  {
    if s == [] then None
    else if s[0] == QUOTE then Some(([], s[1..]))
    else if s[0] != BACKSLASH then
      if s[0] < 0x20 then None else Prepend(s[0], Unescape(s[1..]))
    else if |s| < 2 then None
    else if s[1] != 0x75 then
      if ShortMeaning(s[1]).None? then None else Prepend(ShortMeaning(s[1]).value, Unescape(s[2..]))
    else
      var first := FourHex(s[2..]);
      if first.None? then None
      else if High(first.value) && |s| >= 8 && s[6] == BACKSLASH && s[7] == 0x75 then
        var second := FourHex(s[8..]);
        if second.None? then None
        else if Low(second.value) then
          Prepend(Combined(first.value, second.value), Unescape(s[12..]))
        else Prepend(first.value, Unescape(s[6..]))
      else Prepend(first.value, Unescape(s[6..]))
  }

  function Prepend(c: CodePoint, r: Option<(Text, Text)>): Option<(Text, Text)> {
    if r.None? then None else Some(([c] + r.value.0, r.value.1))
  }

  /** What a string becomes on the way through JSON: a high and a low surrogate next to each other merge. */
  function Merged(t: Text): Text {
    if |t| >= 2 && High(t[0]) && Low(t[1]) then [Combined(t[0], t[1])] + Merged(t[2..])
    else if t == [] then []
    else [t[0]] + Merged(t[1..])
  }

  /** No high surrogate is directly followed by a low one; so for every string of Unicode scalar values. */
  ghost predicate Unpaired(t: Text) {
    forall i :: 0 <= i < |t| - 1 ==> !(High(t[i]) && Low(t[i + 1]))
  }

  lemma {:induction false} MergedShorter(t: Text)
    ensures |Merged(t)| <= |t|
    ensures Merged(t) == t <==> Unpaired(t)
    ensures !Unpaired(t) ==> |Merged(t)| < |t|
    decreases |t|
  {
    if |t| >= 2 && High(t[0]) && Low(t[1]) {
      MergedShorter(t[2..]);
    } else if t != [] {
      MergedShorter(t[1..]);
      assert t == [t[0]] + t[1..];
      if Unpaired(t[1..]) {
        forall i | 0 <= i < |t| - 1 ensures !(High(t[i]) && Low(t[i + 1])) {
          if i > 0 { assert t[i] == t[1..][i - 1] && t[i + 1] == t[1..][i]; }
        }
      } else {
        var i :| 0 <= i < |t[1..]| - 1 && High(t[1..][i]) && Low(t[1..][i + 1]);
        assert High(t[i + 1]) && Low(t[i + 2]);
      }
    }
  }

  // ---- a string through JSON ----

  /** An escaped string, its closing quote, and what follows. */
  function Coded(t: Text, rest: Text): Text {
    Escape(t) + [QUOTE] + rest
  }

  lemma CodedStep(t: Text, rest: Text)
    requires t != []
    ensures Coded(t, rest) == EscapeOne(t[0]) + Coded(t[1..], rest)
  {
    assert Escape(t) == EscapeOne(t[0]) + Escape(t[1..]);
  }

  lemma CodedEmpty(rest: Text)
    ensures Coded([], rest)[0] == QUOTE
  {}

  lemma UnescapeUnit(u: int, tail: Text)
    requires 0 <= u < 0x1_0000
    requires !(High(u) && |tail| >= 2 && tail[0] == BACKSLASH && tail[1] == 0x75)
    ensures Unescape(UnicodeEscape(u) + tail) == Prepend(u, Unescape(tail))
  {
    hide FourHex, UnicodeEscape, Combined, ShortMeaning;
    UnicodeEscapeShape(u, tail);
    FourHexRoundTrip(u, tail);
    var s := UnicodeEscape(u) + tail;
    assert s[6..] == tail;
  }

  lemma UnicodeEscapeShape(u: int, tail: Text)
    requires 0 <= u < 0x1_0000
    ensures |UnicodeEscape(u)| == 6 && UnicodeEscape(u)[0] == BACKSLASH && UnicodeEscape(u)[1] == 0x75
    ensures (UnicodeEscape(u) + tail)[2..] == UnicodeEscape(u)[2..] + tail && (UnicodeEscape(u) + tail)[6..] == tail
  {
    hide HexDigit;
  }

  lemma UnescapePair(u: int, v: int, tail: Text)
    requires High(u) && 0 <= v < 0x1_0000
    ensures Unescape(UnicodeEscape(u) + (UnicodeEscape(v) + tail)) ==
      if Low(v) then Prepend(Combined(u, v), Unescape(tail)) else Prepend(u, Unescape(UnicodeEscape(v) + tail))
  {
    hide FourHex, UnicodeEscape, Combined, ShortMeaning;
    var second := UnicodeEscape(v) + tail;
    var s := UnicodeEscape(u) + second;
    UnicodeEscapeShape(u, second);
    UnicodeEscapeShape(v, tail);
    FourHexRoundTrip(u, second);
    FourHexRoundTrip(v, tail);
    assert s[6..][2..] == s[8..] && s[6..][6..] == s[12..];
    assert s[6] == second[0] && s[7] == second[1];
  }

  lemma UnescapePlain(c: CodePoint, tail: Text)
    requires ShortEscape(c) != 0 || 0x20 <= c <= 0x7E
    ensures Unescape(EscapeOne(c) + tail) == Prepend(c, Unescape(tail))
  {
    var s := EscapeOne(c) + tail;
    if ShortEscape(c) != 0 {
      assert s[2..] == tail;
      assert ShortMeaning(s[1]) == Some(c);
    } else {
      assert s[1..] == tail;
    }
  }

  /** Which texts start with a \u escape, and that its value is low only for a low surrogate. */
  lemma CodedHead(t: Text, rest: Text) returns (v: int, tail: Text)
    requires |Coded(t, rest)| >= 2 && Coded(t, rest)[0] == BACKSLASH && Coded(t, rest)[1] == 0x75
    ensures 0 <= v < 0x1_0000 && Coded(t, rest) == UnicodeEscape(v) + tail
    ensures t != [] && (Low(v) <==> Low(t[0]))
    ensures Low(v) ==> v == t[0] && tail == Coded(t[1..], rest)
  {
    hide Escape, Coded, UnicodeEscape, HighOf, LowOf;
    CodedEmpty(rest);
    CodedStep(t, rest);
    var c := t[0];
    if c < 0x1_0000 {
      v, tail := c, Coded(t[1..], rest);
    } else {
      v, tail := HighOf(c), UnicodeEscape(LowOf(c)) + Coded(t[1..], rest);
    }
  }

  lemma AstralStep(c: CodePoint, tail: Text)
    requires c >= 0x1_0000
    ensures Unescape(EscapeOne(c) + tail) == Prepend(c, Unescape(tail))
  {
    hide Unescape, UnicodeEscape, HighOf, LowOf, Combined;
    var u, v := HighOf(c), LowOf(c);
    UnescapePair(u, v, tail);
    assert UnicodeEscape(u) + UnicodeEscape(v) + tail == UnicodeEscape(u) + (UnicodeEscape(v) + tail);
  }

  ghost predicate ReadsBack(t: Text, rest: Text) {
    Unescape(Coded(t, rest)) == Some((Merged(t), rest))
  }

  lemma HighStep(t: Text, rest: Text)
    requires t != [] && High(t[0]) && ReadsBack(t[1..], rest)
    requires |t| >= 2 ==> ReadsBack(t[2..], rest)
    ensures ReadsBack(t, rest)
  {
    CodedStep(t, rest);
    hide Escape, Coded, Unescape, UnicodeEscape;
    var c, tail := t[0], Coded(t[1..], rest);
    if |tail| >= 2 && tail[0] == BACKSLASH && tail[1] == 0x75 {
      var v, next := CodedHead(t[1..], rest);
      UnescapePair(c, v, next);
      if Low(v) { assert t[1..][1..] == t[2..] && t[1] == v; }
    } else {
      UnescapeUnit(c, tail);
      if |t| >= 2 && Low(t[1]) { LowHead(t[1..], rest); }
    }
  }

  /** A JSON string read back is the text with each adjacent high and low surrogate merged into one code point. */
  lemma {:induction false} UnescapeEscape(t: Text, rest: Text)
    ensures ReadsBack(t, rest)
    decreases |t|
  {
    if t == [] {
      assert Coded(t, rest)[1..] == rest;
      return;
    }
    UnescapeEscape(t[1..], rest);
    if |t| >= 2 { UnescapeEscape(t[2..], rest); }
    var c, tail := t[0], Coded(t[1..], rest);
    if High(c) {
      HighStep(t, rest);
    } else {
      CodedStep(t, rest);
      hide Escape, Coded, Unescape, UnicodeEscape;
      if ShortEscape(c) != 0 || 0x20 <= c <= 0x7E {
        UnescapePlain(c, tail);
      } else if c >= 0x1_0000 {
        AstralStep(c, tail);
      } else {
        UnescapeUnit(c, tail);
      }
    }
  }

  lemma LowHead(t: Text, rest: Text)
    requires t != [] && Low(t[0])
    ensures |Coded(t, rest)| >= 2 && Coded(t, rest)[0] == BACKSLASH && Coded(t, rest)[1] == 0x75
  {
    CodedStep(t, rest);
  }

  // ---- the cursor ----

  /** json.dumps of a string. */
  function Quoted(t: Text): Text {
    [QUOTE] + Coded(t, [])
  }

  /** json.dumps of {"prefix": prefix, "key": key} with compact separators. */
  function Payload(prefix: Text, key: Text): Text {
    var last := Quoted(Lit("key")) + (Lit(":") + (Quoted(key) + Lit("}")));
    Lit("{") + (Quoted(Lit("prefix")) + (Lit(":") + (Quoted(prefix) + (Lit(",") + last))))
  }

  function ParseString(s: Text): (r: Option<(Text, Text)>)
    ensures r.Some? ==> |r.value.1| < |s|
  {
    if s == [] || s[0] != QUOTE then None else Unescape(s[1..])
  }

  /**
   The members of an object whose values are strings, up to its closing brace at the end; a repeated name counts last.
   */
  function ParseMembers(s: Text): Option<map<Text, Text>>
    decreases |s|
  {
    var name := ParseString(s);
    if name.None? || name.value.1 == [] || name.value.1[0] != ':' as int then None
    else
      var value := ParseString(name.value.1[1..]);
      if value.None? || value.value.1 == [] then None
      else
        var next := value.value.1;
        if next == Lit("}") then Some(map[name.value.0 := value.value.0])
        else if next[0] != ',' as int then None
        else
          var more := ParseMembers(next[1..]);
          if more.None? then None
          else Some(map[name.value.0 := value.value.0] + more.value)
  }

  function ParseObject(s: Text): Option<map<Text, Text>> {
    if s == [] || s[0] != '{' as int then None
    else if s[1..] == Lit("}") then Some(map[])
    else ParseMembers(s[1..])
  }

  /** The bytes of an ASCII text. */
  predicate Ascii(t: Text) {
    forall i :: 0 <= i < |t| ==> t[i] < 128
  }

  function Bytes(t: Text): seq<Byte>
    requires Ascii(t)
  {
    seq(|t|, i requires 0 <= i < |t| => t[i])
  }

  function Characters(b: seq<Byte>): Text {
    seq(|b|, i requires 0 <= i < |b| => b[i])
  }

  /** EscapeOne, and so the whole payload, stays in ASCII. */
  lemma EscapeOneAscii(c: CodePoint)
    ensures Ascii(EscapeOne(c))
  {}

  lemma {:induction false} EscapeAscii(t: Text)
    ensures Ascii(Escape(t))
  {
    if t != [] {
      EscapeOneAscii(t[0]);
      EscapeAscii(t[1..]);
    }
  }

  lemma PayloadAscii(prefix: Text, key: Text)
    ensures Ascii(Payload(prefix, key)) && Payload(prefix, key) != []
  {
    EscapeAscii(prefix);
    EscapeAscii(key);
    EscapeAscii(Lit("prefix"));
    EscapeAscii(Lit("key"));
    hide Escape;
  }

  function EncodeCursor(prefix: Text, key: Text): Text {
    PayloadAscii(prefix, key);
    StripPadding(Base64(Bytes(Payload(prefix, key))))
  }

  datatype Decoded = NoCursor | After(key: Text) | Invalid

  function DecodePayload(payload: Text, prefix: Text): Decoded {
    var members := ParseObject(payload);
    if members.None? then Invalid
    else if Lit("prefix") !in members.value || members.value[Lit("prefix")] != prefix then Invalid
    else if Lit("key") !in members.value then Invalid
    else After(members.value[Lit("key")])
  }

  function DecodeCursor(cursor: Option<Text>, prefix: Text): Decoded {
    if cursor.None? || cursor.value == [] then NoCursor
    else
      var bytes := Unbase64(cursor.value + Padding(cursor.value));
      if bytes.None? || !Ascii(Characters(bytes.value)) then Invalid
      else DecodePayload(Characters(bytes.value), prefix)
  }

  lemma ParseQuoted(t: Text, rest: Text)
    ensures ParseString(Quoted(t) + rest) == Some((Merged(t), rest))
  {
    UnescapeEscape(t, rest);
    hide Escape, Unescape, Merged;
    assert (Quoted(t) + rest)[1..] == Coded(t, rest);
  }

  lemma ParseMember(name: Text, value: Text, next: Text)
    requires next != []
    ensures var s := Quoted(name) + (Lit(":") + (Quoted(value) + next));
      && ParseString(s) == Some((Merged(name), Lit(":") + (Quoted(value) + next)))
      && ParseString((Lit(":") + (Quoted(value) + next))[1..]) == Some((Merged(value), next))
  {
    ParseQuoted(name, Lit(":") + (Quoted(value) + next));
    ParseQuoted(value, next);
    hide Quoted, ParseString, Merged;
    assert (Lit(":") + (Quoted(value) + next))[1..] == Quoted(value) + next;
  }

  lemma NamesUnchanged()
    ensures Merged(Lit("prefix")) == Lit("prefix") && Merged(Lit("key")) == Lit("key")
    ensures Lit("prefix") != Lit("key")
  {
    MergedShorter(Lit("prefix"));
    MergedShorter(Lit("key"));
    hide Merged;
    assert |Lit("prefix")| == 6 && |Lit("key")| == 3;
  }

  lemma LastMember(name: Text, value: Text)
    ensures ParseMembers(Quoted(name) + (Lit(":") + (Quoted(value) + Lit("}"))))
      == Some(map[Merged(name) := Merged(value)])
  {
    hide Quoted, ParseString, Merged;
    ParseMember(name, value, Lit("}"));
  }

  lemma EarlierMember(name: Text, value: Text, more: Text)
    requires ParseMembers(more).Some?
    ensures ParseMembers(Quoted(name) + (Lit(":") + (Quoted(value) + (Lit(",") + more))))
      == Some(map[Merged(name) := Merged(value)] + ParseMembers(more).value)
  {
    hide Quoted, ParseString, Merged;
    ParseMember(name, value, Lit(",") + more);
    assert (Lit(",") + more)[1..] == more;
    assert (Lit(",") + more)[0] == ',' as int;
  }

  lemma ParsePayload(prefix: Text, key: Text)
    ensures ParseObject(Payload(prefix, key))
      == Some(map[Lit("prefix") := Merged(prefix), Lit("key") := Merged(key)])
  {
    hide Quoted, ParseString, Merged, ParseMembers;
    NamesUnchanged();
    LastMember(Lit("key"), key);
    var last := Quoted(Lit("key")) + (Lit(":") + (Quoted(key) + Lit("}")));
    EarlierMember(Lit("prefix"), prefix, last);
    var first := Quoted(Lit("prefix")) + (Lit(":") + (Quoted(prefix) + (Lit(",") + last)));
    assert Payload(prefix, key) == Lit("{") + first;
    assert (Lit("{") + first)[1..] == first && |first| >= 2 && |Lit("}")| == 1;
    assert map[Lit("prefix") := Merged(prefix)] + map[Lit("key") := Merged(key)]
      == map[Lit("prefix") := Merged(prefix), Lit("key") := Merged(key)];
    assert ParseObject(Payload(prefix, key)) == ParseMembers(first);
  }

  lemma DecodePayloadOf(prefix: Text, key: Text, asked: Text)
    ensures DecodePayload(Payload(prefix, key), asked)
      == if Merged(prefix) == asked then After(Merged(key)) else Invalid
  {
    hide Payload, ParseObject, Merged, Lit;
    ParsePayload(prefix, key);
    NamesUnchanged();
  }

  lemma BytesOf(t: Text)
    requires Ascii(t)
    ensures Characters(Bytes(t)) == t && |Bytes(t)| == |t|
  {}

  lemma StripNonEmpty(b: seq<Byte>)
    requires b != []
    ensures StripPadding(Base64(b)) != []
  {
    PaddingRestored(b);
    hide StripPadding;
    var t := StripPadding(Base64(b));
    assert |Padding(t)| < 4 && |Base64(b)| >= 4;
  }

  /** Decoding what was encoded: the key, with surrogate pairs merged, if the prefix reads back as the one asked for. */
  lemma EncodedDecodes(prefix: Text, key: Text, asked: Text)
    ensures DecodeCursor(Some(EncodeCursor(prefix, key)), asked)
      == if Merged(prefix) == asked then After(Merged(key)) else Invalid
  {
    hide Payload, DecodePayload, Merged, Base64, Unbase64, StripPadding, Padding, Bytes, Characters, Ascii;
    PayloadAscii(prefix, key);
    var payload := Payload(prefix, key);
    Base64RoundTrip(Bytes(payload));
    PaddingRestored(Bytes(payload));
    BytesOf(payload);
    StripNonEmpty(Bytes(payload));
    DecodePayloadOf(prefix, key, asked);
  }

  /** The cursor gives the key back exactly when JSON changes neither text. */
  lemma CursorRoundTrip(prefix: Text, key: Text)
    ensures DecodeCursor(Some(EncodeCursor(prefix, key)), prefix) == After(key) <==> Unpaired(prefix) && Unpaired(key)
  {
    EncodedDecodes(prefix, key, prefix);
    MergedShorter(prefix);
    MergedShorter(key);
    hide EncodeCursor, DecodeCursor, Merged, Unpaired;
  }

  /** The failing side: a key of two surrogates, high and low, comes back as one code point. */
  lemma PairedKeyChanges(prefix: Text)
    requires Unpaired(prefix)
    ensures DecodeCursor(Some(EncodeCursor(prefix, [0xD800, 0xDC00])), prefix) == After([0x1_0000])
  {
    hide *;
    EncodedDecodes(prefix, [0xD800, 0xDC00], prefix);
    MergedShorter(prefix);
    PairMerged();
  }

  lemma PairMerged()
    ensures Merged([0xD800, 0xDC00]) == [0x1_0000]
  {
    assert [0xD800, 0xDC00][2..] == [];
  }

  lemma {:induction false} MergedGrows(t: Text)
    requires !Unpaired(t)
    ensures Less(t + [0], Merged(t))
  {
    if !(|t| >= 2 && High(t[0]) && Low(t[1])) {
      var i :| 0 <= i < |t| - 1 && High(t[i]) && Low(t[i + 1]);
      assert t[1..][i - 1] == t[i] && t[1..][i] == t[i + 1];
      MergedGrows(t[1..]);
      assert (t + [0])[1..] == t[1..] + [0];
    }
  }

  /** A cursor skips no later key of its prefix exactly when it gives its own key back. */
  lemma NothingSkippedExactly(prefix: Text, key: Text)
    requires Unpaired(prefix) && prefix <= key
    ensures DecodeCursor(Some(EncodeCursor(prefix, key)), prefix).After?
    ensures var after := DecodeCursor(Some(EncodeCursor(prefix, key)), prefix).key;
      (forall k :: prefix <= k && Less(key, k) ==> Less(after, k)) <==> Unpaired(key)
  {
    EncodedDecodes(prefix, key, prefix);
    MergedShorter(prefix);
    MergedShorter(key);
    hide EncodeCursor, DecodeCursor, Merged;
    if !Unpaired(key) {
      MergedGrows(key);
      SkipsNext(prefix, key, Merged(key));
    }
  }

  lemma SkipsNext(prefix: Text, key: Text, after: Text)
    requires prefix <= key && Less(key + [0], after)
    ensures exists k :: prefix <= k && Less(key, k) && !Less(after, k)
  {
    hide Less;
    var next := key + [0];
    LessAppend(key, 0);
    if Less(after, next) {
      LessTransitive(after, next, after);
      LessIrreflexive(after);
    }
    assert prefix <= next && Less(key, next) && !Less(after, next);
  }

  lemma {:induction false} LessAppend(t: Text, c: CodePoint)
    ensures Less(t, t + [c])
  {
    if t != [] {
      assert (t + [c])[1..] == t[1..] + [c];
      LessAppend(t[1..], c);
    }
  }

  /** No surrogates at all: Unicode scalar values only. */
  ghost predicate ScalarValues(t: Text) {
    forall i :: 0 <= i < |t| ==> !(0xD800 <= t[i] <= 0xDFFF)
  }

  lemma ScalarRoundTrip(prefix: Text, key: Text, other: Text)
    requires ScalarValues(prefix) && ScalarValues(key)
    ensures DecodeCursor(Some(EncodeCursor(prefix, key)), prefix) == After(key)
    ensures other != prefix ==> DecodeCursor(Some(EncodeCursor(prefix, key)), other) == Invalid
  {
    CursorRoundTrip(prefix, key);
    EncodedDecodes(prefix, key, other);
    MergedShorter(prefix);
    hide EncodeCursor, DecodeCursor, Merged;
    assert Unpaired(prefix) && Unpaired(key);
  }

  predicate UrlSafe(c: CodePoint) {
    0x41 <= c <= 0x5A || 0x61 <= c <= 0x7A || 0x30 <= c <= 0x39 || c == 0x2D || c == 0x5F
  }

  lemma {:induction false} StripSafe(t: Text)
    requires forall i :: 0 <= i < |t| ==> UrlSafe(t[i]) || t[i] == EQUALS
    requires forall i, j :: 0 <= i < j < |t| && t[i] == EQUALS ==> t[j] == EQUALS
    ensures forall i :: 0 <= i < |StripPadding(t)| ==> UrlSafe(StripPadding(t)[i])
  {
    if t != [] && t[|t| - 1] == EQUALS { StripSafe(t[..|t| - 1]); }
  }

  lemma SymbolSafe(v: int)
    requires 0 <= v < 64
    ensures UrlSafe(Symbol(v)) && Symbol(v) != EQUALS
  {}

  /** Padding only at the end, everything else in the alphabet. */
  ghost predicate PaddedSafe(t: Text) {
    && (forall i :: 0 <= i < |t| ==> UrlSafe(t[i]) || t[i] == EQUALS)
    && (forall i, j :: 0 <= i < j < |t| && t[i] == EQUALS ==> t[j] == EQUALS)
  }

  lemma {:induction false} Base64Safe(b: seq<Byte>)
    ensures PaddedSafe(Base64(b))
  {
    if |b| >= 3 {
      DigitsSpellBytes(b[0], b[1], b[2]);
      SymbolSafe(b[0] / 4);
      SymbolSafe(b[0] % 4 * 16 + b[1] / 16);
      SymbolSafe(b[1] % 16 * 4 + b[2] / 64);
      SymbolSafe(b[2] % 64);
      Base64Safe(b[3..]);
      GroupSafe([Symbol(b[0] / 4), Symbol(b[0] % 4 * 16 + b[1] / 16),
                 Symbol(b[1] % 16 * 4 + b[2] / 64), Symbol(b[2] % 64)], Base64(b[3..]));
    } else if |b| >= 1 {
      hide UrlSafe, Symbol;
      var y := if |b| == 2 then b[1] else 0;
      DigitsSpellBytes(b[0], y, 0);
      SymbolSafe(b[0] / 4);
      SymbolSafe(b[0] % 4 * 16 + y / 16);
      SymbolSafe(y % 16 * 4);
    }
  }

  lemma GroupSafe(a: Text, rest: Text)
    requires forall i :: 0 <= i < |a| ==> UrlSafe(a[i]) && a[i] != EQUALS
    requires PaddedSafe(rest)
    ensures PaddedSafe(a + rest)
  {
    hide UrlSafe;
  }

  /** A cursor can stand in a URL as it is, and is never empty (an empty one would restart the listing). */
  lemma CursorUrlSafe(prefix: Text, key: Text)
    ensures EncodeCursor(prefix, key) != []
    ensures forall i :: 0 <= i < |EncodeCursor(prefix, key)| ==> UrlSafe(EncodeCursor(prefix, key)[i])
  {
    PayloadAscii(prefix, key);
    var bytes := Bytes(Payload(prefix, key));
    StripNonEmpty(bytes);
    Base64Safe(bytes);
    StripSafe(Base64(bytes));
    hide UrlSafe, Base64, StripPadding, Payload, Bytes;
  }
}
