/** The cursor's characters on the wire: RFC 4648 (sections 4 and 5) digits around RFC 8259 (section 7) strings. */
module KvCursorWire {
  import opened Texts
  import opened KvStore
  import opened KvCursor

  /** The URL-safe digits of RFC 4648, section 5: A to Z, a to z, 0 to 9, minus and underscore, in this order. */
  lemma DigitsInOrder(v: int)
    requires 0 <= v < 64
    ensures Symbol(0) == 'A' as int && Symbol(25) == 'Z' as int && Symbol(26) == 'a' as int && Symbol(51) == 'z' as int
    ensures Symbol(52) == '0' as int && Symbol(61) == '9' as int
    ensures Symbol(62) == '-' as int && Symbol(63) == '_' as int
    ensures v !in {25, 51, 61, 62, 63} ==> Symbol(v + 1) == Symbol(v) + 1
    ensures SymbolValue(Symbol(v)) == v
  {}

  /** A character is read as a digit exactly if it is one. */
  lemma DigitsRead(c: CodePoint)
    ensures SymbolValue(c) >= 0 <==> UrlSafe(c)
    ensures SymbolValue(c) >= 0 ==> Symbol(SymbolValue(c)) == c
  {}

  /** The four digits at position 4 * i spell the three bytes at 3 * i as one number. */
  ghost predicate GroupSpelled(b: seq<Byte>, t: Text, i: nat) {
    && 3 * i + 3 <= |b| && 4 * i + 4 <= |t|
    && SymbolValue(t[4 * i]) * 0x4_0000 + SymbolValue(t[4 * i + 1]) * 0x1000
      + SymbolValue(t[4 * i + 2]) * 0x40 + SymbolValue(t[4 * i + 3])
      == (b[3 * i] as int) * 0x1_0000 + (b[3 * i + 1] as int) * 0x100 + b[3 * i + 2]
  }

  /** One or two bytes left over: their bits, filled up with zeros, and padding. */
  ghost predicate TailSpelled(b: seq<Byte>, t: Text) {
    var n, m := |b| / 3, |t|;
    match |b| % 3
    case 0 => m == 4 * n
    case 1 =>
      && m == 4 * n + 4 && t[m - 2] == '=' as int && t[m - 1] == '=' as int
      && SymbolValue(t[m - 4]) * 0x40 + SymbolValue(t[m - 3]) == (b[|b| - 1] as int) * 0x10
    case _ =>
      && m == 4 * n + 4 && t[m - 1] == '=' as int
      && SymbolValue(t[m - 4]) * 0x1000 + SymbolValue(t[m - 3]) * 0x40 + SymbolValue(t[m - 2])
        == ((b[|b| - 2] as int) * 0x100 + b[|b| - 1]) * 4
  }

  /** The encoding is the positional one of RFC 4648: every group of bytes, and the padded tail. */
  lemma {:induction false} Base64Spells(b: seq<Byte>)
    ensures forall i: nat :: 3 * i + 3 <= |b| ==> GroupSpelled(b, Base64(b), i)
    ensures TailSpelled(b, Base64(b))
  {
    if |b| >= 3 {
      Base64Spells(b[3..]);
      FirstGroup(b);
      LaterGroups(b, Base64(b)[..4], Base64(b[3..]));
      assert Base64(b)[..4] + Base64(b[3..]) == Base64(b);
    } else {
      ShortTail(b);
    }
  }

  lemma FirstGroup(b: seq<Byte>)
    requires |b| >= 3
    ensures |Base64(b)| >= 4 && Base64(b)[4..] == Base64(b[3..]) && GroupSpelled(b, Base64(b), 0)
  {
    DigitsSpellBytes(b[0], b[1], b[2]);
    SymbolRoundTrip(b[0] / 4);
    SymbolRoundTrip(b[0] % 4 * 16 + b[1] / 16);
    SymbolRoundTrip(b[1] % 16 * 4 + b[2] / 64);
    SymbolRoundTrip(b[2] % 64);
    hide Symbol, SymbolValue;
    assert b[2] == b[2] / 64 * 64 + b[2] % 64 && b[1] == b[1] / 16 * 16 + b[1] % 16 && b[0] == b[0] / 4 * 4 + b[0] % 4;
  }

  lemma LaterGroups(b: seq<Byte>, first: Text, rest: Text)
    requires |b| >= 3 && |first| == 4 && GroupSpelled(b, first + rest, 0)
    requires forall i: nat :: 3 * i + 3 <= |b[3..]| ==> GroupSpelled(b[3..], rest, i)
    requires TailSpelled(b[3..], rest)
    ensures forall i: nat :: 3 * i + 3 <= |b| ==> GroupSpelled(b, first + rest, i)
    ensures TailSpelled(b, first + rest)
  {
    hide SymbolValue;
    forall i: nat | 3 * i + 3 <= |b| ensures GroupSpelled(b, first + rest, i) {
      if i > 0 { assert GroupSpelled(b[3..], rest, i - 1); }
    }
    assert |b[3..]| / 3 == |b| / 3 - 1 && |b[3..]| % 3 == |b| % 3;
  }

  lemma ShortTail(b: seq<Byte>)
    requires |b| < 3
    ensures TailSpelled(b, Base64(b))
  {
    if |b| == 1 {
      TailDigits(b[0], 0);
    } else if |b| == 2 {
      TailDigits(b[0], b[1]);
    }
    hide Symbol, SymbolValue;
  }

  lemma TailDigits(x: Byte, y: Byte)
    ensures 0 <= x / 4 < 64 && 0 <= x % 4 * 16 + y / 16 < 64 && 0 <= y % 16 * 4 < 64
    ensures SymbolValue(Symbol(x / 4)) * 0x1000 + SymbolValue(Symbol(x % 4 * 16 + y / 16)) * 0x40
      + SymbolValue(Symbol(y % 16 * 4)) == ((x as int) * 0x100 + y) * 4
    ensures y == 0 ==> SymbolValue(Symbol(x / 4)) * 0x40 + SymbolValue(Symbol(x % 4 * 16)) == (x as int) * 0x10
  {
    DigitsSpellBytes(x, y, 0);
    SymbolRoundTrip(x / 4);
    SymbolRoundTrip(x % 4 * 16 + y / 16);
    SymbolRoundTrip(y % 16 * 4);
    hide Symbol, SymbolValue;
    assert x == x / 4 * 4 + x % 4 && y == y / 16 * 16 + y % 16;
  }

  // ---- strings ----

  /** The lower-case hex digits, in order; either case is read. */
  lemma HexInOrder(v: int, c: CodePoint)
    requires 0 <= v < 16
    ensures HexDigit(0) == '0' as int && HexDigit(9) == '9' as int
    ensures HexDigit(10) == 'a' as int && HexDigit(15) == 'f' as int
    ensures v !in {9, 15} ==> HexDigit(v + 1) == HexDigit(v) + 1
    ensures HexValue(HexDigit(v)) == v
    ensures v >= 10 ==> HexValue('A' as int + (v - 10)) == v
    ensures HexValue(c) >= 0 ==> c == HexDigit(HexValue(c)) || c == 'A' as int + (HexValue(c) - 10)
  {}

  /** The text is \u and the four hex digits of u. */
  ghost predicate HexEscape(t: Text, u: int) {
    && |t| == 6 && t[0] == '\\' as int && t[1] == 'u' as int
    && HexValue(t[2]) >= 0 && HexValue(t[3]) >= 0 && HexValue(t[4]) >= 0 && HexValue(t[5]) >= 0
    && u == HexValue(t[2]) * 0x1000 + HexValue(t[3]) * 0x100 + HexValue(t[4]) * 0x10 + HexValue(t[5])
    && forall i :: 2 <= i < 6 ==> t[i] == HexDigit(HexValue(t[i]))
  }

  lemma UnicodeEscapeIsHex(u: int)
    requires 0 <= u < 0x1_0000
    ensures HexEscape(UnicodeEscape(u), u)
  {
    HexSplit(u);
    HexRoundTrip(u / 4096);
    HexRoundTrip(u / 256 % 16);
    HexRoundTrip(u / 16 % 16);
    HexRoundTrip(u % 16);
    hide HexDigit, HexValue;
  }

  /** The characters with a short escape, and those that stand for themselves. */
  lemma EscapeTable(c: CodePoint)
    ensures EscapeOne('\"' as int) == Lit("\\\"") && EscapeOne('\\' as int) == Lit("\\\\")
    ensures EscapeOne(8) == Lit("\\b") && EscapeOne(9) == Lit("\\t") && EscapeOne(10) == Lit("\\n")
    ensures EscapeOne(12) == Lit("\\f") && EscapeOne(13) == Lit("\\r")
    ensures 0x20 <= c <= 0x7E && c != '\"' as int && c != '\\' as int ==> EscapeOne(c) == [c]
  {}

  /** Every other character is one hex escape, or two for the surrogates of a character beyond the first plane. */
  lemma EscapeHex(c: CodePoint)
    ensures (c < 0x20 && c !in {8, 9, 10, 12, 13}) || 0x7F <= c < 0x1_0000 ==> HexEscape(EscapeOne(c), c)
    ensures c >= 0x1_0000 ==>
      && |EscapeOne(c)| == 12
      && HexEscape(EscapeOne(c)[..6], 0xD800 + (c - 0x1_0000) / 0x400)
      && HexEscape(EscapeOne(c)[6..], 0xDC00 + (c - 0x1_0000) % 0x400)
  {
    hide UnicodeEscape, HexEscape;
    if c < 0x1_0000 {
      UnicodeEscapeIsHex(c);
    } else {
      UnicodeEscapeIsHex(HighOf(c));
      UnicodeEscapeIsHex(LowOf(c));
      HexLength(HighOf(c));
      HexLength(LowOf(c));
      assert EscapeOne(c)[..6] == UnicodeEscape(HighOf(c)) && EscapeOne(c)[6..] == UnicodeEscape(LowOf(c));
    }
  }

  lemma HexLength(u: int)
    requires 0 <= u < 0x1_0000
    ensures |UnicodeEscape(u)| == 6
  {}

  /** The JSON text: an object of the two members in this order, without spaces. */
  lemma PayloadIs(prefix: Text, key: Text)
    ensures Payload(prefix, key) ==
      Lit("{\"prefix\":\"") + Escape(prefix) + Lit("\",\"key\":\"") + Escape(key) + Lit("\"}")
  {
    QuotedIs(prefix);
    QuotedIs(key);
    PlainNames();
    hide Quoted, Escape;
    assert Lit("{\"prefix\":\"") == Lit("{") + [QUOTE] + Lit("prefix") + [QUOTE] + Lit(":") + [QUOTE];
    assert Lit("\",\"key\":\"") == [QUOTE] + Lit(",") + [QUOTE] + Lit("key") + [QUOTE] + Lit(":") + [QUOTE];
    assert Lit("\"}") == [QUOTE] + Lit("}");
  }

  lemma QuotedIs(t: Text)
    ensures Quoted(t) == [QUOTE] + Escape(t) + [QUOTE]
  {
    hide Escape;
  }

  lemma PlainNames()
    ensures Quoted(Lit("prefix")) == [QUOTE] + Lit("prefix") + [QUOTE]
    ensures Quoted(Lit("key")) == [QUOTE] + Lit("key") + [QUOTE]
  {
    QuotedIs(Lit("prefix"));
    QuotedIs(Lit("key"));
    PlainEscapes(Lit("prefix"));
    PlainEscapes(Lit("key"));
  }

  lemma {:induction false} PlainEscapes(t: Text)
    requires forall i :: 0 <= i < |t| ==> 0x20 <= t[i] <= 0x7E && t[i] != QUOTE && t[i] != BACKSLASH
    ensures Escape(t) == t
  {
    if t != [] {
      PlainEscapes(t[1..]);
      EscapeTable(t[0]);
      assert t == [t[0]] + t[1..];
    }
  }

  /** A backslash pair read back: the eight short escapes, and no other. */
  lemma UnescapeTable(letter: CodePoint, rest: Text)
    requires letter != 'u' as int && Unescape(rest).Some?
    ensures var read := Unescape([BACKSLASH, letter] + rest);
      && (read.Some? <==> letter in Lit("\"\\/bfnrt"))
      && (letter in Lit("\"\\/") ==> read == Prepend(letter, Unescape(rest)))
      && (letter == 'b' as int ==> read == Prepend(8, Unescape(rest)))
      && (letter == 'f' as int ==> read == Prepend(12, Unescape(rest)))
      && (letter == 'n' as int ==> read == Prepend(10, Unescape(rest)))
      && (letter == 'r' as int ==> read == Prepend(13, Unescape(rest)))
      && (letter == 't' as int ==> read == Prepend(9, Unescape(rest)))
  {
    var s := [BACKSLASH, letter] + rest;
    assert s[2..] == rest;
    var letters := Lit("\"\\/bfnrt");
    assert letters == [0x22, 0x5C, 0x2F, 0x62, 0x66, 0x6E, 0x72, 0x74];
    assert Lit("\"\\/") == [0x22, 0x5C, 0x2F];
  }

  // ---- cursors that are refused ----

  /** No cursor is a missing one or an empty one. */
  lemma EmptyIsNoCursor(cursor: Option<Text>, prefix: Text)
    ensures DecodeCursor(cursor, prefix).NoCursor? <==> cursor.None? || cursor.value == []
  {}

  /** Whole groups of four, where only the last one or two characters may be padding. */
  ghost predicate WellPadded(t: Text) {
    && |t| % 4 == 0
    && (forall i :: 0 <= i < |t| ==> UrlSafe(t[i]) || (t[i] == '=' as int && |t| - 2 <= i))
    && (|t| >= 2 && t[|t| - 2] == '=' as int ==> t[|t| - 1] == '=' as int)
  }

  lemma {:induction false} WellPaddedExactly(t: Text)
    ensures Unbase64(t).Some? <==> WellPadded(t)
  {
    if |t| == 4 {
      LastGroup(t);
    } else if |t| > 4 {
      WellPaddedExactly(t[4..]);
      EarlierGroup(t);
    }
  }

  lemma LastGroup(t: Text)
    requires |t| == 4
    ensures Unbase64(t).Some? <==> WellPadded(t)
  {
    assert forall i :: 0 <= i < 4 ==> (SymbolValue(t[i]) >= 0 <==> UrlSafe(t[i]));
    assert !UrlSafe(EQUALS);
    hide SymbolValue, UrlSafe;
    assert t[4..] == [];
    UnbaseEmpty();
    var b0, b1, b2, b3 := UrlSafe(t[0]), UrlSafe(t[1]), UrlSafe(t[2]), UrlSafe(t[3]);
    assert Unbase64(t).Some? <==>
      b0 && b1 && (b2 || t[2] == EQUALS) && (b3 || t[3] == EQUALS) && (t[2] == EQUALS ==> t[3] == EQUALS);
  }

  lemma EarlierGroup(t: Text)
    requires |t| > 4 && (Unbase64(t[4..]).Some? <==> WellPadded(t[4..]))
    ensures Unbase64(t).Some? <==> WellPadded(t)
  {
    assert forall i :: 0 <= i < 4 ==> (SymbolValue(t[i]) >= 0 <==> UrlSafe(t[i]));
    assert !UrlSafe(EQUALS);
    hide SymbolValue, UrlSafe;
    var later := t[4..];
    assert Unbase64(t).Some? <==>
      UrlSafe(t[0]) && UrlSafe(t[1]) && UrlSafe(t[2]) && UrlSafe(t[3]) && Unbase64(later).Some?;
    hide Unbase64;
    WellPaddedStep(t);
  }

  lemma WellPaddedStep(t: Text)
    requires |t| > 4
    ensures WellPadded(t) <==>
      UrlSafe(t[0]) && UrlSafe(t[1]) && UrlSafe(t[2]) && UrlSafe(t[3]) && WellPadded(t[4..])
  {
    hide UrlSafe;
    var later := t[4..];
    assert forall i :: 4 <= i < |t| ==> t[i] == later[i - 4];
    if |t| % 4 == 0 {
      assert |later| % 4 == 0 && |later| >= 4;
      assert t[|t| - 2] == later[|later| - 2] && t[|t| - 1] == later[|later| - 1];
      if WellPadded(t) {
        forall i | 0 <= i < |later| ensures UrlSafe(later[i]) || (later[i] == EQUALS && |later| - 2 <= i) {
          assert later[i] == t[i + 4];
        }
      }
    } else {
      assert |later| % 4 != 0;
    }
  }

  /** What is left after a string is what stands behind its closing quote. */
  ghost predicate BehindQuote(s: Text, rest: Text) {
    |rest| < |s| && s[|s| - |rest| - 1] == '\"' as int && s[|s| - |rest|..] == rest
  }

  lemma {:induction false} StringEnds(s: Text)
    ensures Unescape(s).Some? ==> BehindQuote(s, Unescape(s).value.1)
    decreases |s|
  {
    hide FourHex, ShortMeaning, Combined, BehindQuote;
    if Unescape(s).Some? {
      if s[0] == QUOTE {
        AtQuote(s);
      } else {
        var k := Consumed(s);
        StringEnds(s[k..]);
        LaterQuote(s, k, Unescape(s).value.1);
      }
    }
  }

  /** How much the first character of a string takes. */
  lemma Consumed(s: Text) returns (k: nat)
    requires Unescape(s).Some? && s[0] != QUOTE
    ensures 1 <= k <= |s| && Unescape(s[k..]).Some? && Unescape(s[k..]).value.1 == Unescape(s).value.1
  {
    hide ShortMeaning, Combined;
    if s[0] != BACKSLASH {
      k := 1;
    } else if s[1] != 0x75 {
      k := 2;
    } else {
      k := 6;
      if |s| >= 12 && Unescape(s[12..]).Some? && Unescape(s[12..]).value.1 == Unescape(s).value.1 { k := 12; }
    }
  }

  lemma AtQuote(s: Text)
    requires s != [] && s[0] == QUOTE
    ensures BehindQuote(s, s[1..])
  {}

  lemma LaterQuote(s: Text, k: nat, rest: Text)
    requires k <= |s| && BehindQuote(s[k..], rest)
    ensures BehindQuote(s, rest)
  {
    var t := s[k..];
    assert t[|t| - |rest| - 1] == s[|s| - |rest| - 1];
    assert t[|t| - |rest|..] == s[|s| - |rest|..];
  }

  /** A string is quoted on both sides and holds no bare control character. */
  lemma StringsQuoted(s: Text, c: CodePoint)
    ensures ParseString(s).Some? ==> s[0] == '\"' as int && BehindQuote(s, ParseString(s).value.1)
    ensures c < 0x20 ==> Unescape([c] + s).None?
  {
    if s != [] { StringEnds(s[1..]); }
  }

  ghost predicate NameAndColon(s: Text) {
    var name := ParseString(s);
    name.Some? && name.value.1 != [] && name.value.1[0] == ':' as int
  }

  /** An object starts with a brace, its first member with a name and a colon, and it ends with a brace. */
  lemma ObjectsBraced(s: Text)
    ensures ParseObject(s).Some? ==> |s| >= 2 && s[0] == '{' as int && s[|s| - 1] == '}' as int
    ensures ParseObject(s).Some? && s != Lit("{}") ==> NameAndColon(s[1..])
    ensures ParseObject(Lit("{}")) == Some(map[])
  {
    hide ParseString;
    if s != [] && ParseMembers(s[1..]).Some? { MembersEnd(s[1..]); }
  }

  lemma {:induction false} MembersEnd(s: Text)
    requires ParseMembers(s).Some?
    ensures s != [] && s[|s| - 1] == '}' as int
    ensures NameAndColon(s)
    decreases |s|
  {
    hide Unescape;
    var named := ParseString(s).value.1;
    StringsQuoted(s, 0);
    StringsQuoted(named[1..], 0);
    hide ParseString;
    var next := ParseString(named[1..]).value.1;
    if next == Lit("}") {
      assert next[|next| - 1] == '}' as int;
    } else {
      MembersEnd(next[1..]);
      assert next[1..][|next| - 2] == next[|next| - 1];
    }
    SameEnd(named[1..], next);
    assert named[1..][|named| - 2] == named[|named| - 1];
    SameEnd(s, named);
  }

  lemma SameEnd(s: Text, rest: Text)
    requires BehindQuote(s, rest) && rest != []
    ensures s[|s| - 1] == rest[|rest| - 1]
  {
    assert s[|s| - |rest|..][|rest| - 1] == s[|s| - 1];
  }
}
