/** json_unescape, and its UTF-8. */
module JsonUnescape {
  import opened Options
  import opened JsonTree
  import opened JsonLexer
  import opened JsonGrammar
  import opened JsonEscape

  function HexValue(c: Char): nat
    requires IsHexDigit(c)
  {
    if '0' <= c <= '9' then c as int - '0' as int
    else if 'a' <= c <= 'f' then c as int - 'a' as int + 10
    else c as int - 'A' as int + 10
  }

  /** The number in four hex digits from position i on. */
  function Hex4(s: Text, i: nat): (v: nat)
    requires i + 4 <= |s| && forall k :: i <= k < i + 4 ==> IsHexDigit(s[k])
    ensures v < 0x10000
  {
    HexValue(s[i]) * 4096 + HexValue(s[i + 1]) * 256 + HexValue(s[i + 2]) * 16 + HexValue(s[i + 3])
  }

  /**
   The length of what is taken at once: any char but a backslash, quotes and control characters
   too; 2 for a short escape, 6 for a unicode escape, 0 for none of these.
   */
  function Unit(s: Text): (n: nat)
    ensures n <= |s|
  {
    if s == [] then 0
    else if s[0] != '\\' then 1
    else if |s| >= 2 && SimpleEscape(s[1]) then 2
    else if |s| >= 6 && s[1] == 'u' && forall i :: 2 <= i < 6 ==> IsHexDigit(s[i]) then 6
    else 0
  }

  /** Every backslash begins an escape. */
  predicate Unescapable(s: Text) { s == [] || (Unit(s) > 0 && Unescapable(s[Unit(s)..])) }

  /** What may stand between the quotes of a string is such a text. */
  lemma {:induction false} BodyIsUnescapable(s: Text)
    requires StringBody(s)
    ensures Unescapable(s)
  {
    if s != [] {
      BodyIsUnescapable(s[UnitLength(s)..]);
    }
  }

  lemma {:induction false} UnescapableAppend(a: Text, b: Text)
    requires Unescapable(a) && Unescapable(b)
    ensures Unescapable(a + b)
    decreases |a|
  {
    hide Unit, Hex4;
    if a == [] {
      assert a + b == b;
    } else {
      FirstUnit(a, b);
      UnescapableAppend(a[Unit(a)..], b);
    }
  }

  type Bytes = seq<char>

  /** The bytes of a code point, as section 3 of RFC 3629 lays them out. */
  function Utf8(v: nat): Bytes
    requires v < 0x200000
  {
    if v < 0x80 then [v as char]
    else if v < 0x800 then [(0xC0 + v / 64) as char, (0x80 + v % 64) as char]
    else if v < 0x10000 then [(0xE0 + v / 4096) as char, (0x80 + v / 64 % 64) as char, (0x80 + v % 64) as char]
    else FourBytes(v)
  }

  function FourBytes(v: nat): (b: Bytes)
    requires v < 0x200000
    ensures |b| == 4
  {
    [(0xF0 + v / 262144) as char, (0x80 + v / 4096 % 64) as char, (0x80 + v / 64 % 64) as char, (0x80 + v % 64) as char]
  }

  predicate HighSurrogate(v: nat) { 0xD800 <= v <= 0xDBFF }

  /** The code point of a surrogate pair. The second half is not checked to be a low surrogate. */
  function Pair(high: nat, low: nat): nat
    requires HighSurrogate(high)
  {
    (high - 0xD800) * 1024 + low + 0x10000 - 0xDC00
  }

  /** The char of a short escape. */
  function ShortChar(c: Char): char {
    if c == 'b' then 8 as char
    else if c == 'f' then 12 as char
    else if c == 'n' then '\n'
    else if c == 'r' then '\r'
    else if c == 't' then '\t'
    else c
  }

  function Prepend(b: Bytes, rest: Option<Bytes>): Option<Bytes> {
    if rest.Some? then Some(b + rest.value) else None
  }

  /**
   json_unescape on a text in which every backslash begins an escape. A high surrogate takes what
   follows with it: an escape of four digits makes a pair, anything else is dropped. At the end of
   the text nothing follows, and the code would read past the NUL.
   */
  function Decode(s: Text): Option<Bytes>
    requires Unescapable(s)
    decreases |s|
  {
    if s == [] then Some([])
    else
      var n := Unit(s);
      var rest := s[n..];
      if n == 1 then Prepend([s[0]], Decode(rest))
      else if n == 2 then Prepend([ShortChar(s[1])], Decode(rest))
      else if !HighSurrogate(Hex4(s, 2)) then Prepend(Utf8(Hex4(s, 2)), Decode(rest))
      else if rest == [] then None
      else if Unit(rest) == 6 then Prepend(FourBytes(Pair(Hex4(s, 2), Hex4(rest, 2))), Decode(rest[6..]))
      else Decode(rest[Unit(rest)..])
  }

  /** The string character that s begins with is the escape of a high surrogate. */
  predicate HighUnit(s: Text) { Unit(s) == 6 && HighSurrogate(Hex4(s, 2)) }

  /** How many escapes of high surrogates end the text in a row, after `run` of them. */
  function HighRun(s: Text, run: nat): nat
    requires Unescapable(s)
    decreases |s|
  {
    if s == [] then run else HighRun(s[Unit(s)..], if HighUnit(s) then run + 1 else 0)
  }

  /** The condition under which the code stays inside the text. */
  predicate PairedEnd(s: Text)
    requires Unescapable(s)
  {
    HighRun(s, 0) % 2 == 0
  }

  lemma {:induction false} DecodesExactly(s: Text, run: nat)
    requires Unescapable(s) && run % 2 == 0
    ensures Decode(s).Some? <==> HighRun(s, run) % 2 == 0
    decreases |s|
  {
    if s != [] {
      var n := Unit(s);
      var rest := s[n..];
      if !HighUnit(s) {
        DecodesExactly(rest, 0);
      } else if rest != [] {
        var m := Unit(rest);
        DecodesExactly(rest[m..], if HighUnit(rest) then run + 2 else 0);
      }
    }
  }

  /** The shortest text that the code reads past. */
  lemma LoneSurrogate()
    ensures Unescapable("\\uD800") && Decode("\\uD800").None? && !PairedEnd("\\uD800")
  {
    var s: Text := "\\uD800";
    assert Unit(s) == 6 && s[6..] == [];
    assert Hex4(s, 2) == 0xD800;
  }

  /** Bytes without escapes, then the escape of one more. */
  lemma {:induction false} DecodeAppend(a: Text, u: Text)
    requires Unescapable(a) && PlainEnough(a) && Unescapable(u)
    ensures Unescapable(a + u)
    ensures Decode(a).Some? && Decode(a + u) == Prepend(Decode(a).value, Decode(u))
    decreases |a|
  {
    UnescapableAppend(a, u);
    hide Hex4, Utf8, ShortChar, HexValue;
    var d := Decode(u);
    if a == [] {
      assert a + u == u;
      PrependNothing(d);
    } else {
      var n := Unit(a);
      FirstUnit(a, u);
      DecodeAppend(a[n..], u);
      var b: Bytes := if n == 1 then [a[0]] else if n == 2 then [ShortChar(a[1])] else Utf8(Hex4(a, 2));
      assert Decode(a) == Prepend(b, Decode(a[n..]));
      assert Decode(a + u) == Prepend(b, Decode(a[n..] + u));
      hide Decode, PlainEnough;
      PrependTwice(b, Decode(a[n..]).value, d);
    }
  }

  /** The first string character does not depend on what is appended. */
  lemma FirstUnit(a: Text, u: Text)
    requires Unescapable(a) && a != []
    ensures var n := Unit(a);
            && Unit(a + u) == n && (a + u)[n..] == a[n..] + u && (a + u)[0] == a[0]
            && (n >= 2 ==> (a + u)[1] == a[1]) && (n == 6 ==> Hex4(a + u, 2) == Hex4(a, 2))
  {
  }

  lemma PrependTwice(a: Bytes, b: Bytes, rest: Option<Bytes>)
    ensures Prepend(a, Prepend(b, rest)) == Prepend(a + b, rest)
  {
    assert rest.Some? ==> a + (b + rest.value) == a + b + rest.value;
  }

  /** No string character of s is the escape of a high surrogate. */
  predicate PlainEnough(s: Text)
    requires Unescapable(s)
    decreases |s|
  {
    s == [] || (!HighUnit(s) && PlainEnough(s[Unit(s)..]))
  }

  lemma EscapeDecodes(c: Char)
    ensures Unescapable(Escape(c)) && PlainEnough(Escape(c)) && Decode(Escape(c)) == Some([c])
  {
    EscapeIsUnit(c);
    var u := Escape(c);
    assert u[|u|..] == [];
    assert Unescapable([]) && Decode([]) == Some([]) && PlainEnough([]);
    assert [c] + [] == [c];
    if |u| == 6 {
      assert Hex4(u, 2) == c as int;
      assert Utf8(c as int) == [c];
    }
  }

  lemma {:induction false} PlainAppend(a: Text, b: Text)
    requires Unescapable(a) && PlainEnough(a) && Unescapable(b) && PlainEnough(b)
    ensures Unescapable(a + b) && PlainEnough(a + b)
    decreases |a|
  {
    UnescapableAppend(a, b);
    if a == [] {
      assert a + b == b;
    } else {
      var n := Unit(a);
      assert Unit(a + b) == n && (a + b)[n..] == a[n..] + b;
      PlainAppend(a[n..], b);
    }
  }

  lemma EmptyDecodes()
    ensures Unescapable([]) && PlainEnough([]) && Decode([]) == Some([])
  {
  }

  /** Unescaping an escaped text gives the text back, for all bytes. */
  lemma {:induction false} UnescapeEscaped(s: Text)
    ensures Unescapable(Escaped(s)) && PlainEnough(Escaped(s)) && Decode(Escaped(s)) == Some(s)
    decreases |s|
  {
    if s == [] {
      EmptyDecodes();
    } else {
      hide Decode, Unescapable, PlainEnough, Escape, Unit;
      var a, c := s[..|s| - 1], s[|s| - 1];
      UnescapeEscaped(a);
      EscapeDecodes(c);
      PlainAppend(Escaped(a), Escape(c));
      DecodeAppend(Escaped(a), Escape(c));
      assert a + [c] == s;
    }
  }

  /** The code point of UTF-8 bytes. */
  function CodePoint(b: Bytes): nat
    requires 1 <= |b| <= 4 && forall i :: 0 <= i < |b| ==> b[i] as int < 256
  {
    if |b| == 1 then b[0] as int
    else if |b| == 2 then b[0] as int % 32 * 64 + b[1] as int % 64
    else if |b| == 3 then b[0] as int % 16 * 4096 + b[1] as int % 64 * 64 + b[2] as int % 64
    else b[0] as int % 8 * 262144 + b[1] as int % 64 * 4096 + b[2] as int % 64 * 64 + b[3] as int % 64
  }

  /** A lead byte of the right class, then continuation bytes. */
  predicate WellFormed(b: Bytes) {
    && 1 <= |b| <= 4 && (forall i :: 0 <= i < |b| ==> b[i] as int < 256)
    && (forall i :: 0 < i < |b| ==> b[i] as int / 64 == 2)
    && (|b| == 1 ==> b[0] as int < 128)
    && (|b| == 2 ==> b[0] as int / 32 == 6)
    && (|b| == 3 ==> b[0] as int / 16 == 14)
    && (|b| == 4 ==> b[0] as int / 8 == 30)
  }

  /** The bytes of a code point are well formed, and they keep it. */
  lemma Utf8Keeps(v: nat)
    requires v < 0x200000
    ensures WellFormed(Utf8(v)) && CodePoint(Utf8(v)) == v
  {
    if v < 0x80 {
    } else if v < 0x800 {
      TwoKeeps(v);
    } else if v < 0x10000 {
      ThreeKeeps(v);
    } else {
      FourKeeps(v);
    }
    hide WellFormed, CodePoint, FourBytes;
  }

  lemma TwoKeeps(v: nat)
    requires 0x80 <= v < 0x800
    ensures WellFormed(Utf8(v)) && CodePoint(Utf8(v)) == v
  {
    Sextet(v / 64 % 64, v % 64, v % 64);
    assert (0xC0 + v / 64) % 32 == v / 64 && (0xC0 + v / 64) / 32 == 6;
  }

  lemma ThreeKeeps(v: nat)
    requires 0x800 <= v < 0x10000
    ensures WellFormed(Utf8(v)) && CodePoint(Utf8(v)) == v
  {
    Sextet(v / 64 % 64, v % 64, v % 64);
    assert (0xE0 + v / 4096) % 16 == v / 4096 && (0xE0 + v / 4096) / 16 == 14;
    assert v / 64 == v / 4096 * 64 + v / 64 % 64;
  }

  lemma FourKeeps(v: nat)
    requires 0x10000 <= v < 0x200000
    ensures WellFormed(FourBytes(v)) && CodePoint(FourBytes(v)) == v
  {
    Sextet(v / 4096 % 64, v / 64 % 64, v % 64);
    assert (0xF0 + v / 262144) % 8 == v / 262144 && (0xF0 + v / 262144) / 8 == 30;
    assert v / 64 == v / 4096 * 64 + v / 64 % 64;
    assert v / 4096 == v / 262144 * 64 + v / 4096 % 64;
  }

  /** A continuation byte. */
  lemma Sextet(a: nat, b: nat, c: nat)
    requires a < 64 && b < 64 && c < 64
    ensures (0x80 + a) % 64 == a && (0x80 + a) / 64 == 2
    ensures (0x80 + b) % 64 == b && (0x80 + b) / 64 == 2
    ensures (0x80 + c) % 64 == c && (0x80 + c) / 64 == 2
  {
  }

  /** The UTF-16 surrogates of a code point, as section 2.1 of RFC 2781 makes them. */
  function Surrogates(v: nat): (nat, nat)
    requires 0x10000 <= v < 0x110000
  {
    (0xD800 + (v - 0x10000) / 0x400, 0xDC00 + (v - 0x10000) % 0x400)
  }

  /** The two surrogates of a code point are decoded to its UTF-8. */
  lemma PairInverts(v: nat)
    requires 0x10000 <= v < 0x110000
    ensures var (high, low) := Surrogates(v);
      HighSurrogate(high) && Pair(high, low) == v && FourBytes(Pair(high, low)) == Utf8(v)
  {
  }

  /** A high and a low surrogate are those of the code point they are decoded to. */
  lemma PairIsCodePoint(high: nat, low: nat)
    requires HighSurrogate(high) && 0xDC00 <= low <= 0xDFFF
    ensures 0x10000 <= Pair(high, low) < 0x110000 && Surrogates(Pair(high, low)) == (high, low)
  {
    var v := Pair(high, low) - 0x10000;
    assert v == (high - 0xD800) * 0x400 + (low - 0xDC00);
    assert v / 0x400 == high - 0xD800 && v % 0x400 == low - 0xDC00;
  }

  /** The byte at r, or the NUL at the end. */
  function CharAt(s: Text, r: nat): char
    requires r <= |s|
  {
    if r < |s| then s[r] else '\0'
  }

  method Put(result: array<char>, w: nat, b: Bytes) returns (w': nat)
    requires w + |b| < result.Length
    modifies result
    ensures w' == w + |b| && result[..w'] == old(result[..w]) + b
  {
    for k := 0 to |b|
      invariant result[..w + k] == old(result[..w]) + b[..k]
    {
      result[w + k] := b[k];
    }
    w' := w + |b|;
  }

  /** The four digits that the cursor runs over, as strtol reads them. */
  lemma DigitsThere(text: Text, i: nat, t: Text)
    requires i <= |text| && t == text[i..] && Unit(t) == 6
    ensures i + 6 <= |text| && forall k :: i + 2 <= k < i + 6 ==> IsHexDigit(text[k])
    ensures Hex4(text, i + 2) == Hex4(t, 2)
  {
    assert forall k :: 0 <= k < 6 ==> t[k] == text[i + k];
  }

  /** A unicode escape whose backslash is at r: the cursor ends on its last char, or on that of the next one. */
  method UnescapeUnicode(text: Text, r: nat, result: array<char>, w: nat) returns (r': nat, w': nat)
    requires r < |text| && Unescapable(text[r..]) && Unit(text[r..]) == 6 && Decode(text[r..]).Some?
    requires w <= r && result.Length == |text| + 1
    modifies result
    ensures r < r' < |text| && w <= w' && w' - w <= r' + 1 - r && result[..w] == old(result[..w])
    ensures Unescapable(text[r' + 1..]) && Decode(text[r..]) == Prepend(result[w..w'], Decode(text[r' + 1..]))
  {
    hide Hex4, Utf8, FourBytes, Pair, Unescapable, Decode, Unit;
    UnicodeHere(text, r);
    var unicode := Hex4(text, r + 2);
    r' := r + 5;
    if !HighSurrogate(unicode) {
      Utf8Short(unicode);
      w' := Put(result, w, Utf8(unicode));
      assert result[w..w'] == Utf8(unicode);
    } else {
      HighHere(text, r);
      w' := w;
      r' := r' + 1;
      if CharAt(text, r') == '\\' {
        r' := r' + 1;
        if CharAt(text, r') == 'u' {
          var low := Hex4(text, r' + 1);
          r' := r' + 4;
          PairShort(unicode, low);
          w' := Put(result, w, FourBytes(Pair(unicode, low)));
          assert result[w..w'] == FourBytes(Pair(unicode, low));
        } else {
          assert result[w..w'] == [];
          PrependNothing(Decode(text[r' + 1..]));
        }
      } else {
        assert result[w..w'] == [];
        PrependNothing(Decode(text[r' + 1..]));
      }
    }
  }

  /** The digits of the escape at r, and what decoding it means unless it is a high surrogate. */
  lemma UnicodeHere(text: Text, r: nat)
    requires r < |text| && Unescapable(text[r..]) && Unit(text[r..]) == 6
    ensures r + 6 <= |text| && (forall k :: r + 2 <= k < r + 6 ==> IsHexDigit(text[k])) && Unescapable(text[r + 6..])
    ensures !HighSurrogate(Hex4(text, r + 2)) ==>
        Decode(text[r..]) == Prepend(Utf8(Hex4(text, r + 2)), Decode(text[r + 6..]))
  {
    hide Hex4, Utf8, FourBytes, Pair;
    var t := text[r..];
    DigitsThere(text, r, t);
    assert t[6..] == text[r + 6..];
  }

  /** What decoding a high surrogate at r means: it depends on the string character after it. */
  lemma HighHere(text: Text, r: nat)
    requires r < |text| && Unescapable(text[r..]) && Unit(text[r..]) == 6 && Decode(text[r..]).Some?
    requires r + 6 <= |text| && (forall k :: r + 2 <= k < r + 6 ==> IsHexDigit(text[k])) &&
        HighSurrogate(Hex4(text, r + 2))
    ensures r + 6 < |text|
    ensures text[r + 6] != '\\' ==> Unescapable(text[r + 7..]) && Decode(text[r..]) == Decode(text[r + 7..])
    ensures text[r + 6] == '\\' ==> r + 7 < |text|
    ensures text[r + 6] == '\\' && text[r + 7] != 'u' ==>
        Unescapable(text[r + 8..]) && Decode(text[r..]) == Decode(text[r + 8..])
    ensures text[r + 6] == '\\' && text[r + 7] == 'u' ==>
              && r + 12 <= |text| && (forall k :: r + 8 <= k < r + 12 ==> IsHexDigit(text[k])) &&
                  Unescapable(text[r + 12..])
              && Pair(Hex4(text, r + 2), Hex4(text, r + 8)) < 0x200000
              && Decode(text[r..]) == Prepend(FourBytes(Pair(Hex4(text, r + 2), Hex4(text, r + 8))),
                  Decode(text[r + 12..]))
  {
    hide Hex4, FourBytes, Pair;
    var t, rest := text[r..], text[r + 6..];
    DigitsThere(text, r, t);
    assert t[6..] == rest;
    assert rest != [];
    var n := Unit(rest);
    assert rest[0] == text[r + 6];
    assert rest[n..] == text[r + 6 + n..];
    if n > 1 {
      assert rest[1] == text[r + 7];
    }
    if n == 6 {
      DigitsThere(text, r + 6, rest);
      PairShort(Hex4(text, r + 2), Hex4(text, r + 8));
    }
  }

  lemma Utf8Short(v: nat)
    requires v < 0x10000
    ensures |Utf8(v)| <= 3
  {
  }

  lemma PairShort(high: nat, low: nat)
    requires HighSurrogate(high) && low < 0x10000
    ensures Pair(high, low) < 0x200000
  {
  }

  lemma PrependNothing(d: Option<Bytes>)
    ensures Prepend([], d) == d
  {
    assert d.Some? ==> [] + d.value == d.value;
  }

  /** json_unescape. The write cursor w never passes the read cursor r. */
  method JsonUnescape(text: Text) returns (out: Bytes)
    requires Unescapable(text) && PairedEnd(text)
    ensures Decode(text) == Some(out)
  {
    hide HighRun, Decode, Unescapable, Unit;
    DecodesExactly(text, 0);
    var result := new char[|text| + 1];
    var r, w := 0, 0;
    assert text[0..] == text && result[..0] == [];
    PrependNothing(Decode(text));
    while CharAt(text, r) != '\0'
      invariant w <= r <= |text| && Unescapable(text[r..]) && Decode(text[r..]).Some?
      invariant Decode(text) == Prepend(result[..w], Decode(text[r..]))
      decreases |text| - r
    {
      ghost var before, from := result[..w], w;
      UnitHere(text, r);
      if text[r] == '\\' {
        if text[r + 1] == 'u' {
          r, w := UnescapeUnicode(text, r, result, w);
        } else {
          r := r + 1;
          w := Put(result, w, [ShortChar(text[r])]);
          assert result[from..w] == [ShortChar(text[r])];
        }
      } else {
        w := Put(result, w, [text[r]]);
        assert result[from..w] == [text[r]];
      }
      r := r + 1;
      assert result[..w] == before + result[from..w];
      PrependTwice(before, result[from..w], Decode(text[r..]));
    }
    out := result[..w];
    assert text[r..] == [];
    EmptyDecodes();
    PrependEmpty(out);
  }

  /** The string character at r: a plain byte, a short escape, or a unicode escape. */
  lemma UnitHere(text: Text, r: nat)
    requires r < |text| && Unescapable(text[r..]) && Decode(text[r..]).Some?
    ensures text[r] != '\\' ==>
        Unescapable(text[r + 1..]) && Decode(text[r..]) == Prepend([text[r]], Decode(text[r + 1..]))
    ensures text[r] == '\\' ==> r + 1 < |text|
    ensures text[r] == '\\' && text[r + 1] == 'u' ==> Unit(text[r..]) == 6
    ensures text[r] == '\\' && text[r + 1] != 'u' ==>
              r + 2 <= |text| && Unescapable(text[r + 2..]) &&
                  Decode(text[r..]) == Prepend([ShortChar(text[r + 1])], Decode(text[r + 2..]))
  {
    hide Hex4, FourBytes, Pair, ShortChar;
    var t := text[r..];
    assert t[0] == text[r];
    var n := Unit(t);
    assert t[n..] == text[r + n..];
    if n > 1 {
      assert t[1] == text[r + 1];
    }
  }

  lemma PrependEmpty(b: Bytes)
    ensures Prepend(b, Some([])) == Some(b)
  {
    assert b + [] == b;
  }
}
