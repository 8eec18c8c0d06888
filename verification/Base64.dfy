/** base64_encode, and the decoder of section 4 of RFC 4648. */
module Base64 {
  import opened Options

  type Octet = n: nat | n < 256

  /** The 64 letters of the encoding string, in three parts. */
  const UPPER: string := "ABCDEFGHIJKLMNOPQRSTUVWXYZ"
  const LOWER: string := "abcdefghijklmnopqrstuvwxyz"
  const OTHER: string := "0123456789+/"
  const SMALL_CHUNK: nat := 256
  const MAX_INT: nat := 0x7FFF_FFFF

  function Digit(v: nat): char
    requires v < 64
  {
    assert |UPPER| == 26 && |LOWER| == 26 && |OTHER| == 12;
    if v < 26 then UPPER[v] else if v < 52 then LOWER[v - 26] else OTHER[v - 52]
  }

  /** The value of a letter of the alphabet, or 64. */
  function Value(c: char): (v: nat)
    ensures v <= 64
  {
    if 'A' <= c <= 'Z' then c as int - 'A' as int
    else if 'a' <= c <= 'z' then c as int - 'a' as int + 26
    else if '0' <= c <= '9' then c as int - '0' as int + 52
    else if c == '+' then 62
    else if c == '/' then 63
    else 64
  }

  function Three(a: Octet, b: Octet, c: Octet): string {
    var v := a * 65536 + b * 256 + c;
    [Digit(v / 262144), Digit(v / 4096 % 64), Digit(v / 64 % 64), Digit(v % 64)]
  }

  function Two(a: Octet, b: Octet): string {
    var v := a * 256 + b;
    [Digit(v / 1024), Digit(v / 16 % 64), Digit(v % 16 * 4), '=']
  }

  function One(a: Octet): string { [Digit(a / 4), Digit(a % 4 * 16), '=', '='] }

  function Encoded(t: seq<Octet>): string {
    if |t| == 0 then ""
    else if |t| == 1 then One(t[0])
    else if |t| == 2 then Two(t[0], t[1])
    else Three(t[0], t[1], t[2]) + Encoded(t[3..])
  }

  /** The octets that four sextets make. */
  function First(p: nat, q: nat): Octet
    requires p < 64 && q < 64
  {
    p * 4 + q / 16
  }

  function Second(q: nat, r: nat): Octet
    requires q < 64 && r < 64
  {
    q % 16 * 16 + r / 4
  }

  function Third(r: nat, s: nat): Octet
    requires r < 64 && s < 64
  {
    r % 4 * 64 + s
  }

  /** The octets of one group of four letters; only the last group may be padded, and the bits left over are zero. */
  function Group(s: string, last: bool): Option<seq<Octet>>
    requires |s| == 4
  {
    var a, b, c, d := Value(s[0]), Value(s[1]), Value(s[2]), Value(s[3]);
    if a == 64 || b == 64 then None
    else if c < 64 && d < 64 then Some([First(a, b), Second(b, c), Third(c, d)])
    else if last && c < 64 && s[3] == '=' && c % 4 == 0 then Some([First(a, b), Second(b, c)])
    else if last && s[2] == '=' && s[3] == '=' && b % 16 == 0 then Some([First(a, b)])
    else None
  }

  function Decoded(s: string): Option<seq<Octet>> {
    if s == "" then Some([])
    else if |s| < 4 then None
    else
      var g := Group(s[..4], |s| == 4);
      var rest := Decoded(s[4..]);
      if g.Some? && rest.Some? then Some(g.value + rest.value) else None
  }

  lemma ValueOfDigit(v: nat)
    requires v < 64
    ensures Value(Digit(v)) == v && Digit(v) != '='
  {
    Letters();
  }

  lemma Letters()
    ensures forall i :: 0 <= i < 26 ==> Digit(i) as int == 'A' as int + i
    ensures forall i :: 26 <= i < 52 ==> Digit(i) as int == 'a' as int + i - 26
    ensures forall i :: 52 <= i < 62 ==> Digit(i) as int == '0' as int + i - 52
    ensures Digit(62) == '+' && Digit(63) == '/'
  {
  }

  lemma DigitOfValue(c: char)
    requires Value(c) < 64
    ensures Digit(Value(c)) == c
  {
    Letters();
  }

  /** The sextets of three octets. */
  function Sextet1(a: Octet): (v: nat)
    ensures v < 64
  {
    a / 4
  }

  function Sextet2(a: Octet, b: Octet): (v: nat)
    ensures v < 64
  {
    a % 4 * 16 + b / 16
  }

  function Sextet3(b: Octet, c: Octet): (v: nat)
    ensures v < 64
  {
    b % 16 * 4 + c / 64
  }

  function Sextet4(c: Octet): (v: nat)
    ensures v < 64
  {
    c % 64
  }

  /** The letters of the encoder are the sextets. */
  lemma ThreeLetters(a: Octet, b: Octet, c: Octet)
    ensures Three(a, b, c) == [Digit(Sextet1(a)), Digit(Sextet2(a, b)), Digit(Sextet3(b, c)), Digit(Sextet4(c))]
  {
    hide Digit, Sextet1, Sextet2, Sextet3, Sextet4;
    var v := a * 65536 + b * 256 + c;
    Top(a, b, c, v);
    SecondPart(a, b, c, v);
    ThirdPart(a, b, c, v);
  }

  lemma Top(a: Octet, b: Octet, c: Octet, v: nat)
    requires v == a * 65536 + b * 256 + c
    ensures v / 262144 == Sextet1(a) && v % 64 == Sextet4(c)
  {
  }

  lemma SecondPart(a: Octet, b: Octet, c: Octet, v: nat)
    requires v == a * 65536 + b * 256 + c
    ensures v / 4096 % 64 == Sextet2(a, b)
  {
    var q := b / 16;
    assert v / 4096 == a * 16 + q;
    assert (a * 16 + q) % 64 == a % 4 * 16 + q;
  }

  lemma ThirdPart(a: Octet, b: Octet, c: Octet, v: nat)
    requires v == a * 65536 + b * 256 + c
    ensures v / 64 % 64 == Sextet3(b, c)
  {
    var r := c / 64;
    assert v / 64 == a * 1024 + b * 4 + r;
    assert (a * 1024 + b * 4 + r) % 64 == b % 16 * 4 + r;
  }

  lemma TwoLetters(a: Octet, b: Octet)
    ensures Two(a, b) == [Digit(Sextet1(a)), Digit(Sextet2(a, b)), Digit(Sextet3(b, 0)), '=']
  {
    hide Digit, Sextet1, Sextet2, Sextet3;
    TwoParts(a, b, a * 256 + b);
  }

  lemma TwoParts(a: Octet, b: Octet, v: nat)
    requires v == a * 256 + b
    ensures v / 1024 == Sextet1(a) && v / 16 % 64 == Sextet2(a, b) && v % 16 * 4 == Sextet3(b, 0)
  {
    var q := b / 16;
    assert v / 16 == a * 16 + q;
    assert (a * 16 + q) % 64 == a % 4 * 16 + q;
    assert v % 16 == b % 16;
  }

  lemma OneLetters(a: Octet)
    ensures One(a) == [Digit(Sextet1(a)), Digit(Sextet2(a, 0)), '=', '=']
  {
    hide Digit;
  }

  /** The octets from their sextets. */
  lemma Rejoin(a: Octet, b: Octet, c: Octet)
    ensures First(Sextet1(a), Sextet2(a, b)) == a
    ensures Second(Sextet2(a, b), Sextet3(b, c)) == b
    ensures Third(Sextet3(b, c), Sextet4(c)) == c
  {
  }

  /** The sextets from the octets they make. */
  lemma Resplit(p: nat, q: nat, r: nat, s: nat)
    requires p < 64 && q < 64 && r < 64 && s < 64
    ensures Sextet1(First(p, q)) == p
    ensures Sextet2(First(p, q), Second(q, r)) == q
    ensures Sextet3(Second(q, r), Third(r, s)) == r
    ensures Sextet4(Third(r, s)) == s
  {
  }

  /** Without the octets that are missing, when the bits left over are zero. */
  lemma ResplitTwo(q: nat, r: nat)
    requires q < 64 && r < 64 && r % 4 == 0
    ensures Sextet3(Second(q, r), 0) == r
  {
    var k := r / 4;
    assert r == 4 * k && (q % 16 * 16 + k) % 16 == k;
  }

  lemma ResplitOne(p: nat, q: nat)
    requires p < 64 && q < 64 && q % 16 == 0
    ensures Sextet2(First(p, q), 0) == q
  {
    var k := q / 16;
    assert q == 16 * k && (p * 4 + k) % 4 == k;
  }

  lemma LeftOver(a: Octet, b: Octet)
    ensures Sextet3(b, 0) % 4 == 0 && Sextet2(a, 0) % 16 == 0
  {
  }

  lemma GroupOfDigits(p: nat, q: nat, r: nat, s: nat, last: bool)
    requires p < 64 && q < 64 && r < 64 && s < 64
    ensures Group([Digit(p), Digit(q), Digit(r), Digit(s)], last) == Some([First(p, q), Second(q, r), Third(r, s)])
    ensures r % 4 == 0 ==> Group([Digit(p), Digit(q), Digit(r), '='], true) == Some([First(p, q), Second(q, r)])
    ensures q % 16 == 0 ==> Group([Digit(p), Digit(q), '=', '='], true) == Some([First(p, q)])
  {
    ValueOfDigit(p);
    ValueOfDigit(q);
    ValueOfDigit(r);
    ValueOfDigit(s);
    assert Value('=') == 64;
    hide Digit, Value, First, Second, Third;
  }

  lemma ThreeBack(a: Octet, b: Octet, c: Octet, last: bool)
    ensures Group(Three(a, b, c), last) == Some([a, b, c])
  {
    hide Digit, Value, Group, Three, First, Second, Third, Sextet1, Sextet2, Sextet3, Sextet4;
    ThreeLetters(a, b, c);
    GroupOfDigits(Sextet1(a), Sextet2(a, b), Sextet3(b, c), Sextet4(c), last);
    Rejoin(a, b, c);
  }

  lemma TwoBack(a: Octet, b: Octet)
    ensures Group(Two(a, b), true) == Some([a, b])
  {
    hide Digit, Value, Group, Two, First, Second, Third, Sextet1, Sextet2, Sextet3, Sextet4;
    TwoLetters(a, b);
    LeftOver(a, b);
    GroupOfDigits(Sextet1(a), Sextet2(a, b), Sextet3(b, 0), 0, true);
    Rejoin(a, b, 0);
  }

  lemma OneBack(a: Octet)
    ensures Group(One(a), true) == Some([a])
  {
    hide Digit, Value, Group, One, First, Second, Third, Sextet1, Sextet2, Sextet3, Sextet4;
    OneLetters(a);
    LeftOver(a, 0);
    GroupOfDigits(Sextet1(a), Sextet2(a, 0), 0, 0, true);
    Rejoin(a, 0, 0);
  }

  /** Decoding an encoding gives the octets back, and its length is four letters for every three octets begun. */
  lemma {:induction false} DecodesBack(t: seq<Octet>)
    ensures Decoded(Encoded(t)) == Some(t) && |Encoded(t)| == (|t| + 2) / 3 * 4
  {
    hide Group, One, Two, Three;
    Sizes();
    if |t| == 1 {
      OneBack(t[0]);
      Alone(One(t[0]));
      assert t == [t[0]];
    } else if |t| == 2 {
      TwoBack(t[0], t[1]);
      Alone(Two(t[0], t[1]));
      assert t == [t[0], t[1]];
    } else if |t| >= 3 {
      var g, rest := Three(t[0], t[1], t[2]), Encoded(t[3..]);
      DecodesBack(t[3..]);
      ThreeBack(t[0], t[1], t[2], |t| == 3);
      assert (g + rest)[..4] == g && (g + rest)[4..] == rest;
      assert t == [t[0], t[1], t[2]] + t[3..];
    }
  }

  lemma Sizes()
    ensures forall a, b, c :: |Three(a, b, c)| == 4
    ensures forall a, b :: |Two(a, b)| == 4
    ensures forall a :: |One(a)| == 4
  {
  }

  lemma Alone(s: string)
    requires |s| == 4
    ensures Decoded(s) == Group(s, true)
  {
    assert s[..4] == s;
    assert s[4..] == "";
    if Group(s, true).Some? {
      assert Group(s, true).value + [] == Group(s, true).value;
    }
  }

  /** So no two inputs have the same encoding. */
  lemma Injective(t: seq<Octet>, u: seq<Octet>)
    requires Encoded(t) == Encoded(u)
    ensures t == u
  {
    DecodesBack(t);
    DecodesBack(u);
  }

  lemma GroupBack(s: string, last: bool)
    requires |s| == 4 && Group(s, last).Some?
    ensures var g := Group(s, last).value;
            && 1 <= |g| <= 3 && (!last ==> |g| == 3)
            && s == if |g| == 3 then Three(g[0], g[1], g[2]) else if |g| == 2 then Two(g[0], g[1]) else One(g[0])
  {
    hide Digit, Value, First, Second, Third, One, Two, Three, Sextet1, Sextet2, Sextet3, Sextet4;
    var g := Group(s, last).value;
    var a, b, c, d := Value(s[0]), Value(s[1]), Value(s[2]), Value(s[3]);
    DigitOfValue(s[0]);
    DigitOfValue(s[1]);
    if |g| == 3 {
      DigitOfValue(s[2]);
      DigitOfValue(s[3]);
      ThreeLetters(g[0], g[1], g[2]);
      Resplit(a, b, c, d);
    } else if |g| == 2 {
      DigitOfValue(s[2]);
      TwoLetters(g[0], g[1]);
      Resplit(a, b, c, 0);
      ResplitTwo(b, c);
    } else {
      OneLetters(g[0]);
      Resplit(a, b, 0, 0);
      ResplitOne(a, b);
    }
  }

  /** The decoder accepts nothing but encodings. */
  lemma {:induction false} EncodesBack(s: string)
    requires Decoded(s).Some?
    ensures Encoded(Decoded(s).value) == s
  {
    if s != "" {
      var g, rest := Group(s[..4], |s| == 4).value, Decoded(s[4..]).value;
      GroupBack(s[..4], |s| == 4);
      EncodesBack(s[4..]);
      hide Group, One, Two, Three;
      assert s == s[..4] + s[4..];
      if |g| == 3 {
        assert (g + rest)[3..] == rest;
      } else {
        assert s[4..] == "" && rest == [];
        assert g + rest == g;
      }
    }
  }

  lemma {:induction false} EncodedAppend(a: seq<Octet>, b: seq<Octet>)
    requires |a| % 3 == 0
    ensures Encoded(a + b) == Encoded(a) + Encoded(b)
  {
    hide One, Two, Three;
    if a == [] {
      assert a + b == b;
    } else {
      assert (a + b)[3..] == a[3..] + b;
      EncodedAppend(a[3..], b);
      assert (a + b)[0] == a[0] && (a + b)[1] == a[1] && (a + b)[2] == a[2];
    }
  }

  lemma EncodedNothing(t: seq<Octet>)
    ensures Encoded(t[..0]) == ""
  {
  }

  lemma EncodedThree(t: seq<Octet>, i: nat)
    requires i % 3 == 0 && i + 3 <= |t|
    ensures Encoded(t[..i + 3]) == Encoded(t[..i]) + Three(t[i], t[i + 1], t[i + 2])
  {
    hide Three;
    EncodedAppend(t[..i], t[i..i + 3]);
    assert t[..i + 3] == t[..i] + t[i..i + 3];
    assert t[i..i + 3][3..] == [];
    assert Three(t[i], t[i + 1], t[i + 2]) + "" == Three(t[i], t[i + 1], t[i + 2]);
  }

  lemma EncodedRest(t: seq<Octet>, i: nat)
    requires i % 3 == 0 && i <= |t| < i + 3
    ensures Encoded(t) == Encoded(t[..i]) + (if |t| - i == 0 then "" else if |t| - i == 1 then One(t[i])
        else Two(t[i], t[i + 1]))
  {
    hide One, Two, Three;
    EncodedAppend(t[..i], t[i..]);
    assert t == t[..i] + t[i..];
  }

  method Put(buffer: array<char>, j: nat, s: string)
    requires j + 4 <= buffer.Length && |s| == 4
    modifies buffer
    ensures buffer[..j + 4] == old(buffer[..j]) + s
  {
    buffer[j] := s[0];
    buffer[j + 1] := s[1];
    buffer[j + 2] := s[2];
    buffer[j + 3] := s[3];
  }

  /** base64_encode: all writes stay inside the buffer chosen, and the text ends in a NUL. */
  method Base64Encode(text: seq<Octet>) returns (buffer: array<char>, out_esz: nat)
    requires (|text| + 2) / 3 * 4 < MAX_INT
    ensures out_esz == (|text| + 2) / 3 * 4 && out_esz < buffer.Length && buffer[out_esz] == '\0'
    ensures buffer[..out_esz] == Encoded(text) && Decoded(buffer[..out_esz]) == Some(text)
  {
    hide Encoded, One, Two, Three;
    Sizes();
    EncodedNothing(text);
    var sz := |text|;
    out_esz := (sz + 2) / 3 * 4;
    buffer := new char[if out_esz >= SMALL_CHUNK then out_esz + 1 else SMALL_CHUNK];
    var i, j := 0, 0;
    while i < sz - 2
      invariant 0 <= i <= sz && i % 3 == 0 && j == i / 3 * 4
      invariant buffer[..j] == Encoded(text[..i])
    {
      EncodedThree(text, i);
      Put(buffer, j, Three(text[i], text[i + 1], text[i + 2]));
      j := j + 4;
      i := i + 3;
    }
    var padding := sz - i;
    EncodedRest(text, i);
    if padding == 1 {
      Put(buffer, j, One(text[i]));
    } else if padding == 2 {
      Put(buffer, j, Two(text[i], text[i + 1]));
    }
    DecodesBack(text);
    ghost var done := buffer[..out_esz];
    buffer[out_esz] := '\0';
    assert buffer[..out_esz] == done;
  }
}
