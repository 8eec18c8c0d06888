/** The checksum computers: bit by bit, and by table, direct or reflected. */
module Crc {
  import opened CrcDivision

  /** A byte is eight bits, the lowest first. */
  type Octet = b: Bits | |b| == 8 witness [false, false, false, false, false, false, false, false]

  function Flip(x: Bits, i: nat): (y: Bits)
    requires i < |x|
    ensures |y| == |x|
  {
    x[i := !x[i]]
  }

  /** reflect_unsigned: the low bit l and the high bit h move to the middle and change places where they differ. */
  method ReflectUnsigned(x: Bits, word_length: nat) returns (y: Bits)
    requires 0 < word_length <= |x|
    ensures y == Reflect(x[..word_length]) + x[word_length..]
  {
    y := x;
    var l, h := 0, word_length - 1;
    while h > l
      invariant 0 <= l && l + h == word_length - 1 && h >= l - 1 && |y| == |x|
      invariant forall i {:trigger y[i]} :: 0 <= i < l || h < i < word_length ==> y[i] == x[word_length - 1 - i]
      invariant forall i :: l <= i <= h || word_length <= i < |x| ==> y[i] == x[i]
      decreases h - l
    {
      ghost var before := y;
      if y[h] != y[l] {
        y := Flip(Flip(y, h), l);
      }
      assert y[l] == before[h] && y[h] == before[l];
      assert forall i :: 0 <= i < |x| && i != l && i != h ==> y[i] == before[i];
      h := h - 1;
      l := l + 1;
    }
    forall i | 0 <= i < |x|
      ensures y[i] == (Reflect(x[..word_length]) + x[word_length..])[i]
    {
    }
  }

  function ReflectIf(x: Bits, reflect: bool): (y: Bits)
    ensures |y| == |x|
  {
    if reflect then Reflect(x) else x
  }

  /** reflect_optionally, for the whole width. */
  method ReflectOptionally(x: Bits, reflect: bool) returns (y: Bits)
    requires x != []
    ensures y == ReflectIf(x, reflect)
  {
    if reflect {
      y := ReflectUnsigned(x, |x|);
      assert x[..|x|] == x && Reflect(x) + x[|x|..] == Reflect(x);
    } else {
      y := x;
    }
  }

  /** crc_modulo_word_update. Without reflection the highest bit of the word comes first. */
  method ModuloWordUpdate(remainder: Bits, new_dividend_bits: Bits, truncated_divisor: Bits, reflect: bool)
      returns (rem: Bits)
    requires |remainder| == |truncated_divisor| > 0 && new_dividend_bits != []
    ensures rem == Divide(remainder, ReflectIf(new_dividend_bits, !reflect), truncated_divisor)
  {
    hide Flip, Up, Xor, If, Step;
    var n := |remainder|;
    var bits := ReflectOptionally(new_dividend_bits, !reflect);
    rem := remainder;
    var i := |bits|;
    ghost var all := bits;
    while i > 0
      invariant 0 <= i <= |all| && |rem| == n && |bits| == |all|
      invariant forall k :: 0 <= k < i ==> bits[k] == all[|all| - i + k]
      invariant rem == Divide(remainder, all[..|all| - i], truncated_divisor)
    {
      ghost var before := rem;
      if bits[0] {
        rem := Flip(rem, n - 1);
      }
      var quotient := rem[n - 1];
      rem := Up(rem, 1);
      rem := Xor(rem, If(quotient, truncated_divisor));
      FlipStep(before, bits[0], truncated_divisor);
      assert all[..|all| - i + 1][..|all| - i] == all[..|all| - i];
      i := i - 1;
      bits := Down(bits, 1);
    }
    assert all[..|all|] == all;
  }

  lemma FlipStep(r: Bits, bit: bool, poly: Bits)
    requires |r| == |poly| > 0
    ensures var f := if bit then Flip(r, |r| - 1) else r;
            Xor(Up(f, 1), If(f[|r| - 1], poly)) == Step(r, bit, poly)
  {
    var f := if bit then Flip(r, |r| - 1) else r;
    assert f[..|r| - 1] == r[..|r| - 1];
  }

  /** The number whose binary digits are the bits. */
  function Number(b: Bits): nat {
    if b == [] then 0 else (if b[0] then 1 else 0) + 2 * Number(b[1..])
  }

  function Digits(n: nat, k: nat): (b: Bits)
    ensures |b| == k
  {
    if k == 0 then [] else [n % 2 == 1] + Digits(n / 2, k - 1)
  }

  function Power2(k: nat): nat { if k == 0 then 1 else 2 * Power2(k - 1) }

  lemma {:induction false} NumberOfDigits(n: nat, k: nat)
    requires n < Power2(k)
    ensures Number(Digits(n, k)) == n
  {
    if k > 0 {
      NumberOfDigits(n / 2, k - 1);
      assert Digits(n, k)[1..] == Digits(n / 2, k - 1);
    }
  }

  lemma {:induction false} DigitsOfNumber(b: Bits)
    ensures Number(b) < Power2(|b|) && Digits(Number(b), |b|) == b
  {
    if b != [] {
      DigitsOfNumber(b[1..]);
      assert Number(b) / 2 == Number(b[1..]);
      assert b == [b[0]] + b[1..];
    }
  }

  function OctetOf(n: nat): Octet { Digits(n, 8) }

  /** The place of a byte in a table. */
  function Index(b: Octet): (n: nat)
    ensures n < 256 && OctetOf(n) == b
  {
    DigitsOfNumber(b);
    assert Power2(8) == 256;
    Number(b)
  }

  lemma IndexOfOctet(n: nat)
    requires n < 256
    ensures Index(OctetOf(n)) == n
  {
    assert Power2(8) == 256;
    NumberOfDigits(n, 8);
  }

  /** The composite effect of a byte on a zero remainder. */
  function Product(b: Octet, poly: Bits, reflect: bool): (r: Bits)
    requires poly != []
    ensures |r| == |poly|
  {
    ReflectIf(Divide(Zeros(|poly|), ReflectIf(b, !reflect), poly), reflect)
  }

  type Table = seq<Bits>

  predicate TableOk(t: Table, poly: Bits, reflect: bool)
    requires poly != []
  {
    |t| == 256 && forall n :: 0 <= n < 256 ==> t[n] == Product(OctetOf(n), poly, reflect)
  }

  lemma ReflectTwice(b: Bits, reflect: bool)
    ensures ReflectIf(ReflectIf(b, reflect), reflect) == b
    ensures ReflectIf(ReflectIf(b, reflect), true) == ReflectIf(b, !reflect)
  {
    assert Reflect(Reflect(b)) == b;
  }

  /** make_partial_xor_products_table, for bytes. */
  method MakeTable(poly: Bits, reflect: bool) returns (t: Table)
    requires poly != []
    ensures TableOk(t, poly, reflect)
  {
    hide Digits, Number, Reflect, Divide, Index;
    var result := new Bits[256](_ => poly);
    for dividend := 0 to 256
      invariant forall d :: 0 <= d < dividend ==>
          result[Place(d, reflect)] == Product(OctetOf(Place(d, reflect)), poly, reflect)
    {
      var rem := ModuloWordUpdate(Zeros(|poly|), OctetOf(dividend), poly, false);
      var place := ReflectOptionally(OctetOf(dividend), reflect);
      rem := ReflectOptionally(rem, reflect);
      ReflectTwice(OctetOf(dividend), reflect);
      PlaceInverse(dividend, reflect);
      forall d | 0 <= d < dividend
        ensures Place(d, reflect) != Place(dividend, reflect)
      {
        PlaceInverse(d, reflect);
      }
      result[Index(place)] := rem;
    }
    t := result[..];
    forall n | 0 <= n < 256
      ensures t[n] == Product(OctetOf(n), poly, reflect)
    {
      PlaceInverse(n, reflect);
    }
  }

  function Place(d: nat, reflect: bool): (n: nat)
    ensures n < 256
  {
    Index(ReflectIf(OctetOf(d), reflect))
  }

  lemma PlaceInverse(d: nat, reflect: bool)
    requires d < 256
    ensures Place(Place(d, reflect), reflect) == d
    ensures OctetOf(Place(d, reflect)) == ReflectIf(OctetOf(d), reflect)
  {
    ReflectTwice(OctetOf(d), reflect);
    IndexOfOctet(d);
  }

  /** The bits of a message in the order in which they are divided. */
  function MessageBits(bytes: seq<Octet>, reflect: bool): Bits {
    if bytes == [] then [] else MessageBits(bytes[..|bytes| - 1], reflect) + ReflectIf(bytes[|bytes| - 1], !reflect)
  }

  /** A byte by table in the direct form: the top byte of the remainder picks the entry. */
  lemma DirectByte(r: Bits, b: Octet, poly: Bits)
    requires |r| == |poly| >= 8
    ensures Divide(r, Reflect(b), poly) ==
            Xor(Up(r, 8), Product(Xor(Down(r, |r| - 8)[..8], b), poly, false))
  {
    DivideMany(r, Reflect(b), poly);
    assert Xor(Reflect(b), Top(r, 8)) == Reflect(Xor(Down(r, |r| - 8)[..8], b));
  }

  /** A byte by table in the reflected form: the low byte of the reflected remainder picks the entry. */
  lemma ReflectedByte(r: Bits, b: Octet, poly: Bits)
    requires |r| == |poly| >= 8
    ensures var q := Reflect(r);
            Reflect(Divide(r, b, poly)) == Xor(Down(q, 8), Product(Xor(q[..8], b), poly, true))
  {
    var q := Reflect(r);
    assert Xor(b, Top(r, 8)) == Xor(q[..8], b);
    assert Reflect(Up(r, 8)) == Down(q, 8);
    hide Xor, Up, Down, Top, Reflect, Divide;
    DivideMany(r, b, poly);
    ReflectSum(Up(r, 8), Divide(Zeros(|r|), Xor(q[..8], b), poly));
  }

  lemma ReflectSum(a: Bits, b: Bits)
    requires |a| == |b|
    ensures Reflect(Xor(a, b)) == Xor(Reflect(a), Reflect(b))
  {
  }

  /** crc_update of the direct form. */
  method DirectUpdate(remainder: Bits, bytes: seq<Octet>, table: Table, ghost poly: Bits) returns (rem: Bits)
    requires |remainder| == |poly| >= 8 && TableOk(table, poly, false)
    ensures rem == Divide(remainder, MessageBits(bytes, false), poly)
  {
    hide Divide, Up, Down, Xor, Product, Index, OctetOf;
    var n := |remainder|;
    rem := remainder;
    DivideNothing(rem, poly);
    for i := 0 to |bytes|
      invariant |rem| == n && rem == Divide(remainder, MessageBits(bytes[..i], false), poly)
    {
      var index: Octet := Xor(Down(rem, n - 8)[..8], bytes[i]);
      DirectByte(rem, bytes[i], poly);
      assert bytes[..i + 1][..i] == bytes[..i];
      DivideAppend(remainder, MessageBits(bytes[..i], false), Reflect(bytes[i]), poly);
      rem := Up(rem, 8);
      rem := Xor(rem, table[Index(index)]);
    }
    assert bytes[..|bytes|] == bytes;
  }

  /** crc_update of the reflected form. */
  method ReflectedUpdate(remainder: Bits, bytes: seq<Octet>, table: Table, ghost poly: Bits) returns (rem: Bits)
    requires |remainder| == |poly| >= 8 && TableOk(table, poly, true)
    ensures rem == Reflect(Divide(Reflect(remainder), MessageBits(bytes, true), poly))
  {
    hide Divide, Up, Down, Xor, Product, Index, OctetOf;
    var n := |remainder|;
    rem := remainder;
    ghost var start := Reflect(remainder);
    DivideNothing(start, poly);
    assert Reflect(start) == remainder;
    for i := 0 to |bytes|
      invariant |rem| == n && rem == Reflect(Divide(start, MessageBits(bytes[..i], true), poly))
    {
      ghost var r := Divide(start, MessageBits(bytes[..i], true), poly);
      var index: Octet := Xor(rem[..8], bytes[i]);
      ReflectedByte(r, bytes[i], poly);
      assert bytes[..i + 1][..i] == bytes[..i];
      DivideAppend(start, MessageBits(bytes[..i], true), bytes[i], poly);
      rem := Down(rem, 8);
      rem := Xor(rem, table[Index(index)]);
    }
    assert bytes[..|bytes|] == bytes;
  }

  lemma DivideNothing(r: Bits, poly: Bits)
    requires |r| == |poly| > 0
    ensures Divide(r, [], poly) == r
  {
  }
}
