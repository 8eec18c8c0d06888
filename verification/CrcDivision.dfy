/** Modulo-2 division on registers of bits, the lowest bit first. */
module CrcDivision {
  type Bits = seq<bool>

  function Zeros(n: nat): (z: Bits)
    ensures |z| == n && forall i :: 0 <= i < n ==> !z[i]
  {
    seq(n, _ => false)
  }

  function Xor(a: Bits, b: Bits): (r: Bits)
    requires |a| == |b|
    ensures |r| == |a| && forall i :: 0 <= i < |r| ==> r[i] == (a[i] != b[i])
  {
    seq(|a|, i requires 0 <= i < |a| => a[i] != b[i])
  }

  function Reflect(a: Bits): (r: Bits)
    ensures |r| == |a| && forall i :: 0 <= i < |r| ==> r[i] == a[|a| - 1 - i]
  {
    seq(|a|, i requires 0 <= i < |a| => a[|a| - 1 - i])
  }

  /** r << k. */
  function Up(r: Bits, k: nat): (s: Bits)
    requires k <= |r|
    ensures |s| == |r| && forall i :: 0 <= i < |r| ==> s[i] == (i >= k && r[i - k])
  {
    Zeros(k) + r[..|r| - k]
  }

  /** r >> k. */
  function Down(r: Bits, k: nat): (s: Bits)
    requires k <= |r|
    ensures |s| == |r| && forall i :: 0 <= i < |r| ==> s[i] == (i + k < |r| && r[i + k])
  {
    r[k..] + Zeros(k)
  }

  function If(q: bool, p: Bits): (r: Bits)
    ensures |r| == |p|
  {
    if q then p else Zeros(|p|)
  }

  /** One step of the altered division: the new bit meets the highest bit of the remainder. */
  function Step(r: Bits, bit: bool, poly: Bits): (s: Bits)
    requires |r| == |poly| > 0
    ensures |s| == |r|
  {
    Xor(Up(r, 1), If(r[|r| - 1] != bit, poly))
  }

  /** The remainder after some bits, the first bit first. */
  function Divide(r: Bits, bits: Bits, poly: Bits): (s: Bits)
    requires |r| == |poly| > 0
    ensures |s| == |r|
    decreases |bits|
  {
    if bits == [] then r else Step(Divide(r, bits[..|bits| - 1], poly), bits[|bits| - 1], poly)
  }

  lemma {:induction false} DivideAppend(r: Bits, a: Bits, b: Bits, poly: Bits)
    requires |r| == |poly| > 0
    ensures Divide(r, a + b, poly) == Divide(Divide(r, a, poly), b, poly)
    decreases |b|
  {
    if b == [] {
      assert a + b == a;
    } else {
      var n := |b| - 1;
      assert (a + b)[..|a + b| - 1] == a + b[..n];
      DivideAppend(r, a, b[..n], poly);
    }
  }

  /** A step is linear. */
  lemma StepLinear(r: Bits, s: Bits, b: bool, c: bool, poly: Bits)
    requires |r| == |s| == |poly| > 0
    ensures Step(Xor(r, s), b != c, poly) == Xor(Step(r, b, poly), Step(s, c, poly))
  {
  }

  /** The highest k bits of a register, the highest first. */
  function Top(r: Bits, k: nat): (t: Bits)
    requires k <= |r|
    ensures |t| == k && forall i :: 0 <= i < k ==> t[i] == r[|r| - 1 - i]
  {
    seq(k, i requires 0 <= i < k => r[|r| - 1 - i])
  }

  /**
   Up to a register's width of bits at once: shift, and add what the bits and the top of the
   register make from zero.
   */
  lemma {:induction false} DivideMany(r: Bits, bits: Bits, poly: Bits)
    requires |r| == |poly| > 0 && |bits| <= |r|
    ensures Divide(r, bits, poly) ==
            Xor(Up(r, |bits|), Divide(Zeros(|r|), Xor(bits, Top(r, |bits|)), poly))
    decreases |bits|
  {
    hide Step, Xor, Up, Top, Zeros;
    var n, k := |r|, |bits|;
    var m := Xor(bits, Top(r, k));
    if k == 0 {
      NoBits(r);
    } else {
      var front, t := bits[..k - 1], r[n - k];
      DivideMany(r, front, poly);
      MixedFront(r, bits);
      ShiftOneMore(r, k, poly);
      StepLinear(Up(r, k - 1), Divide(Zeros(n), m[..k - 1], poly), t, m[k - 1], poly);
    }
  }

  lemma NoBits(r: Bits)
    ensures Xor(Up(r, 0), Zeros(|r|)) == r
  {
  }

  lemma MixedFront(r: Bits, bits: Bits)
    requires 0 < |bits| <= |r|
    ensures var k := |bits|; var m := Xor(bits, Top(r, k));
            && m[..k - 1] == Xor(bits[..k - 1], Top(r, k - 1))
            && bits[k - 1] == (r[|r| - k] != m[k - 1])
  {
  }

  /** A bit equal to the top one only shifts. */
  lemma ShiftOneMore(r: Bits, k: nat, poly: Bits)
    requires |r| == |poly| > 0 && 0 < k <= |r|
    ensures Step(Up(r, k - 1), r[|r| - k], poly) == Up(r, k)
  {
    hide Up, Xor;
    var u := Up(r, k - 1);
    assert u[|r| - 1] == r[|r| - k];
    assert Step(u, r[|r| - k], poly) == Xor(Up(u, 1), If(false, poly));
    assert Xor(Up(u, 1), If(false, poly)) == Up(u, 1);
    assert Up(u, 1) == Up(r, k);
  }

  /** Appending a remainder to its own message leaves zero. */
  lemma OwnRemainder(r: Bits, poly: Bits)
    requires |r| == |poly| > 0
    ensures Divide(r, Reflect(r), poly) == Zeros(|r|)
  {
    var n := |r|;
    DivideMany(r, Reflect(r), poly);
    assert Xor(Reflect(r), Top(r, n)) == Zeros(n);
    ZerosLeaveZero(n, n, poly);
    assert Xor(Up(r, n), Zeros(n)) == Zeros(n);
  }

  lemma {:induction false} ZerosLeaveZero(n: nat, k: nat, poly: Bits)
    requires n == |poly| > 0
    ensures Divide(Zeros(n), Zeros(k), poly) == Zeros(n)
    decreases k
  {
    if k > 0 {
      assert Zeros(k)[..k - 1] == Zeros(k - 1);
      ZerosLeaveZero(n, k - 1, poly);
    }
  }

  /** A step of schoolbook long division: the new bit comes in below. */
  function LongStep(r: Bits, bit: bool, poly: Bits): (s: Bits)
    requires |r| == |poly| > 0
    ensures |s| == |r|
  {
    Xor([bit] + r[..|r| - 1], If(r[|r| - 1], poly))
  }

  /** The remainder of the bits by the polynomial x^n + poly, the highest coefficient first. */
  function LongDivide(r: Bits, bits: Bits, poly: Bits): (s: Bits)
    requires |r| == |poly| > 0
    ensures |s| == |r|
    decreases |bits|
  {
    if bits == [] then r else LongStep(LongDivide(r, bits[..|bits| - 1], poly), bits[|bits| - 1], poly)
  }

  lemma LongStepLinear(r: Bits, s: Bits, b: bool, c: bool, poly: Bits)
    requires |r| == |s| == |poly| > 0
    ensures LongStep(Xor(r, s), b != c, poly) == Xor(LongStep(r, b, poly), LongStep(s, c, poly))
  {
    var x, y := LongStep(Xor(r, s), b != c, poly), Xor(LongStep(r, b, poly), LongStep(s, c, poly));
    forall i | 0 <= i < |x|
      ensures x[i] == y[i]
    {
    }
  }

  /** A zero bit in long division and in the altered division is the same step. */
  lemma ZeroStep(r: Bits, poly: Bits)
    requires |r| == |poly| > 0
    ensures LongStep(r, false, poly) == Step(r, false, poly)
  {
  }

  lemma {:induction false} ZerosLinear(r: Bits, s: Bits, k: nat, poly: Bits)
    requires |r| == |s| == |poly| > 0
    ensures LongDivide(Xor(r, s), Zeros(k), poly) == Xor(LongDivide(r, Zeros(k), poly), LongDivide(s, Zeros(k), poly))
    decreases k
  {
    if k > 0 {
      assert Zeros(k)[..k - 1] == Zeros(k - 1);
      ZerosLinear(r, s, k - 1, poly);
      LongStepLinear(LongDivide(r, Zeros(k - 1), poly), LongDivide(s, Zeros(k - 1), poly), false, false, poly);
    }
  }

  /** A zero first or last. */
  lemma {:induction false} ZerosCommute(r: Bits, k: nat, poly: Bits)
    requires |r| == |poly| > 0
    ensures LongDivide(LongStep(r, false, poly), Zeros(k), poly) == LongStep(LongDivide(r, Zeros(k), poly), false, poly)
    decreases k
  {
    if k > 0 {
      assert Zeros(k)[..k - 1] == Zeros(k - 1);
      ZerosCommute(r, k - 1, poly);
    }
  }

  function Unit(n: nat, i: nat): (u: Bits)
    requires i < n
    ensures |u| == n && forall j :: 0 <= j < n ==> u[j] == (j == i)
  {
    seq(n, j requires 0 <= j < n => j == i)
  }

  /** x^0 moves up k places. */
  lemma {:induction false} UnitMoves(n: nat, k: nat, poly: Bits)
    requires k < n == |poly|
    ensures LongDivide(Unit(n, 0), Zeros(k), poly) == Unit(n, k)
    decreases k
  {
    if k > 0 {
      assert Zeros(k)[..k - 1] == Zeros(k - 1);
      UnitMoves(n, k - 1, poly);
      UnitStep(n, k - 1, poly);
      hide LongStep, Unit;
    }
  }

  lemma UnitStep(n: nat, k: nat, poly: Bits)
    requires k + 1 < n == |poly|
    ensures LongStep(Unit(n, k), false, poly) == Unit(n, k + 1)
  {
    var s, t := LongStep(Unit(n, k), false, poly), Unit(n, k + 1);
    forall i | 0 <= i < n
      ensures s[i] == t[i]
    {
    }
  }

  lemma LastUnit(n: nat, poly: Bits)
    requires n == |poly| > 0
    ensures LongStep(Unit(n, n - 1), false, poly) == poly
  {
    var s := LongStep(Unit(n, n - 1), false, poly);
    forall i | 0 <= i < n
      ensures s[i] == poly[i]
    {
    }
  }

  /** x^n is the polynomial without its highest term. */
  lemma UnitFalls(n: nat, poly: Bits)
    requires n == |poly| > 0
    ensures LongDivide(Unit(n, 0), Zeros(n), poly) == poly
  {
    assert Zeros(n)[..n - 1] == Zeros(n - 1);
    UnitMoves(n, n - 1, poly);
    LastUnit(n, poly);
    hide LongStep;
  }

  /** One bit before the augmenting zeros is one step of the altered division. */
  lemma BitBeforeZeros(r: Bits, b: bool, poly: Bits)
    requires |r| == |poly| > 0
    ensures var n := |r|;
            LongDivide(LongStep(r, b, poly), Zeros(n), poly) == Step(LongDivide(r, Zeros(n), poly), b, poly)
  {
    var n := |r|;
    var z := LongDivide(r, Zeros(n), poly);
    ZerosCommute(r, n, poly);
    ZeroStep(z, poly);
    if b {
      assert LongStep(r, true, poly) == Xor(LongStep(r, false, poly), Unit(n, 0));
      ZerosLinear(LongStep(r, false, poly), Unit(n, 0), n, poly);
      UnitFalls(n, poly);
      assert Step(z, true, poly) == Xor(Step(z, false, poly), poly);
    }
  }

  lemma {:induction false} LongDivideAppend(r: Bits, a: Bits, b: Bits, poly: Bits)
    requires |r| == |poly| > 0
    ensures LongDivide(r, a + b, poly) == LongDivide(LongDivide(r, a, poly), b, poly)
    decreases |b|
  {
    if b == [] {
      assert a + b == a;
    } else {
      var n := |b| - 1;
      assert (a + b)[..|a + b| - 1] == a + b[..n];
      LongDivideAppend(r, a, b[..n], poly);
    }
  }

  lemma {:induction false} BeforeZeros(r: Bits, m: Bits, poly: Bits)
    requires |r| == |poly| > 0
    ensures LongDivide(LongDivide(r, m, poly), Zeros(|r|), poly) == Divide(LongDivide(r, Zeros(|r|), poly), m, poly)
    decreases |m|
  {
    if m != [] {
      BeforeZeros(r, m[..|m| - 1], poly);
      BitBeforeZeros(LongDivide(r, m[..|m| - 1], poly), m[|m| - 1], poly);
    }
  }

  /** From zero, the altered division of a message is the long division of the message with n zeros appended. */
  lemma DivideIsLongDivision(m: Bits, poly: Bits)
    requires |poly| > 0
    ensures Divide(Zeros(|poly|), m, poly) == LongDivide(Zeros(|poly|), m + Zeros(|poly|), poly)
  {
    var n := |poly|;
    LongDivideAppend(Zeros(n), m, Zeros(n), poly);
    BeforeZeros(Zeros(n), m, poly);
    LongZeros(n, n, poly);
  }

  lemma {:induction false} LongZeros(n: nat, k: nat, poly: Bits)
    requires n == |poly| > 0
    ensures LongDivide(Zeros(n), Zeros(k), poly) == Zeros(n)
    decreases k
  {
    if k > 0 {
      assert Zeros(k)[..k - 1] == Zeros(k - 1);
      LongZeros(n, k - 1, poly);
    }
  }
}
