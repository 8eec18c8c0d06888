/** SHA1_Transform: sixteen words reused in a circle, and registers renamed instead of moved. */
module Sha1Transform {
  import opened Sha1Standard

  function Rol8(x: Word): Word { (x << 8) | (x >> 24) }
  function Rol24(x: Word): Word { (x << 24) | (x >> 8) }

  /** A word of the union of octets and words on a little-endian machine. */
  function LittleEndian(block: seq<Octet>, i: nat): Word
    requires 4 * i + 3 < |block|
  {
    (block[4 * i] as Word) | ((block[4 * i + 1] as Word) << 8) |
    ((block[4 * i + 2] as Word) << 16) | ((block[4 * i + 3] as Word) << 24)
  }

  function SwapOctets(x: Word): Word { (Rol24(x) & 0xFF00FF00) | (Rol8(x) & 0x00FF00FF) }

  lemma SwapIsBigEndian(block: seq<Octet>, i: nat)
    requires 4 * i + 3 < |block|
    ensures SwapOctets(LittleEndian(block, i)) == BigEndian(block, i)
  {
    SwapFour(block[4 * i], block[4 * i + 1], block[4 * i + 2], block[4 * i + 3]);
  }

  lemma SwapFour(p: Octet, q: Octet, r: Octet, s: Octet)
    ensures SwapOctets((p as Word) | ((q as Word) << 8) | ((r as Word) << 16) | ((s as Word) << 24)) ==
            ((p as Word) << 24) | ((q as Word) << 16) | ((r as Word) << 8) | (s as Word)
  {
  }

  lemma ChooseRewritten(w: Word, x: Word, y: Word)
    ensures (w & (x ^ y)) ^ y == Choose(w, x, y)
  {
  }

  lemma MajorityRewritten(w: Word, x: Word, y: Word)
    ensures ((w | x) & y) | (w & x) == Majority(w, x, y)
  {
  }

  /** Before round i, the circle holds the last sixteen schedule words, or words not yet swapped. */
  ghost predicate Window(l: seq<Word>, block: seq<Octet>, i: nat)
    requires |block| == 64
  {
    && |l| == 16
    && (forall t: nat :: i <= t + 16 && t < i ==> l[t % 16] == Schedule(block, t))
    && (forall t: nat :: i <= t < 16 ==> l[t] == LittleEndian(block, t))
  }

  lemma WindowFirst(l: seq<Word>, block: seq<Octet>, i: nat)
    requires |block| == 64 && i < 16 && Window(l, block, i)
    ensures SwapOctets(l[i]) == Schedule(block, i) && Window(l[i := SwapOctets(l[i])], block, i + 1)
  {
    hide SwapOctets, LittleEndian, BigEndian;
    SwapIsBigEndian(block, i);
  }

  lemma SameSlot(i: nat, k: nat)
    requires 16 <= i && k <= 16
    ensures (i + 16 - k) % 16 == (i - k) % 16
  {
  }

  lemma OtherSlot(t: nat, i: nat)
    requires t < i < t + 16
    ensures t % 16 != i % 16
  {
  }

  /** The sixteenth-last word is read and replaced at one place of the circle. */
  lemma WindowNext(l: seq<Word>, block: seq<Octet>, i: nat, w: Word)
    requires |block| == 64 && 16 <= i && Window(l, block, i)
    requires w == Rol1(l[(i + 13) % 16] ^ l[(i + 8) % 16] ^ l[(i + 2) % 16] ^ l[i % 16])
    ensures w == Schedule(block, i) && Window(l[i % 16 := w], block, i + 1)
  {
    hide Rol1, LittleEndian, BigEndian;
    SameSlot(i, 3);
    SameSlot(i, 8);
    SameSlot(i, 14);
    SameSlot(i, 16);
    assert w == Schedule(block, i) by {
      assert l[(i - 3) % 16] == Schedule(block, i - 3);
      assert l[(i - 8) % 16] == Schedule(block, i - 8);
      assert l[(i - 14) % 16] == Schedule(block, i - 14);
      assert l[(i - 16) % 16] == Schedule(block, i - 16);
    }
    hide Schedule;
    forall t: nat | i < t + 16 && t < i
      ensures l[i % 16 := w][t % 16] == Schedule(block, t)
    {
      OtherSlot(t, i);
    }
  }

  /** blk0. */
  method FirstWord(l: array<Word>, i: nat, ghost block: seq<Octet>) returns (w: Word)
    requires |block| == 64 && i < 16 && Window(l[..], block, i)
    modifies l
    ensures Window(l[..], block, i + 1) && w == Schedule(block, i)
  {
    hide Schedule, Rol8, Rol24, LittleEndian, BigEndian;
    WindowFirst(l[..], block, i);
    ghost var after := l[..][i := SwapOctets(l[i])];
    l[i] := (Rol24(l[i]) & 0xFF00FF00) | (Rol8(l[i]) & 0x00FF00FF);
    assert l[..] == after;
    w := l[i];
  }

  /** blk. */
  method NextWord(l: array<Word>, i: nat, ghost block: seq<Octet>) returns (w: Word)
    requires |block| == 64 && 16 <= i && Window(l[..], block, i)
    modifies l
    ensures Window(l[..], block, i + 1) && w == Schedule(block, i)
  {
    hide Schedule, Rol1, LittleEndian, BigEndian;
    w := Rol1(l[(i + 13) % 16] ^ l[(i + 8) % 16] ^ l[(i + 2) % 16] ^ l[i % 16]);
    WindowNext(l[..], block, i, w);
    ghost var after := l[..][i % 16 := w];
    l[i % 16] := w;
    assert l[..] == after;
  }

  /** One renamed round, summed in the macros' order. */
  lemma RenamedRound(h: Registers, block: seq<Octet>, i: nat, v: Word, w: Word, x: Word, y: Word, z: Word, f: Word,
      s: Word, k: Word)
    requires |block| == 64 && Registers(v, w, x, y, z) == Rounds(h, block, i)
    requires f == Mix(i, w, x, y) && s == Schedule(block, i) && k == Constant(i)
    ensures Registers(Temporary(Rol5(v), f, z, k, s), v, Rol30(w), x, y) == Rounds(h, block, i + 1)
  {
    hide Temporary, Mix, Schedule, Constant, Rol5, Rol30;
    assert Rounds(h, block, i + 1) == Round(Registers(v, w, x, y, z), i, s);
  }

  /** z+=f+blk(i)+k+rol(v,5), as the macros sum it. */
  function MacroSum(z: Word, f: Word, s: Word, k: Word, v: Word): Word { z + (f + s + k + v) }

  /** The order of the macros and the order of the standard. */
  lemma SumOrder(z: Word, f: Word, s: Word, k: Word, v: Word)
    ensures MacroSum(z, f, s, k, v) == Temporary(v, f, z, k, s)
  {
  }

  /** Rounds 0 to 15. The caller renames the registers instead of moving them. */
  method R0(l: array<Word>, v: Word, w: Word, x: Word, y: Word, z: Word, i: nat, ghost h: Registers,
      ghost block: seq<Octet>)
    returns (z': Word, w': Word)
    requires |block| == 64 &&  i < 16 && Window(l[..], block, i) && Registers(v, w, x, y, z) == Rounds(h, block, i)
    modifies l
    ensures Window(l[..], block, i + 1) && Registers(z', v, w', x, y) == Rounds(h, block, i + 1)
  {
    hide Window, Rounds, Schedule, Rol5, Rol30, LittleEndian, BigEndian, Choose, Majority, Temporary, MacroSum;
    var s := FirstWord(l, i, block);
    ChooseRewritten(w, x, y);
    var f := (w & (x ^ y)) ^ y;
    RenamedRound(h, block, i, v, w, x, y, z, f, s, 0x5A827999);
    var r := Rol5(v);
    SumOrder(z, f, s, 0x5A827999, r);
    z' := MacroSum(z, f, s, 0x5A827999, r);
    w' := Rol30(w);
  }

  /** Rounds 16 to 19. */
  method R1(l: array<Word>, v: Word, w: Word, x: Word, y: Word, z: Word, i: nat, ghost h: Registers,
      ghost block: seq<Octet>)
    returns (z': Word, w': Word)
    requires |block| == 64 && 16 <= i < 20 && Window(l[..], block, i) && Registers(v, w, x, y, z) == Rounds(h, block, i)
    modifies l
    ensures Window(l[..], block, i + 1) && Registers(z', v, w', x, y) == Rounds(h, block, i + 1)
  {
    hide Window, Rounds, Schedule, Rol5, Rol30, LittleEndian, BigEndian, Choose, Majority, Temporary, MacroSum;
    var s := NextWord(l, i, block);
    ChooseRewritten(w, x, y);
    var f := (w & (x ^ y)) ^ y;
    RenamedRound(h, block, i, v, w, x, y, z, f, s, 0x5A827999);
    var r := Rol5(v);
    SumOrder(z, f, s, 0x5A827999, r);
    z' := MacroSum(z, f, s, 0x5A827999, r);
    w' := Rol30(w);
  }

  /** Rounds 20 to 39. */
  method R2(l: array<Word>, v: Word, w: Word, x: Word, y: Word, z: Word, i: nat, ghost h: Registers,
      ghost block: seq<Octet>)
    returns (z': Word, w': Word)
    requires |block| == 64 && 20 <= i < 40 && Window(l[..], block, i) && Registers(v, w, x, y, z) == Rounds(h, block, i)
    modifies l
    ensures Window(l[..], block, i + 1) && Registers(z', v, w', x, y) == Rounds(h, block, i + 1)
  {
    hide Window, Rounds, Schedule, Rol5, Rol30, LittleEndian, BigEndian, Choose, Majority, Temporary, MacroSum;
    var s := NextWord(l, i, block);
    var f := w ^ x ^ y;
    RenamedRound(h, block, i, v, w, x, y, z, f, s, 0x6ED9EBA1);
    var r := Rol5(v);
    SumOrder(z, f, s, 0x6ED9EBA1, r);
    z' := MacroSum(z, f, s, 0x6ED9EBA1, r);
    w' := Rol30(w);
  }

  /** Rounds 40 to 59. */
  method R3(l: array<Word>, v: Word, w: Word, x: Word, y: Word, z: Word, i: nat, ghost h: Registers,
      ghost block: seq<Octet>)
    returns (z': Word, w': Word)
    requires |block| == 64 && 40 <= i < 60 && Window(l[..], block, i) && Registers(v, w, x, y, z) == Rounds(h, block, i)
    modifies l
    ensures Window(l[..], block, i + 1) && Registers(z', v, w', x, y) == Rounds(h, block, i + 1)
  {
    hide Window, Rounds, Schedule, Rol5, Rol30, LittleEndian, BigEndian, Choose, Majority, Temporary, MacroSum;
    var s := NextWord(l, i, block);
    MajorityRewritten(w, x, y);
    var f := ((w | x) & y) | (w & x);
    RenamedRound(h, block, i, v, w, x, y, z, f, s, 0x8F1BBCDC);
    var r := Rol5(v);
    SumOrder(z, f, s, 0x8F1BBCDC, r);
    z' := MacroSum(z, f, s, 0x8F1BBCDC, r);
    w' := Rol30(w);
  }

  /** Rounds 60 to 79. */
  method R4(l: array<Word>, v: Word, w: Word, x: Word, y: Word, z: Word, i: nat, ghost h: Registers,
      ghost block: seq<Octet>)
    returns (z': Word, w': Word)
    requires |block| == 64 && 60 <= i < 80 && Window(l[..], block, i) && Registers(v, w, x, y, z) == Rounds(h, block, i)
    modifies l
    ensures Window(l[..], block, i + 1) && Registers(z', v, w', x, y) == Rounds(h, block, i + 1)
  {
    hide Window, Rounds, Schedule, Rol5, Rol30, LittleEndian, BigEndian, Choose, Majority, Temporary, MacroSum;
    var s := NextWord(l, i, block);
    var f := w ^ x ^ y;
    RenamedRound(h, block, i, v, w, x, y, z, f, s, 0xCA62C1D6);
    var r := Rol5(v);
    SumOrder(z, f, s, 0xCA62C1D6, r);
    z' := MacroSum(z, f, s, 0xCA62C1D6, r);
    w' := Rol30(w);
  }

  method Rounds0To19(l: array<Word>, ghost h: Registers, ghost block: seq<Octet>, a0: Word, b0: Word, c0: Word,
      d0: Word, e0: Word)
    returns (a: Word, b: Word, c: Word, d: Word, e: Word)
    requires |block| == 64 && Window(l[..], block, 0) && Registers(a0, b0, c0, d0, e0) == Rounds(h, block, 0)
    modifies l
    ensures Window(l[..], block, 20) && Registers(a, b, c, d, e) == Rounds(h, block, 20)
  {
    hide Window, Rounds;
    a, b, c, d, e := a0, b0, c0, d0, e0;
    e, b := R0(l, a, b, c, d, e, 0, h, block);
    d, a := R0(l, e, a, b, c, d, 1, h, block);
    c, e := R0(l, d, e, a, b, c, 2, h, block);
    b, d := R0(l, c, d, e, a, b, 3, h, block);
    a, c := R0(l, b, c, d, e, a, 4, h, block);
    e, b := R0(l, a, b, c, d, e, 5, h, block);
    d, a := R0(l, e, a, b, c, d, 6, h, block);
    c, e := R0(l, d, e, a, b, c, 7, h, block);
    b, d := R0(l, c, d, e, a, b, 8, h, block);
    a, c := R0(l, b, c, d, e, a, 9, h, block);
    e, b := R0(l, a, b, c, d, e, 10, h, block);
    d, a := R0(l, e, a, b, c, d, 11, h, block);
    c, e := R0(l, d, e, a, b, c, 12, h, block);
    b, d := R0(l, c, d, e, a, b, 13, h, block);
    a, c := R0(l, b, c, d, e, a, 14, h, block);
    e, b := R0(l, a, b, c, d, e, 15, h, block);
    d, a := R1(l, e, a, b, c, d, 16, h, block);
    c, e := R1(l, d, e, a, b, c, 17, h, block);
    b, d := R1(l, c, d, e, a, b, 18, h, block);
    a, c := R1(l, b, c, d, e, a, 19, h, block);
  }

  method Rounds20To39(l: array<Word>, ghost h: Registers, ghost block: seq<Octet>, a0: Word, b0: Word, c0: Word,
      d0: Word, e0: Word)
    returns (a: Word, b: Word, c: Word, d: Word, e: Word)
    requires |block| == 64 && Window(l[..], block, 20) && Registers(a0, b0, c0, d0, e0) == Rounds(h, block, 20)
    modifies l
    ensures Window(l[..], block, 40) && Registers(a, b, c, d, e) == Rounds(h, block, 40)
  {
    hide Window, Rounds;
    a, b, c, d, e := a0, b0, c0, d0, e0;
    e, b := R2(l, a, b, c, d, e, 20, h, block);
    d, a := R2(l, e, a, b, c, d, 21, h, block);
    c, e := R2(l, d, e, a, b, c, 22, h, block);
    b, d := R2(l, c, d, e, a, b, 23, h, block);
    a, c := R2(l, b, c, d, e, a, 24, h, block);
    e, b := R2(l, a, b, c, d, e, 25, h, block);
    d, a := R2(l, e, a, b, c, d, 26, h, block);
    c, e := R2(l, d, e, a, b, c, 27, h, block);
    b, d := R2(l, c, d, e, a, b, 28, h, block);
    a, c := R2(l, b, c, d, e, a, 29, h, block);
    e, b := R2(l, a, b, c, d, e, 30, h, block);
    d, a := R2(l, e, a, b, c, d, 31, h, block);
    c, e := R2(l, d, e, a, b, c, 32, h, block);
    b, d := R2(l, c, d, e, a, b, 33, h, block);
    a, c := R2(l, b, c, d, e, a, 34, h, block);
    e, b := R2(l, a, b, c, d, e, 35, h, block);
    d, a := R2(l, e, a, b, c, d, 36, h, block);
    c, e := R2(l, d, e, a, b, c, 37, h, block);
    b, d := R2(l, c, d, e, a, b, 38, h, block);
    a, c := R2(l, b, c, d, e, a, 39, h, block);
  }

  method Rounds40To59(l: array<Word>, ghost h: Registers, ghost block: seq<Octet>, a0: Word, b0: Word, c0: Word,
      d0: Word, e0: Word)
    returns (a: Word, b: Word, c: Word, d: Word, e: Word)
    requires |block| == 64 && Window(l[..], block, 40) && Registers(a0, b0, c0, d0, e0) == Rounds(h, block, 40)
    modifies l
    ensures Window(l[..], block, 60) && Registers(a, b, c, d, e) == Rounds(h, block, 60)
  {
    hide Window, Rounds;
    a, b, c, d, e := a0, b0, c0, d0, e0;
    e, b := R3(l, a, b, c, d, e, 40, h, block);
    d, a := R3(l, e, a, b, c, d, 41, h, block);
    c, e := R3(l, d, e, a, b, c, 42, h, block);
    b, d := R3(l, c, d, e, a, b, 43, h, block);
    a, c := R3(l, b, c, d, e, a, 44, h, block);
    e, b := R3(l, a, b, c, d, e, 45, h, block);
    d, a := R3(l, e, a, b, c, d, 46, h, block);
    c, e := R3(l, d, e, a, b, c, 47, h, block);
    b, d := R3(l, c, d, e, a, b, 48, h, block);
    a, c := R3(l, b, c, d, e, a, 49, h, block);
    e, b := R3(l, a, b, c, d, e, 50, h, block);
    d, a := R3(l, e, a, b, c, d, 51, h, block);
    c, e := R3(l, d, e, a, b, c, 52, h, block);
    b, d := R3(l, c, d, e, a, b, 53, h, block);
    a, c := R3(l, b, c, d, e, a, 54, h, block);
    e, b := R3(l, a, b, c, d, e, 55, h, block);
    d, a := R3(l, e, a, b, c, d, 56, h, block);
    c, e := R3(l, d, e, a, b, c, 57, h, block);
    b, d := R3(l, c, d, e, a, b, 58, h, block);
    a, c := R3(l, b, c, d, e, a, 59, h, block);
  }

  method Rounds60To79(l: array<Word>, ghost h: Registers, ghost block: seq<Octet>, a0: Word, b0: Word, c0: Word,
      d0: Word, e0: Word)
    returns (a: Word, b: Word, c: Word, d: Word, e: Word)
    requires |block| == 64 && Window(l[..], block, 60) && Registers(a0, b0, c0, d0, e0) == Rounds(h, block, 60)
    modifies l
    ensures Window(l[..], block, 80) && Registers(a, b, c, d, e) == Rounds(h, block, 80)
  {
    hide Window, Rounds;
    a, b, c, d, e := a0, b0, c0, d0, e0;
    e, b := R4(l, a, b, c, d, e, 60, h, block);
    d, a := R4(l, e, a, b, c, d, 61, h, block);
    c, e := R4(l, d, e, a, b, c, 62, h, block);
    b, d := R4(l, c, d, e, a, b, 63, h, block);
    a, c := R4(l, b, c, d, e, a, 64, h, block);
    e, b := R4(l, a, b, c, d, e, 65, h, block);
    d, a := R4(l, e, a, b, c, d, 66, h, block);
    c, e := R4(l, d, e, a, b, c, 67, h, block);
    b, d := R4(l, c, d, e, a, b, 68, h, block);
    a, c := R4(l, b, c, d, e, a, 69, h, block);
    e, b := R4(l, a, b, c, d, e, 70, h, block);
    d, a := R4(l, e, a, b, c, d, 71, h, block);
    c, e := R4(l, d, e, a, b, c, 72, h, block);
    b, d := R4(l, c, d, e, a, b, 73, h, block);
    a, c := R4(l, b, c, d, e, a, 74, h, block);
    e, b := R4(l, a, b, c, d, e, 75, h, block);
    d, a := R4(l, e, a, b, c, d, 76, h, block);
    c, e := R4(l, d, e, a, b, c, 77, h, block);
    b, d := R4(l, c, d, e, a, b, 78, h, block);
    a, c := R4(l, b, c, d, e, a, 79, h, block);
  }

  ghost function StateOf(state: array<Word>): Registers
    requires state.Length == 5
    reads state
  {
    Registers(state[0], state[1], state[2], state[3], state[4])
  }

  /** One block: the state becomes exactly the compression of the old one. */
  method Transform(state: array<Word>, buffer: seq<Octet>)
    requires state.Length == 5 && |buffer| == 64
    modifies state
    ensures StateOf(state) == Compress(old(StateOf(state)), buffer)
  {
    hide Window, Rounds, LittleEndian, Add;
    ghost var h := StateOf(state);
    var l := LoadWords(buffer);
    var a, b, c, d, e := state[0], state[1], state[2], state[3], state[4];
    StartRounds(h, buffer);
    a, b, c, d, e := Rounds0To19(l, h, buffer, a, b, c, d, e);
    a, b, c, d, e := Rounds20To39(l, h, buffer, a, b, c, d, e);
    a, b, c, d, e := Rounds40To59(l, h, buffer, a, b, c, d, e);
    a, b, c, d, e := Rounds60To79(l, h, buffer, a, b, c, d, e);
    state[0] := Add(state[0], a);
    state[1] := Add(state[1], b);
    state[2] := Add(state[2], c);
    state[3] := Add(state[3], d);
    state[4] := Add(state[4], e);
  }

  lemma StartRounds(h: Registers, block: seq<Octet>)
    requires |block| == 64
    ensures Rounds(h, block, 0) == h
  {
  }

  /** The copy of the block into the union of octets and words. */
  method LoadWords(block: seq<Octet>) returns (l: array<Word>)
    requires |block| == 64
    ensures fresh(l) && Window(l[..], block, 0)
  {
    hide LittleEndian, Schedule;
    l := new Word[16];
    for i := 0 to 16
      invariant forall t :: 0 <= t < i ==> l[t] == LittleEndian(block, t)
    {
      l[i] := LittleEndian(block, i);
    }
  }
}
