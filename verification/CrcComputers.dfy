/** crc_basic and crc_optimal, with the CRC width equal to the register width. */
module CrcComputers {
  import opened CrcDivision
  import opened Crc

  /** Polynomial, initial remainder, final mask, and the two reflection flags. */
  datatype Parameters = Parameters(poly: Bits, init: Bits, final: Bits, reflectIn: bool, reflectOut: bool)

  predicate Widths(p: Parameters) { |p.poly| == |p.init| == |p.final| >= 8 }

  /** The checksum that both computers give for a remainder. */
  function Output(p: Parameters, remainder: Bits): (c: Bits)
    requires Widths(p) && |remainder| == |p.poly|
    ensures |c| == |p.poly|
  {
    Xor(ReflectIf(remainder, p.reflectOut), p.final)
  }

  /** The checksum of a message. */
  function Checksum(p: Parameters, message: seq<Octet>): Bits
    requires Widths(p)
  {
    Output(p, Divide(p.init, MessageBits(message, p.reflectIn), p.poly))
  }

  lemma {:induction false} MessageAppend(a: seq<Octet>, b: seq<Octet>, reflect: bool)
    ensures MessageBits(a + b, reflect) == MessageBits(a, reflect) + MessageBits(b, reflect)
    decreases |b|
  {
    if b == [] {
      assert a + b == a;
    } else {
      var n := |b| - 1;
      assert (a + b)[..|a + b| - 1] == a + b[..n];
      MessageAppend(a, b[..n], reflect);
    }
  }

  lemma OneByte(byte: Octet, reflect: bool)
    ensures MessageBits([byte], reflect) == ReflectIf(byte, !reflect)
  {
    assert [byte][..0] == [];
    assert [] + ReflectIf(byte, !reflect) == ReflectIf(byte, !reflect);
  }

  lemma OneBit(bit: bool)
    ensures Reflect([bit]) == [bit]
  {
  }

  lemma ReflectBoth(r: Bits, a: bool, b: bool)
    ensures ReflectIf(r, a != b) == ReflectIf(ReflectIf(r, a), b)
  {
    assert Reflect(Reflect(r)) == r;
  }

  class CrcBasic {
    const p: Parameters
    var rem: Bits

    ghost predicate Valid()
      reads this
    {
      Widths(p) && |rem| == |p.poly|
    }

    constructor (p: Parameters)
      requires Widths(p)
      ensures Valid() && this.p == p && rem == p.init
    {
      this.p := p;
      rem := p.init;
    }

    method Reset()
      requires Valid()
      modifies this
      ensures Valid() && rem == p.init
    {
      rem := p.init;
    }

    method ProcessBit(bit: bool)
      requires Valid()
      modifies this
      ensures Valid() && rem == Divide(old(rem), [bit], p.poly)
    {
      hide Divide, Reflect;
      OneBit(bit);
      rem := ModuloWordUpdate(rem, [bit], p.poly, false);
    }

    /** The low bit_length bits of a byte, the highest first. */
    method ProcessBits(bits: Octet, bit_length: nat)
      requires Valid() && 0 < bit_length <= 8
      modifies this
      ensures Valid() && rem == Divide(old(rem), Reflect(bits[..bit_length]), p.poly)
    {
      hide Divide, Up;
      ghost var all := Reflect(bits[..bit_length]);
      var left := Up(bits, 8 - bit_length);
      assert |all| == bit_length && forall j :: 0 <= j < bit_length ==> all[j] == bits[bit_length - 1 - j];
      DivideNothing(rem, p.poly);
      var i := bit_length;
      while i > 0
        invariant 0 <= i <= bit_length && Valid() && |left| == 8
        invariant forall j :: bit_length - i <= j < bit_length ==> all[j] == left[7 - (j - (bit_length - i))]
        invariant rem == Divide(old(rem), all[..bit_length - i], p.poly)
      {
        DivideAppend(old(rem), all[..bit_length - i], [left[7]], p.poly);
        assert all[..bit_length - i] + [left[7]] == all[..bit_length - i + 1];
        ProcessBit(left[7]);
        i := i - 1;
        left := Up(left, 1);
      }
      assert all[..bit_length] == all;
    }

    method ProcessByte(byte: Octet)
      requires Valid()
      modifies this
      ensures Valid() && rem == Divide(old(rem), ReflectIf(byte, !p.reflectIn), p.poly)
    {
      hide Divide;
      var bits := ReflectOptionally(byte, p.reflectIn);
      assert bits[..8] == bits;
      ReflectTwice(byte, p.reflectIn);
      ProcessBits(bits, 8);
    }

    method ProcessBlock(bytes: seq<Octet>)
      requires Valid()
      modifies this
      ensures Valid() && rem == Divide(old(rem), MessageBits(bytes, p.reflectIn), p.poly)
    {
      hide Divide;
      DivideNothing(rem, p.poly);
      for i := 0 to |bytes|
        invariant Valid() && rem == Divide(old(rem), MessageBits(bytes[..i], p.reflectIn), p.poly)
      {
        assert bytes[..i + 1][..i] == bytes[..i];
        DivideAppend(old(rem), MessageBits(bytes[..i], p.reflectIn), ReflectIf(bytes[i], !p.reflectIn), p.poly);
        ProcessByte(bytes[i]);
      }
      assert bytes[..|bytes|] == bytes;
    }

    method GetChecksum() returns (c: Bits)
      requires Valid()
      ensures c == Output(p, rem)
    {
      var r := ReflectOptionally(rem, p.reflectOut);
      c := Xor(r, p.final);
    }
  }

  /** The remainder is kept reflected when the input is. */
  class CrcOptimal {
    const p: Parameters
    const table: Table
    var rem: Bits

    ghost predicate Valid()
      reads this
    {
      Widths(p) && |rem| == |p.poly| && TableOk(table, p.poly, p.reflectIn)
    }

    /** The remainder as crc_basic keeps it. */
    ghost function Remainder(): (r: Bits)
      requires Valid()
      reads this
      ensures |r| == |p.poly|
    {
      ReflectIf(rem, p.reflectIn)
    }

    constructor (p: Parameters)
      requires Widths(p)
      ensures Valid() && this.p == p && Remainder() == p.init
    {
      var t := MakeTable(p.poly, p.reflectIn);
      var r := ReflectOptionally(p.init, p.reflectIn);
      ReflectTwice(p.init, p.reflectIn);
      this.p := p;
      table := t;
      rem := r;
    }

    method Reset()
      requires Valid()
      modifies this
      ensures Valid() && Remainder() == p.init
    {
      ReflectTwice(p.init, p.reflectIn);
      rem := ReflectOptionally(p.init, p.reflectIn);
    }

    method ProcessBytes(bytes: seq<Octet>)
      requires Valid()
      modifies this
      ensures Valid() && Remainder() == Divide(old(Remainder()), MessageBits(bytes, p.reflectIn), p.poly)
    {
      hide Divide;
      if p.reflectIn {
        rem := ReflectedUpdate(rem, bytes, table, p.poly);
        ReflectTwice(Divide(old(Remainder()), MessageBits(bytes, true), p.poly), true);
      } else {
        rem := DirectUpdate(rem, bytes, table, p.poly);
      }
    }

    method ProcessByte(byte: Octet)
      requires Valid()
      modifies this
      ensures Valid() && Remainder() == Divide(old(Remainder()), ReflectIf(byte, !p.reflectIn), p.poly)
    {
      hide Divide;
      ProcessBytes([byte]);
      OneByte(byte, p.reflectIn);
    }

    /** The output is reflected when exactly one of the two flags is set. */
    method GetChecksum() returns (c: Bits)
      requires Valid()
      ensures c == Output(p, Remainder())
    {
      var r := ReflectOptionally(rem, p.reflectIn != p.reflectOut);
      ReflectBoth(rem, p.reflectIn, p.reflectOut);
      c := Xor(r, p.final);
    }
  }

  /** All blocks together. */
  function Joined(blocks: seq<seq<Octet>>): seq<Octet> {
    if blocks == [] then [] else Joined(blocks[..|blocks| - 1]) + blocks[|blocks| - 1]
  }

  /** For all parameters and all blocks, both computers give the one checksum of all the bytes. */
  method BothChecksums(p: Parameters, blocks: seq<seq<Octet>>) returns (basic: Bits, optimal: Bits)
    requires Widths(p)
    ensures basic == optimal == Checksum(p, Joined(blocks))
  {
    hide Divide;
    var slow := new CrcBasic(p);
    var fast := new CrcOptimal(p);
    DivideNothing(p.init, p.poly);
    for i := 0 to |blocks|
      invariant slow.Valid() && fast.Valid() && slow.p == fast.p == p && fresh(slow) && fresh(fast)
      invariant slow.rem == fast.Remainder() == Divide(p.init, MessageBits(Joined(blocks[..i]), p.reflectIn), p.poly)
    {
      assert blocks[..i + 1][..i] == blocks[..i];
      MessageAppend(Joined(blocks[..i]), blocks[i], p.reflectIn);
      DivideAppend(p.init, MessageBits(Joined(blocks[..i]), p.reflectIn), MessageBits(blocks[i], p.reflectIn), p.poly);
      slow.ProcessBlock(blocks[i]);
      fast.ProcessBytes(blocks[i]);
    }
    assert blocks[..|blocks|] == blocks;
    basic := slow.GetChecksum();
    optimal := fast.GetChecksum();
  }

  /** Without masks and reflection, from a zero remainder, the checksum is the remainder of the message times x^n. */
  lemma PlainChecksum(p: Parameters, message: seq<Octet>)
    requires Widths(p) && !p.reflectIn && !p.reflectOut && p.init == p.final == Zeros(|p.poly|)
    ensures Checksum(p, message) == LongDivide(Zeros(|p.poly|), MessageBits(message, false) + Zeros(|p.poly|), p.poly)
  {
    hide Divide, LongDivide, MessageBits, Zeros;
    var m := MessageBits(message, false);
    DivideIsLongDivision(m, p.poly);
    XorNothing(Divide(p.init, m, p.poly));
  }

  lemma XorNothing(r: Bits)
    ensures Xor(r, Zeros(|r|)) == r
  {
  }
}
