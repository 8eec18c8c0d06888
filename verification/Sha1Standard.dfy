/** SHA-1 as section 6.1 of FIPS 180-4 defines it: 80 message words, five registers. */
module Sha1Standard {
  type Word = bv32
  type Octet = bv8

  function Rol1(x: Word): Word { (x << 1) | (x >> 31) }
  function Rol5(x: Word): Word { (x << 5) | (x >> 27) }
  function Rol30(x: Word): Word { (x << 30) | (x >> 2) }

  /** Addition modulo 2^32. */
  function Add(x: Word, y: Word): Word { x + y }

  /** The temporary T of a round, summed modulo 2^32. */
  function Temporary(rotated: Word, mixed: Word, e: Word, k: Word, w: Word): Word { rotated + mixed + e + k + w }

  function Choose(x: Word, y: Word, z: Word): Word { (x & y) ^ (!x & z) }
  function Parity(x: Word, y: Word, z: Word): Word { x ^ y ^ z }
  function Majority(x: Word, y: Word, z: Word): Word { (x & y) ^ (x & z) ^ (y & z) }

  /** f_t and K_t. */
  function Mix(t: nat, x: Word, y: Word, z: Word): Word {
    if t < 20 then Choose(x, y, z)
    else if t < 40 then Parity(x, y, z)
    else if t < 60 then Majority(x, y, z)
    else Parity(x, y, z)
  }

  function Constant(t: nat): Word {
    if t < 20 then 0x5A827999
    else if t < 40 then 0x6ED9EBA1
    else if t < 60 then 0x8F1BBCDC
    else 0xCA62C1D6
  }

  /** A word of a block is four octets, the first one on top. */
  function BigEndian(block: seq<Octet>, i: nat): Word
    requires 4 * i + 3 < |block|
  {
    ((block[4 * i] as Word) << 24) | ((block[4 * i + 1] as Word) << 16) |
    ((block[4 * i + 2] as Word) << 8) | (block[4 * i + 3] as Word)
  }

  /** The message schedule W_0 .. W_79. */
  function Schedule(block: seq<Octet>, t: nat): Word
    requires |block| == 64
  {
    if t < 16 then BigEndian(block, t)
    else
      Rol1(Schedule(block, t - 3) ^ Schedule(block, t - 8) ^ Schedule(block, t - 14) ^ Schedule(block, t - 16))
  }

  datatype Registers = Registers(a: Word, b: Word, c: Word, d: Word, e: Word)

  function Round(r: Registers, t: nat, w: Word): Registers {
    Registers(Temporary(Rol5(r.a), Mix(t, r.b, r.c, r.d), r.e, Constant(t), w), r.a, Rol30(r.b), r.c, r.d)
  }

  function Rounds(r: Registers, block: seq<Octet>, t: nat): Registers
    requires |block| == 64
  {
    if t == 0 then r else Round(Rounds(r, block, t - 1), t - 1, Schedule(block, t - 1))
  }

  function Compress(h: Registers, block: seq<Octet>): Registers
    requires |block| == 64
  {
    var r := Rounds(h, block, 80);
    Registers(Add(h.a, r.a), Add(h.b, r.b), Add(h.c, r.c), Add(h.d, r.d), Add(h.e, r.e))
  }

  const INITIAL := Registers(0x67452301, 0xEFCDAB89, 0x98BADCFE, 0x10325476, 0xC3D2E1F0)

  /** The hash value after all blocks of m. */
  function HashBlocks(m: seq<Octet>): Registers
    requires |m| % 64 == 0
  {
    if m == [] then INITIAL else Compress(HashBlocks(m[..|m| - 64]), m[|m| - 64..])
  }

  /** The k-th octet of a number, the lowest being number 0. */
  function OctetValue(n: nat, k: nat): (v: nat)
    ensures v < 256
  {
    n / Pow256(k) % 256
  }

  function OctetOf(n: nat, k: nat): Octet { OctetValue(n, k) as Octet }

  function Pow256(k: nat): nat
    ensures Pow256(k) > 0
  {
    if k == 0 then 1 else 256 * Pow256(k - 1)
  }

  /** A 64-bit number, most significant octet first. */
  function LengthField(bits: nat): (f: seq<Octet>)
    ensures |f| == 8
  {
    seq(8, i requires 0 <= i < 8 => OctetOf(bits, 7 - i))
  }

  function Zeros(n: nat): seq<Octet> { seq(n, _ => 0 as Octet) }

  /** Section 5.1.1: the least number of zero octets that leaves room for the length in the last block. */
  function ZeroCount(length: nat): (k: nat)
    ensures (length + 1 + k) % 64 == 56 && k < 64
  {
    (119 - length % 64) % 64
  }

  function Padded(m: seq<Octet>, bits: nat): (p: seq<Octet>)
    ensures |p| % 64 == 0
  {
    m + [0x80] + Zeros(ZeroCount(|m|)) + LengthField(bits)
  }

  function OctetAt(w: Word, shift: nat): Octet
    requires shift <= 24
  {
    ((w >> shift) & 255) as Octet
  }

  function WordOctets(w: Word): (o: seq<Octet>)
    ensures |o| == 4
  {
    [OctetAt(w, 24), OctetAt(w, 16), OctetAt(w, 8), OctetAt(w, 0)]
  }

  function Output(r: Registers): seq<Octet> {
    WordOctets(r.a) + WordOctets(r.b) + WordOctets(r.c) + WordOctets(r.d) + WordOctets(r.e)
  }

  /** The digest of m when its length field says `bits`. */
  function DigestWithLength(m: seq<Octet>, bits: nat): seq<Octet> { Output(HashBlocks(Padded(m, bits))) }

  const TWO_64: nat := 0x1_0000_0000_0000_0000

  /** The standard digest. The standard covers messages of fewer than 2^64 bits. */
  function Digest(m: seq<Octet>): seq<Octet> { DigestWithLength(m, 8 * |m| % TWO_64) }
}
