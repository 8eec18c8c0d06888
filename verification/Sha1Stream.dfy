/** The streaming context: pending octets, a 64-bit count of bits in two words, and the padding. */
module Sha1Stream {
  import opened Pieces
  import opened Sha1Standard
  import opened Sha1Transform

  const WORD: nat := 0x1_0000_0000
  const SIZE: nat := 0x1_0000_0000_0000_0000

  /** The octets that belong to full blocks. */
  function Whole(m: seq<Octet>): (w: seq<Octet>)
    ensures |w| % 64 == 0
  {
    m[..|m| - |m| % 64]
  }

  lemma {:induction false} HashOneMore(m: seq<Octet>, block: seq<Octet>)
    requires |m| % 64 == 0 && |block| == 64
    ensures HashBlocks(m + block) == Compress(HashBlocks(m), block)
  {
    hide Compress;
    var t := m + block;
    assert t != [] && t[..|t| - 64] == m && t[|t| - 64..] == block;
  }

  /** The two words hold the number of bits in `length` octets modulo 2^64. */
  ghost predicate ExactCount(count0: nat, count1: nat, length: nat) {
    count0 + 0x1_0000_0000 * count1 == 8 * length % SIZE
  }

  /** What the count becomes after n more octets; the sum is compared with the unreduced 64-bit product. */
  function Counted0(count0: nat, n: nat): nat { (count0 + n * 8 % SIZE) % WORD }
  function Counted1(count0: nat, count1: nat, n: nat): nat {
    ((count1 + (if Counted0(count0, n) < n * 8 % SIZE then 1 else 0)) % WORD + n / 0x2000_0000) % WORD
  }

  /** The comparison finds the carry if the product fits a word, or if there is a carry anyway. */
  ghost predicate CarryFound(count0: nat, n: nat) {
    n * 8 % SIZE < WORD || count0 + n * 8 % WORD >= WORD
  }

  lemma LowWord(n: nat)
    ensures n % SIZE % WORD == n % WORD
  {
    assert n % 0x1_0000_0000_0000_0000 % 0x1_0000_0000 == n % 0x1_0000_0000;
  }

  lemma LowCount(count0: nat, length: nat, n: nat)
    requires count0 == 8 * length % WORD
    ensures Counted0(count0, n) == 8 * (length + n) % WORD
  {
    var x, y, p := 8 * length, n * 8, n * 8 % SIZE;
    LowWord(y);
    LowSum(x, y, p);
  }

  lemma LowSum(x: nat, y: nat, p: nat)
    requires p % WORD == y % WORD
    ensures (x % WORD + p) % WORD == (x + y) % WORD
  {
    SumLow(x, p);
    SumLow(p, x);
    SumLow(y, x);
  }

  lemma SumLow(x: nat, y: nat)
    ensures (x % WORD + y) % WORD == (x + y) % WORD
  {
    assert (x % 0x1_0000_0000 + y) % 0x1_0000_0000 == (x + y) % 0x1_0000_0000;
  }

  lemma SumHigh(x: nat, y: nat)
    ensures (x % SIZE + y) % SIZE == (x + y) % SIZE
  {
    assert (x % 0x1_0000_0000_0000_0000 + y) % 0x1_0000_0000_0000_0000 == (x + y) % 0x1_0000_0000_0000_0000;
  }

  /** A number below 2^64 is its two words. */
  lemma TwoWords(high: nat, low: nat)
    requires low < WORD
    ensures (low + 0x1_0000_0000 * high) % SIZE == low + 0x1_0000_0000 * (high % WORD)
  {
    assert (low + 0x1_0000_0000 * high) % 0x1_0000_0000_0000_0000 == low + 0x1_0000_0000 * (high % 0x1_0000_0000);
  }

  /** Exactly when the update keeps an exact count exact. */
  lemma CountStaysExact(count0: nat, count1: nat, length: nat, n: nat)
    requires count0 < WORD && count1 < WORD && ExactCount(count0, count1, length)
    ensures
      ExactCount(Counted0(count0, n), Counted1(count0, count1, n), length + n) <==> CarryFound(count0, n)
  {
    var h := n / 0x2000_0000;
    var c0 := Counted0(count0, n);
    var carry := if count0 + n * 8 % WORD >= WORD then 1 else 0;
    var seen := if c0 < n * 8 % SIZE then 1 else 0;
    CarryOut(count0, n, c0, carry, seen);
    SumLow(count1 + seen, h);
    assert Counted1(count0, count1, n) == (count1 + seen + h) % WORD;
    hide CarryFound, Counted0, Counted1;
    TwoWords(count1 + h + carry, c0);
    SumHigh(8 * length, 8 * n);
    assert 8 * (length + n) % SIZE == c0 + 0x1_0000_0000 * ((count1 + h + carry) % WORD);
    OneMore(count1 + h, seen, carry);
  }

  /** The low word and its carry; the comparison never misses a carry, but may find one that is not there. */
  lemma CarryOut(count0: nat, n: nat, c0: nat, carry: nat, seen: nat)
    requires count0 < WORD && c0 == Counted0(count0, n)
    requires carry == if count0 + n * 8 % WORD >= WORD then 1 else 0
    requires seen == if c0 < n * 8 % SIZE then 1 else 0
    ensures c0 < WORD && count0 + n * 8 == c0 + 0x1_0000_0000 * (n / 0x2000_0000 + carry)
    ensures carry <= seen && (seen == carry <==> CarryFound(count0, n))
  {
    LowWord(n * 8);
    SumLow(n * 8 % SIZE, count0);
    assert c0 == (count0 + n * 8 % WORD) % WORD;
    assert n * 8 == 0x1_0000_0000 * (n / 0x2000_0000) + n * 8 % WORD;
  }

  lemma OneMore(x: nat, p: nat, q: nat)
    requires p <= 1 && q <= 1
    ensures (x + p) % WORD == (x + q) % WORD <==> p == q
  {
    assert (x + 1) % 0x1_0000_0000 != x % 0x1_0000_0000;
  }

  /** The octets still waiting for a full block. */
  function Waiting(m: seq<Octet>): (w: seq<Octet>)
    ensures |w| == |m| % 64 && Whole(m) + w == m
  {
    m[|m| - |m| % 64..]
  }

  lemma Position(count0: nat, length: nat)
    requires count0 == 8 * length % WORD
    ensures count0 / 8 % 64 == length % 64
  {
    assert 8 * length % 0x1_0000_0000 / 8 % 64 == length % 64;
  }

  /** A full prefix and a short rest are the whole blocks and the waiting octets. */
  lemma SplitHere(m: seq<Octet>, full: seq<Octet>, rest: seq<Octet>)
    requires m == full + rest && |full| % 64 == 0 && |rest| < 64
    ensures Whole(m) == full && Waiting(m) == rest
  {
  }

  lemma SplitAt(m: seq<Octet>, data: seq<Octet>, i: nat)
    requires i <= |data| < i + 64 && (|m| + i) % 64 == 0
    ensures Whole(m + data) == m + data[..i] && Waiting(m + data) == data[i..]
  {
    assert m + data == m + data[..i] + data[i..];
    SplitHere(m + data, m + data[..i], data[i..]);
  }

  lemma OctetsWaiting(m: seq<Octet>, data: seq<Octet>)
    requires |m| % 64 + |data| < 64
    ensures Whole(m + data) == Whole(m) && Waiting(m + data) == Waiting(m) + data
  {
    assert m + data == Whole(m) + (Waiting(m) + data);
    SplitHere(m + data, Whole(m), Waiting(m) + data);
  }

  /** Before padding, the two words of the count in octets, the high word first. */
  function CountOctet(count0: nat, count1: nat, i: nat): Octet
    requires i < 8
  {
    OctetOf(if i >= 4 then count0 else count1, 3 - i % 4)
  }

  lemma LowValues(high: nat, low: nat, k: nat)
    requires low < WORD && k < 4
    ensures OctetValue(low + WORD * high, k) == OctetValue(low, k)
  {
    Powers();
    var t := low + 0x1_0000_0000 * high;
    if k == 0 {
      assert t % 256 == low % 256;
    } else if k == 1 {
      assert t / 256 == low / 256 + 256 * (0x1_0000 * high);
    } else if k == 2 {
      assert t / 0x1_0000 == low / 0x1_0000 + 256 * (256 * high);
    } else {
      assert t / 0x100_0000 == low / 0x100_0000 + 256 * high;
    }
  }

  lemma HighValues(high: nat, low: nat, k: nat)
    requires low < WORD && k < 4
    ensures OctetValue(low + WORD * high, k + 4) == OctetValue(high, k)
  {
    Powers();
    TopValue(high, low, low + 0x1_0000_0000 * high);
  }

  lemma TopValue(high: nat, low: nat, t: nat)
    requires low < 0x1_0000_0000 && t == low + 0x1_0000_0000 * high
    ensures t / 0x1_0000_0000 == high && t / 0x100_0000_0000 == high / 256
    ensures t / 0x1_0000_0000_0000 == high / 0x1_0000 && t / 0x100_0000_0000_0000 == high / 0x100_0000
  {
  }

  lemma LowOctets(high: nat, low: nat, k: nat)
    requires low < WORD && k < 4
    ensures OctetOf(low + WORD * high, k) == OctetOf(low, k)
    ensures OctetOf(low + WORD * high, k + 4) == OctetOf(high, k)
  {
    hide OctetValue;
    LowValues(high, low, k);
    HighValues(high, low, k);
  }

  lemma Powers()
    ensures Pow256(0) == 1 && Pow256(1) == 256 && Pow256(2) == 65536 && Pow256(3) == 0x100_0000
    ensures Pow256(4) == 0x1_0000_0000 && Pow256(5) == 0x100_0000_0000
    ensures Pow256(6) == 0x1_0000_0000_0000 && Pow256(7) == 0x100_0000_0000_0000
  {
  }

  /** The saved count is the length field of the standard. */
  lemma CountIsLengthField(count0: nat, count1: nat, field: seq<Octet>)
    requires count0 < WORD && |field| == 8
    requires forall i :: 0 <= i < 8 ==> field[i] == CountOctet(count0, count1, i)
    ensures field == LengthField(count0 + WORD * count1)
  {
    hide OctetValue;
    var bits := count0 + WORD * count1;
    var l := LengthField(bits);
    forall i | 0 <= i < 8
      ensures field[i] == l[i]
    {
      assert l[i] == OctetOf(bits, 7 - i);
      assert field[i] == CountOctet(count0, count1, i);
      LowOctets(count1, count0, 3 - i % 4);
      hide OctetOf;
    }
  }

  class Context {
    const state: array<Word>
    const buffer: array<Octet>
    var count0: nat
    var count1: nat
    ghost var msg: seq<Octet>

    ghost predicate Shape()
      reads this
    {
      state.Length == 5 && buffer.Length == 64 && count0 < WORD && count1 < WORD
    }

    /** The state is the hash of the full blocks, the buffer holds the rest, the low word counts the bits. */
    ghost predicate Valid()
      reads this, state, buffer
    {
      && Shape()
      && StateOf(state) == HashBlocks(Whole(msg))
      && buffer[..|msg| % 64] == Waiting(msg)
      && count0 == 8 * |msg| % WORD
    }

    ghost predicate Exact()
      reads this
    {
      ExactCount(count0, count1, |msg|)
    }

    constructor ()
      ensures Valid() && Exact() && msg == [] && fresh(state) && fresh(buffer) && count0 == count1 == 0
    {
      state := new Word[5] [0x67452301, 0xEFCDAB89, 0x98BADCFE, 0x10325476, 0xC3D2E1F0];
      buffer := new Octet[64];
      count0, count1 := 0, 0;
      msg := [];
      new;
      hide Compress;
      assert StateOf(state) == INITIAL;
    }

    method AddToCount(len: nat)
      requires Shape()
      modifies this`count0, this`count1
      ensures Shape() && count0 == Counted0(old(count0), len) && count1 == Counted1(old(count0), old(count1), len)
    {
      var shifted := len * 8 % SIZE;
      count0 := (count0 + shifted) % WORD;
      if count0 < shifted {
        count1 := (count1 + 1) % WORD;
      }
      count1 := (count1 + len / 0x2000_0000) % WORD;
    }

    method Update(data: seq<Octet>)
      requires Valid() && |data| < SIZE / 2
      modifies this, state, buffer
      ensures Valid() && msg == old(msg) + data
      ensures count0 == Counted0(old(count0), |data|) && count1 == Counted1(old(count0), old(count1), |data|)
      ensures old(Exact()) ==> (Exact() <==> CarryFound(old(count0), |data|))
    {
      hide HashBlocks, Compress, CarryFound, ExactCount, Counted0, Counted1, Whole, Waiting, StateOf;
      ghost var m := msg;
      Position(count0, |m|);
      LowCount(count0, |m|, |data|);
      if Exact() {
        CountStaysExact(count0, count1, |m|, |data|);
      }
      var j := count0 / 8 % 64;
      var i := 0;
      AddToCount(|data|);
      msg := m + data;
      if j + |data| > 63 {
        i := HashFullBlocks(m, data, j);
        j := 0;
      } else {
        OctetsWaiting(m, data);
      }
      CopyInto(buffer, j, data[i..]);
    }

    /** Completes the waiting block, then takes the blocks straight from the data. */
    method HashFullBlocks(ghost m: seq<Octet>, data: seq<Octet>, j: nat) returns (i: nat)
      requires Shape() && j == |m| % 64 && j + |data| > 63
      requires StateOf(state) == HashBlocks(Whole(m)) && buffer[..j] == Waiting(m)
      modifies state, buffer
      ensures i <= |data| && Waiting(m + data) == data[i..] && StateOf(state) == HashBlocks(Whole(m + data))
    {
      hide HashBlocks, Compress, Whole, Waiting, StateOf;
      i := 64 - j;
      CopyInto(buffer, j, data[..i]);
      FillUp(m, data[..i], buffer[..]);
      Transform(state, buffer[..]);
      while i + 63 < |data|
        modifies state
        invariant i <= |data| && (|m| + i) % 64 == 0
        invariant StateOf(state) == HashBlocks(m + data[..i])
      {
        NextBlock(m, data, i);
        Transform(state, data[i..i + 64]);
        i := i + 64;
      }
      SplitAt(m, data, i);
    }

    /** The padding, the length field and the digest; then everything is wiped. */
    method Final(digest: array<Octet>)
      requires Valid() && digest.Length == 20 && digest != buffer
      modifies this, state, buffer, digest
      ensures digest[..] == DigestWithLength(old(msg), old(count0) + WORD * old(count1))
      ensures old(Exact()) ==> digest[..] == Digest(old(msg))
      ensures count0 == count1 == 0 && state[..] == [0, 0, 0, 0, 0] && buffer[..] == Zeros(64)
    {
      hide HashBlocks, Compress, Counted0, Counted1, CarryFound, ExactCount, Output, LengthField, ZeroCount, Zeros,
          Whole, Waiting, StateOf;
      ghost var m, bits := msg, count0 + WORD * count1;
      ExactBits(count0, count1, m);
      var finalcount := SavedCount();
      Update([0x80]);
      AddZeros(m);
      Update(finalcount);
      assert msg == Padded(m, bits);
      WholeMessage(msg);
      WriteDigest(digest);
      Wipe();
    }

    /** Zero octets one at a time, until the length field fits the block exactly. */
    method AddZeros(ghost m: seq<Octet>)
      requires Valid() && msg == m + [0x80]
      modifies this, state, buffer
      ensures Valid() && msg == m + [0x80] + Zeros(ZeroCount(|m|))
    {
      hide HashBlocks, Counted0, Counted1, CarryFound, ExactCount, ZeroCount, Zeros, Whole, Waiting, StateOf;
      ghost var k := 0;
      Position(count0, |msg|);
      NoZeros(m);
      while count0 / 8 % 64 * 8 != 448
        invariant Valid() && msg == m + [0x80] + Zeros(k) && k <= ZeroCount(|m|)
        invariant count0 / 8 % 64 == |msg| % 64
        decreases ZeroCount(|m|) - k
      {
        Update([0]);
        Position(count0, |msg|);
        OneMoreZero(m, k);
        k := k + 1;
      }
      ZerosEnough(m, k);
    }

    method Wipe()
      requires Shape()
      modifies this`count0, this`count1, state, buffer
      ensures count0 == count1 == 0 && state[..] == [0, 0, 0, 0, 0] && buffer[..] == Zeros(64)
    {
      for i := 0 to 64
        modifies buffer
        invariant forall j :: 0 <= j < i ==> buffer[j] == 0
      {
        buffer[i] := 0;
      }
      state[0], state[1], state[2], state[3], state[4] := 0, 0, 0, 0, 0;
      count0, count1 := 0, 0;
    }

    method SavedCount() returns (field: seq<Octet>)
      requires Shape()
      ensures field == LengthField(count0 + WORD * count1)
    {
      field := [];
      for i := 0 to 8
        invariant |field| == i && forall j :: 0 <= j < i ==> field[j] == CountOctet(count0, count1, j)
      {
        field := field + [CountOctet(count0, count1, i)];
      }
      CountIsLengthField(count0, count1, field);
    }

    method WriteDigest(digest: array<Octet>)
      requires Shape() && digest.Length == 20
      modifies digest
      ensures digest[..] == Output(StateOf(state))
    {
      for i := 0 to 20
        invariant forall j :: 0 <= j < i ==> digest[j] == Output(StateOf(state))[j]
      {
        OutputOctet(state[..], i);
        digest[i] := OctetAt(state[i / 4], (3 - i % 4) * 8);
      }
    }
  }

  lemma ExactBits(count0: nat, count1: nat, m: seq<Octet>)
    ensures ExactCount(count0, count1, |m|) ==> DigestWithLength(m, count0 + WORD * count1) == Digest(m)
  {
    hide DigestWithLength;
  }

  lemma NoZeros(m: seq<Octet>)
    ensures m + [0x80] == m + [0x80] + Zeros(0)
  {
  }

  /** Short of enough zeros the loop goes on, and there is room for one more. */
  lemma OneMoreZero(m: seq<Octet>, k: nat)
    requires k <= ZeroCount(|m|) && |m + [0x80] + Zeros(k)| % 64 != 56
    ensures k < ZeroCount(|m|) && m + [0x80] + Zeros(k) + [0] == m + [0x80] + Zeros(k + 1)
  {
    assert |m + [0x80] + Zeros(k)| == |m| + 1 + k;
  }

  lemma ZerosEnough(m: seq<Octet>, k: nat)
    requires k <= ZeroCount(|m|) && |m + [0x80] + Zeros(k)| % 64 == 56
    ensures k == ZeroCount(|m|)
  {
    assert |m + [0x80] + Zeros(k)| == |m| + 1 + k;
    assert (|m| + 1 + ZeroCount(|m|)) % 64 == 56;
  }

  lemma OutputOctet(w: seq<Word>, i: nat)
    requires |w| == 5 && i < 20
    ensures Output(Registers(w[0], w[1], w[2], w[3], w[4]))[i] == OctetAt(w[i / 4], (3 - i % 4) * 8)
  {
    hide OctetAt, WordOctets;
    var r := Registers(w[0], w[1], w[2], w[3], w[4]);
    JoinedAt(WordOctets(r.a), WordOctets(r.b), WordOctets(r.c), WordOctets(r.d), WordOctets(r.e), i);
    WordOctet(w[i / 4], i % 4);
  }

  lemma WordOctet(w: Word, k: nat)
    requires k < 4
    ensures |WordOctets(w)| == 4 && WordOctets(w)[k] == OctetAt(w, (3 - k) * 8)
  {
    hide OctetAt;
  }

  lemma JoinedAt(a: seq<Octet>, b: seq<Octet>, c: seq<Octet>, d: seq<Octet>, e: seq<Octet>, i: nat)
    requires |a| == |b| == |c| == |d| == |e| == 4 && i < 20
    ensures (a + b + c + d + e)[i] == [a, b, c, d, e][i / 4][i % 4]
  {
    if i < 16 {
      assert (a + b + c + d + e)[i] == (a + b + c + d)[i];
    }
  }

  lemma WholeMessage(m: seq<Octet>)
    requires |m| % 64 == 0
    ensures Whole(m) == m
  {
  }

  /** The copy into the buffer. */
  method CopyInto(to: array<Octet>, j: nat, data: seq<Octet>)
    requires j + |data| <= to.Length
    modifies to
    ensures to[..] == old(to[..])[..j] + data + old(to[..])[j + |data|..]
  {
    for k := 0 to |data|
      invariant to[..] == old(to[..])[..j] + data[..k] + old(to[..])[j + k..]
    {
      to[j + k] := data[k];
    }
  }

  /** The first octets complete the waiting block. */
  lemma FillUp(m: seq<Octet>, first: seq<Octet>, block: seq<Octet>)
    requires block == Waiting(m) + first && |block| == 64
    ensures |m + first| % 64 == 0 && HashBlocks(m + first) == Compress(HashBlocks(Whole(m)), block)
  {
    hide HashBlocks, Compress, Waiting, Whole;
    AppendAssociates(Whole(m), Waiting(m), first);
    var w, t := Whole(m), m + first;
    assert t == w + block;
    assert |t| == |w| + 64;
    Modulo64(|w|);
    HashOneMore(w, block);
  }

  lemma Modulo64(n: nat)
    requires n % 64 == 0
    ensures (n + 64) % 64 == 0
  {
  }

  lemma AppendAssociates<T>(a: seq<T>, b: seq<T>, c: seq<T>)
    ensures a + b + c == a + (b + c)
  {
  }

  lemma NextBlock(m: seq<Octet>, data: seq<Octet>, i: nat)
    requires (|m| + i) % 64 == 0 && i + 64 <= |data|
    ensures HashBlocks(m + data[..i + 64]) == Compress(HashBlocks(m + data[..i]), data[i..i + 64])
  {
    hide HashBlocks, Compress;
    assert m + data[..i + 64] == m + data[..i] + data[i..i + 64];
    HashOneMore(m + data[..i], data[i..i + 64]);
  }

  /** The one-call form. Its int size allows one update that is too long for the count. */
  method CryptSha1(buffer: seq<Octet>) returns (digest: seq<Octet>)
    requires |buffer| < 0x8000_0000
    ensures digest == DigestWithLength(buffer, CountedFromZero(|buffer|))
    ensures |buffer| < 0x2000_0000 ==> digest == Digest(buffer)
  {
    hide DigestWithLength, Digest, Counted0, Counted1, ExactCount, CarryFound, HashBlocks, Whole, Waiting, StateOf;
    var ctx := new Context();
    if |buffer| < 0x2000_0000 {
      ShortIsCarried(0, |buffer|);
    }
    ctx.Update(buffer);
    assert ctx.msg == buffer;
    var out := new Octet[20];
    ctx.Final(out);
    digest := out[..];
  }

  function CountedFromZero(n: nat): nat { Counted0(0, n) + WORD * Counted1(0, 0, n) }

  /** The length field of the one-call form is right up to 2^29 octets and 2^32 too large from there on. */
  lemma OneCallLength(n: nat)
    requires n < 0x8000_0000
    ensures CountedFromZero(n) == if n < 0x2000_0000 then 8 * n else 8 * n + WORD
  {
  }

  /** So from 2^29 octets on, the fourth octet of the length field is not the one of the standard. */
  lemma OneCallPadding(n: nat)
    requires n < 0x8000_0000
    ensures OctetValue(CountedFromZero(n), 4) == OctetValue(8 * n, 4) <==> n < 0x2000_0000
  {
    OneCallLength(n);
    Powers();
    hide CountedFromZero;
  }

  lemma ShortIsCarried(count0: nat, n: nat)
    requires n < 0x2000_0000
    ensures CarryFound(count0, n)
  {
  }

  /** Any message, cut in any pieces shorter than 2^29 octets, gives its standard digest. */
  method HashPieces(pieces: seq<seq<Octet>>) returns (digest: seq<Octet>)
    requires forall i :: 0 <= i < |pieces| ==> |pieces[i]| < 0x2000_0000
    ensures digest == Digest(Flatten(pieces))
  {
    hide Digest, DigestWithLength, Counted0, Counted1, ExactCount, CarryFound, HashBlocks, Whole, Waiting, StateOf;
    var ctx := new Context();
    for i := 0 to |pieces|
      invariant ctx.Valid() && ctx.Exact() && ctx.msg == Flatten(pieces[..i])
      invariant fresh(ctx) && fresh(ctx.state) && fresh(ctx.buffer)
    {
      FlattenOneMore(pieces, i);
      ShortIsCarried(ctx.count0, |pieces[i]|);
      ctx.Update(pieces[i]);
    }
    assert pieces[..|pieces|] == pieces;
    var out := new Octet[20];
    ctx.Final(out);
    digest := out[..];
  }
}
