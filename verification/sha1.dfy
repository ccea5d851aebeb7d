// The streaming hash of 3rd/crypto/sha1.c against SHA-1 as sections 4 to 6 of
// FIPS 180-4 define it.
module Sha1 {
  type Word = bv32
  type Byte = bv8

  // ---------- FIPS 180-4 ----------

  // Additions modulo 2^32.
  function Plus(x: Word, y: Word): Word { x + y }

  function Sum(r: Word, f: Word, e: Word, k: Word, w: Word): Word { r + f + e + k + w }

  function Rotl1(x: Word): Word { (x << 1) | (x >> 31) }

  function Rotl5(x: Word): Word { (x << 5) | (x >> 27) }

  function Rotl30(x: Word): Word { (x << 30) | (x >> 2) }

  function Ch(x: Word, y: Word, z: Word): Word { (x & y) ^ (!x & z) }

  function Parity(x: Word, y: Word, z: Word): Word { x ^ y ^ z }

  function Maj(x: Word, y: Word, z: Word): Word { (x & y) ^ (x & z) ^ (y & z) }

  // Sections 4.1.1 and 4.2.1.
  function F(t: nat, x: Word, y: Word, z: Word): Word {
    if t < 20 then Ch(x, y, z) else if t < 40 then Parity(x, y, z) else if t < 60 then Maj(x, y, z) else Parity(x, y, z)
  }

  function K(t: nat): Word {
    if t < 20 then 0x5A827999 else if t < 40 then 0x6ED9EBA1 else if t < 60 then 0x8F1BBCDC else 0xCA62C1D6
  }

  function BigEndian(b: seq<Byte>, i: nat): Word
    requires i + 4 <= |b|
  {
    ((b[i] as Word) << 24) | ((b[i + 1] as Word) << 16) | ((b[i + 2] as Word) << 8) | (b[i + 3] as Word)
  }

  function Expand(a: Word, b: Word, c: Word, d: Word): Word { Rotl1(a ^ b ^ c ^ d) }

  type Block = b: seq<Byte> | |b| == 64 witness seq(64, _ => 0)

  // The message schedule of section 6.1.2.
  function W(b: Block, t: nat): Word
    decreases t
  {
    if t < 16 then BigEndian(b, 4 * t) else Expand(W(b, t - 3), W(b, t - 8), W(b, t - 14), W(b, t - 16))
  }

  datatype State = State(a: Word, b: Word, c: Word, d: Word, e: Word)

  // The working variables after t rounds.
  function Rounds(b: Block, s: State, t: nat): State {
    if t == 0 then s
    else
      var p := Rounds(b, s, t - 1);
      State(Sum(Rotl5(p.a), F(t - 1, p.b, p.c, p.d), p.e, K(t - 1), W(b, t - 1)), p.a, Rotl30(p.b), p.c, p.d)
  }

  function Compress(s: State, b: Block): State {
    var p := Rounds(b, s, 80);
    State(Plus(s.a, p.a), Plus(s.b, p.b), Plus(s.c, p.c), Plus(s.d, p.d), Plus(s.e, p.e))
  }

  // The state after all full blocks of data.
  function Fold(s: State, data: seq<Byte>): State
    decreases |data|
  {
    if |data| < 64 then s else Fold(Compress(s, data[..64]), data[64..])
  }

  const INITIAL: State := State(0x67452301, 0xEFCDAB89, 0x98BADCFE, 0x10325476, 0xC3D2E1F0)

  // n shifted right by k bytes.
  function Shift8(n: nat, k: nat): nat {
    if k == 0 then n else Shift8(n / 256, k - 1)
  }

  function Narrow(n: nat): Byte
    requires n < 256
  {
    n as Byte
  }

  function ByteOf(n: nat): Byte { Narrow(n % 256) }

  // Byte i of n written in eight bytes, most significant first.
  function LengthByte(n: nat, i: nat): Byte
    requires i < 8
  {
    ByteOf(Shift8(n, 7 - i))
  }

  function Length(bits: nat): (s: seq<Byte>)
    ensures |s| == 8
  {
    seq(8, i requires 0 <= i < 8 => LengthByte(bits, i))
  }

  function ZeroBytes(n: nat): (s: seq<Byte>)
    ensures |s| == n
  {
    seq(n, _ => 0)
  }

  // Section 5.1.1: the padding after a message of n bytes.
  function Zeros(n: nat): nat { (119 - n % 64) % 64 }

  function Padding(n: nat): seq<Byte> {
    [0x80] + ZeroBytes(Zeros(n)) + Length(8 * n)
  }

  function WordBytes(w: Word): seq<Byte> {
    [((w >> 24) & 255) as Byte, ((w >> 16) & 255) as Byte, ((w >> 8) & 255) as Byte, (w & 255) as Byte]
  }

  function Digest(message: seq<Byte>): seq<Byte> {
    var s := Fold(INITIAL, message + Padding(|message|));
    WordBytes(s.a) + WordBytes(s.b) + WordBytes(s.c) + WordBytes(s.d) + WordBytes(s.e)
  }

  // ---------- what the definitions come to ----------

  function Square(x: nat): nat { x * x }

  function Radicand(t: nat): nat { if t < 20 then 2 else if t < 40 then 3 else if t < 60 then 5 else 10 }

  // The round constants are the integer parts of 2^30 times the square roots of
  // 2, 3, 5 and 10.
  lemma RoundConstants(t: nat)
    ensures var k := K(t) as nat; Square(k) <= Radicand(t) * 0x1000_0000_0000_0000 < Square(k + 1)
  {
  }

  // The bytes of a word, least significant first.
  function Reversed(w: Word): seq<nat> {
    var n := w as nat;
    [n % 0x100, n / 0x100 % 0x100, n / 0x1_0000 % 0x100, n / 0x100_0000]
  }

  // Section 5.3.1: the hexadecimal digits in ascending and in descending order.
  lemma InitialBytes()
    ensures Reversed(INITIAL.a) + Reversed(INITIAL.b) == [0x01, 0x23, 0x45, 0x67, 0x89, 0xab, 0xcd, 0xef]
    ensures Reversed(INITIAL.c) + Reversed(INITIAL.d) == [0xfe, 0xdc, 0xba, 0x98, 0x76, 0x54, 0x32, 0x10]
    ensures Reversed(INITIAL.e) == [0xf0, 0xe1, 0xd2, 0xc3]
  {
  }

  // Rotations move the word up and bring back what falls off.
  lemma Rotations(x: Word)
    ensures Rotl1(x) == x * 2 + x / 0x8000_0000
    ensures Rotl5(x) == x * 0x20 + x / 0x800_0000
    ensures Rotl30(x) == x * 0x4000_0000 + x / 4
  {
    RotationBits(x);
  }

  lemma RotationBits(x: Word)
    ensures (x << 1) | (x >> 31) == x * 2 + x / 0x8000_0000
    ensures (x << 5) | (x >> 27) == x * 0x20 + x / 0x800_0000
    ensures (x << 30) | (x >> 2) == x * 0x4000_0000 + x / 4
  {
    hide *;
  }

  // Section 3.2: additions drop what exceeds 32 bits.
  lemma Additions(x: Word, y: Word, z: Word, v: Word, w: Word)
    ensures Plus(x, y) as bv64 == (x as bv64 + y as bv64) % 0x1_0000_0000
    ensures Sum(x, y, z, v, w) as bv64 == (x as bv64 + y as bv64 + z as bv64 + v as bv64 + w as bv64) % 0x1_0000_0000
  {
    AdditionBits(x, y, z, v, w);
  }

  lemma AdditionBits(x: Word, y: Word, z: Word, v: Word, w: Word)
    ensures (x + y) as bv64 == (x as bv64 + y as bv64) % 0x1_0000_0000
    ensures (x + y + z + v + w) as bv64 == (x as bv64 + y as bv64 + z as bv64 + v as bv64 + w as bv64) % 0x1_0000_0000
  {
    hide *;
  }

  // Section 6.1.2: the later words of the schedule, rotated by multiplication.
  lemma ScheduleWord(b: Block, t: nat)
    requires t >= 16
    ensures var x := W(b, t - 3) ^ W(b, t - 8) ^ W(b, t - 14) ^ W(b, t - 16); W(b, t) == x * 2 + x / 0x8000_0000
  {
    hide *;
    LateWord(b, t);
    ExpandValue(W(b, t - 3), W(b, t - 8), W(b, t - 14), W(b, t - 16));
  }

  lemma ExpandValue(a: Word, b: Word, c: Word, d: Word)
    ensures var x := a ^ b ^ c ^ d; Expand(a, b, c, d) == x * 2 + x / 0x8000_0000
  {
    RotationBits(a ^ b ^ c ^ d);
  }

  predicate IsBit(m: Word) { m != 0 && m & (m - 1) == 0 }

  predicate Has(x: Word, m: Word) { x & m != 0 }

  // How many of three words have the bit.
  function Ones(x: Word, y: Word, z: Word, m: Word): nat {
    (if Has(x, m) then 1 else 0) + (if Has(y, m) then 1 else 0) + (if Has(z, m) then 1 else 0)
  }

  // Section 4.1.1, bit by bit: choice, parity and majority.
  lemma RoundFunctions(t: nat, x: Word, y: Word, z: Word, m: Word)
    requires IsBit(m)
    ensures Has(F(t, x, y, z), m) <==>
            if t < 20 then (if Has(x, m) then Has(y, m) else Has(z, m))
            else if 40 <= t < 60 then Ones(x, y, z, m) >= 2
            else Ones(x, y, z, m) % 2 == 1
  {
    hide IsBit, Ch, Parity, Maj, Ones, Has;
    if t < 20 { Choice(x, y, z, m); } else if 40 <= t < 60 { Majorities(x, y, z, m); } else { Odd(x, y, z, m); }
  }

  lemma Choice(x: Word, y: Word, z: Word, m: Word)
    requires IsBit(m)
    ensures Has(Ch(x, y, z), m) <==> if Has(x, m) then Has(y, m) else Has(z, m)
  {
    ChBits(x, y, z, m);
  }

  lemma Odd(x: Word, y: Word, z: Word, m: Word)
    requires IsBit(m)
    ensures Has(Parity(x, y, z), m) <==> Ones(x, y, z, m) % 2 == 1
  {
    ParityBits(x, y, z, m);
  }

  lemma Majorities(x: Word, y: Word, z: Word, m: Word)
    requires IsBit(m)
    ensures Has(Maj(x, y, z), m) <==> Ones(x, y, z, m) >= 2
  {
    MajBits(x, y, z, m);
  }

  lemma ChBits(x: Word, y: Word, z: Word, m: Word)
    requires m != 0 && m & (m - 1) == 0
    ensures ((x & y) ^ (!x & z)) & m != 0 <==> if x & m != 0 then y & m != 0 else z & m != 0
  {
    hide *;
  }

  lemma ParityBits(x: Word, y: Word, z: Word, m: Word)
    requires m != 0 && m & (m - 1) == 0
    ensures (x ^ y ^ z) & m != 0 <==> (x & m != 0 <==> (y & m != 0 <==> z & m != 0))
  {
    hide *;
  }

  lemma MajBits(x: Word, y: Word, z: Word, m: Word)
    requires m != 0 && m & (m - 1) == 0
    ensures ((x & y) ^ (x & z) ^ (y & z)) & m != 0 <==>
            (x & m != 0 && y & m != 0) || (x & m != 0 && z & m != 0) || (y & m != 0 && z & m != 0)
  {
    hide *;
  }

  // Section 5.2.1: the bytes of a block word, most significant first.
  lemma WordValue(b: seq<Byte>, i: nat)
    requires i + 4 <= |b|
    ensures BigEndian(b, i) == (b[i] as Word) * 0x100_0000 + (b[i + 1] as Word) * 0x1_0000
            + (b[i + 2] as Word) * 0x100 + (b[i + 3] as Word)
  {
    WordBits(b[i] as Word, b[i + 1] as Word, b[i + 2] as Word, b[i + 3] as Word);
  }

  lemma WordBits(a: Word, b: Word, c: Word, d: Word)
    requires a <= 255 && b <= 255 && c <= 255 && d <= 255
    ensures (a << 24) | (b << 16) | (c << 8) | d == a * 0x100_0000 + b * 0x1_0000 + c * 0x100 + d
  {
    hide *;
  }

  // The digest's words are written in the order in which a block's are read.
  lemma WordBytesAndBack(w: Word)
    ensures |WordBytes(w)| == 4 && BigEndian(WordBytes(w), 0) == w
  {
    ByteBits(w);
  }

  lemma ByteBits(w: Word)
    ensures ((((w >> 24) & 255) as Byte as Word) << 24) | ((((w >> 16) & 255) as Byte as Word) << 16)
            | ((((w >> 8) & 255) as Byte as Word) << 8) | ((w & 255) as Byte as Word) == w
  {
    hide *;
  }

  // The number that bytes spell, most significant first.
  function Value(s: seq<Byte>): nat {
    if s == [] then 0 else 256 * Value(s[..|s| - 1]) + s[|s| - 1] as nat
  }

  // Section 5.1.1: the last eight bytes of the padding are the length in bits.
  lemma LengthValue(bits: nat)
    requires bits < TWO64
    ensures Value(Length(bits)) == bits
  {
    hide Value;
    var s := Length(bits);
    forall k | 0 <= k < 8 ensures s[k] == ByteOf(Shift8(bits, 7 - k)) { }
    LengthPrefix(bits, 8);
    assert s[..8] == s;
  }

  lemma {:induction false} LengthPrefix(bits: nat, n: nat)
    requires bits < TWO64 && n <= 8
    ensures Value(Length(bits)[..n]) == Shift8(bits, 8 - n)
  {
    var s := Length(bits)[..n];
    if n == 0 {
      assert Shift8(bits, 8) == 0 by { TopShift(bits); }
    } else {
      LengthPrefix(bits, n - 1);
      assert s[..n - 1] == Length(bits)[..n - 1];
      ShiftNext(bits, 8 - n);
      hide Shift8;
    }
  }

  lemma {:induction false} ShiftNext(n: nat, k: nat)
    ensures Shift8(n, k + 1) == Shift8(n, k) / 256
    ensures Shift8(n, k) == 256 * Shift8(n, k + 1) + ByteOf(Shift8(n, k)) as nat
  {
    hide ByteOf;
    if k > 0 {
      ShiftNext(n / 256, k - 1);
    } else {
      assert Shift8(n, 1) == Shift8(n / 256, 0);
      ByteSplit(n);
    }
  }

  lemma ByteSplit(n: nat)
    ensures n == 256 * (n / 256) + ByteOf(n) as nat
  {
    hide Narrow;
    NarrowValue(n % 256);
  }

  lemma NarrowValue(n: nat)
    requires n < 256
    ensures Narrow(n) as nat == n
  {
    hide *;
    ByteBack(n);
    NarrowIs(n);
  }

  lemma NarrowIs(n: nat)
    requires n < 256
    ensures Narrow(n) == n as Byte
  {
  }

  lemma ByteBack(n: nat)
    requires n < 256
    ensures (n as Byte) as nat == n
  {
    hide *;
    var b := ByteWith(n);
    BackToByte(b);
  }

  // Counting up finds the byte of a number.
  lemma {:induction false} ByteWith(n: nat) returns (b: Byte)
    requires n < 256
    ensures b as nat == n
  {
    hide *;
    b := 0;
    if n > 0 {
      var c := ByteWith(n - 1);
      NextByte(c);
      b := c + 1;
    }
  }

  lemma NextByte(b: Byte)
    requires b as nat < 255
    ensures (b + 1) as nat == b as nat + 1
  {
    hide *;
  }

  lemma BackToByte(b: Byte)
    ensures (b as nat) as Byte == b
  {
    hide *;
  }

  lemma TopShift(n: nat)
    requires n < TWO64
    ensures Shift8(n, 8) == 0
  {
    var a := n / 256;
    var b := a / 256;
    var c := b / 256;
    var d := c / 256;
    assert Shift8(n, 8) == Shift8(a, 7) && Shift8(a, 7) == Shift8(b, 6) && Shift8(b, 6) == Shift8(c, 5);
    assert Shift8(c, 5) == Shift8(d, 4) && d < TWO32;
    Context.ShiftFour(d);
  }

  lemma PaddingFills(n: nat)
    ensures (n + |Padding(n)|) % 64 == 0 && Zeros(n) <= 63
  {
  }

  lemma {:induction false} FoldAppend(s: State, a: seq<Byte>, b: seq<Byte>)
    requires |a| % 64 == 0
    ensures Fold(s, a + b) == Fold(Fold(s, a), b)
    decreases |a|
  {
    if a == [] {
      assert a + b == b;
    } else {
      assert (a + b)[..64] == a[..64] && (a + b)[64..] == a[64..] + b;
      FoldAppend(Compress(s, a[..64]), a[64..], b);
    }
  }

  // ---------- SHA1_Transform ----------

  // blk0 on a little-endian machine: the loaded word with its bytes swapped.
  function LittleEndian(b: seq<Byte>, i: nat): Word
    requires i + 4 <= |b|
  {
    (b[i] as Word) | ((b[i + 1] as Word) << 8) | ((b[i + 2] as Word) << 16) | ((b[i + 3] as Word) << 24)
  }

  function Swapped(l: Word): Word { (((l << 24) | (l >> 8)) & 0xFF00FF00) | (((l << 8) | (l >> 24)) & 0x00FF00FF) }

  lemma SwapBits(a: Word, b: Word, c: Word, d: Word)
    requires a <= 255 && b <= 255 && c <= 255 && d <= 255
    ensures var l := a | (b << 8) | (c << 16) | (d << 24);
            (((l << 24) | (l >> 8)) & 0xFF00FF00) | (((l << 8) | (l >> 24)) & 0x00FF00FF) == (a << 24) | (b << 16)
              | (c << 8) | d
  {
    hide *;
  }

  lemma SwappedIsBigEndian(b: seq<Byte>, i: nat)
    requires i + 4 <= |b|
    ensures Swapped(LittleEndian(b, i)) == BigEndian(b, i)
  {
    SwapBits(b[i] as Word, b[i + 1] as Word, b[i + 2] as Word, b[i + 3] as Word);
  }

  // The source's forms of the round functions.
  function Choose(w: Word, x: Word, y: Word): Word { (w & (x ^ y)) ^ y }

  function Majority(w: Word, x: Word, y: Word): Word { ((w | x) & y) | (w & x) }

  lemma ChooseBits(w: Word, x: Word, y: Word)
    ensures (w & (x ^ y)) ^ y == (w & x) ^ (!w & y)
  {
    hide *;
  }

  lemma MajorityBits(w: Word, x: Word, y: Word)
    ensures ((w | x) & y) | (w & x) == (w & x) ^ (w & y) ^ (x & y)
  {
    hide *;
  }

  lemma ChooseIsCh(w: Word, x: Word, y: Word)
    ensures Choose(w, x, y) == Ch(w, x, y)
  {
    ChooseBits(w, x, y);
  }

  lemma MajorityIsMaj(w: Word, x: Word, y: Word)
    ensures Majority(w, x, y) == Maj(w, x, y)
  {
    MajorityBits(w, x, y);
  }

  // blk: the schedule kept in sixteen words that are overwritten in turn.
  ghost predicate Schedule(block: array<Word>, b: Block, i: nat)
    reads block
  {
    && block.Length == 16
    && (forall t :: 0 <= t < i && i <= t + 16 ==> block[t % 16] == W(b, t))
    && (forall j :: i <= j < 16 ==> block[j] == LittleEndian(b, 4 * j))
  }

  method Blk(block: array<Word>, i: nat, ghost b: Block) returns (w: Word)
    requires Schedule(block, b, i)
    modifies block
    ensures w == W(b, i) && Schedule(block, b, i + 1)
  {
    hide BigEndian, LittleEndian, Swapped, Expand, W;
    if i < 16 {
      EarlyWord(b, i);
      w := Swapped(block[i]);
    } else {
      Residues(i);
      LateWord(b, i);
      w := Expand(block[(i + 13) % 16], block[(i + 8) % 16], block[(i + 2) % 16], block[i % 16]);
    }
    block[i % 16] := w;
    OtherResidues(i);
  }

  lemma EarlyWord(b: Block, i: nat)
    requires i < 16
    ensures Swapped(LittleEndian(b, 4 * i)) == W(b, i)
  {
    hide BigEndian, LittleEndian, Swapped;
    SwappedIsBigEndian(b, 4 * i);
  }

  lemma LateWord(b: Block, i: nat)
    requires i >= 16
    ensures W(b, i) == Expand(W(b, i - 3), W(b, i - 8), W(b, i - 14), W(b, i - 16))
  {
    hide Expand;
  }

  lemma Residues(i: nat)
    requires i >= 16
    ensures (i + 13) % 16 == (i - 3) % 16 && (i + 8) % 16 == (i - 8) % 16 && (i + 2) % 16 == (i - 14) % 16
            && i % 16 == (i - 16) % 16
  {
  }

  lemma OtherResidues(i: nat)
    ensures forall t :: 0 <= t < i && i < t + 16 ==> t % 16 != i % 16
  {
  }

  // The working variables of round i, in the places the unrolled macros give them.
  function Slot(i: nat, k: nat): (n: nat)
    requires k < 5
    ensures n < 5
  {
    if k >= i % 5 then k - i % 5 else k + 5 - i % 5
  }

  ghost predicate Working(r: array<Word>, p: State, i: nat)
    reads r
  {
    && r.Length == 5 && r[Slot(i, 0)] == p.a && r[Slot(i, 1)] == p.b && r[Slot(i, 2)] == p.c
    && r[Slot(i, 3)] == p.d && r[Slot(i, 4)] == p.e
  }

  lemma Slots(i: nat)
    ensures Slot(i + 1, 0) == Slot(i, 4) && Slot(i + 1, 1) == Slot(i, 0) && Slot(i + 1, 2) == Slot(i, 1)
    ensures Slot(i + 1, 3) == Slot(i, 2) && Slot(i + 1, 4) == Slot(i, 3)
    ensures forall k, m :: 0 <= k < m < 5 ==> Slot(i, k) != Slot(i, m)
  {
    assert (i + 1) % 5 == if i % 5 == 4 then 0 else i % 5 + 1;
  }

  // What the round macros add to their last argument.
  function Increase(z: Word, f: Word, w: Word, k: Word, r: Word): Word { z + (f + w + k + r) }

  lemma SumBits(z: Word, f: Word, w: Word, k: Word, r: Word)
    ensures z + (f + w + k + r) == r + f + z + k + w
  {
    hide *;
  }

  lemma SumOrder(z: Word, f: Word, w: Word, k: Word, r: Word)
    ensures Increase(z, f, w, k, r) == Sum(r, f, z, k, w)
  {
    SumBits(z, f, w, k, r);
  }

  // R0 to R4
  function Mix(i: nat, w: Word, x: Word, y: Word): Word {
    if i < 20 then Choose(w, x, y) else if i < 40 then w ^ x ^ y else if i < 60 then Majority(w, x, y) else w ^ x ^ y
  }

  lemma MixIsF(i: nat, w: Word, x: Word, y: Word)
    ensures Mix(i, w, x, y) == F(i, w, x, y)
  {
    hide Choose, Majority, Ch, Maj;
    ChooseIsCh(w, x, y);
    MajorityIsMaj(w, x, y);
  }

  method Round(r: array<Word>, i: nat, word: Word, ghost p: State)
    requires Working(r, p, i)
    modifies r
    ensures Working(r, State(Sum(Rotl5(p.a), F(i, p.b, p.c, p.d), p.e, K(i), word), p.a, Rotl30(p.b), p.c, p.d), i + 1)
  {
    hide F, Mix, Rotl5, Rotl30, K, Slot, Sum, Increase;
    Slots(i);
    var v, w, x, y, z := Slot(i, 0), Slot(i, 1), Slot(i, 2), Slot(i, 3), Slot(i, 4);
    assert v != w && v != x && v != y && v != z && w != x && w != y && w != z && x != y && x != z && y != z;
    MixIsF(i, r[w], r[x], r[y]);
    SumOrder(r[z], F(i, r[w], r[x], r[y]), word, K(i), Rotl5(r[v]));
    r[z] := Increase(r[z], Mix(i, r[w], r[x], r[y]), word, K(i), Rotl5(r[v]));
    r[w] := Rotl30(r[w]);
  }

  ghost function StateOf(state: array<Word>): State
    requires state.Length == 5
    reads state
  {
    State(state[0], state[1], state[2], state[3], state[4])
  }

  // SHA1_Transform
  method Transform(state: array<Word>, buffer: Block)
    requires state.Length == 5
    modifies state
    ensures StateOf(state) == Compress(old(StateOf(state)), buffer)
  {
    hide W, F, K, Rotl5, Rotl30, Slot, LittleEndian, Sum, Plus, Rounds, Schedule;
    var block := new Word[16](j requires 0 <= j < 16 => LittleEndian(buffer, 4 * j));
    NewSchedule(block, buffer);
    ghost var s := StateOf(state);
    var r := new Word[5];
    r[0], r[1], r[2], r[3], r[4] := state[0], state[1], state[2], state[3], state[4];
    FirstSlots();
    NoRounds(buffer, s);
    for i := 0 to 80
      invariant Schedule(block, buffer, i) && Working(r, Rounds(buffer, s, i), i) && StateOf(state) == s
    {
      var word := Blk(block, i, buffer);
      NextRound(buffer, s, i);
      Round(r, i, word, Rounds(buffer, s, i));
    }
    FirstSlots();
    state[0] := Plus(state[0], r[0]);
    state[1] := Plus(state[1], r[1]);
    state[2] := Plus(state[2], r[2]);
    state[3] := Plus(state[3], r[3]);
    state[4] := Plus(state[4], r[4]);
  }

  lemma NewSchedule(block: array<Word>, b: Block)
    requires block.Length == 16 && forall j :: 0 <= j < 16 ==> block[j] == LittleEndian(b, 4 * j)
    ensures Schedule(block, b, 0)
  {
  }

  lemma NoRounds(b: Block, s: State)
    ensures Rounds(b, s, 0) == s
  {
  }

  lemma NextRound(b: Block, s: State, i: nat)
    ensures var p := Rounds(b, s, i);
            Rounds(b, s, i + 1) == State(Sum(Rotl5(p.a), F(i, p.b, p.c, p.d), p.e, K(i), W(b, i)), p.a, Rotl30(p.b),
              p.c, p.d)
  {
    hide W, F, K, Rotl5, Rotl30, Sum;
  }

  lemma FirstSlots()
    ensures Slot(0, 0) == 0 && Slot(0, 1) == 1 && Slot(0, 2) == 2 && Slot(0, 3) == 3 && Slot(0, 4) == 4
    ensures Slot(80, 0) == 0 && Slot(80, 1) == 1 && Slot(80, 2) == 2 && Slot(80, 3) == 3 && Slot(80, 4) == 4
  {
  }

  // ---------- the counts ----------

  const TWO32: nat := 0x1_0000_0000
  const TWO64: nat := 0x1_0000_0000_0000_0000

  // count[0] and count[1] after len more bytes; sizes are 64 bits wide.
  function Counted(c0: nat, c1: nat, len: nat): (c: (nat, nat))
    ensures c.0 < TWO32 && c.1 < TWO32
  {
    var bits := 8 * len % TWO64;
    var low := (c0 + bits) % TWO32;
    (low, (c1 + (if low < bits then 1 else 0) + len / 0x2000_0000) % TWO32)
  }

  ghost predicate CountOf(c0: nat, c1: nat, n: nat) {
    c0 == 8 * n % TWO32 && c1 == 8 * n / TWO32 % TWO32
  }

  // Can the carry out of the low word be read off the comparison?
  predicate CarrySeen(c0: nat, len: nat) {
    8 * len % TWO64 < TWO32 || c0 + 8 * len % TWO32 >= TWO32
  }

  // The counts stay exact for pieces below 2^29 bytes; for longer pieces exactly
  // when the low words carry.
  lemma CountExact(c0: nat, c1: nat, n: nat, len: nat)
    requires CountOf(c0, c1, n)
    ensures var c := Counted(c0, c1, len);
            && c.0 == 8 * (n + len) % TWO32
            && (CountOf(c.0, c.1, n + len) <==> CarrySeen(c0, len))
  {
    LowWord(c0, 8 * n, 8 * len);
    CarryWord(c0, 8 * len);
    var seen := if (c0 + 8 * len % TWO64) % TWO32 < 8 * len % TWO64 then 1 else 0;
    HighWord(c0, c1, 8 * n, 8 * len, seen);
    Bytes(len);
  }

  lemma Bytes(len: nat)
    ensures 8 * len / TWO32 == len / 0x2000_0000
  {
  }

  lemma LowWord(c0: nat, N: nat, M: nat)
    requires c0 == N % TWO32
    ensures (c0 + M % TWO64) % TWO32 == (N + M) % TWO32
  {
    assert M % TWO64 % TWO32 == M % TWO32;
    ModPlus(N, M % TWO64);
    ModPlus(M % TWO64, N);
    ModPlus(M, N);
  }

  lemma CarryWord(c0: nat, M: nat)
    requires c0 < TWO32
    ensures var bits := M % TWO64;
            (bits < TWO32 || c0 + M % TWO32 >= TWO32)
            <==> ((c0 + bits) % TWO32 < bits <==> c0 + M % TWO32 >= TWO32)
  {
    assert M % TWO64 % TWO32 == M % TWO32;
  }

  lemma HighWord(c0: nat, c1: nat, N: nat, M: nat, seen: nat)
    requires c0 == N % TWO32 && c1 == N / TWO32 % TWO32 && seen <= 1
    ensures (c1 + seen + M / TWO32) % TWO32 == (N + M) / TWO32 % TWO32 <==> (seen == 1 <==> c0 + M % TWO32 >= TWO32)
  {
    var carry := if c0 + M % TWO32 >= TWO32 then 1 else 0;
    SplitSum(N, M);
    ModCancel(c1 + M / TWO32, seen, carry);
    ModPlus(N / TWO32, M / TWO32 + carry);
  }

  lemma SplitSum(a: nat, b: nat)
    ensures var carry := if a % TWO32 + b % TWO32 >= TWO32 then 1 else 0;
            (a + b) / TWO32 == a / TWO32 + b / TWO32 + carry && (a + b) % TWO32 == (a % TWO32 + b % TWO32) % TWO32
  {
  }

  lemma ModPlus(a: nat, b: nat)
    ensures (a % TWO32 + b) % TWO32 == (a + b) % TWO32
  {
  }

  lemma ModCancel(x: nat, a: nat, b: nat)
    requires a <= 1 && b <= 1
    ensures (x + a) % TWO32 == (x + b) % TWO32 <==> a == b
  {
  }

  // A single piece of 2^29 bytes is counted as if it were 2^29 bytes longer.
  lemma LongPieceMiscounted()
    ensures var c := Counted(0, 0, 0x2000_0000); !CountOf(c.0, c.1, 0x2000_0000) && CountOf(c.0, c.1, 0x4000_0000)
  {
  }

  // ---------- the context ----------

  lemma FoldStep(s: State, a: seq<Byte>, b: Block)
    requires |a| % 64 == 0
    ensures Fold(s, a + b) == Compress(Fold(s, a), b)
  {
    FoldAppend(s, a, b);
    assert b[..64] == b && b[64..] == [];
    hide Compress;
  }

  // A tail that does not fill a block does not matter yet.
  lemma FoldTail(s: State, a: seq<Byte>, b: seq<Byte>)
    requires |a| % 64 == 0 && |b| < 64
    ensures Fold(s, a + b) == Fold(s, a)
  {
    FoldAppend(s, a, b);
  }

  // The bytes that wait for the rest of their block.
  function Tail(data: seq<Byte>): seq<Byte> { data[|data| - |data| % 64..] }

  class Context {
    const state: array<Word>
    const buffer: array<Byte>
    var count0: nat
    var count1: nat
    ghost var data: seq<Byte> // everything hashed so far

    ghost predicate Shape() { state.Length == 5 && buffer.Length == 64 }

    ghost predicate Valid()
      reads this, state, buffer
    {
      && Shape()
      && StateOf(state) == Fold(INITIAL, data)
      && buffer[..|data| % 64] == Tail(data)
      && count0 == 8 * |data| % TWO32 && count1 < TWO32
    }

    // The counts are the length in bits.
    ghost predicate Exact()
      reads this
    {
      CountOf(count0, count1, |data|)
    }

    // sat_SHA1_Init
    constructor ()
      ensures Valid() && Exact() && data == [] && fresh(state) && fresh(buffer)
    {
      state := new Word[5];
      buffer := new Byte[64];
      count0, count1, data := 0, 0, [];
      new;
      hide *;
      state[0] := 0x67452301;
      state[1] := 0xEFCDAB89;
      state[2] := 0x98BADCFE;
      state[3] := 0x10325476;
      state[4] := 0xC3D2E1F0;
      Fresh();
    }

    lemma Fresh()
      requires state.Length == 5 && buffer.Length == 64 && count0 == count1 == 0 && data == []
      requires state[0] == 0x67452301 && state[1] == 0xEFCDAB89 && state[2] == 0x98BADCFE && state[3] == 0x10325476
               && state[4] == 0xC3D2E1F0
      ensures Valid() && Exact()
    {
      Nothing();
      hide Fold, Compress, Tail;
      assert buffer[..0] == [];
    }

    static lemma Nothing()
      ensures Fold(INITIAL, []) == INITIAL && Tail([]) == []
    {
    }

    // memcpy into the buffer.
    method Copy(j: nat, bytes: seq<Byte>)
      requires Shape() && j + |bytes| <= 64
      modifies buffer
      ensures buffer[..j + |bytes|] == old(buffer[..j]) + bytes
    {
      forall k | 0 <= k < |bytes| {
        buffer[j + k] := bytes[k];
      }
    }

    // sat_SHA1_Update
    method Update(piece: seq<Byte>)
      requires Valid() && |piece| < TWO64
      modifies this`count0, this`count1, this`data, state, buffer
      ensures Valid() && data == old(data) + piece
      ensures (count0, count1) == Counted(old(count0), old(count1), |piece|)
      ensures old(Exact()) ==> (Exact() <==> CarrySeen(old(count0), |piece|))
    {
      hide Fold, Compress, Counted, CarrySeen, Tail, CountOf;
      ghost var before := data;
      var j := count0 / 8 % 64;
      BytePosition(|before|);
      var c := Counted(count0, count1, |piece|);
      if Exact() { CountExact(count0, count1, |before|, |piece|); }
      LowCount(count0, count1, |before|, |piece|);
      count0, count1 := c.0, c.1;
      data := data + piece;
      Absorb(j, piece, before);
    }

    // The bytes go through the buffer into the state.
    method Absorb(j0: nat, piece: seq<Byte>, ghost before: seq<Byte>)
      requires Shape() && StateOf(state) == Fold(INITIAL, before) && j0 == |before| % 64 && buffer[..j0] == Tail(before)
      modifies state, buffer
      ensures StateOf(state) == Fold(INITIAL, before + piece)
      ensures buffer[..|before + piece| % 64] == Tail(before + piece)
    {
      hide Fold, Compress, Tail;
      var i, j := 0, j0;
      if j + |piece| > 63 {
        i := 64 - j;
        Copy(j, piece[..i]);
        FirstBlock(before, piece, i, buffer[..]);
        Transform(state, buffer[..]);
        while i + 63 < |piece|
          invariant 1 <= i <= |piece| && (|before| + i) % 64 == 0
          invariant StateOf(state) == Fold(INITIAL, before + piece[..i])
        {
          NextBlock(before, piece, i);
          Transform(state, piece[i..i + 64]);
          i := i + 64;
        }
        j := 0;
        LastBlock(before, piece, i);
      } else {
        ShortPiece(before, piece);
      }
      TailIs(before, piece, i, j);
      Copy(j, piece[i..]);
    }

    static lemma BytePosition(n: nat)
      ensures 8 * n % TWO32 / 8 % 64 == n % 64
    {
    }

    static lemma LowCount(c0: nat, c1: nat, n: nat, len: nat)
      requires c0 == 8 * n % TWO32
      ensures Counted(c0, c1, len).0 == 8 * (n + len) % TWO32
    {
      CountExact(c0, 8 * n / TWO32 % TWO32, n, len);
    }

    static lemma FirstBlock(before: seq<Byte>, piece: seq<Byte>, i: nat, block: seq<Byte>)
      requires i == 64 - |before| % 64 <= |piece| && |block| == 64 && block == Tail(before) + piece[..i]
      ensures Fold(INITIAL, before + piece[..i]) == Compress(Fold(INITIAL, before), block) && (|before| + i) % 64 == 0
    {
      hide *;
      var full := before[..|before| - |before| % 64];
      SplitTail(before);
      Fill(|before|);
      SeqAssoc(full, Tail(before), piece[..i]);
      FoldTail(INITIAL, full, Tail(before));
      FoldStep(INITIAL, full, block);
    }

    static lemma SplitTail(before: seq<Byte>)
      ensures var full := before[..|before| - |before| % 64];
              before == full + Tail(before) && |full| % 64 == 0 && |Tail(before)| == |before| % 64
    {
    }

    static lemma Fill(n: nat)
      ensures (n + (64 - n % 64)) % 64 == 0
    {
    }

    static lemma SeqAssoc(a: seq<Byte>, b: seq<Byte>, c: seq<Byte>)
      ensures a + b + c == a + (b + c)
    {
    }

    static lemma NextBlock(before: seq<Byte>, piece: seq<Byte>, i: nat)
      requires i + 64 <= |piece| && (|before| + i) % 64 == 0
      ensures Fold(INITIAL, before + piece[..i + 64]) == Compress(Fold(INITIAL, before + piece[..i]), piece[i..i + 64])
    {
      hide Fold, Compress;
      assert before + piece[..i + 64] == before + piece[..i] + piece[i..i + 64];
      FoldStep(INITIAL, before + piece[..i], piece[i..i + 64]);
    }

    static lemma LastBlock(before: seq<Byte>, piece: seq<Byte>, i: nat)
      requires i <= |piece| < i + 64 && (|before| + i) % 64 == 0
      ensures Fold(INITIAL, before + piece) == Fold(INITIAL, before + piece[..i])
    {
      hide Fold, Compress;
      assert before + piece == before + piece[..i] + piece[i..];
      FoldTail(INITIAL, before + piece[..i], piece[i..]);
    }

    static lemma ShortPiece(before: seq<Byte>, piece: seq<Byte>)
      requires |before| % 64 + |piece| < 64
      ensures Fold(INITIAL, before + piece) == Fold(INITIAL, before)
    {
      hide *;
      var full := before[..|before| - |before| % 64];
      SplitTail(before);
      SeqAssoc(full, Tail(before), piece);
      FoldTail(INITIAL, full, Tail(before));
      FoldTail(INITIAL, full, Tail(before) + piece);
    }

    static lemma TailIs(before: seq<Byte>, piece: seq<Byte>, i: nat, j: nat)
      requires i <= |piece| && j + |piece| - i < 64
      requires if i == 0 then j == |before| % 64 else j == 0 && (|before| + i) % 64 == 0
      ensures |before + piece| % 64 == j + |piece| - i
      ensures Tail(before + piece) == (if i == 0 then Tail(before) else []) + piece[i..]
    {
      var data, full := before + piece, |before| + i - j;
      Residue(full, j + |piece| - i);
      assert |data| == full + (j + |piece| - i);
      assert Tail(data) == data[full..];
    }

    static lemma Residue(full: int, rest: nat)
      requires full >= 0 && full % 64 == 0 && rest < 64
      ensures (full + rest) % 64 == rest
    {
    }

    // The length field, from the counts.
    method LengthField() returns (finalcount: seq<Byte>)
      requires Valid()
      ensures |finalcount| == 8
      ensures Exact() && |data| < TWO64 / 8 ==> finalcount == Length(8 * |data|)
    {
      hide Fold, Compress, Tail, ByteOf, Shift8, LengthByte;
      finalcount := [];
      for i := 0 to 8
        invariant |finalcount| == i
        invariant forall k :: 0 <= k < i ==> finalcount[k] == CountByte(count0, count1, k)
      {
        finalcount := finalcount + [CountByte(count0, count1, i)];
      }
      if Exact() && |data| < TWO64 / 8 {
        forall k | 0 <= k < 8 ensures finalcount[k] == LengthByte(8 * |data|, k) {
          LengthBytes(8 * |data|, k);
        }
      }
    }

    static function CountByte(c0: nat, c1: nat, k: nat): Byte {
      ByteOf(Shift8(if k >= 4 then c0 else c1, 3 - k % 4))
    }

    static lemma LengthBytes(n: nat, k: nat)
      requires n < TWO64 && k < 8
      ensures LengthByte(n, k) == CountByte(n % TWO32, n / TWO32 % TWO32, k)
    {
      hide ByteOf, Shift8;
      if k < 4 {
        assert k % 4 == k && 4 + (3 - k) == 7 - k;
        ShiftTwice(n, 4, 3 - k);
        ShiftFour(n);
      } else {
        assert k % 4 == k - 4;
        LowBytes(n, 7 - k);
      }
    }

    static lemma {:induction false} ShiftTwice(n: nat, j: nat, k: nat)
      ensures Shift8(Shift8(n, j), k) == Shift8(n, j + k)
    {
      if j > 0 { ShiftTwice(n / 256, j - 1, k); }
    }

    static lemma ShiftFour(n: nat)
      requires n < TWO64
      ensures Shift8(n, 4) == n / TWO32 % TWO32
    {
      var a := n / 256;
      var b := a / 256;
      var c := b / 256;
      assert Shift8(n, 4) == Shift8(a, 3) && Shift8(a, 3) == Shift8(b, 2) && Shift8(b, 2) == Shift8(c, 1)
        && Shift8(c, 1) == c / 256;
      assert b == n / 0x10000 && c == n / 0x1000000 && c / 256 == n / TWO32;
    }

    static lemma LowBytes(n: nat, k: nat)
      requires k < 4
      ensures ByteOf(Shift8(n, k)) == ByteOf(Shift8(n % TWO32, k))
    {
      var h, l := n / TWO32, n % TWO32;
      assert n == h * TWO32 + l;
      ShiftIs(n, k);
      ShiftIs(l, k);
      if k == 0 { SameByte(n, l, h * 0x1000000); }
      else if k == 1 { SameByte(n / 0x100, l / 0x100, h * 0x10000); }
      else if k == 2 { SameByte(n / 0x10000, l / 0x10000, h * 0x100); }
      else { SameByte(n / 0x1000000, l / 0x1000000, h); }
    }

    static lemma ShiftIs(n: nat, k: nat)
      requires k < 4
      ensures Shift8(n, k) == n / (if k == 0 then 1 else if k == 1 then 0x100 else if k == 2 then 0x10000
              else 0x1000000)
    {
      var a := n / 256;
      var b := a / 256;
      assert Shift8(n, 1) == Shift8(a, 0);
      assert Shift8(n, 2) == Shift8(a, 1) && Shift8(a, 1) == Shift8(b, 0);
      assert Shift8(n, 3) == Shift8(a, 2) && Shift8(a, 2) == Shift8(b, 1) && Shift8(b, 1) == Shift8(b / 256, 0);
    }

    static lemma SameByte(a: nat, b: nat, m: nat)
      requires a == 256 * m + b
      ensures ByteOf(a) == ByteOf(b)
    {
      hide Narrow;
      assert a % 256 == b % 256;
    }

    // sat_SHA1_Final
    method Final() returns (digest: seq<Byte>)
      requires Valid()
      modifies this`count0, this`count1, this`data, state, buffer
      ensures |digest| == 20
      ensures old(Exact()) && |old(data)| < TWO64 / 8 ==> digest == Digest(old(data))
      ensures state[..] == seq(5, _ => 0) && buffer[..] == seq(64, _ => 0) && count0 == count1 == 0
    {
      Pad();
      digest := DigestBytes();
      if old(Exact()) && |old(data)| < TWO64 / 8 { DigestIs(old(data), StateOf(state)); }
      Wipe();
    }

    static lemma DigestIs(message: seq<Byte>, s: State)
      requires s == Fold(INITIAL, message + Padding(|message|))
      ensures Digest(message) == WordBytes(s.a) + WordBytes(s.b) + WordBytes(s.c) + WordBytes(s.d) + WordBytes(s.e)
    {
    }

    // A one, zeros up to the last eight bytes of a block, and the length.
    method Pad()
      requires Valid()
      modifies this`count0, this`count1, this`data, state, buffer
      ensures Valid()
      ensures old(Exact()) && |old(data)| < TWO64 / 8 ==> data == old(data) + Padding(|old(data)|)
    {
      hide Fold, Compress, Counted, CarrySeen, Tail, CountOf, Zeros, ZeroBytes, Length;
      ghost var message := data;
      var finalcount := LengthField();
      Update([0x80]);
      ghost var zeros: nat := 0;
      NoZeros(message);
      while count0 / 8 % 64 != 56
        invariant Valid() && data == message + [0x80] + ZeroBytes(zeros) && zeros <= Zeros(|message|)
        decreases Zeros(|message|) - zeros
      {
        BytePosition(|data|);
        ZerosLeft(|message|, zeros);
        Update([0]);
        MoreZeros(message, zeros);
        zeros := zeros + 1;
      }
      BytePosition(|data|);
      ZerosLeft(|message|, zeros);
      Update(finalcount);
      if old(Exact()) && |message| < TWO64 / 8 { PaddedIs(message); }
    }

    static lemma NoZeros(message: seq<Byte>)
      ensures message + [0x80] == message + [0x80] + ZeroBytes(0)
    {
    }

    static lemma ZerosLeft(n: nat, zeros: nat)
      requires zeros <= Zeros(n)
      ensures (n + 1 + zeros) % 64 == 56 <==> zeros == Zeros(n)
    {
    }

    static lemma MoreZeros(message: seq<Byte>, zeros: nat)
      ensures message + [0x80] + ZeroBytes(zeros) + [0] == message + [0x80] + ZeroBytes(zeros + 1)
    {
      assert ZeroBytes(zeros) + [0] == ZeroBytes(zeros + 1);
    }

    static lemma PaddedIs(message: seq<Byte>)
      ensures message + [0x80] + ZeroBytes(Zeros(|message|)) + Length(8 * |message|) == message + Padding(|message|)
    {
      hide Length, ZeroBytes;
    }

    // The state's words, most significant byte first.
    method DigestBytes() returns (digest: seq<Byte>)
      requires Shape()
      ensures |digest| == 20
      ensures var s := StateOf(state);
              digest == WordBytes(s.a) + WordBytes(s.b) + WordBytes(s.c) + WordBytes(s.d)
              + WordBytes(s.e)
    {
      digest := WordBytes(state[0]) + WordBytes(state[1]) + WordBytes(state[2]) + WordBytes(state[3])
        + WordBytes(state[4]);
    }

    method Wipe()
      requires Shape()
      modifies this`count0, this`count1, state, buffer
      ensures state[..] == seq(5, _ => 0) && buffer[..] == seq(64, _ => 0) && count0 == count1 == 0
    {
      forall k | 0 <= k < 64 { buffer[k] := 0; }
      forall k | 0 <= k < 5 { state[k] := 0; }
      count0, count1 := 0, 0;
    }
  }

  // crypt_sha1: the digest of one buffer.  The length it hashes is right exactly
  // for buffers below 2^29 bytes.
  method CryptSha1(message: seq<Byte>) returns (digest: seq<Byte>, size: nat)
    requires |message| < 0x8000_0000
    ensures |digest| == size == 20
    ensures |message| < 0x2000_0000 ==> digest == Digest(message)
  {
    hide Counted, CarrySeen, CountOf, Digest;
    var ctx := new Context();
    assert ctx.count0 == 0;
    ctx.Update(message);
    WholeMessage(|message|);
    assert ctx.data == message;
    digest := ctx.Final();
    size := 20;
  }

  lemma WholeMessage(len: nat)
    requires len < 0x8000_0000
    ensures CarrySeen(0, len) <==> len < 0x2000_0000
  {
  }
}
