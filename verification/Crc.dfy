// The mailbox checksum: CRC-16 with generator x^16 + x^12 + x^5 + 1 (section 2 of ITU-T
// Recommendation V.41), initial value 0xffff, most significant bit first, no final XOR.
//
// The 16-bit register is a sequence of 16 coefficients, index = power of x. The loop of the
// source works on a 16-bit integer; Bit and Xor connect the two.

module Crc {
  import opened Bytes

  // --- Integers and their bits ---------------------------------------------------------------

  function Bit(n: nat, i: nat): bool
    decreases i
  {
    if i == 0 then n % 2 == 1 else Bit(n / 2, i - 1)
  }

  /** Bitwise exclusive or. */
  function Xor(a: nat, b: nat): nat {
    if a == 0 && b == 0 then 0
    else (if a % 2 != b % 2 then 1 else 0) + 2 * Xor(a / 2, b / 2)
  }

  lemma {:induction false} XorBit(a: nat, b: nat, i: nat)
    ensures Bit(Xor(a, b), i) == (Bit(a, i) != Bit(b, i))
    decreases i
  {
    hide Xor;
    XorHalves(a, b);
    if i > 0 { XorBit(a / 2, b / 2, i - 1); }
  }

  lemma XorHalves(a: nat, b: nat)
    ensures Xor(a, b) % 2 == (if a % 2 != b % 2 then 1 else 0) && Xor(a, b) / 2 == Xor(a / 2, b / 2)
  {
    if a > 0 || b > 0 { Halves(if a % 2 != b % 2 then 1 else 0, Xor(a / 2, b / 2)); }
  }

  lemma {:induction false} XorBound(a: nat, b: nat, n: nat)
    requires a < Pow2(n) && b < Pow2(n)
    ensures Xor(a, b) < Pow2(n)
    decreases n
  {
    if n > 0 {
      XorBound(a / 2, b / 2, n - 1);
    }
  }

  lemma {:induction false} DropTop(n: nat, k: nat, i: nat)
    requires Pow2(k) <= n < Pow2(k + 1) && i < k
    ensures Bit(n - Pow2(k), i) == Bit(n, i)
    decreases i
  {
    assert Pow2(k) == 2 * Pow2(k - 1);
    if i > 0 {
      assert (n - Pow2(k)) / 2 == n / 2 - Pow2(k - 1);
      DropTop(n / 2, k - 1, i - 1);
    }
  }

  /** `n << 1` on k + 1 bits. */
  function Double(n: nat, k: nat): (m: nat)
    requires n < Pow2(k + 1)
    ensures m < Pow2(k + 1)
  {
    if n >= Pow2(k) then 2 * n - Pow2(k + 1) else 2 * n
  }

  lemma DoubleBit(n: nat, k: nat, i: nat)
    requires n < Pow2(k + 1) && i <= k
    ensures Bit(Double(n, k), i) == (i > 0 && Bit(n, i - 1))
  {
    if i > 0 && n >= Pow2(k) {
      DropTop(n, k, i - 1);
      assert Double(n, k) / 2 == n - Pow2(k);
    }
  }

  lemma {:induction false} TopBit(n: nat, k: nat)
    requires n < Pow2(k + 1)
    ensures Bit(n, k) <==> n >= Pow2(k)
    decreases k
  {
    if k > 0 {
      TopBit(n / 2, k - 1);
    }
  }

  lemma {:induction false} BitsDecide(a: nat, b: nat, n: nat)
    requires a < Pow2(n) && b < Pow2(n)
    requires forall i :: 0 <= i < n ==> Bit(a, i) == Bit(b, i)
    ensures a == b
    decreases n
  {
    if n > 0 {
      assert Bit(a, 0) == Bit(b, 0);
      forall i | 0 <= i < n - 1 ensures Bit(a / 2, i) == Bit(b / 2, i) {
        assert Bit(a, i + 1) == Bit(b, i + 1);
      }
      BitsDecide(a / 2, b / 2, n - 1);
    }
  }

  // --- The register: polynomials of degree below 16 over GF(2) -------------------------------

  type Reg = s: seq<bool> | |s| == 16 witness seq(16, i => false)

  function Fill(bit: bool): Reg {
    seq(16, i => bit)
  }

  /** x^16 is congruent to x^12 + x^5 + 1. */
  predicate InGenerator(i: int) { i == 0 || i == 5 || i == 12 }

  predicate ShiftAt(s: Reg, i: int) {
    (0 < i <= 16 && s[i - 1]) != (s[15] && InGenerator(i))
  }

  /** Multiplication by x modulo the generator. */
  function Shift(s: Reg): Reg {
    seq(16, i => ShiftAt(s, i))
  }

  function In(s: Reg, bit: bool): Reg {
    Shift(s[15 := s[15] != bit])
  }

  function Feed(s: Reg, m: seq<bool>): Reg
    decreases |m|
  {
    if m == [] then s else Feed(In(s, m[0]), m[1..])
  }

  predicate SentAt(b: byte, j: int) {
    0 <= j < 8 && Bit(b, 7 - j)
  }

  /** The bits of a byte in transmission order, most significant first. */
  function Bits8(b: byte): (r: seq<bool>)
    ensures |r| == 8
  {
    seq(8, j => SentAt(b, j))
  }

  function BitsOf(p: seq<byte>): (r: seq<bool>)
    ensures |r| == 8 * |p|
  {
    if p == [] then [] else Bits8(p[0]) + BitsOf(p[1..])
  }

  /** The specification of the checksum: every bit of p, in order, through the register. */
  function CrcReg(p: seq<byte>): Reg {
    Feed(Fill(true), BitsOf(p))
  }

  function RegOf(n: u16): Reg {
    seq(16, (i: nat) => Bit(n, i))
  }

  lemma {:induction false} FeedConcat(s: Reg, a: seq<bool>, b: seq<bool>)
    ensures Feed(s, a + b) == Feed(Feed(s, a), b)
    decreases |a|
  {
    if a == [] {
      assert a + b == b;
    } else {
      assert (a + b)[1..] == a[1..] + b;
      FeedConcat(In(s, a[0]), a[1..], b);
    }
  }

  lemma {:induction false} BitsOfConcat(p: seq<byte>, q: seq<byte>)
    ensures BitsOf(p + q) == BitsOf(p) + BitsOf(q)
    decreases |p|
  {
    if p == [] {
      assert p + q == q;
    } else {
      assert (p + q)[1..] == p[1..] + q;
      BitsOfConcat(p[1..], q);
    }
  }

  // --- The loop of the source ----------------------------------------------------------------

  lemma Pow2Sixteen()
    ensures Pow2(8) == 0x100 && Pow2(15) == 0x8000 && Pow2(16) == 0x1_0000
  {
    assert Pow2(4) == 16;
    assert Pow2(8) == 16 * Pow2(4);
    assert Pow2(12) == 16 * Pow2(8);
  }

  lemma NextNibble(n: nat, i: nat)
    requires i >= 4
    ensures Bit(n, i) == Bit(n / 16, i - 4)
  {
    assert n / 2 / 2 == n / 4 && n / 4 / 2 == n / 8 && n / 8 / 2 == n / 16;
    assert Bit(n, i) == Bit(n / 2, i - 1) == Bit(n / 4, i - 2) == Bit(n / 8, i - 3);
  }

  lemma LowNibble(n: nat)
    ensures Bit(n, 0) == (n % 2 == 1) && Bit(n, 1) == (n / 2 % 2 == 1)
    ensures Bit(n, 2) == (n / 4 % 2 == 1) && Bit(n, 3) == (n / 8 % 2 == 1)
  {
    assert n / 2 / 2 == n / 4 && n / 4 / 2 == n / 8;
    assert Bit(n, 3) == Bit(n / 2, 2) == Bit(n / 4, 1);
    assert Bit(n, 2) == Bit(n / 2, 1);
  }

  lemma PolyBits(i: nat)
    requires i < 16
    ensures Bit(0x1021, i) == InGenerator(i)
  {
    LowNibble(0x1021); LowNibble(0x102); LowNibble(0x10); LowNibble(0x1);
    if i >= 4 { NextNibble(0x1021, i); }
    if i >= 8 { NextNibble(0x102, i - 4); }
    if i >= 12 { NextNibble(0x10, i - 8); }
  }

  /** One pass of the inner loop. */
  function ShiftWord(crc: u16): u16 {
    Pow2Sixteen();
    XorBound(Double(crc, 15), 0x1021, 16);
    if crc >= 0x8000 then Xor(Double(crc, 15), 0x1021) else Double(crc, 15)
  }

  lemma ShiftWordIsShift(crc: u16)
    ensures RegOf(ShiftWord(crc)) == Shift(RegOf(crc))
  {
    hide Bit;
    hide Pow2;
    Pow2Sixteen();
    TopBit(crc, 15);
    forall i | 0 <= i < 16 ensures RegOf(ShiftWord(crc))[i] == Shift(RegOf(crc))[i] {
      DoubleBit(crc, 15, i);
      XorBit(Double(crc, 15), 0x1021, i);
      PolyBits(i);
    }
  }

  function Sum(a: seq<bool>, b: seq<bool>): (r: seq<bool>)
    requires |a| == |b|
    ensures |r| == |a|
    ensures forall i :: 0 <= i < |a| ==> r[i] == (a[i] != b[i])
  {
    seq(|a|, i requires 0 <= i < |a| => a[i] != b[i])
  }

  function Up(w: Reg): Reg {
    [false] + w[..15]
  }

  /** With the message word w still added in, shifting feeds the top bit of w and moves w up. */
  lemma OneBit(s: Reg, w: Reg)
    ensures Shift(Sum(s, w)) == Sum(In(s, w[15]), Up(w))
  {
    forall i | 0 <= i < 16 ensures Shift(Sum(s, w))[i] == Sum(In(s, w[15]), Up(w))[i] {
    }
  }

  function Shifts(n: nat, s: Reg): Reg {
    if n == 0 then s else Shift(Shifts(n - 1, s))
  }

  lemma {:induction false} ShiftsFront(n: nat, s: Reg)
    ensures Shifts(n + 1, s) == Shifts(n, Shift(s))
  {
    if n > 0 { ShiftsFront(n - 1, s); }
  }

  predicate AlignedAt(m: seq<bool>, i: int) {
    0 <= 15 - i < |m| && m[15 - i]
  }

  /** m, first bit first, sits in the top bits of w. */
  predicate Aligned(w: Reg, m: seq<bool>) {
    |m| <= 16 && forall i :: 0 <= i < 16 ==> w[i] == AlignedAt(m, i)
  }

  /** Adding m into the top of the register and shifting it out feeds its bits. */
  lemma {:induction false} FeedWord(s: Reg, w: Reg, m: seq<bool>)
    requires Aligned(w, m)
    ensures Shifts(|m|, Sum(s, w)) == Feed(s, m)
    decreases |m|
  {
    if m == [] {
      assert Sum(s, w) == s;
    } else {
      assert w[15] == m[0];
      OneBit(s, w);
      forall i | 0 <= i < 16 ensures Up(w)[i] == AlignedAt(m[1..], i) {
        if i > 0 { assert w[i - 1] == AlignedAt(m, i - 1); }
      }
      FeedWord(In(s, m[0]), Up(w), m[1..]);
      ShiftsFront(|m| - 1, Sum(s, w));
    }
  }

  lemma {:induction false} ShiftByteBit(b: nat, k: nat, i: nat)
    ensures Bit(b * Pow2(k), i) == (i >= k && Bit(b, i - k))
    decreases k
  {
    if k > 0 {
      assert b * Pow2(k) == 2 * (b * Pow2(k - 1));
      if i > 0 { ShiftByteBit(b, k - 1, i - 1); }
    }
  }

  // The integer held by a register.

  function WordFrom(s: Reg, i: nat): (n: nat)
    requires i <= 16
    ensures n < Pow2(16 - i)
    decreases 16 - i
  {
    if i == 16 then 0 else (if s[i] then 1 else 0) + 2 * WordFrom(s, i + 1)
  }

  function Word(s: Reg): u16 {
    Pow2Sixteen();
    WordFrom(s, 0)
  }

  lemma {:induction false} WordFromBit(s: Reg, i: nat, k: nat)
    requires i + k < 16
    ensures Bit(WordFrom(s, i), k) == s[i + k]
    decreases k
  {
    hide WordFrom;
    WordHalves(s, i);
    if k > 0 { WordFromBit(s, i + 1, k - 1); }
  }

  lemma WordHalves(s: Reg, i: nat)
    requires i < 16
    ensures WordFrom(s, i) % 2 == (if s[i] then 1 else 0) && WordFrom(s, i) / 2 == WordFrom(s, i + 1)
  {
    Halves(if s[i] then 1 else 0, WordFrom(s, i + 1));
  }

  lemma Halves(b: nat, n: nat)
    requires b < 2
    ensures (b + 2 * n) % 2 == b && (b + 2 * n) / 2 == n
  {
  }

  lemma RegOfWord(s: Reg)
    ensures RegOf(Word(s)) == s
  {
    forall k | 0 <= k < 16 ensures RegOf(Word(s))[k] == s[k] {
      WordFromBit(s, 0, k);
    }
  }

  lemma WordDecides(a: u16, b: u16)
    ensures a == b <==> RegOf(a) == RegOf(b)
  {
    if RegOf(a) == RegOf(b) {
      Pow2Sixteen();
      forall i | 0 <= i < 16 ensures Bit(a, i) == Bit(b, i) {
        assert RegOf(a)[i] == RegOf(b)[i];
      }
      BitsDecide(a, b, 16);
    }
  }

  function Checksum(p: seq<byte>): u16 {
    Word(CrcReg(p))
  }

  lemma ChecksumIs(p: seq<byte>, c: u16)
    ensures c == Checksum(p) <==> RegOf(c) == CrcReg(p)
  {
    RegOfWord(CrcReg(p));
    WordDecides(c, Checksum(p));
  }

  function ShiftWords(n: nat, crc: u16): u16 {
    if n == 0 then crc else ShiftWord(ShiftWords(n - 1, crc))
  }

  lemma {:induction false} ShiftWordsAreShifts(n: nat, crc: u16)
    ensures RegOf(ShiftWords(n, crc)) == Shifts(n, RegOf(crc))
  {
    if n > 0 {
      ShiftWordsAreShifts(n - 1, crc);
      ShiftWordIsShift(ShiftWords(n - 1, crc));
    }
  }

  /** XORing a byte into the high half and shifting eight times feeds its eight bits. */
  lemma AddByte(crc: u16, b: byte)
    ensures Xor(crc, b * 0x100) < 0x1_0000
    ensures RegOf(ShiftWords(8, Xor(crc, b * 0x100))) == Feed(RegOf(crc), Bits8(b))
  {
    Pow2Sixteen();
    XorBound(crc, b * 0x100, 16);
    var w, x := RegOf(b * 0x100), RegOf(Xor(crc, b * 0x100));
    forall i | 0 <= i < 16 ensures w[i] == AlignedAt(Bits8(b), i) && x[i] == Sum(RegOf(crc), w)[i] {
      ShiftByteBit(b, 8, i);
      XorBit(crc, b * 0x100, i);
    }
    assert x == Sum(RegOf(crc), w);
    FeedWord(RegOf(crc), w, Bits8(b));
    ShiftWordsAreShifts(8, Xor(crc, b * 0x100));
  }

  lemma ChecksumStep(p: seq<byte>, b: byte)
    ensures Xor(Checksum(p), b * 0x100) < 0x1_0000
    ensures ShiftWords(8, Xor(Checksum(p), b * 0x100)) == Checksum(p + [b])
  {
    hide Feed;
    var c := Checksum(p);
    AddByte(c, b);
    RegOfWord(CrcReg(p));
    OneMore(p, b);
    ChecksumIs(p + [b], ShiftWords(8, Xor(c, b * 0x100)));
  }

  /** The body of the outer loop: one byte of p, the bytes before it already in crc. */
  method FeedByte(crc: u16, b: byte, ghost p: seq<byte>) returns (r: u16)
    requires crc == Checksum(p)
    ensures r == Checksum(p + [b])
  {
    ChecksumStep(p, b);
    r := Xor(crc, b * 0x100);
    ghost var start := r;
    for i := 0 to 8
      invariant r == ShiftWords(i, start)
    {
      r := ShiftWord(r);
    }
  }

  /** `crc16_ccitt`: the byte-wise loop computes the bit-serial checksum. */
  method Crc16(p: array<byte>, n: nat) returns (crc: u16)
    requires n <= p.Length
    ensures crc == Checksum(p[..n])
  {
    crc := 0xffff;
    ChecksumEmpty();
    var k := 0;
    assert p[..k] == [];
    while k < n
      invariant k <= n
      invariant crc == Checksum(p[..k])
    {
      crc := FeedByte(crc, p[k], p[..k]);
      assert p[..k + 1] == p[..k] + [p[k]];
      k := k + 1;
    }
  }

  lemma ChecksumEmpty()
    ensures Checksum([]) == 0xffff
  {
    AllOnes();
    ChecksumIs([], 0xffff);
  }

  lemma AllOnes()
    ensures RegOf(0xffff) == Fill(true)
  {
    assert Pow2(16) == 16 * Pow2(12) && Pow2(12) == 16 * Pow2(8) && Pow2(8) == 256;
    forall i | 0 <= i < 16 ensures Bit(0xffff, i) { OnesBit(16, i); }
  }

  lemma {:induction false} OnesBit(k: nat, i: nat)
    requires i < k
    ensures Pow2(k) > 0 && Bit(Pow2(k) - 1, i)
  {
    assert Pow2(k) == 2 * Pow2(k - 1);
    if k > 1 { OnesBit(k - 1, if i > 0 then i - 1 else 0); }
  }

  lemma OneMore(p: seq<byte>, b: byte)
    ensures CrcReg(p + [b]) == Feed(CrcReg(p), Bits8(b))
  {
    BitsOfConcat(p, [b]);
    assert BitsOf([b]) == Bits8(b) + BitsOf([]) == Bits8(b);
    FeedConcat(Fill(true), BitsOf(p), Bits8(b));
  }

  // --- Long division -------------------------------------------------------------------------

  /** Subtracts the generator's terms below x^16 from the 16 leading coefficients. */
  function Reduce(d: seq<bool>): (r: seq<bool>)
    requires |d| >= 16
    ensures |r| == |d|
  {
    d[3 := !d[3]][10 := !d[10]][15 := !d[15]]
  }

  /** Schoolbook division of d(x) by the generator; coefficients highest power first. */
  function Remainder(d: seq<bool>): (r: seq<bool>)
    requires |d| >= 16
    ensures |r| == 16
    decreases |d|
  {
    if |d| == 16 then d
    else Remainder(if d[0] then Reduce(d[1..]) else d[1..])
  }

  predicate MixAt(s: Reg, d: seq<bool>, j: int)
    requires 0 <= j < |d|
  {
    d[j] != (j < 16 && s[15 - j])
  }

  /** Adds the register, as the 16 leading coefficients, to d. */
  function Mix(s: Reg, d: seq<bool>): (r: seq<bool>)
    requires |d| >= 16
    ensures |r| == |d|
  {
    seq(|d|, j requires 0 <= j < |d| => MixAt(s, d, j))
  }

  /** One division step is one register step. */
  lemma DivideStep(s: Reg, m: seq<bool>, j: nat)
    requires m != [] && j < |m| + 15
    ensures var d := Mix(s, m + Fill(false));
            (if d[0] then Reduce(d[1..]) else d[1..])[j] == Mix(In(s, m[0]), m[1..] + Fill(false))[j]
  {
    var d := Mix(s, m + Fill(false));
    assert (m + Fill(false))[j + 1] == (m[1..] + Fill(false))[j];
    assert d[1..][j] == d[j + 1] == MixAt(s, m + Fill(false), j + 1);
    assert d[0] == (m[0] != s[15]);
    if j < 16 {
      var t := s[15 := s[15] != m[0]];
      assert In(s, m[0])[15 - j] == ShiftAt(t, 15 - j);
      assert j < 15 ==> t[14 - j] == s[14 - j];
    }
  }

  lemma {:induction false} FeedDivides(s: Reg, m: seq<bool>)
    ensures Remainder(Mix(s, m + Fill(false))) == Mix(Feed(s, m), Fill(false))
    decreases |m|
  {
    if m == [] {
      assert m + Fill(false) == Fill(false);
    } else {
      var d := Mix(s, m + Fill(false));
      var next := if d[0] then Reduce(d[1..]) else d[1..];
      forall j | 0 <= j < |next| ensures next[j] == Mix(In(s, m[0]), m[1..] + Fill(false))[j] {
        DivideStep(s, m, j);
      }
      assert next == Mix(In(s, m[0]), m[1..] + Fill(false));
      FeedDivides(In(s, m[0]), m[1..]);
    }
  }

  /** The checksum is the remainder of (message * x^16, its 16 leading bits inverted) by the generator. */
  lemma CrcIsRemainder(p: seq<byte>)
    ensures Mix(CrcReg(p), Fill(false)) == Remainder(Mix(Fill(true), BitsOf(p) + Fill(false)))
  {
    FeedDivides(Fill(true), BitsOf(p));
  }
}
