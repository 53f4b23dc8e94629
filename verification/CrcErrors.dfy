// What the mailbox checksum detects. Any odd number of flipped bits in a packet is caught. Two
// flipped bits are caught unless their powers of x differ by a multiple of 32767, which takes a
// packet of 4096 bytes. A burst of up to 16 bits is caught unless it is one of twelve that run from
// the covered bytes into the checksum field.

module CrcErrors {
  import opened Bytes
  import opened Crc
  import Pw = CrcPowers

  // --- Linearity -----------------------------------------------------------------------------

  lemma ShiftLinear(a: Reg, b: Reg)
    ensures Shift(Sum(a, b)) == Sum(Shift(a), Shift(b))
  {
    forall i | 0 <= i < 16 ensures Shift(Sum(a, b))[i] == Sum(Shift(a), Shift(b))[i] {
    }
  }

  lemma InLinear(a: Reg, b: Reg, x: bool, y: bool)
    ensures In(Sum(a, b), x != y) == Sum(In(a, x), In(b, y))
  {
    var a', b' := a[15 := a[15] != x], b[15 := b[15] != y];
    assert Sum(a, b)[15 := Sum(a, b)[15] != (x != y)] == Sum(a', b');
    ShiftLinear(a', b');
  }

  lemma {:induction false} FeedLinear(a: Reg, b: Reg, m: seq<bool>, n: seq<bool>)
    requires |m| == |n|
    ensures Feed(Sum(a, b), Sum(m, n)) == Sum(Feed(a, m), Feed(b, n))
    decreases |m|
  {
    if m != [] {
      InLinear(a, b, m[0], n[0]);
      assert Sum(m, n)[1..] == Sum(m[1..], n[1..]);
      FeedLinear(In(a, m[0]), In(b, n[0]), m[1..], n[1..]);
    }
  }

  /** The checksums of two messages differ by the checksum, from zero, of their difference. */
  lemma DifferenceFeeds(m: seq<bool>, n: seq<bool>, s: Reg)
    requires |m| == |n|
    ensures Sum(Feed(s, m), Feed(s, n)) == Feed(Fill(false), Sum(m, n))
  {
    FeedLinear(s, s, m, n);
    assert Sum(s, s) == Fill(false);
  }

  lemma ShiftInjective(a: Reg, b: Reg)
    requires Shift(a) == Shift(b)
    ensures a == b
  {
    assert Shift(a)[0] == a[15] && Shift(b)[0] == b[15];
    forall i | 0 <= i < 15 ensures a[i] == b[i] {
      assert Shift(a)[i + 1] == ShiftAt(a, i + 1) && Shift(b)[i + 1] == ShiftAt(b, i + 1);
    }
  }

  lemma {:induction false} ShiftsInjective(n: nat, a: Reg, b: Reg)
    requires Shifts(n, a) == Shifts(n, b)
    ensures a == b
  {
    if n > 0 {
      ShiftInjective(Shifts(n - 1, a), Shifts(n - 1, b));
      ShiftsInjective(n - 1, a, b);
    }
  }

  lemma ShiftZero()
    ensures Shift(Fill(false)) == Fill(false)
  {
    forall i | 0 <= i < 16 ensures Shift(Fill(false))[i] == Fill(false)[i] {
      assert !ShiftAt(Fill(false), i);
    }
  }

  lemma {:induction false} ShiftsZero(n: nat, z: Reg)
    requires z == Fill(false)
    ensures Shifts(n, z) == z
  {
    hide Shift;
    if n > 0 {
      ShiftsZero(n - 1, z);
      ShiftZero();
    }
  }

  predicate AllFalse(m: seq<bool>) {
    forall i :: 0 <= i < |m| ==> !m[i]
  }

  lemma {:induction false} FeedSilence(s: Reg, m: seq<bool>)
    requires AllFalse(m)
    ensures Feed(s, m) == Shifts(|m|, s)
    decreases |m|
  {
    if m != [] {
      assert s[15 := s[15] != false] == s;
      FeedSilence(Shift(s), m[1..]);
      ShiftsFront(|m| - 1, s);
    }
  }

  // --- Packets -------------------------------------------------------------------------------

  /** The test at the end of a mailbox run: the last two bytes, low byte first, hold the checksum. */
  predicate Sealed(p: seq<byte>)
    requires |p| >= 2
  {
    Checksum(p[..|p| - 2]) == Get16(p, |p| - 2)
  }

  function Flips(p: seq<byte>, q: seq<byte>): (e: seq<bool>)
    requires |p| == |q|
    ensures |e| == 8 * |p|
  {
    Sum(BitsOf(p), BitsOf(q))
  }

  /** The flips of a 16-bit field stored low byte first, as a register. */
  function FieldReg(e: seq<bool>): Reg
    requires |e| == 16
  {
    seq(16, i requires 0 <= i < 16 => e[Stored(i)])
  }

  /** Where bit i of the field is in transmission order. */
  function Stored(i: nat): nat
    requires i < 16
    ensures Stored(i) < 16
  {
    if i < 8 then 7 - i else 23 - i
  }

  lemma FieldBit(lo: byte, hi: byte, i: nat)
    requires i < 16
    ensures Bit(lo as int + 256 * hi as int, i) == if i < 8 then Bit(lo, i) else Bit(hi, i - 8)
  {
    Peel(lo, 8, hi, i);
    Pow2Sixteen();
  }

  lemma {:induction false} Peel(lo: nat, k: nat, hi: nat, i: nat)
    requires lo < Pow2(k)
    ensures Bit(lo + Pow2(k) * hi, i) == if i < k then Bit(lo, i) else Bit(hi, i - k)
    decreases k
  {
    if k > 0 {
      var n := lo + Pow2(k) * hi;
      assert Pow2(k) * hi == 2 * (Pow2(k - 1) * hi);
      Halves(lo % 2, lo / 2 + Pow2(k - 1) * hi);
      assert n % 2 == lo % 2 && n / 2 == lo / 2 + Pow2(k - 1) * hi;
      if i > 0 { Peel(lo / 2, k - 1, hi, i - 1); }
    }
  }

  lemma FieldFlip(p: seq<byte>, q: seq<byte>, i: nat)
    requires |p| == |q| == 2 && i < 16
    ensures FieldReg(Flips(p, q))[i] == (Bit(Get16(p, 0), i) != Bit(Get16(q, 0), i))
  {
    FieldBits(p, i);
    FieldBits(q, i);
    assert FieldReg(Flips(p, q))[i] == Flips(p, q)[Stored(i)];
  }

  lemma FieldBits(p: seq<byte>, i: nat)
    requires |p| == 2 && i < 16
    ensures Bit(Get16(p, 0), i) == BitsOf(p)[Stored(i)]
  {
    TwoBytes(p);
    FieldBit(p[0], p[1], i);
  }

  lemma FieldFlips(p: seq<byte>, q: seq<byte>)
    requires |p| == |q| == 2
    ensures FieldReg(Flips(p, q)) == Sum(RegOf(Get16(p, 0)), RegOf(Get16(q, 0)))
  {
    forall i | 0 <= i < 16 ensures FieldReg(Flips(p, q))[i] == Sum(RegOf(Get16(p, 0)), RegOf(Get16(q, 0)))[i] {
      FieldFlip(p, q, i);
    }
  }

  lemma TwoBytes(p: seq<byte>)
    requires |p| == 2
    ensures BitsOf(p) == Bits8(p[0]) + Bits8(p[1])
  {
    assert p[1..] == [p[1]];
    assert BitsOf([p[1]]) == Bits8(p[1]) + BitsOf([]);
  }

  lemma SumConcat(a: seq<bool>, b: seq<bool>, c: seq<bool>, d: seq<bool>)
    requires |a| == |c| && |b| == |d|
    ensures Sum(a + b, c + d) == Sum(a, c) + Sum(b, d)
  {
  }

  lemma SplitFlips(p: seq<byte>, q: seq<byte>, k: nat)
    requires |p| == |q| && k <= |p|
    ensures Flips(p, q) == Flips(p[..k], q[..k]) + Flips(p[k..], q[k..])
  {
    BitsOfConcat(p[..k], p[k..]);
    BitsOfConcat(q[..k], q[k..]);
    assert p == p[..k] + p[k..] && q == q[..k] + q[k..];
    SumConcat(BitsOf(p[..k]), BitsOf(p[k..]), BitsOf(q[..k]), BitsOf(q[k..]));
  }

  /** Exactly which corruptions of a sealed packet go unnoticed: those whose flips in the covered
      bytes, fed from a zero register, equal the flips of the checksum field. */
  lemma Unnoticed(p: seq<byte>, q: seq<byte>)
    requires |p| == |q| >= 2 && Sealed(p)
    ensures var k := |p| - 2;
            Sealed(q) <==> Feed(Fill(false), Flips(p[..k], q[..k])) == FieldReg(Flips(p[k..], q[k..]))
  {
    var k := |p| - 2;
    var cp, cq := p[..k], q[..k];
    DifferenceFeeds(BitsOf(cp), BitsOf(cq), Fill(true));
    FieldFlips(p[k..], q[k..]);
    var fp, fq := Get16(p, k), Get16(q, k);
    assert fp == Get16(p[k..], 0) && fq == Get16(q[k..], 0);
    ChecksumIs(cp, fp);
    ChecksumIs(cq, fq);
    SumCancel(CrcReg(cp), CrcReg(cq), RegOf(fq));
  }

  lemma SumCancel(a: Reg, b: Reg, c: Reg)
    ensures Sum(a, b) == Sum(a, c) <==> b == c
  {
    if Sum(a, b) == Sum(a, c) {
      forall i | 0 <= i < 16 ensures b[i] == c[i] {
        assert Sum(a, b)[i] == Sum(a, c)[i];
      }
    }
  }

  // --- Bursts --------------------------------------------------------------------------------

  /** Only one word can be cancelled by at most 16 bits: the bits themselves. */
  lemma {:induction false} CancelledBy(s: Reg, m: seq<bool>)
    requires |m| <= 16 && Feed(s, m) == Fill(false)
    ensures Aligned(s, m)
    decreases |m|
  {
    if m != [] {
      var t := In(s, m[0]);
      var u := s[15 := s[15] != m[0]];
      CancelledBy(t, m[1..]);
      assert t[0] == AlignedAt(m[1..], 0) && t[0] == u[15];
      forall i | 0 <= i < 16 ensures s[i] == AlignedAt(m, i) {
        if i < 15 { assert t[i + 1] == AlignedAt(m[1..], i + 1) && t[i + 1] == ShiftAt(u, i + 1); }
      }
    }
  }

  predicate InBurst(e: seq<bool>, a: nat) {
    !AllFalse(e) && forall i :: 0 <= i < |e| && e[i] ==> a <= i < a + 16
  }

  lemma BurstShows(e: seq<bool>, a: nat)
    requires InBurst(e, a)
    ensures Feed(Fill(false), e) != Fill(false)
  {
    hide Feed;
    hide InBurst;
    var z := Fill(false);
    var b, i := BurstParts(e, a);
    FeedThree(z, e[..a], e[a..b], e[b..]);
    SilenceKeeps(z, e[..a]);
    ShortShows(e[a..b], i);
    SilenceKeeps(Feed(z, e[a..b]), e[b..]);
  }

  lemma BurstParts(e: seq<bool>, a: nat) returns (b: nat, i: nat)
    requires InBurst(e, a)
    ensures a <= b <= |e| && b <= a + 16 && e == e[..a] + e[a..b] + e[b..]
    ensures AllFalse(e[..a]) && AllFalse(e[b..]) && i < b - a && e[a..b][i]
  {
    var j :| 0 <= j < |e| && e[j];
    b, i := Min(a + 16, |e|), j - a;
    assert a <= j < b && e[a..b][i] == e[j];
    forall k | 0 <= k < |e| - b ensures !e[b..][k] {
      assert e[b..][k] == e[b + k];
    }
    assert e[..a] + e[a..b] == e[..b];
  }

  lemma FeedThree(s: Reg, a: seq<bool>, b: seq<bool>, c: seq<bool>)
    ensures Feed(s, a + b + c) == Feed(Feed(Feed(s, a), b), c)
  {
    FeedConcat(s, a + b, c);
    FeedConcat(s, a, b);
  }

  /** Silence neither wakes the zero register nor puts another to sleep. */
  lemma SilenceKeeps(s: Reg, m: seq<bool>)
    requires AllFalse(m)
    ensures Feed(s, m) == Fill(false) <==> s == Fill(false)
  {
    hide Feed;
    hide Shifts;
    var z := Fill(false);
    FeedSilence(s, m);
    ShiftsZero(|m|, z);
    if Shifts(|m|, s) == z { ShiftsInjective(|m|, s, z); }
  }

  lemma ShortShows(m: seq<bool>, i: nat)
    requires i < |m| <= 16 && m[i]
    ensures Feed(Fill(false), m) != Fill(false)
  {
    hide Feed;
    var z := Fill(false);
    assert AlignedAt(m, 15 - i) && !z[15 - i];
    if Feed(z, m) == z { CancelledBy(z, m); }
  }

  /** A burst of at most 16 bits inside the covered bytes is always caught. */
  lemma BurstDetected(p: seq<byte>, q: seq<byte>, a: nat)
    requires |p| == |q| >= 2 && Sealed(p)
    requires p[|p| - 2..] == q[|p| - 2..] && InBurst(Flips(p[..|p| - 2], q[..|p| - 2]), a)
    ensures !Sealed(q)
  {
    var k := |p| - 2;
    Unnoticed(p, q);
    BurstShows(Flips(p[..k], q[..k]), a);
    assert FieldReg(Flips(p[k..], q[k..])) == Fill(false);
  }

  // --- Odd numbers of flips ------------------------------------------------------------------

  function Odd(e: seq<bool>): bool {
    if e == [] then false else e[0] != Odd(e[1..])
  }

  function Weight(e: seq<bool>): nat {
    if e == [] then 0 else (if e[0] then 1 else 0) + Weight(e[1..])
  }

  lemma {:induction false} OddWeight(e: seq<bool>)
    ensures Odd(e) <==> Weight(e) % 2 == 1
  {
    if e != [] { OddWeight(e[1..]); }
  }

  lemma {:induction false} OddConcat(a: seq<bool>, b: seq<bool>)
    ensures Odd(a + b) == (Odd(a) != Odd(b))
  {
    if a == [] {
      assert a + b == b;
    } else {
      assert (a + b)[1..] == a[1..] + b;
      OddConcat(a[1..], b);
    }
  }

  lemma OddFour(e: seq<bool>)
    requires |e| == 4
    ensures Odd(e) == (e[0] != (e[1] != (e[2] != e[3])))
  {
    assert e[1..][1..] == e[2..] && e[2..][1..] == e[3..] && e[3..][1..] == [];
    assert Odd(e[2..]) == (e[2] != Odd(e[3..]));
    assert Odd(e[3..]) == (e[3] != Odd([]));
  }

  lemma OddReg(s: Reg)
    ensures Odd(s) == ((s[0] != (s[1] != (s[2] != s[3]))) != ((s[4] != (s[5] != (s[6] != s[7])))
                    != ((s[8] != (s[9] != (s[10] != s[11]))) != (s[12] != (s[13] != (s[14] != s[15]))))))
  {
    var a, b, c, d := s[..4], s[4..8], s[8..12], s[12..];
    assert s == a + (b + (c + d));
    OddConcat(a, b + (c + d)); OddConcat(b, c + d); OddConcat(c, d);
    OddFour(a); OddFour(b); OddFour(c); OddFour(d);
  }

  /** The generator has an even number of terms, so multiplying by x keeps the parity. */
  lemma OddShift(s: Reg)
    ensures Odd(Shift(s)) == Odd(s)
  {
    hide Odd;
    hide Shift;
    OddReg(s);
    OddReg(Shift(s));
    ShiftBits(s);
  }

  lemma ShiftBits(s: Reg)
    ensures var t := Shift(s);
            && t[0] == s[15] && t[1] == s[0] && t[2] == s[1] && t[3] == s[2] && t[4] == s[3] && t[5] == (s[4] != s[15])
            && t[6] == s[5] && t[7] == s[6] && t[8] == s[7] && t[9] == s[8] && t[10] == s[9] && t[11] == s[10]
            && t[12] == (s[11] != s[15]) && t[13] == s[12] && t[14] == s[13] && t[15] == s[14]
  {
    assert forall i :: 0 <= i < 16 ==> Shift(s)[i] == ShiftAt(s, i);
  }

  lemma {:induction false} OddFeed(s: Reg, m: seq<bool>)
    ensures Odd(Feed(s, m)) == (Odd(s) != Odd(m))
    decreases |m|
  {
    if m != [] {
      var t := s[15 := s[15] != m[0]];
      OddReg(s); OddReg(t); OddShift(t);
      OddFeed(In(s, m[0]), m[1..]);
    }
  }

  lemma OddField(e: seq<bool>)
    requires |e| == 16
    ensures Odd(FieldReg(e)) == Odd(e)
  {
    OddReg(e);
    OddReg(FieldReg(e));
  }

  /** Any odd number of flipped bits, checksum field included, is caught. */
  lemma OddDetected(p: seq<byte>, q: seq<byte>)
    requires |p| == |q| >= 2 && Sealed(p) && Weight(Flips(p, q)) % 2 == 1
    ensures !Sealed(q)
  {
    var k := |p| - 2;
    var e1, e2 := Flips(p[..k], q[..k]), Flips(p[k..], q[k..]);
    Unnoticed(p, q);
    SplitFlips(p, q, k);
    OddWeight(Flips(p, q));
    OddConcat(e1, e2);
    OddFeed(Fill(false), e1);
    OddReg(Fill(false));
    OddField(e2);
  }

  // --- Syndromes -----------------------------------------------------------------------------

  /** What the flips e of a packet add to the comparison of its checksum. */
  function Syndrome(e: seq<bool>): Reg
    requires |e| >= 16
  {
    Sum(Feed(Fill(false), e[..|e| - 16]), FieldReg(e[|e| - 16..]))
  }

  lemma UnnoticedSyndrome(p: seq<byte>, q: seq<byte>)
    requires |p| == |q| >= 2 && Sealed(p)
    ensures |Flips(p, q)| >= 16 && (Sealed(q) <==> Syndrome(Flips(p, q)) == Fill(false))
  {
    hide Feed;
    hide FieldReg;
    var k, e := |p| - 2, Flips(p, q);
    Unnoticed(p, q);
    SplitFlips(p, q, k);
    assert e[..|e| - 16] == Flips(p[..k], q[..k]) && e[|e| - 16..] == Flips(p[k..], q[k..]);
    SumZero(Feed(Fill(false), e[..|e| - 16]), FieldReg(e[|e| - 16..]));
  }

  lemma SumZero(a: Reg, b: Reg)
    ensures Sum(a, b) == Fill(false) <==> a == b
  {
    if Sum(a, b) == Fill(false) {
      forall i | 0 <= i < 16 ensures a[i] == b[i] {
        assert !Sum(a, b)[i];
      }
    }
  }

  lemma SyndromeLinear(a: seq<bool>, b: seq<bool>)
    requires |a| == |b| >= 16
    ensures Syndrome(Sum(a, b)) == Sum(Syndrome(a), Syndrome(b))
  {
    hide Feed;
    var k, z := |a| - 16, Fill(false);
    assert Sum(z, z) == z;
    FeedLinear(z, z, a[..k], b[..k]);
    assert Sum(a, b)[..k] == Sum(a[..k], b[..k]) && Sum(a, b)[k..] == Sum(a[k..], b[k..]);
    FieldLinear(a[k..], b[k..]);
    SumSwap(Feed(z, a[..k]), Feed(z, b[..k]), FieldReg(a[k..]), FieldReg(b[k..]));
  }

  lemma FieldLinear(a: seq<bool>, b: seq<bool>)
    requires |a| == |b| == 16
    ensures FieldReg(Sum(a, b)) == Sum(FieldReg(a), FieldReg(b))
  {
  }

  lemma SumSwap(a: Reg, b: Reg, c: Reg, d: Reg)
    ensures Sum(Sum(a, b), Sum(c, d)) == Sum(Sum(a, c), Sum(b, d))
  {
  }

  // --- Two flips -----------------------------------------------------------------------------

  /** The power of x that a flip at position i of an n-bit packet stands for. */
  function Power(n: nat, i: nat): (k: nat)
    requires i < n && n >= 16
    ensures k < n
  {
    if i < n - 16 then n - 1 - i else if i < n - 8 then n - 9 - i else n + 7 - i
  }

  /** n bits, all false but bit i. */
  function One(n: nat, i: nat): seq<bool> {
    seq(n, j => j == i)
  }

  function Unit(i: nat): Reg { One(16, i) }

  lemma UnitShifts(i: nat)
    requires i < 15
    ensures Shift(Unit(i)) == Unit(i + 1)
  {
    forall j | 0 <= j < 16 ensures Shift(Unit(i))[j] == Unit(i + 1)[j] {
      assert Shift(Unit(i))[j] == ShiftAt(Unit(i), j);
    }
  }

  lemma {:induction false} UnitIsPower(i: nat)
    requires i < 16
    ensures Unit(i) == Shifts(i, Unit(0))
  {
    hide Shift;
    hide Unit;
    if i > 0 {
      UnitIsPower(i - 1);
      UnitShifts(i - 1);
    }
  }

  lemma {:induction false} ShiftsAdd(a: nat, b: nat, s: Reg)
    ensures Shifts(a + b, s) == Shifts(a, Shifts(b, s))
  {
    hide Shift;
    if a > 0 { ShiftsAdd(a - 1, b, s); }
  }

  lemma UnitFeeds(n: nat, i: nat)
    requires i < n
    ensures Feed(Fill(false), One(n, i)) == Shifts(n - i, Unit(15))
  {
    hide Feed;
    hide Shifts;
    var z := Fill(false);
    var a, b := seq(i, j => false), seq(n - 1 - i, j => false);
    assert One(n, i) == a + [true] + b;
    FeedThree(z, a, [true], b);
    SilenceKeeps(z, a);
    OneIn();
    FeedSilence(Shift(Unit(15)), b);
    ShiftsFront(n - 1 - i, Unit(15));
  }

  lemma OneIn()
    ensures Feed(Fill(false), [true]) == Shift(Unit(15))
  {
    assert Fill(false)[15 := true] == Unit(15);
    assert Feed(Fill(false), [true]) == Feed(In(Fill(false), true), [true][1..]);
  }

  lemma SyndromeOfOne(n: nat, i: nat)
    requires i < n && n >= 16
    ensures Syndrome(One(n, i)) == Shifts(Power(n, i), Unit(0))
  {
    hide Feed;
    hide Shifts;
    var k, z := n - 16, Fill(false);
    var a, b := One(n, i)[..k], One(n, i)[k..];
    if i < k {
      assert a == One(k, i) && FieldReg(b) == z;
      UnitFeeds(k, i);
      UnitIsPower(15);
      ShiftsAdd(k - i, 15, Unit(0));
      SumWithZero(Feed(z, a));
    } else {
      SilenceKeeps(z, a);
      UnitIsPower(Power(n, i));
      UnitStored(n, i);
      SumWithZero(FieldReg(b));
    }
  }

  lemma UnitStored(n: nat, i: nat)
    requires n >= 16 && n - 16 <= i < n
    ensures FieldReg(One(n, i)[n - 16..]) == Unit(Power(n, i))
  {
    forall j | 0 <= j < 16 ensures FieldReg(One(n, i)[n - 16..])[j] == Unit(Power(n, i))[j] {
      assert One(n, i)[n - 16..][Stored(j)] == One(n, i)[n - 16 + Stored(j)];
    }
  }

  lemma SumWithZero(s: Reg)
    ensures Sum(s, Fill(false)) == s && Sum(Fill(false), s) == s
  {
  }

  /** 32767 divides a - b. */
  predicate Congruent(a: nat, b: nat) { (a - b) % 32767 == 0 }

  /** x^a = x^b exactly when the exponents are congruent. */
  lemma SamePower(a: nat, b: nat)
    ensures Shifts(a, Unit(0)) == Shifts(b, Unit(0)) <==> Congruent(a, b)
  {
    hide Shifts;
    if a < b { LaterPower(b, a); } else { LaterPower(a, b); }
    assert Congruent(a, b) <==> Congruent(b, a);
  }

  lemma LaterPower(a: nat, b: nat)
    requires a >= b
    ensures Shifts(a, Unit(0)) == Shifts(b, Unit(0)) <==> Congruent(a, b)
  {
    hide Shifts;
    hide Pw.X;
    hide Pw.W;
    hide Pw.PolyOf;
    PowerOfX(a);
    PowerOfX(b);
    Pw.PolyDecides(Shifts(a, Unit(0)), Shifts(b, Unit(0)));
    Pw.Cancels(b, a - b);
    Pw.OrderOfX(a - b);
  }

  lemma PowerOfX(n: nat)
    ensures Pw.PolyOf(Shifts(n, Unit(0))) == Pw.X(n)
  {
    hide Shifts;
    Pw.ShiftsAreTimes(n, Unit(0));
    assert Pw.PolyOf(Unit(0)) == Pw.W(1);
  }

  ghost predicate FlipsAt(e: seq<bool>, i: nat, j: nat) {
    i < j < |e| && forall k :: 0 <= k < |e| ==> (e[k] <==> k == i || k == j)
  }

  /** Two flips go unnoticed exactly when their powers differ by a multiple of 32767. */
  lemma TwoFlipsExact(p: seq<byte>, q: seq<byte>, i: nat, j: nat)
    requires |p| == |q| >= 2 && Sealed(p) && FlipsAt(Flips(p, q), i, j)
    ensures Sealed(q) <==> Congruent(Power(8 * |p|, i), Power(8 * |p|, j))
  {
    hide Shifts;
    hide Congruent;
    hide Power;
    hide Syndrome;
    var e, n := Flips(p, q), 8 * |p|;
    UnnoticedSyndrome(p, q);
    assert e == Sum(One(n, i), One(n, j));
    SyndromeLinear(One(n, i), One(n, j));
    SyndromeOfOne(n, i);
    SyndromeOfOne(n, j);
    SumZero(Syndrome(One(n, i)), Syndrome(One(n, j)));
    SamePower(Power(n, i), Power(n, j));
  }

  lemma {:induction false} NoWeight(e: seq<bool>, k: nat)
    requires Weight(e) == 0 && k < |e|
    ensures !e[k]
  {
    if k > 0 { NoWeight(e[1..], k - 1); }
  }

  lemma {:induction false} WeightOne(e: seq<bool>) returns (i: nat)
    requires Weight(e) == 1
    ensures i < |e| && forall k :: 0 <= k < |e| ==> (e[k] <==> k == i)
  {
    if e[0] {
      i := 0;
      forall k | 0 < k < |e| ensures !e[k] { NoWeight(e[1..], k - 1); }
    } else {
      i := WeightOne(e[1..]);
      assert forall k :: 0 < k < |e| ==> e[k] == e[1..][k - 1];
      i := i + 1;
    }
  }

  lemma {:induction false} WeightTwo(e: seq<bool>) returns (i: nat, j: nat)
    requires Weight(e) == 2
    ensures FlipsAt(e, i, j)
  {
    assert forall k :: 0 < k < |e| ==> e[k] == e[1..][k - 1];
    if e[0] {
      j := WeightOne(e[1..]);
      i, j := 0, j + 1;
    } else {
      i, j := WeightTwo(e[1..]);
      i, j := i + 1, j + 1;
    }
  }

  /** So any two flips in a packet of up to 4095 bytes are caught; the chip sends at most 1024. */
  lemma TwoFlipsDetected(p: seq<byte>, q: seq<byte>)
    requires 2 <= |p| == |q| <= 4095 && Sealed(p) && Weight(Flips(p, q)) == 2
    ensures !Sealed(q)
  {
    hide Sealed;
    var i, j := WeightTwo(Flips(p, q));
    TwoFlipsExact(p, q, i, j);
    NotCongruent(8 * |p|, i, j);
  }

  lemma NotCongruent(n: nat, i: nat, j: nat)
    requires i < j < n && 16 <= n <= 32767
    ensures !Congruent(Power(n, i), Power(n, j))
  {
  }

  // --- Bursts anywhere -----------------------------------------------------------------------

  /** The last 16 covered bits as coefficients, the very last one that of x^0. */
  function TailReg(m: seq<bool>): Reg {
    seq(16, i => TailAt(m, i))
  }

  predicate TailAt(m: seq<bool>, i: int) { 0 <= i < |m| && m[|m| - 1 - i] }

  lemma TailFeeds(m: seq<bool>)
    requires forall k :: 0 <= k < |m| - 16 ==> !m[k]
    ensures Feed(Fill(false), m) == Shifts(16, TailReg(m))
  {
    hide Feed;
    hide Shifts;
    hide TailReg;
    hide TailAt;
    var z, t := Fill(false), TailReg(m);
    var w := seq(16, i => TailAt(m, 15 - i));
    TailOnly(m, w);
    TailAligned(t, w, m);
    FeedWord(z, t, w);
    SumWithZero(t);
  }

  lemma TailOnly(m: seq<bool>, w: seq<bool>)
    requires forall k :: 0 <= k < |m| - 16 ==> !m[k]
    requires |w| == 16 && forall i :: 0 <= i < 16 ==> w[i] == TailAt(m, 15 - i)
    ensures Feed(Fill(false), m) == Feed(Fill(false), w)
  {
    hide Feed;
    hide Fill;
    if |m| >= 16 {
      assert m == m[..|m| - 16] + w;
      SilenceFirst(m[..|m| - 16], w);
    } else {
      var a := seq(16 - |m|, i => false);
      assert w == a + m;
      SilenceFirst(a, m);
    }
  }

  lemma SilenceFirst(a: seq<bool>, m: seq<bool>)
    requires AllFalse(a)
    ensures Feed(Fill(false), a + m) == Feed(Fill(false), m)
  {
    FeedConcat(Fill(false), a, m);
    SilenceKeeps(Fill(false), a);
  }

  lemma TailAligned(t: Reg, w: seq<bool>, m: seq<bool>)
    requires t == TailReg(m) && |w| == 16 && forall i :: 0 <= i < 16 ==> w[i] == TailAt(m, 15 - i)
    ensures Aligned(t, w)
  {
  }

  /** Bits below u before the boundary and the first 16 - u after it are a short pattern. */
  lemma ShortHolds(t: Reg, g: Reg, u: int)
    requires forall i :: 0 <= i < 16 && t[i] ==> i < u
    requires forall j :: 0 <= j < 16 && g[j] ==> Stored(j) < 16 - u
    ensures Pw.Short(Pw.PolyOf(t), Pw.PolyOf(g))
  {
    hide Pw.Short;
    Pw.ShortUnder(Pw.PolyOf(t), Pw.PolyOf(g), u);
  }

  /** The flips run across the boundary in one of the twelve ways that cancel. */
  predicate Slips(e: seq<bool>) {
    && |e| >= 16 && (forall i :: 0 <= i < |e| - 32 ==> !e[i])
    && Pw.Slip(Pw.PolyOf(TailReg(e[..|e| - 16])), Pw.PolyOf(FieldReg(e[|e| - 16..])))
  }

  /** With nothing flipped before the last two covered bytes, the field must cancel them. */
  lemma TailCancels(e: seq<bool>)
    requires |e| >= 16 && forall i :: 0 <= i < |e| - 32 ==> !e[i]
    ensures var t, g := TailReg(e[..|e| - 16]), FieldReg(e[|e| - 16..]);
            && (Syndrome(e) == Fill(false) <==> Shifts(16, t) == g)
            && (Syndrome(e) == Fill(false) <==> Pw.PolyOf(g) == Pw.Times16(Pw.PolyOf(t)))
  {
    hide Feed;
    hide Shifts;
    hide Pw.PolyOf;
    hide Pw.Times;
    hide Pw.Times16;
    hide TailReg;
    hide FieldReg;
    var k := |e| - 16;
    var t, g := TailReg(e[..k]), FieldReg(e[k..]);
    TailFeeds(e[..k]);
    SumZero(Shifts(16, t), g);
    Pw.ShiftsAreTimes(16, t);
    Pw.SixteenSteps(Pw.PolyOf(t));
    Pw.PolyDecides(Shifts(16, t), g);
  }

  lemma CrossingBurst(e: seq<bool>, a: nat)
    requires |e| >= 16 && InBurst(e, a) && a + 16 > |e| - 16
    ensures Syndrome(e) == Fill(false) <==> Slips(e)
  {
    hide Syndrome;
    hide Shifts;
    hide Pw.PolyOf;
    hide Pw.Slip;
    hide Pw.Times16;
    hide TailReg;
    hide FieldReg;
    TailCancels(e);
    if Slips(e) {
      Pw.SlipsCancel(Pw.PolyOf(TailReg(e[..|e| - 16])), Pw.PolyOf(FieldReg(e[|e| - 16..])));
    } else if Syndrome(e) == Fill(false) {
      CrossingSlips(e, a);
    }
  }

  lemma CrossingSlips(e: seq<bool>, a: nat)
    requires |e| >= 16 && InBurst(e, a) && a + 16 > |e| - 16 && Syndrome(e) == Fill(false)
    ensures Slips(e)
  {
    hide Syndrome;
    hide Shifts;
    hide Pw.PolyOf;
    hide Pw.Slip;
    hide Pw.Times16;
    hide Pw.Short;
    hide Pw.Empty;
    hide TailReg;
    hide FieldReg;
    TailCancels(e);
    var k := |e| - 16;
    var t, g := TailReg(e[..k]), FieldReg(e[k..]);
    BurstIsShort(e, a);
    ShortHolds(t, g, k - a);
    TailNotEmpty(e, t, g);
    Pw.ShortSlips(Pw.PolyOf(t));
  }

  lemma BurstIsShort(e: seq<bool>, a: nat)
    requires |e| >= 16 && InBurst(e, a)
    ensures var k := |e| - 16; var t, g := TailReg(e[..k]), FieldReg(e[k..]);
            && (forall i :: 0 <= i < 16 && t[i] ==> i < k - a)
            && (forall j :: 0 <= j < 16 && g[j] ==> Stored(j) < 16 - (k - a))
  {
    var k := |e| - 16;
    var t, g := TailReg(e[..k]), FieldReg(e[k..]);
    forall i | 0 <= i < 16 && t[i] ensures i < k - a {
      assert e[k - 1 - i];
    }
    forall j | 0 <= j < 16 && g[j] ensures Stored(j) < 16 - (k - a) {
      assert e[k + Stored(j)];
    }
  }

  lemma TailNotEmpty(e: seq<bool>, t: Reg, g: Reg)
    requires |e| >= 16 && !AllFalse(e) && (forall i :: 0 <= i < |e| - 32 ==> !e[i])
    requires t == TailReg(e[..|e| - 16]) && g == FieldReg(e[|e| - 16..]) && Shifts(16, t) == g
    ensures !Pw.Empty(Pw.PolyOf(t))
  {
    hide Shifts;
    var k, z := |e| - 16, Fill(false);
    if t == z {
      ShiftsZero(16, z);
      forall i | 0 <= i < |e| ensures !e[i] {
        if k - 16 <= i < k { assert !t[k - 1 - i]; }
        if i >= k { FieldCovers(e[k..], i - k); }
      }
    }
    EmptyPoly(t);
  }

  lemma FieldCovers(f: seq<bool>, i: nat)
    requires |f| == 16 && i < 16 && FieldReg(f) == Fill(false)
    ensures !f[i]
  {
    var j := if i < 8 then 7 - i else 23 - i;
    assert Stored(j) == i && !FieldReg(f)[j];
  }

  lemma EmptyPoly(t: Reg)
    ensures Pw.Empty(Pw.PolyOf(t)) <==> t == Fill(false)
  {
    Pw.PolyDecides(t, Fill(false));
  }

  /** A burst of at most 16 bits anywhere in a packet goes unnoticed exactly when it is one of the
      twelve across the boundary. */
  lemma BurstExact(p: seq<byte>, q: seq<byte>, a: nat)
    requires |p| == |q| >= 2 && Sealed(p) && InBurst(Flips(p, q), a)
    ensures Sealed(q) <==> Slips(Flips(p, q))
  {
    hide Feed;
    hide Syndrome;
    hide Pw.PolyOf;
    hide Pw.Slip;
    var e := Flips(p, q);
    UnnoticedSyndrome(p, q);
    if a + 16 > |e| - 16 {
      CrossingBurst(e, a);
    } else {
      InsideBurst(e, a);
    }
  }

  lemma InsideBurst(e: seq<bool>, a: nat)
    requires |e| >= 16 && InBurst(e, a) && a + 16 <= |e| - 16
    ensures Syndrome(e) != Fill(false) && !Slips(e)
  {
    hide Feed;
    hide Pw.PolyOf;
    hide Pw.Slip;
    var k := |e| - 16;
    BurstShows(e[..k], a);
    assert FieldReg(e[k..]) == Fill(false);
    SumWithZero(Feed(Fill(false), e[..k]));
    EmptyPoly(FieldReg(e[k..]));
    if Slips(e) { Pw.SlipsCancel(Pw.PolyOf(TailReg(e[..k])), Pw.PolyOf(FieldReg(e[k..]))); }
  }

  // --- One of the twelve ---------------------------------------------------------------------

  lemma {:induction false} BitsAt(p: seq<byte>, j: nat, i: nat)
    requires j < |p| && i < 8
    ensures BitsOf(p)[8 * j + i] == Bit(p[j], 7 - i)
  {
    if j > 0 { BitsAt(p[1..], j - 1, i); } else { assert BitsOf(p)[i] == SentAt(p[0], i); }
  }

  lemma FlipOf(p: seq<byte>, q: seq<byte>, j: nat, i: nat, m: nat)
    requires |p| == |q| && j < |p| && i < 8 && q[j] == Xor(p[j], m)
    ensures Flips(p, q)[8 * j + i] == Bit(m, 7 - i)
  {
    BitsAt(p, j, i);
    BitsAt(q, j, i);
    XorBit(p[j], m, 7 - i);
  }

  lemma ByteXor(b: byte, m: nat)
    requires m < 0x100
    ensures Xor(b, m) < 0x100
  {
    Pow2Sixteen();
    XorBound(b, m, 8);
  }

  /** p with its last covered bit flipped, and the low and high byte of its checksum field changed
      by 0x21 and 0x10. */
  function Slipped(p: seq<byte>): (q: seq<byte>)
    requires |p| >= 3
    ensures |q| == |p|
  {
    var k := |p| - 2;
    ByteXor(p[k - 1], 1); ByteXor(p[k], 0x21); ByteXor(p[k + 1], 0x10);
    p[k - 1 := Xor(p[k - 1], 1)][k := Xor(p[k], 0x21)][k + 1 := Xor(p[k + 1], 0x10)]
  }

  lemma MaskBits(i: nat)
    requires i < 8
    ensures Bit(1, i) == (i == 0) && Bit(0x21, i) == (i == 0 || i == 5) && Bit(0x10, i) == (i == 4)
  {
    LowNibble(1); LowNibble(0x21); LowNibble(0x10); LowNibble(2); LowNibble(0);
    if i >= 4 { NextNibble(1, i); NextNibble(0x21, i); NextNibble(0x10, i); }
  }

  lemma SameByte(p: seq<byte>, q: seq<byte>, x: nat)
    requires |p| == |q| && x < 8 * |p| && p[x / 8] == q[x / 8]
    ensures !Flips(p, q)[x]
  {
    BitsAt(p, x / 8, x % 8);
    BitsAt(q, x / 8, x % 8);
  }

  /** The flips, position by position from the last covered bit on: 13 bits long. */
  lemma SlippedFlips(p: seq<byte>, x: nat)
    requires |p| >= 3 && x < 8 * |p|
    ensures var n := 8 * |p| - 16;
            Flips(p, Slipped(p))[x] <==> x == n - 1 || x == n + 2 || x == n + 7 || x == n + 11
  {
    var q, k, j, i := Slipped(p), |p| - 2, x / 8, x % 8;
    if j < k - 1 {
      SameByte(p, q, x);
    } else {
      MaskBits(7 - i);
      FlipOf(p, q, j, i, if j == k - 1 then 1 else if j == k then 0x21 else 0x10);
    }
  }

  /** So a burst of 13 bits turns every packet with a matching checksum into another. */
  lemma BurstSlips(p: seq<byte>)
    requires |p| >= 3 && Sealed(p)
    ensures Slipped(p) != p && Sealed(Slipped(p)) && InBurst(Flips(p, Slipped(p)), 8 * |p| - 17)
  {
    hide Pw.Slip;
    hide Slipped;
    hide Sealed;
    hide Flips;
    var q, n := Slipped(p), 8 * |p| - 16;
    var e := Flips(p, q);
    forall x | 0 <= x < |e| ensures e[x] <==> x == n - 1 || x == n + 2 || x == n + 7 || x == n + 11 {
      SlippedFlips(p, x);
    }
    assert e[n - 1];
    SlippedSlips(e);
    BurstExact(p, q, n - 1);
    if q == p { SameByte(p, q, n - 1); }
  }

  lemma SlippedSlips(e: seq<bool>)
    requires |e| >= 24
    requires var n := |e| - 16;
             forall x :: 0 <= x < |e| ==> (e[x] <==> x == n - 1 || x == n + 2 || x == n + 7 || x == n + 11)
    ensures Slips(e)
  {
    var n := |e| - 16;
    var t, g := TailReg(e[..n]), FieldReg(e[n..]);
    assert forall i :: 0 <= i < 16 ==> t[i] == (i == 0);
    assert forall i :: 0 <= i < 16 ==> g[i] == (i == 0 || i == 5 || i == 12);
    OneSlip(t, g);
  }

  lemma OneSlip(t: Reg, g: Reg)
    requires forall i :: 0 <= i < 16 ==> t[i] == (i == 0) && g[i] == (i == 0 || i == 5 || i == 12)
    ensures Pw.Slip(Pw.PolyOf(t), Pw.PolyOf(g))
  {
  }
}
