// The powers of x modulo the generator of the mailbox checksum. x^n is 1 exactly when 32767
// divides n, which decides which pairs of flipped bits cancel.

module CrcPowers {
  import opened Bytes
  import opened Crc

  // --- Polynomials ---------------------------------------------------------------------------

  /** A register with one field per coefficient, for calculating. */
  datatype Poly = Poly(
    c0: bool, c1: bool, c2: bool, c3: bool, c4: bool, c5: bool, c6: bool, c7: bool,
    c8: bool, c9: bool, c10: bool, c11: bool, c12: bool, c13: bool, c14: bool, c15: bool)

  /** The polynomial whose coefficients are the bits of a word. */
  function W(w: bv16): Poly {
    Poly(w & 0x1 != 0, w & 0x2 != 0, w & 0x4 != 0, w & 0x8 != 0,
         w & 0x10 != 0, w & 0x20 != 0, w & 0x40 != 0, w & 0x80 != 0,
         w & 0x100 != 0, w & 0x200 != 0, w & 0x400 != 0, w & 0x800 != 0,
         w & 0x1000 != 0, w & 0x2000 != 0, w & 0x4000 != 0, w & 0x8000 != 0)
  }

  function PolyOf(s: Reg): Poly {
    Poly(s[0], s[1], s[2], s[3], s[4], s[5], s[6], s[7], s[8], s[9], s[10], s[11], s[12], s[13], s[14], s[15])
  }

  function Coefficient(p: Poly, i: nat): bool {
    if i < 8 then
      if i < 4 then if i < 2 then if i == 0 then p.c0 else p.c1 else if i == 2 then p.c2 else p.c3
      else if i < 6 then if i == 4 then p.c4 else p.c5 else if i == 6 then p.c6 else p.c7
    else
      if i < 12 then if i < 10 then if i == 8 then p.c8 else p.c9 else if i == 10 then p.c10 else p.c11
      else if i < 14 then if i == 12 then p.c12 else p.c13 else if i == 14 then p.c14 else p.c15
  }

  lemma CoefficientOf(s: Reg, i: nat)
    requires i < 16
    ensures Coefficient(PolyOf(s), i) == s[i]
  {
  }

  lemma PolyDecides(s: Reg, t: Reg)
    ensures PolyOf(s) == PolyOf(t) <==> s == t
  {
    hide PolyOf;
    hide Coefficient;
    if PolyOf(s) == PolyOf(t) {
      forall i | 0 <= i < 16 ensures s[i] == t[i] {
        CoefficientOf(s, i);
        CoefficientOf(t, i);
      }
    }
  }

  /** Multiplication by x modulo the generator. */
  function TimesX(p: Poly): Poly {
    Poly(p.c15, p.c0, p.c1, p.c2, p.c3, p.c4 != p.c15, p.c5, p.c6,
         p.c7, p.c8, p.c9, p.c10, p.c11 != p.c15, p.c12, p.c13, p.c14)
  }

  lemma ShiftIsTimesX(s: Reg)
    ensures PolyOf(Shift(s)) == TimesX(PolyOf(s))
  {
    assert forall i :: 0 <= i < 16 ==> Shift(s)[i] == ShiftAt(s, i);
  }

  /** w times x^n. */
  function Times(n: nat, w: Poly): Poly {
    if n == 0 then w else TimesX(Times(n - 1, w))
  }

  lemma {:induction false} ShiftsAreTimes(n: nat, s: Reg)
    ensures PolyOf(Shifts(n, s)) == Times(n, PolyOf(s))
  {
    hide Shift;
    hide PolyOf;
    hide TimesX;
    if n > 0 {
      ShiftsAreTimes(n - 1, s);
      ShiftIsTimesX(Shifts(n - 1, s));
    }
  }

  // --- Squares -------------------------------------------------------------------------------

  /** Squaring is linear over GF(2): x^i goes to x^(2i), reduced. */
  function Square(p: Poly): Poly {
    Poly(
      p.c0 != (p.c8 != (p.c10 != (p.c12 != p.c14))),
      p.c14,
      p.c1 != (p.c9 != (p.c11 != (p.c13 != p.c15))),
      p.c15,
      p.c2 != (p.c10 != (p.c12 != p.c14)),
      p.c8 != (p.c10 != (p.c12 != p.c14)),
      p.c3 != (p.c11 != (p.c13 != (p.c14 != p.c15))),
      p.c9 != (p.c11 != (p.c13 != p.c15)),
      p.c4 != (p.c12 != (p.c14 != p.c15)),
      p.c10 != (p.c12 != p.c14),
      p.c5 != (p.c13 != p.c15),
      p.c11 != (p.c13 != p.c15),
      p.c6 != (p.c8 != (p.c10 != p.c12)),
      p.c12,
      p.c7 != (p.c9 != (p.c11 != p.c13)),
      p.c13)
  }

  lemma SquareA(p: Poly)
    ensures var a, b := Square(TimesX(p)), TimesX(TimesX(Square(p)));
            a.c0 == b.c0 && a.c1 == b.c1 && a.c2 == b.c2 && a.c3 == b.c3
  {
  }

  lemma SquareB(p: Poly)
    ensures var a, b := Square(TimesX(p)), TimesX(TimesX(Square(p)));
            a.c4 == b.c4 && a.c5 == b.c5 && a.c6 == b.c6 && a.c7 == b.c7
  {
  }

  lemma SquareC(p: Poly)
    ensures var a, b := Square(TimesX(p)), TimesX(TimesX(Square(p)));
            a.c8 == b.c8 && a.c9 == b.c9 && a.c10 == b.c10 && a.c11 == b.c11
  {
  }

  lemma SquareD(p: Poly)
    ensures var a, b := Square(TimesX(p)), TimesX(TimesX(Square(p)));
            a.c12 == b.c12 && a.c13 == b.c13 && a.c14 == b.c14 && a.c15 == b.c15
  {
  }

  lemma SquareTimesX(p: Poly)
    ensures Square(TimesX(p)) == TimesX(TimesX(Square(p)))
  {
    hide Square;
    hide TimesX;
    SquareA(p); SquareB(p); SquareC(p); SquareD(p);
  }

  /** x^n */
  function X(n: nat): Poly { Times(n, W(1)) }

  lemma {:induction false} PowerDoubles(n: nat)
    ensures X(2 * n) == Square(X(n))
  {
    hide TimesX;
    if n == 0 {
      assert X(0) == W(1) && Square(W(1)) == W(1);
    } else {
      PowerDoubles(n - 1);
      SquareTimesX(X(n - 1));
      assert X(2 * n) == TimesX(X(2 * n - 1)) == TimesX(TimesX(X(2 * n - 2)));
    }
  }

  lemma DoubleUp(n: nat, w: Poly, w': Poly)
    requires X(n) == w && Square(w) == w'
    ensures X(2 * n) == w'
  {
    PowerDoubles(n);
  }

  lemma DoublePlus(n: nat, w: Poly, w': Poly)
    requires X(n) == w && TimesX(Square(w)) == w'
    ensures X(2 * n + 1) == w'
  {
    hide TimesX;
    hide Square;
    PowerDoubles(n);
  }

  lemma First()
    ensures X(1) == W(2)
  {
    assert X(1) == TimesX(X(0));
  }

  lemma Power217()
    ensures X(217) == W(0x48e3)
  {
    hide X;
    First();
    DoublePlus(1, W(0x2), W(0x8)); DoubleUp(3, W(0x8), W(0x40)); DoublePlus(6, W(0x40), W(0x2000));
    DoublePlus(13, W(0x2000), W(0x89a9));
    DoubleUp(27, W(0x89a9), W(0x1168)); DoubleUp(54, W(0x1168), W(0x3750)); DoublePlus(108, W(0x3750), W(0x48e3));
  }

  lemma Power1057()
    ensures X(1057) == W(0xf2af)
  {
    hide X;
    First();
    DoubleUp(1, W(0x2), W(0x4)); DoubleUp(2, W(0x4), W(0x10)); DoubleUp(4, W(0x10), W(0x100));
    DoubleUp(8, W(0x100), W(0x1021));
    DoublePlus(16, W(0x1021), W(0x6e60));
    DoubleUp(33, W(0x6e60), W(0xc1c6)); DoubleUp(66, W(0xc1c6), W(0x4e8a)); DoubleUp(132, W(0x4e8a), W(0x5946));
    DoubleUp(264, W(0x5946), W(0x78b3));
    DoublePlus(528, W(0x78b3), W(0xf2af));
  }

  lemma Power4681()
    ensures X(4681) == W(0x2c42)
  {
    hide X;
    First();
    DoubleUp(1, W(0x2), W(0x4)); DoubleUp(2, W(0x4), W(0x10)); DoublePlus(4, W(0x10), W(0x200));
    DoubleUp(9, W(0x200), W(0x4084));
    DoubleUp(18, W(0x4084), W(0x4363));
    DoublePlus(36, W(0x4363), W(0x8fa6)); DoubleUp(73, W(0x8fa6), W(0x4388)); DoubleUp(146, W(0x4388), W(0x1396));
    DoublePlus(292, W(0x1396), W(0x4500));
    DoubleUp(585, W(0x4500), W(0x163)); DoubleUp(1170, W(0x163), W(0x424)); DoublePlus(2340, W(0x424), W(0x2c42));
  }

  lemma Power32767()
    ensures X(32767) == W(1)
  {
    hide X;
    First();
    DoublePlus(1, W(0x2), W(0x8)); DoublePlus(3, W(0x8), W(0x80)); DoublePlus(7, W(0x80), W(0x8000));
    DoublePlus(15, W(0x8000), W(0x1b98));
    DoublePlus(31, W(0x1b98), W(0xd420));
    DoublePlus(63, W(0xd420), W(0x577e)); DoublePlus(127, W(0x577e), W(0xcf04)); DoublePlus(255, W(0xcf04), W(0x9fe));
    DoublePlus(511, W(0x9fe), W(0x1b62));
    DoublePlus(1023, W(0x1b62), W(0x7ea8)); DoublePlus(2047, W(0x7ea8), W(0x554f));
    DoublePlus(4095, W(0x554f), W(0x440e));
    DoublePlus(8191, W(0x440e), W(0x222c));
    DoublePlus(16383, W(0x222c), W(0x1));
  }

  // --- The order of x ------------------------------------------------------------------------

  lemma {:induction false} TimesAdds(a: nat, b: nat, w: Poly)
    ensures Times(a + b, w) == Times(a, Times(b, w))
  {
    hide TimesX;
    if a > 0 { TimesAdds(a - 1, b, w); }
  }

  /** TimesX loses nothing: the low bit tells whether the generator was subtracted. */
  lemma TimesXInjective(v: Poly, w: Poly)
    requires TimesX(v) == TimesX(w)
    ensures v == w
  {
  }

  lemma {:induction false} TimesInjective(n: nat, v: Poly, w: Poly)
    requires Times(n, v) == Times(n, w)
    ensures v == w
  {
    hide TimesX;
    if n > 0 {
      TimesXInjective(Times(n - 1, v), Times(n - 1, w));
      TimesInjective(n - 1, v, w);
    }
  }

  /** x^(a + b) = x^a exactly when x^b = 1. */
  lemma Cancels(a: nat, b: nat)
    ensures X(a + b) == X(a) <==> X(b) == W(1)
  {
    hide Times;
    TimesAdds(a, b, W(1));
    if X(a + b) == X(a) { TimesInjective(a, Times(b, W(1)), W(1)); }
  }

  lemma {:induction false} Multiples(d: nat, k: nat)
    requires X(d) == W(1)
    ensures X(k * d) == W(1)
  {
    hide TimesX;
    if k > 0 {
      Multiples(d, k - 1);
      assert k * d == (k - 1) * d + d;
      Cancels((k - 1) * d, d);
    } else {
      assert k * d == 0;
    }
  }

  /** Euclid's algorithm stays among the exponents of 1. */
  lemma {:induction false} Common(m: nat, a: nat, b: nat) returns (g: nat, s: nat, t: nat)
    requires a > 0 && X(m * a) == W(1) && X(m * b) == W(1)
    ensures g > 0 && X(m * g) == W(1) && a == s * g && b == t * g
    decreases b
  {
    hide X;
    if b == 0 {
      g, s, t := a, 1, 0;
    } else {
      var q, r := a / b, a % b;
      assert a == q * b + r;
      assert m * a == m * r + q * (m * b);
      Multiples(m * b, q);
      Cancels(m * r, q * (m * b));
      var s', t';
      g, s', t' := Common(m, b, r);
      s, t := q * s' + t', s';
      assert q * (s' * g) == (q * s') * g;
    }
  }

  lemma SmallFactor(g: nat, t: nat, p: nat)
    requires (p == 7 || p == 31 || p == 151) && 1 < g <= 12 && g < p
    ensures g * t != p
  {
    assert g == 2 || g == 3 || g == 4 || g == 5 || g == 6 || g == 7
           || g == 8 || g == 9 || g == 10 || g == 11 || g == 12;
  }

  lemma NoFactor(g: nat, t: nat, p: nat)
    requires (p == 7 || p == 31 || p == 151) && g * t == p
    ensures g == 1 || g == p
  {
    if 1 < g < p && g <= 12 {
      SmallFactor(g, t, p);
    } else if 1 < g < p && t <= 12 {
      SmallFactor(t, g, p);
    } else if 1 < g < p {
      MulStep(g, 12, t);
    }
  }

  /** An exponent of 1 that misses a prime factor p of 32767 makes 32767 / p one. */
  lemma MissesPrime(r: nat, m: nat, p: nat)
    requires (p == 7 || p == 31 || p == 151) && m * p == 32767 && X(r) == W(1) && r % p != 0
    ensures X(m) == W(1)
  {
    hide X;
    Power32767();
    Multiples(r, m);
    var g, s, t := Common(m, p, r);
    NoFactor(g, s, p);
    if g == p { Quotient(r, p, t, 0); }
  }

  lemma ChineseRemainder(n: nat)
    requires n % 151 == 0 && n % 31 == 0 && n % 7 == 0
    ensures n % 32767 == 0
  {
    // 39 * 31 == 8 * 151 + 1 and 3 * 4681 == 2006 * 7 + 1
    var j := 39 * (n / 151) - 8 * (n / 31);
    var l := 3 * (n / 7) - 2006 * j;
    Combined(n, n / 151, n / 31, n / 7, j, l);
    Quotient(n, 32767, l, 0);
  }

  lemma Combined(n: nat, k: nat, m: nat, p: nat, j: int, l: int)
    requires n == 151 * k == 31 * m == 7 * p && j == 39 * k - 8 * m && l == 3 * p - 2006 * j
    ensures n == 32767 * l && l >= 0
  {
    assert k == 31 * j;
    assert j == 7 * l;
  }

  /** x^n = 1 exactly when 32767 = 7 * 31 * 151 divides n. */
  lemma OrderOfX(n: nat)
    ensures X(n) == W(1) <==> n % 32767 == 0
  {
    hide X;
    hide W;
    if n % 32767 == 0 {
      Power32767();
      Multiples(32767, n / 32767);
      assert n == n / 32767 * 32767;
    } else if X(n) == W(1) {
      NotThese();
      if n % 151 != 0 {
        MissesPrime(n, 217, 151);
      } else if n % 31 != 0 {
        MissesPrime(n, 1057, 31);
      } else if n % 7 != 0 {
        MissesPrime(n, 4681, 7);
      } else {
        ChineseRemainder(n);
      }
    }
  }

  lemma NotThese()
    ensures X(217) != W(1) && X(1057) != W(1) && X(4681) != W(1)
  {
    hide X;
    Power217();
    Power1057();
    Power4681();
  }

  // --- Sixteen steps at once -----------------------------------------------------------------

  /** p times x^4. */
  function Times4(p: Poly): Poly {
    Poly(p.c12, p.c13, p.c14, p.c15, p.c0, p.c1 != p.c12, p.c2 != p.c13, p.c3 != p.c14,
         p.c4 != p.c15, p.c5, p.c6, p.c7, p.c8 != p.c12, p.c9 != p.c13, p.c10 != p.c14, p.c11 != p.c15)
  }

  lemma FourSteps(n: nat, p: Poly)
    ensures Times(n + 4, p) == Times4(Times(n, p))
  {
    var q := Times(n, p);
    assert Times(n + 2, p) == TimesX(TimesX(q));
    assert Times(n + 4, p) == TimesX(TimesX(Times(n + 2, p)));
  }

  /** p times x^16. */
  function Times16(p: Poly): Poly {
    Times4(Times4(Times4(Times4(p))))
  }

  lemma SixteenSteps(p: Poly)
    ensures Times(16, p) == Times16(p)
  {
    hide Times4;
    FourSteps(0, p); FourSteps(4, p); FourSteps(8, p); FourSteps(12, p);
  }

  /** The flips c of the covered bits, the last one c0, and f of the field, in the order they are
      stored, span at most 16 bits. */
  predicate Short(c: Poly, f: Poly) {
    var b15 := f.c8;
    var b14 := f.c9 || b15;
    var b13 := f.c10 || b14;
    var b12 := f.c11 || b13;
    var b11 := f.c12 || b12;
    var b10 := f.c13 || b11;
    var b9 := f.c14 || b10;
    var b8 := f.c15 || b9;
    var b7 := f.c0 || b8;
    var b6 := f.c1 || b7;
    var b5 := f.c2 || b6;
    var b4 := f.c3 || b5;
    var b3 := f.c4 || b4;
    var b2 := f.c5 || b3;
    var b1 := f.c6 || b2;
    var b0 := f.c7 || b1;
    !(c.c0 && b15) && !(c.c1 && b14) && !(c.c2 && b13) && !(c.c3 && b12)
    && !(c.c4 && b11) && !(c.c5 && b10) && !(c.c6 && b9) && !(c.c7 && b8)
    && !(c.c8 && b7) && !(c.c9 && b6) && !(c.c10 && b5) && !(c.c11 && b4)
    && !(c.c12 && b3) && !(c.c13 && b2) && !(c.c14 && b1) && !(c.c15 && b0)
  }

  /** The lowest u bits of c and the first 16 - u of f, as stored. */
  lemma ShortUnder(c: Poly, f: Poly, u: int)
    requires (c.c0 ==> 0 < u) && (c.c1 ==> 1 < u) && (c.c2 ==> 2 < u) && (c.c3 ==> 3 < u)
             && (c.c4 ==> 4 < u) && (c.c5 ==> 5 < u) && (c.c6 ==> 6 < u) && (c.c7 ==> 7 < u)
             && (c.c8 ==> 8 < u) && (c.c9 ==> 9 < u) && (c.c10 ==> 10 < u) && (c.c11 ==> 11 < u)
             && (c.c12 ==> 12 < u) && (c.c13 ==> 13 < u) && (c.c14 ==> 14 < u) && (c.c15 ==> 15 < u)
    requires (f.c8 ==> u < 1) && (f.c9 ==> u < 2) && (f.c10 ==> u < 3) && (f.c11 ==> u < 4)
             && (f.c12 ==> u < 5) && (f.c13 ==> u < 6) && (f.c14 ==> u < 7) && (f.c15 ==> u < 8)
             && (f.c0 ==> u < 9) && (f.c1 ==> u < 10) && (f.c2 ==> u < 11) && (f.c3 ==> u < 12)
             && (f.c4 ==> u < 13) && (f.c5 ==> u < 14) && (f.c6 ==> u < 15) && (f.c7 ==> u < 16)
    ensures Short(c, f)
  {
  }

  predicate LowThree(c: Poly) {
    !c.c3 && !c.c4 && !c.c5 && !c.c6 && !c.c7 && !c.c8 && !c.c9
    && !c.c10 && !c.c11 && !c.c12 && !c.c13 && !c.c14 && !c.c15
  }

  predicate Empty(c: Poly) { LowThree(c) && !c.c0 && !c.c1 && !c.c2 }

  const C0089 := Poly(true, false, false, true, false, false, false, true,
                      false, false, false, false, false, false, false, false)
  const F00a1 := Poly(true, false, false, false, false, true, false, true,
                      false, false, false, false, false, false, false, false)
  const C0235 := Poly(true, false, true, false, true, true, false, false,
                      false, true, false, false, false, false, false, false)
  const F0094 := Poly(false, false, true, false, true, false, false, true,
                      false, false, false, false, false, false, false, false)
  const C08c5 := Poly(true, false, true, false, false, false, true, true,
                      false, false, false, true, false, false, false, false)
  const F0040 := Poly(false, false, false, false, false, false, true, false,
                      false, false, false, false, false, false, false, false)
  const C118a := Poly(false, true, false, true, false, false, false, true,
                      true, false, false, false, true, false, false, false)
  const F0080 := Poly(false, false, false, false, false, false, false, true,
                      false, false, false, false, false, false, false, false)
  const C194f := Poly(true, true, true, true, false, false, true, false,
                      true, false, false, true, true, false, false, false)
  const F00c0 := Poly(false, false, false, false, false, false, true, true,
                      false, false, false, false, false, false, false, false)

  /** The twelve short patterns that cancel: the seven of the last three covered bits, repeated at
      x^0, x^5 and x^12 of the field, and five more. The names spell the flips of the last two
      covered bytes and of the field as hexadecimal numbers. */
  predicate Slip(c: Poly, f: Poly) {
    || (LowThree(c) && !Empty(c) && f == Thrice(c))
    || (c == C0089 && f == F00a1) || (c == C0235 && f == F0094) || (c == C08c5 && f == F0040)
    || (c == C118a && f == F0080) || (c == C194f && f == F00c0)
  }

  function Thrice(c: Poly): Poly {
    Poly(c.c0, c.c1, c.c2, false, false, c.c0, c.c1, c.c2, false, false, false, false, c.c0, c.c1, c.c2, false)
  }

  lemma ShortSlips(c: Poly)
    requires Short(c, Times16(c)) && !Empty(c)
    ensures Slip(c, Times16(c))
  {
  }

  lemma LowSlips(c: Poly)
    requires LowThree(c)
    ensures Times16(c) == Thrice(c)
  {
    var a := Times4(Times4(Times4(c)));
    assert a == Poly(false, false, false, false, false, false, false, false,
                     false, false, false, false, c.c0, c.c1, c.c2, false);
  }

  lemma Slip0089() ensures Times16(C0089) == F00a1 {}

  lemma Slip0235() ensures Times16(C0235) == F0094 {}

  lemma Slip08c5() ensures Times16(C08c5) == F0040 {}

  lemma Slip118a() ensures Times16(C118a) == F0080 {}

  lemma Slip194f() ensures Times16(C194f) == F00c0 {}

  lemma SlipsCancel(c: Poly, f: Poly)
    requires Slip(c, f)
    ensures f == Times16(c) && !Empty(c) && !Empty(f)
  {
    hide Times16;
    if LowThree(c) { LowSlips(c); }
    Slip0089(); Slip0235(); Slip08c5(); Slip118a(); Slip194f();
  }
}
