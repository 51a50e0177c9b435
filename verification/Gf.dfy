/** GF(2^8) as polynomials over GF(2) modulo x^8 + x^4 + x^3 + x^2 + 1. */
module Gf256 {

  /** A byte, read as the polynomial b0 + b1 x + ... + b7 x^7. */
  datatype Gf = Gf(b0: bool, b1: bool, b2: bool, b3: bool, b4: bool, b5: bool, b6: bool, b7: bool)

  const ZERO := Gf(false, false, false, false, false, false, false, false)
  const ONE := Gf(true, false, false, false, false, false, false, false)

  /** One more than the degree; zero for the zero polynomial. */
  function Len(a: Gf): nat {
    if a.b7 then 8 else if a.b6 then 7 else if a.b5 then 6 else if a.b4 then 5 else
    if a.b3 then 4 else if a.b2 then 3 else if a.b1 then 2 else if a.b0 then 1 else 0
  }

  /** The number with lowest bit `b` and the rest of its bits above. */
  function Word(b: bool, rest: nat): nat { (if b then 1 else 0) + 2 * rest }

  /** The unsigned char holding this polynomial. */
  function ToInt(a: Gf): (n: nat)
    ensures n < 256
  {
    Word(a.b0, Word(a.b1, Word(a.b2, Word(a.b3, Word(a.b4, Word(a.b5, Word(a.b6, Word(a.b7, 0))))))))
  }

  function FromInt(n: nat): Gf
    requires n < 256
  {
    var n1 := n / 2; var n2 := n1 / 2; var n3 := n2 / 2; var n4 := n3 / 2;
    var n5 := n4 / 2; var n6 := n5 / 2; var n7 := n6 / 2;
    Gf(n % 2 == 1, n1 % 2 == 1, n2 % 2 == 1, n3 % 2 == 1, n4 % 2 == 1, n5 % 2 == 1, n6 % 2 == 1, n7 % 2 == 1)
  }

  lemma WordSplit(n: nat)
    ensures Word(n % 2 == 1, n / 2) == n
  {
  }

  lemma ToIntFromInt(n: nat)
    requires n < 256
    ensures ToInt(FromInt(n)) == n
  {
    hide Word;
    var n1 := n / 2; var n2 := n1 / 2; var n3 := n2 / 2; var n4 := n3 / 2;
    var n5 := n4 / 2; var n6 := n5 / 2; var n7 := n6 / 2;
    WordSplit(n); WordSplit(n1); WordSplit(n2); WordSplit(n3);
    WordSplit(n4); WordSplit(n5); WordSplit(n6); WordSplit(n7);
    assert n7 / 2 == 0;
  }

  lemma WordInjective(x: bool, m: nat, y: bool, n: nat)
    requires Word(x, m) == Word(y, n)
    ensures x == y && m == n
  {
  }

  lemma ToIntInjective(a: Gf, b: Gf)
    requires ToInt(a) == ToInt(b)
    ensures a == b
  {
    hide Word;
    var a6, c6 := Word(a.b6, Word(a.b7, 0)), Word(b.b6, Word(b.b7, 0));
    var a4, c4 := Word(a.b4, Word(a.b5, a6)), Word(b.b4, Word(b.b5, c6));
    var a2, c2 := Word(a.b2, Word(a.b3, a4)), Word(b.b2, Word(b.b3, c4));
    WordInjective(a.b0, Word(a.b1, a2), b.b0, Word(b.b1, c2));
    WordInjective(a.b1, a2, b.b1, c2);
    WordInjective(a.b2, Word(a.b3, a4), b.b2, Word(b.b3, c4));
    WordInjective(a.b3, a4, b.b3, c4);
    WordInjective(a.b4, Word(a.b5, a6), b.b4, Word(b.b5, c6));
    WordInjective(a.b5, a6, b.b5, c6);
    WordInjective(a.b6, Word(a.b7, 0), b.b6, Word(b.b7, 0));
    WordInjective(a.b7, 0, b.b7, 0);
  }

  function Shr(a: Gf): Gf { Gf(a.b1, a.b2, a.b3, a.b4, a.b5, a.b6, a.b7, false) }

  function Xor(a: Gf, b: Gf): Gf {
    Gf(a.b0 != b.b0, a.b1 != b.b1, a.b2 != b.b2, a.b3 != b.b3,
       a.b4 != b.b4, a.b5 != b.b5, a.b6 != b.b6, a.b7 != b.b7)
  }

  /** Multiplication by x. */
  function Xtime(a: Gf): Gf {
    Gf(a.b7, a.b0, a.b1 != a.b7, a.b2 != a.b7, a.b3 != a.b7, a.b4, a.b5, a.b6)
  }

  const REMAINDER := Gf(true, false, true, true, true, false, false, false)

  /** On numbers it doubles, and the polynomial 285 is taken off where that leaves the byte. */
  lemma XtimeDoubles(a: Gf)
    ensures ToInt(REMAINDER) == 285 - 256
    ensures ToInt(a) < 128 ==> ToInt(Xtime(a)) == 2 * ToInt(a)
    ensures ToInt(a) >= 128 ==> ToInt(Xor(Xtime(a), REMAINDER)) == 2 * ToInt(a) - 256
  {
    hide ToInt;
    RemainderIs();
    TopBit(a);
    if a.b7 {
      assert Xor(Xtime(a), REMAINDER) == Gf(false, a.b0, a.b1, a.b2, a.b3, a.b4, a.b5, a.b6);
    } else {
      assert Xtime(a) == Gf(false, a.b0, a.b1, a.b2, a.b3, a.b4, a.b5, a.b6);
    }
  }

  lemma RemainderIs()
    ensures ToInt(REMAINDER) == 29
  {
  }

  lemma WordPlus(b: bool, m: nat, n: nat)
    ensures Word(b, m + n) == Word(b, m) + 2 * n
    ensures Word(b, m) <= 2 * m + 1 && Word(false, m) == 2 * m
  {
  }

  /** The highest bit is worth 128, and the others move up. */
  lemma TopBit(a: Gf)
    ensures ToInt(Gf(false, a.b0, a.b1, a.b2, a.b3, a.b4, a.b5, a.b6)) == 2 * (ToInt(a) - if a.b7 then 128 else 0)
    ensures ToInt(a) < 128 <==> !a.b7
  {
    hide Word;
    var d, w6 := if a.b7 then 1 else 0, Word(a.b6, 0);
    WordPlus(a.b7, 0, 0);
    LastWord(a.b7);
    WordPlus(a.b6, 0, d);
    var w5 := Word(a.b5, w6);
    WordPlus(a.b5, w6, 2 * d);
    var w4 := Word(a.b4, w5);
    WordPlus(a.b4, w5, 4 * d);
    var w3 := Word(a.b3, w4);
    WordPlus(a.b3, w4, 8 * d);
    var w2 := Word(a.b2, w3);
    WordPlus(a.b2, w3, 16 * d);
    var w1 := Word(a.b1, w2);
    WordPlus(a.b1, w2, 32 * d);
    var w0 := Word(a.b0, w1);
    WordPlus(a.b0, w1, 64 * d);
    WordPlus(false, w0, 0);
  }

  lemma LastWord(b: bool)
    ensures Word(b, 0) == if b then 1 else 0
  {
  }

  function When(bit: bool, a: Gf): Gf { if bit then a else ZERO }

  /** The product of two polynomials, one coefficient of `b` at a time. */
  function Mul(a: Gf, b: Gf): Gf
    decreases Len(b)
  {
    if b == ZERO then ZERO else Xor(When(b.b0, a), Mul(Xtime(a), Shr(b)))
  }

  // ---- Xor: the additive group ----

  lemma XorComm(a: Gf, b: Gf)
    ensures Xor(a, b) == Xor(b, a)
  {
  }

  lemma XorAssoc(a: Gf, b: Gf, c: Gf)
    ensures Xor(Xor(a, b), c) == Xor(a, Xor(b, c))
  {
  }

  lemma XorZero(a: Gf)
    ensures Xor(a, ZERO) == a && Xor(ZERO, a) == a
  {
  }

  lemma XorSelf(a: Gf, b: Gf)
    ensures Xor(a, b) == ZERO <==> a == b
  {
  }

  /** Adding the same element twice leaves the other summand. */
  lemma XorCancel(a: Gf, b: Gf)
    ensures Xor(Xor(a, b), b) == a
  {
  }

  lemma Xor4(a: Gf, b: Gf, c: Gf, d: Gf)
    ensures Xor(Xor(a, b), Xor(c, d)) == Xor(Xor(a, c), Xor(b, d))
  {
  }

  lemma XtimeLinear(a: Gf, b: Gf)
    ensures Xtime(Xor(a, b)) == Xor(Xtime(a), Xtime(b))
  {
  }

  lemma WhenLaws(bit: bool, a: Gf, c: Gf)
    ensures When(bit, Xor(a, c)) == Xor(When(bit, a), When(bit, c))
    ensures When(bit, Xtime(a)) == Xtime(When(bit, a))
  {
  }

  // ---- Mul: a commutative ring ----

  lemma {:induction false} MulLinearLeft(a: Gf, c: Gf, b: Gf)
    ensures Mul(Xor(a, c), b) == Xor(Mul(a, b), Mul(c, b))
    decreases Len(b)
  {
    hide Xor, Xtime, When;
    if b == ZERO {
      XorZero(ZERO);
    } else {
      MulLinearLeft(Xtime(a), Xtime(c), Shr(b));
      XtimeLinear(a, c);
      WhenLaws(b.b0, a, c);
      Xor4(When(b.b0, a), When(b.b0, c), Mul(Xtime(a), Shr(b)), Mul(Xtime(c), Shr(b)));
    }
  }

  lemma {:induction false} MulXtime(a: Gf, b: Gf)
    ensures Mul(Xtime(a), b) == Xtime(Mul(a, b))
    decreases Len(b)
  {
    hide Xor, When;
    if b == ZERO {
    } else {
      MulXtime(Xtime(a), Shr(b));
      WhenLaws(b.b0, a, a);
      XtimeLinear(When(b.b0, a), Mul(Xtime(a), Shr(b)));
    }
  }

  lemma {:induction false} MulZeroLeft(b: Gf)
    ensures Mul(ZERO, b) == ZERO
    decreases Len(b)
  {
    if b != ZERO {
      MulZeroLeft(Shr(b));
    }
  }

  lemma {:induction false} MulOneLeft(b: Gf)
    ensures Mul(ONE, b) == b
    decreases Len(b)
  {
    hide Xor, Xtime;
    if b != ZERO {
      MulXtime(ONE, Shr(b));
      MulOneLeft(Shr(b));
      SplitLow(b);
    }
  }

  lemma SplitLow(a: Gf)
    ensures a == Xor(When(a.b0, ONE), Xtime(Shr(a)))
  {
  }

  lemma {:induction false} MulComm(a: Gf, b: Gf)
    ensures Mul(a, b) == Mul(b, a)
    decreases Len(a)
  {
    hide Xor, Xtime;
    MulZeroLeft(b);
    if a != ZERO {
      MulComm(Shr(a), b);
      MulXtime(Shr(a), b);
      MulXtime(b, Shr(a));
      SplitLow(a);
      MulLinearLeft(When(a.b0, ONE), Xtime(Shr(a)), b);
      MulOneLeft(b);
    }
  }

  lemma {:induction false} MulLinearRight(a: Gf, b: Gf, c: Gf)
    ensures Mul(a, Xor(b, c)) == Xor(Mul(a, b), Mul(a, c))
  {
    hide Xor, Mul;
    MulComm(a, Xor(b, c));
    MulLinearLeft(b, c, a);
    MulComm(a, b);
    MulComm(a, c);
  }

  lemma MulWhen(bit: bool, a: Gf, b: Gf)
    ensures Mul(a, When(bit, b)) == When(bit, Mul(a, b))
  {
  }

  lemma {:induction false} MulAssoc(a: Gf, b: Gf, c: Gf)
    ensures Mul(Mul(a, b), c) == Mul(a, Mul(b, c))
    decreases Len(c)
  {
    hide Xor, Xtime, When;
    if c == ZERO {
    } else {
      MulAssoc(a, Xtime(b), Shr(c));
      MulComm(a, b);
      MulComm(a, Xtime(b));
      MulXtime(b, a);
      MulLinearRight(a, When(c.b0, b), Mul(Xtime(b), Shr(c)));
      MulWhen(c.b0, a, b);
    }
  }

  // ---- Powers of x: the multiplicative group is cyclic of order 255 ----

  function Exp(n: nat): Gf { if n == 0 then ONE else Xtime(Exp(n - 1)) }

  lemma {:induction false} ExpAdd(m: nat, n: nat)
    ensures Exp(m + n) == Mul(Exp(m), Exp(n))
  {
    hide Xtime, Mul;
    if m == 0 {
      MulOneLeft(Exp(n));
    } else {
      ExpAdd(m - 1, n);
      MulXtime(Exp(m - 1), Exp(n));
    }
  }

  /** The square of a polynomial: each coefficient moves to twice its exponent. */
  function Squared(a: Gf): Gf {
    Gf(((a.b0 != a.b4) != a.b6) != a.b7,
       a.b7,
       ((a.b1 != a.b4) != a.b5) != a.b6,
       a.b4 != a.b6,
       ((a.b2 != a.b4) != a.b5) != a.b7,
       a.b5,
       (a.b3 != a.b5) != a.b6,
       a.b6)
  }

  lemma {:induction false} SquareLinear(a: Gf, b: Gf)
    ensures Mul(Xor(a, b), Xor(a, b)) == Xor(Mul(a, a), Mul(b, b))
  {
    hide Mul, Xor;
    var c := Xor(a, b);
    MulLinearLeft(a, b, c);
    MulLinearRight(a, a, b);
    MulLinearRight(b, a, b);
    MulComm(a, b);
    CrossTermsCancel(Mul(a, a), Mul(a, b), Mul(b, b));
  }

  lemma CrossTermsCancel(p: Gf, q: Gf, r: Gf)
    ensures Xor(Xor(p, q), Xor(q, r)) == Xor(p, r)
  {
  }

  lemma SquareStep(a: Gf)
    ensures Squared(a) == Xor(When(a.b0, ONE), Xtime(Xtime(Squared(Shr(a)))))
  {
  }

  lemma {:induction false} SquareIsMul(a: Gf)
    ensures Mul(a, a) == Squared(a)
    decreases Len(a)
  {
    hide Xor, Xtime, When, Squared;
    if a == ZERO {
      SquareZero();
    } else {
      var s := Shr(a);
      SquareIsMul(s);
      SquareStep(a);
      SplitLow(a);
      SquareLinear(When(a.b0, ONE), Xtime(s));
      WhenSquare(a.b0);
      MulXtime(s, Xtime(s));
      MulComm(s, Xtime(s));
      MulXtime(s, s);
    }
  }

  lemma SquareZero()
    ensures Squared(ZERO) == ZERO
  {
  }

  lemma WhenSquare(bit: bool)
    ensures Mul(When(bit, ONE), When(bit, ONE)) == When(bit, ONE)
  {
    MulOneLeft(ONE);
  }

  const X1 := Gf(false, true, false, false, false, false, false, false)
  const X2 := Gf(false, false, true, false, false, false, false, false)
  const X3 := Gf(false, false, false, true, false, false, false, false)
  const X5 := Gf(false, false, false, false, false, true, false, false)
  const X6 := Gf(false, false, false, false, false, false, true, false)
  const X7 := Gf(false, false, false, false, false, false, false, true)
  const X10 := Gf(false, false, true, false, true, true, true, false)
  const X12 := Gf(true, false, true, true, false, false, true, true)
  const X15 := Gf(false, true, true, false, false, true, false, false)
  const X21 := Gf(true, false, true, false, true, true, true, false)
  const X25 := Gf(true, true, false, false, false, false, false, false)
  const X31 := Gf(false, false, false, false, false, false, true, true)
  const X42 := Gf(true, false, true, false, true, true, false, true)
  const X51 := Gf(false, true, false, true, false, false, false, false)
  const X63 := Gf(true, false, false, false, false, true, false, true)
  const X85 := Gf(false, true, true, false, true, false, true, true)
  const X127 := Gf(false, false, true, true, false, false, true, true)

  lemma Double(n: nat, a: Gf, r: Gf)
    requires Exp(n) == a && Squared(a) == r
    ensures Exp(2 * n) == r
  {
    hide Mul, Squared;
    ExpAdd(n, n);
    SquareIsMul(a);
  }

  lemma DoubleNext(n: nat, a: Gf, r: Gf)
    requires Exp(n) == a && Xtime(Squared(a)) == r
    ensures Exp(2 * n + 1) == r
  {
    hide Squared;
    Double(n, a, Squared(a));
  }

  /** x^255 = 1, and x^(255/p) differs from 1 for each prime p dividing 255. */
  lemma PowersOfX()
    ensures Exp(15) == X15 && Exp(51) == X51 && Exp(85) == X85 && Exp(255) == ONE
  {
    hide Exp;
    Exp1();
    DoubleNext(1, X1, X3);
    DoubleNext(3, X3, X7);
    DoubleNext(7, X7, X15);
    DoubleNext(15, X15, X31);
    DoubleNext(31, X31, X63);
    DoubleNext(63, X63, X127);
    DoubleNext(127, X127, ONE);
    Double(3, X3, X6);
    Double(6, X6, X12);
    DoubleNext(12, X12, X25);
    DoubleNext(25, X25, X51);
    Double(1, X1, X2);
    DoubleNext(2, X2, X5);
    Double(5, X5, X10);
    DoubleNext(10, X10, X21);
    Double(21, X21, X42);
    DoubleNext(42, X42, X85);
  }

  lemma Exp1()
    ensures Exp(0) == ONE && Exp(1) == X1
  {
  }

  lemma {:induction false} ExpNonzero(n: nat)
    ensures Exp(n) != ZERO
  {
    if n > 0 {
      ExpNonzero(n - 1);
    }
  }

  lemma {:induction false} Multiples(g: nat, q: nat, r: nat)
    requires Exp(g) == ONE
    ensures Exp(g * q + r) == Exp(r)
  {
    hide Mul, Xtime;
    if q > 0 {
      Multiples(g, q - 1, r);
      ExpAdd(g, g * (q - 1) + r);
      MulOneLeft(Exp(g * (q - 1) + r));
      assert g * q + r == g + (g * (q - 1) + r);
    }
  }

  lemma {:induction false} LeastPeriod(d: nat) returns (g: nat)
    requires 0 < d && Exp(d) == ONE
    ensures 0 < g <= d && Exp(g) == ONE
    ensures forall e :: 0 < e < g ==> Exp(e) != ONE
  {
    if e :| 0 < e < d && Exp(e) == ONE {
      g := LeastPeriod(e);
    } else {
      g := d;
    }
  }

  lemma DivisorsOf255(g: nat, q: nat)
    requires 0 < g < 255 && g * q == 255
    ensures g in {1, 3, 5, 15, 17, 51, 85}
  {
    if g <= 15 {
      assert g == 1 || g == 2 || g == 3 || g == 4 || g == 5 || g == 6 || g == 7 || g == 8 || g == 9 ||
             g == 10 || g == 11 || g == 12 || g == 13 || g == 14 || g == 15;
    } else {
      assert g * q == 16 * q + (g - 16) * q;
      assert q == 0 || q == 1 || q == 2 || q == 3 || q == 4 || q == 5 || q == 6 || q == 7 || q == 8 ||
             q == 9 || q == 10 || q == 11 || q == 12 || q == 13 || q == 14 || q == 15;
    }
  }

  /** x is a primitive element: no smaller power of x is 1. */
  lemma OrderOfX(d: nat)
    requires 0 < d < 255
    ensures Exp(d) != ONE
  {
    hide Exp;
    PowersOfX();
    Exp1();
    if Exp(d) == ONE {
      var g := LeastPeriod(d);
      var q, r := 255 / g, 255 % g;
      Multiples(g, q, r);
      assert r == 0;
      DivisorsOf255(g, q);
      if 15 % g == 0 {
        Multiples(g, 15 / g, 0);
      } else if 51 % g == 0 {
        Multiples(g, 51 / g, 0);
      } else {
        Multiples(g, 85 / g, 0);
      }
    }
  }

  lemma ExpInjective(i: nat, j: nat)
    requires i < j < 255
    ensures Exp(i) != Exp(j)
  {
    hide Exp, Mul;
    if Exp(i) == Exp(j) {
      PowersOfX();
      ExpAdd(i, 255 - i);
      ExpAdd(j, 255 - i);
      ExpAdd(255, j - i);
      MulOneLeft(Exp(j - i));
      OrderOfX(j - i);
    }
  }

  // ---- Discrete logarithms exist: 255 distinct powers fill the 255 nonzero bytes ----

  ghost function PowerCodes(n: nat): set<nat> {
    if n == 0 then {} else PowerCodes(n - 1) + {ToInt(Exp(n - 1))}
  }

  ghost function Codes(n: nat): set<nat> {
    if n == 0 then {} else Codes(n - 1) + {n}
  }

  lemma {:induction false} PowerCodesMember(n: nat, c: nat)
    requires c in PowerCodes(n)
    ensures exists i :: 0 <= i < n && ToInt(Exp(i)) == c
  {
    hide Exp, ToInt;
    if c in PowerCodes(n - 1) {
      PowerCodesMember(n - 1, c);
    } else {
      assert ToInt(Exp(n - 1)) == c;
    }
  }

  lemma {:induction false} PowerCodesSize(n: nat)
    requires n <= 255
    ensures |PowerCodes(n)| == n
  {
    hide Exp, ToInt;
    if n > 0 {
      PowerCodesSize(n - 1);
      var c := ToInt(Exp(n - 1));
      if c in PowerCodes(n - 1) {
        PowerCodesMember(n - 1, c);
        var i :| 0 <= i < n - 1 && ToInt(Exp(i)) == c;
        ToIntInjective(Exp(i), Exp(n - 1));
        ExpInjective(i, n - 1);
      }
    }
  }

  lemma NonzeroCode(v: Gf)
    ensures ToInt(v) == 0 <==> v == ZERO
  {
  }

  lemma {:induction false} CodesSize(n: nat)
    ensures |Codes(n)| == n
    ensures forall c :: c in Codes(n) <==> 0 < c <= n
  {
    if n > 0 {
      CodesSize(n - 1);
    }
  }

  lemma EveryNonzeroIsPower(v: Gf)
    requires v != ZERO
    ensures exists n: nat :: n < 255 && Exp(n) == v
  {
    hide Exp, ToInt;
    PowerCodesSize(255);
    CodesSize(255);
    NonzeroCode(v);
    var all, powers := Codes(255), PowerCodes(255);
    forall c | c in powers
      ensures c in all
    {
      PowerCodesMember(255, c);
      var i :| 0 <= i < 255 && ToInt(Exp(i)) == c;
      ExpNonzero(i);
      NonzeroCode(Exp(i));
    }
    assert all * powers == powers;
    assert |all - powers| == |all| - |powers|;
    PowerCodesMember(255, ToInt(v));
    var i :| 0 <= i < 255 && ToInt(Exp(i)) == ToInt(v);
    ToIntInjective(Exp(i), v);
  }

  ghost function Log(v: Gf): (n: nat)
    requires v != ZERO
    ensures n < 255 && Exp(n) == v
  {
    EveryNonzeroIsPower(v);
    var n: nat :| n < 255 && Exp(n) == v;
    n
  }

  lemma LogExp(n: nat)
    requires n < 255
    ensures Exp(n) != ZERO && Log(Exp(n)) == n
  {
    ExpNonzero(n);
    var k := Log(Exp(n));
    if k < n {
      ExpInjective(k, n);
    } else if n < k {
      ExpInjective(n, k);
    }
  }

  ghost function Inv(a: Gf): Gf { if a == ZERO then ZERO else Exp(255 - Log(a)) }

  lemma MulInv(a: Gf)
    requires a != ZERO
    ensures Inv(a) != ZERO && Mul(a, Inv(a)) == ONE && Mul(Inv(a), a) == ONE
  {
    hide Mul, Exp;
    ExpAdd(Log(a), 255 - Log(a));
    PowersOfX();
    ExpNonzero(255 - Log(a));
    MulComm(a, Inv(a));
  }

  lemma MulCancel(a: Gf, b: Gf, c: Gf)
    requires a != ZERO && Mul(a, b) == Mul(a, c)
    ensures b == c
  {
    hide Mul, Inv;
    MulInv(a);
    MulAssoc(Inv(a), a, b);
    MulAssoc(Inv(a), a, c);
    MulOneLeft(b);
    MulOneLeft(c);
  }

  lemma MulZeroRight(a: Gf)
    ensures Mul(a, ZERO) == ZERO
  {
  }

  lemma MulNonzero(a: Gf, b: Gf)
    requires a != ZERO && b != ZERO
    ensures Mul(a, b) != ZERO
  {
    hide Mul;
    MulZeroRight(a);
    if Mul(a, b) == ZERO {
      MulCancel(a, b, ZERO);
    }
  }

  lemma {:induction false} ExpModulo(n: nat)
    ensures Exp(n) == Exp(n % 255)
  {
    hide Exp;
    PowersOfX();
    Multiples(255, n / 255, n % 255);
  }
}
