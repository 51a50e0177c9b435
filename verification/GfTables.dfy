/** The lookup tables of the erasure code, filled once at start-up. */
module GfTables {
  import opened Gf256

  const GF_PP := "101110001"
  const GF_SIZE := 255

  function Shl(a: Gf): Gf { Gf(false, a.b0, a.b1, a.b2, a.b3, a.b4, a.b5, a.b6) }

  const TOP := Gf(false, false, false, false, false, false, false, true)

  function Monomial(i: nat): Gf { Gf(i == 0, i == 1, i == 2, i == 3, i == 4, i == 5, i == 6, i == 7) }

  /** The terms of the generator polynomial below x^i. */
  function GeneratorBelow(i: nat): Gf { Gf(0 < i, false, 2 < i, 3 < i, 4 < i, false, false, false) }

  lemma {:induction false} LowPowers(i: nat)
    requires i < 8
    ensures Exp(i) == Monomial(i)
  {
    if i > 0 {
      LowPowers(i - 1);
    }
  }

  lemma FirstMonomial()
    ensures Monomial(0) == ONE && GeneratorBelow(0) == ZERO
  {
  }

  lemma EighthPower()
    ensures Exp(8) == GeneratorBelow(8)
  {
    LowPowers(7);
  }

  /** The byte operations of the table loop multiply by x. */
  lemma ShiftAndReduce(a: Gf)
    ensures a.b7 ==> Xtime(a) == Xor(GeneratorBelow(8), Shl(Xor(a, TOP)))
    ensures !a.b7 ==> Xtime(a) == Shl(a)
  {
  }

  lemma NextPower(i: nat, a: Gf)
    requires a == Exp(i)
    ensures a.b7 ==> Exp(i + 1) == Xor(Exp(8), Shl(Xor(a, TOP)))
    ensures !a.b7 ==> Exp(i + 1) == Shl(a)
  {
    hide Shl, Xor, Xtime;
    ShiftAndReduce(a);
    EighthPower();
  }

  lemma NextMonomial(i: nat)
    requires i < 8
    ensures i < 7 ==> Shl(Monomial(i)) == Monomial(i + 1)
    ensures GeneratorBelow(i + 1) ==
      if GF_PP[i] == '1' then Xor(GeneratorBelow(i), Monomial(i)) else GeneratorBelow(i)
  {
  }

  lemma PowersDistinct(i: nat)
    requires i < 255
    ensures ToInt(Exp(i)) != 0
    ensures forall j :: 0 <= j < i ==> ToInt(Exp(j)) != ToInt(Exp(i))
  {
    hide Exp, ToInt;
    ExpNonzero(i);
    NonzeroCode(Exp(i));
    forall j | 0 <= j < i
      ensures ToInt(Exp(j)) != ToInt(Exp(i))
    {
      ExpInjective(j, i);
      if ToInt(Exp(j)) == ToInt(Exp(i)) {
        ToIntInjective(Exp(j), Exp(i));
      }
    }
  }

  /** Reduction modulo 255 without dividing by 255. */
  method Modnn(x0: nat) returns (x: nat)
    ensures x == x0 % GF_SIZE
  {
    x := x0;
    while x >= GF_SIZE
      invariant x % GF_SIZE == x0 % GF_SIZE
    {
      ghost var before := x;
      x := x - GF_SIZE;
      x := x / 256 + x % 256;
      assert before == GF_SIZE * (1 + (before - GF_SIZE) / 256) + x;
    }
  }

  class FieldTables {
    const exp: array<Gf>
    const log: array<nat>
    const inverse: array<Gf>
    const mulTable: array<Gf>

    constructor ()
      ensures Shaped() && fresh(exp) && fresh(log) && fresh(inverse) && fresh(mulTable)
    {
      exp := new Gf[510](_ => ZERO);
      log := new nat[256](_ => 0);
      inverse := new Gf[256](_ => ZERO);
      mulTable := new Gf[65536](_ => ZERO);
    }

    ghost predicate Shaped() {
      && exp.Length == 510 && log.Length == 256 && inverse.Length == 256 && mulTable.Length == 65536
      && exp != inverse && exp != mulTable && inverse != mulTable
    }

    /** The tables hold the inverses and products of the field. */
    ghost predicate Ready()
      reads inverse, mulTable
    {
      && Shaped()
      && (forall a: Gf :: inverse[ToInt(a)] == Inv(a))
      && (forall a: Gf, b: Gf :: mulTable[256 * ToInt(a) + ToInt(b)] == Mul(a, b))
    }

    ghost predicate LogsReady()
      reads exp, log
    {
      && Shaped()
      && (forall i :: 0 <= i < 510 ==> exp[i] == Exp(i % 255))
      && (forall a: Gf :: a != ZERO ==> log[ToInt(a)] == Log(a))
      && log[0] == 255
    }

    function GfMul(a: Gf, b: Gf): (c: Gf)
      requires Ready()
      reads inverse, mulTable
      ensures c == Mul(a, b)
    {
      mulTable[256 * ToInt(a) + ToInt(b)]
    }

    method FirstPowers()
      requires Shaped()
      modifies exp, log
      ensures forall j :: 0 <= j <= 8 ==> exp[j] == Exp(j)
      ensures forall j :: 0 <= j <= 8 ==> log[ToInt(Exp(j))] == j
    {
      hide Exp, ToInt, Xor, Shl, Monomial, GeneratorBelow;
      var mask := ONE;
      exp[8] := ZERO;
      FirstMonomial();
      for i := 0 to 8
        invariant forall j :: 0 <= j < i ==> exp[j] == Exp(j) && log[ToInt(Exp(j))] == j
        invariant i < 8 ==> mask == Monomial(i)
        invariant exp[8] == GeneratorBelow(i)
      {
        LowPowers(i);
        NextMonomial(i);
        PowersDistinct(i);
        exp[i] := mask;
        log[ToInt(exp[i])] := i;
        if GF_PP[i] == '1' {
          exp[8] := Xor(exp[8], mask);
        }
        mask := Shl(mask);
      }
      EighthPower();
      PowersDistinct(8);
      log[ToInt(exp[8])] := 8;
    }

    method RemainingPowers()
      requires Shaped()
      requires forall j :: 0 <= j <= 8 ==> exp[j] == Exp(j)
      requires forall j :: 0 <= j <= 8 ==> log[ToInt(Exp(j))] == j
      modifies exp, log
      ensures forall j :: 0 <= j < 255 ==> exp[j] == Exp(j)
      ensures forall j :: 0 <= j < 255 ==> log[ToInt(Exp(j))] == j
    {
      hide ToInt, Exp, Shl, Xor;
      var mask := TOP;
      for i := 9 to GF_SIZE
        invariant forall j :: 0 <= j < i ==> exp[j] == Exp(j)
        invariant forall j :: 0 <= j < i ==> log[ToInt(Exp(j))] == j
      {
        NextPower(i - 1, exp[i - 1]);
        PowersDistinct(i);
        if exp[i - 1].b7 {
          exp[i] := Xor(exp[8], Shl(Xor(exp[i - 1], mask)));
        } else {
          exp[i] := Shl(exp[i - 1]);
        }
        log[ToInt(exp[i])] := i;
      }
    }

    method ExtendPowers()
      requires Shaped()
      requires forall j :: 0 <= j < 255 ==> exp[j] == Exp(j)
      modifies exp
      ensures forall i :: 0 <= i < 510 ==> exp[i] == Exp(i % 255)
    {
      hide Exp;
      for i := 0 to GF_SIZE
        invariant forall j :: 0 <= j < 255 ==> exp[j] == Exp(j)
        invariant forall j :: 0 <= j < i ==> exp[j + 255] == Exp(j)
      {
        exp[i + GF_SIZE] := exp[i];
      }
      forall i | 0 <= i < 510
        ensures exp[i] == Exp(i % 255)
      {
        if i >= 255 {
          assert exp[(i - 255) + 255] == Exp(i - 255);
        }
      }
    }

    /** Powers, logarithms and inverses. */
    method GenerateGf()
      requires Shaped()
      modifies exp, log, inverse
      ensures LogsReady()
      ensures forall a: Gf :: inverse[ToInt(a)] == Inv(a)
    {
      hide Exp, ToInt, Inv;
      FirstPowers();
      RemainingPowers();
      forall j | 0 <= j < 255
        ensures ToInt(Exp(j)) != 0
      {
        PowersDistinct(j);
      }
      log[0] := GF_SIZE;
      ExtendPowers();
      forall a: Gf | a != ZERO
        ensures log[ToInt(a)] == Log(a)
      {
        var n := Log(a);
        assert log[ToInt(Exp(n))] == n;
      }
      Inverses();
    }

    method Inverses()
      requires LogsReady()
      modifies inverse
      ensures forall a: Gf :: inverse[ToInt(a)] == Inv(a)
    {
      hide Exp, ToInt;
      NonzeroCode(ZERO);
      Exp1();
      PowersOfX();
      LogExp(0);
      OneCode();
      inverse[0] := ZERO;
      inverse[1] := ONE;
      for i := 2 to 256
        invariant inverse[0] == ZERO && inverse[1] == ONE
        invariant forall a: Gf :: 2 <= ToInt(a) < i ==> inverse[ToInt(a)] == Inv(a)
      {
        var v := FromInt(i);
        ToIntFromInt(i);
        assert Log(v) != 0 by {
          if Log(v) == 0 {
            ToIntInjective(v, ONE);
          }
        }
        inverse[i] := exp[GF_SIZE - log[i]];
        forall a: Gf | ToInt(a) == i
          ensures inverse[ToInt(a)] == Inv(a)
        {
          ToIntInjective(a, v);
        }
      }
      forall a: Gf
        ensures inverse[ToInt(a)] == Inv(a)
      {
        if ToInt(a) == 0 {
          NonzeroCode(a);
        } else if ToInt(a) == 1 {
          ToIntInjective(a, ONE);
        }
      }
    }

    lemma OneCode()
      ensures ToInt(ONE) == 1
    {
    }

    /** A product is the power at the sum of the logarithms. */
    lemma ProductByLogs(a: Gf, b: Gf)
      requires a != ZERO && b != ZERO
      ensures Exp((Log(a) + Log(b)) % 255) == Mul(a, b)
    {
      hide Exp, Mul;
      ExpAdd(Log(a), Log(b));
      ExpModulo(Log(a) + Log(b));
    }

    method FillProducts()
      requires LogsReady()
      modifies mulTable
      ensures forall a: Gf, b: Gf :: a != ZERO && b != ZERO ==>
        mulTable[256 * ToInt(a) + ToInt(b)] == Mul(a, b)
    {
      hide Exp, ToInt, Mul;
      for i := 0 to 256
        invariant LogsReady()
        invariant forall a: Gf, b: Gf :: ToInt(a) < i && a != ZERO && b != ZERO ==>
          mulTable[256 * ToInt(a) + ToInt(b)] == Mul(a, b)
      {
        for j := 0 to 256
          invariant LogsReady()
          invariant forall a: Gf, b: Gf ::
            (ToInt(a) < i || (ToInt(a) == i && ToInt(b) < j)) && a != ZERO && b != ZERO ==>
            mulTable[256 * ToInt(a) + ToInt(b)] == Mul(a, b)
        {
          LogInRange(i);
          LogInRange(j);
          var k := Modnn(log[i] + log[j]);
          mulTable[i * 256 + j] := exp[k];
          forall a: Gf, b: Gf | ToInt(a) == i && ToInt(b) == j && a != ZERO && b != ZERO
            ensures mulTable[256 * ToInt(a) + ToInt(b)] == Mul(a, b)
          {
            ProductByLogs(a, b);
          }
        }
      }
    }

    method InitMulTable()
      requires LogsReady()
      modifies mulTable
      ensures forall a: Gf, b: Gf :: mulTable[256 * ToInt(a) + ToInt(b)] == Mul(a, b)
    {
      hide Exp, ToInt, Mul;
      FillProducts();
      for j := 0 to 256
        invariant forall a: Gf, b: Gf :: a != ZERO && b != ZERO ==>
          mulTable[256 * ToInt(a) + ToInt(b)] == Mul(a, b)
        invariant forall i :: 0 <= i < j ==> mulTable[i] == ZERO && mulTable[256 * i] == ZERO
      {
        forall a: Gf, b: Gf | a != ZERO && b != ZERO
          ensures ToInt(a) != 0 && ToInt(b) != 0
        {
          NonzeroCode(a);
          NonzeroCode(b);
        }
        mulTable[j * 256] := ZERO;
        mulTable[j] := ZERO;
      }
      forall a: Gf, b: Gf
        ensures mulTable[256 * ToInt(a) + ToInt(b)] == Mul(a, b)
      {
        NonzeroCode(ZERO);
        MulZeroLeft(b);
        MulZeroRight(a);
      }
    }

    lemma LogInRange(i: nat)
      requires LogsReady() && i < 256
      ensures log[i] <= 255
    {
      ToIntFromInt(i);
      NonzeroCode(FromInt(i));
    }

    /** reed_solomon_init */
    method Init()
      requires Shaped()
      modifies exp, log, inverse, mulTable
      ensures Ready()
    {
      GenerateGf();
      InitMulTable();
      assert Ready();
    }
  }
}
