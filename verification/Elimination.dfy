/** How an elimination ends: with the inverse up to a column permutation, or with a vector it annihilates. */
module Elimination {
  import opened Gf256
  import opened Matrix

  ghost predicate Nonsingular(a: seq<Vec>, k: nat)
    requires Square(a, k)
  {
    forall x: Vec :: |x| == k && Apply(a, x) == Zeros(k) ==> x == Zeros(k)
  }

  /** Both products are the identity, said of the maps: each undoes the other. */
  ghost predicate Inverse(m: seq<Vec>, a: seq<Vec>, k: nat)
    requires Square(m, k) && Square(a, k)
  {
    forall x: Vec, y: Vec :: |x| == k && |y| == k ==> (Apply(m, y) == x <==> Apply(a, x) == y)
  }

  lemma InverseUndoes(m: seq<Vec>, a: seq<Vec>, k: nat, x: Vec)
    requires Square(m, k) && Square(a, k) && Inverse(m, a, k) && |x| == k
    ensures Apply(m, Apply(a, x)) == x && Apply(a, Apply(m, x)) == x
  {
    hide Dot;
    var y, z := Apply(a, x), Apply(m, x);
    assert Apply(m, y) == x <==> Apply(a, x) == y;
    assert Apply(m, x) == z <==> Apply(a, z) == x;
  }

  lemma InverseNonsingular(m: seq<Vec>, a: seq<Vec>, k: nat)
    requires Square(m, k) && Square(a, k) && Inverse(m, a, k)
    ensures Nonsingular(a, k)
  {
    hide Dot;
    var zero := Zeros(k);
    forall x: Vec | |x| == k && Apply(a, x) == zero
      ensures x == zero
    {
      InverseUndoes(m, a, k, x);
      ApplyZeros(m, k);
    }
  }

  lemma ApplyZeros(m: seq<Vec>, k: nat)
    requires Square(m, k)
    ensures Apply(m, Zeros(k)) == Zeros(k)
  {
    forall r | 0 <= r < k
      ensures Dot(m[r], Zeros(k), k) == ZERO
    {
      DotZeros(m[r], Zeros(k), k);
    }
  }

  // ---- No pivot left ----

  /** Rows and columns without a pivot meet only in zeros. */
  ghost predicate Stuck(m: seq<Vec>, k: nat, piv: seq<bool>)
    requires Square(m, k) && |piv| == k
  {
    forall r, c :: 0 <= r < k && 0 <= c < k && !piv[r] && !piv[c] ==> m[r][c] == ZERO
  }

  lemma StuckIsSingular(m: seq<Vec>, k: nat, piv: seq<bool>, tau: seq<nat>, a0: seq<Vec>, p: nat)
    requires Square(m, k) && Square(a0, k) && Indices(k, piv, tau)
    requires Represents(m, k, piv, tau, a0) && Stuck(m, k, piv)
    requires p < k && !piv[p]
    ensures !Nonsingular(a0, k)
  {
    hide Dot, Mul, Xor, Nonsingular;
    var y, unit := Zeros(k), Unit(k, p);
    var x: Vec := seq(k, r requires 0 <= r < k => if piv[r] then m[r][p] else unit[r]);
    assert Inputs(piv, tau, x, y) == unit;
    forall r | 0 <= r < k
      ensures Dot(m[r], unit, k) == Output(piv, tau, x, y, r)
    {
      DotUnit(m[r], k, p);
    }
    assert Related(m, k, piv, tau, x, y);
    assert y == Apply(a0, x);
    Annihilated(a0, k, x, p);
  }

  lemma Annihilated(a: seq<Vec>, k: nat, x: Vec, p: nat)
    requires Square(a, k) && |x| == k && p < k
    requires Apply(a, x) == Zeros(k) && x[p] == ONE
    ensures !Nonsingular(a, k)
  {
    hide Dot;
    assert Zeros(k)[p] == ZERO;
  }

  lemma DotUnit(row: Vec, k: nat, p: nat)
    requires |row| == k && p < k
    ensures Dot(row, Unit(k, p), k) == row[p]
  {
    hide Mul, Dot;
    DotSingle(row, Unit(k, p), k, p);
    MulComm(row[p], ONE);
    MulOneLeft(row[p]);
  }

  // ---- Undoing the row exchanges ----

  function AllTrue(k: nat): seq<bool> { seq(k, _ => true) }

  function Identity(k: nat): seq<nat> { seq(k, i => i) }

  function SwapColumns(m: seq<Vec>, k: nat, i: nat, j: nat): (m': seq<Vec>)
    requires Square(m, k) && i < k && j < k
    ensures Square(m', k)
  {
    seq(k, r requires 0 <= r < k => SwapAt(m[r], i, j))
  }

  lemma DotSwap(a: Vec, b: Vec, k: nat, i: nat, j: nat)
    requires |a| == |b| == k && i < k && j < k
    ensures Dot(SwapAt(a, i, j), SwapAt(b, i, j), k) == Dot(a, b, k)
  {
    hide Dot, Mul, Xor;
    if i == j {
      assert SwapAt(a, i, j) == a && SwapAt(b, i, j) == b;
    } else {
      DotUpdate(a, b, k, i, a[j], b[j]);
      var a1, b1 := a[i := a[j]], b[i := b[j]];
      DotUpdate(a1, b1, k, j, a[i], b[i]);
      PairCancel(Dot(a, b, k), Mul(a[i], b[i]), Mul(a[j], b[j]));
    }
  }

  lemma PairCancel(d: Gf, p: Gf, q: Gf)
    ensures Xor(Xor(Xor(Xor(d, p), q), q), p) == d
  {
  }

  lemma SwapColumnsRepresents(m: seq<Vec>, k: nat, tau: seq<nat>, a0: seq<Vec>, i: nat, j: nat)
    requires Square(m, k) && Square(a0, k) && Indices(k, AllTrue(k), tau) && i < k && j < k
    requires Represents(m, k, AllTrue(k), tau, a0)
    ensures Represents(SwapColumns(m, k, i, j), k, AllTrue(k), SwapAt(tau, i, j), a0)
  {
    hide Dot;
    var piv, m', tau' := AllTrue(k), SwapColumns(m, k, i, j), SwapAt(tau, i, j);
    forall x: Vec, y: Vec | |x| == k && |y| == k
      ensures Related(m', k, piv, tau', x, y) <==> y == Apply(a0, x)
    {
      var v := Inputs(piv, tau, x, y);
      assert Inputs(piv, tau', x, y) == SwapAt(v, i, j);
      forall r | 0 <= r < k
        ensures Dot(m'[r], Inputs(piv, tau', x, y), k) == Dot(m[r], v, k)
        ensures Output(piv, tau', x, y, r) == Output(piv, tau, x, y, r)
      {
        DotSwap(m[r], v, k, i, j);
      }
      assert Related(m', k, piv, tau', x, y) <==> Related(m, k, piv, tau, x, y);
      assert Related(m, k, piv, tau, x, y) <==> y == Apply(a0, x);
    }
  }

  lemma FinishedIsInverse(m: seq<Vec>, k: nat, a0: seq<Vec>)
    requires Square(m, k) && Square(a0, k)
    requires Indices(k, AllTrue(k), Identity(k))
    requires Represents(m, k, AllTrue(k), Identity(k), a0)
    ensures Inverse(m, a0, k)
  {
    hide Dot;
    var piv, tau := AllTrue(k), Identity(k);
    forall x: Vec, y: Vec | |x| == k && |y| == k
      ensures Apply(m, y) == x <==> Apply(a0, x) == y
    {
      assert Inputs(piv, tau, x, y) == y;
      assert Related(m, k, piv, tau, x, y) <==> y == Apply(a0, x);
      if Apply(m, y) == x {
        forall r | 0 <= r < k
          ensures Dot(m[r], Inputs(piv, tau, x, y), k) == Output(piv, tau, x, y, r)
        {
          assert Apply(m, y)[r] == x[r];
        }
        assert Related(m, k, piv, tau, x, y);
      }
    }
  }

  // ---- Matrix products ----

  function Column(m: seq<Vec>, k: nat, c: nat): (v: Vec)
    requires Square(m, k) && c < k
    ensures |v| == k
  {
    seq(k, r requires 0 <= r < k => m[r][c])
  }

  ghost predicate ProductIsIdentity(a: seq<Vec>, b: seq<Vec>, k: nat)
    requires Square(a, k) && Square(b, k)
  {
    forall r, c :: 0 <= r < k && 0 <= c < k ==> Dot(a[r], Column(b, k, c), k) == Unit(k, c)[r]
  }

  lemma ApplyUnit(m: seq<Vec>, k: nat, c: nat)
    requires Square(m, k) && c < k
    ensures Apply(m, Unit(k, c)) == Column(m, k, c)
  {
    hide Dot;
    forall r | 0 <= r < k
      ensures Dot(m[r], Unit(k, c), k) == m[r][c]
    {
      DotUnit(m[r], k, c);
    }
  }

  /** The inverse on both sides, as matrix products. */
  lemma InverseProducts(m: seq<Vec>, a: seq<Vec>, k: nat)
    requires Square(m, k) && Square(a, k) && Inverse(m, a, k)
    ensures ProductIsIdentity(m, a, k) && ProductIsIdentity(a, m, k)
  {
    hide Dot;
    forall r, c | 0 <= r < k && 0 <= c < k
      ensures Dot(m[r], Column(a, k, c), k) == Unit(k, c)[r]
      ensures Dot(a[r], Column(m, k, c), k) == Unit(k, c)[r]
    {
      ApplyUnit(m, k, c);
      ApplyUnit(a, k, c);
      InverseUndoes(m, a, k, Unit(k, c));
      assert Apply(m, Column(a, k, c))[r] == Unit(k, c)[r];
      assert Apply(a, Column(m, k, c))[r] == Unit(k, c)[r];
    }
  }

  // ---- Counting pivots ----

  function Count(piv: seq<bool>): nat {
    if piv == [] then 0 else Count(piv[..|piv| - 1]) + (if piv[|piv| - 1] then 1 else 0)
  }

  lemma {:induction false} CountSet(piv: seq<bool>, p: nat)
    requires p < |piv| && !piv[p]
    ensures Count(piv[p := true]) == Count(piv) + 1
  {
    var n := |piv| - 1;
    if p < n {
      CountSet(piv[..n], p);
      assert piv[p := true][..n] == piv[..n][p := true];
    } else {
      assert piv[p := true][..n] == piv[..n];
    }
  }

  lemma {:induction false} CountBounds(piv: seq<bool>)
    ensures Count(piv) <= |piv|
    ensures Count(piv) == |piv| <==> piv == AllTrue(|piv|)
    ensures (forall i :: 0 <= i < |piv| ==> !piv[i]) ==> Count(piv) == 0
  {
    if piv != [] {
      var n := |piv| - 1;
      CountBounds(piv[..n]);
      assert piv == piv[..n] + [piv[n]];
      assert piv == AllTrue(|piv|) <==> piv[..n] == AllTrue(n) && piv[n];
    }
  }
}
