/** Vectors and square matrices over GF(2^8), and the tableau that in-place elimination works on. */
module Matrix {
  import opened Gf256

  type Vec = seq<Gf>

  ghost predicate Square(m: seq<Vec>, k: nat) {
    |m| == k && forall r :: 0 <= r < k ==> |m[r]| == k
  }

  /** The scalar product of the first `n` entries. */
  function Dot(a: Vec, b: Vec, n: nat): Gf
    requires n <= |a| && n <= |b|
  {
    if n == 0 then ZERO else Xor(Dot(a, b, n - 1), Mul(a[n - 1], b[n - 1]))
  }

  function Zeros(k: nat): Vec { seq(k, _ => ZERO) }

  function Unit(k: nat, p: nat): Vec { seq(k, i => if i == p then ONE else ZERO) }

  function Apply(m: seq<Vec>, x: Vec): (y: Vec)
    requires forall r :: 0 <= r < |m| ==> |m[r]| == |x|
    ensures |y| == |m|
  {
    seq(|m|, r requires 0 <= r < |m| => Dot(m[r], x, |x|))
  }

  /** a + c * b */
  function AddScaled(a: Vec, c: Gf, b: Vec): (v: Vec)
    requires |a| == |b|
    ensures |v| == |a|
  {
    seq(|a|, i requires 0 <= i < |a| => Xor(a[i], Mul(c, b[i])))
  }

  function Scale(c: Gf, b: Vec): (v: Vec)
    ensures |v| == |b|
  {
    seq(|b|, i requires 0 <= i < |b| => Mul(c, b[i]))
  }

  // ---- Scalar products ----

  lemma {:induction false} DotAgree(a: Vec, a': Vec, b: Vec, b': Vec, n: nat)
    requires n <= |a| && n <= |b| && n <= |a'| && n <= |b'|
    requires forall i :: 0 <= i < n ==> a[i] == a'[i] && b[i] == b'[i]
    ensures Dot(a, b, n) == Dot(a', b', n)
  {
    hide Mul, Xor;
    if n > 0 {
      DotAgree(a, a', b, b', n - 1);
    }
  }

  /** Replacing one factor on each side replaces one product. */
  lemma {:induction false} DotUpdate(a: Vec, b: Vec, n: nat, p: nat, c: Gf, w: Gf)
    requires p < n <= |a| && n <= |b|
    ensures Dot(a[p := c], b[p := w], n) == Xor(Xor(Dot(a, b, n), Mul(a[p], b[p])), Mul(c, w))
  {
    hide Mul, Xor;
    var rest, old1, new1 := Dot(a, b, n - 1), Mul(a[p], b[p]), Mul(c, w);
    if p == n - 1 {
      DotAgree(a, a[p := c], b, b[p := w], n - 1);
      XorCancel(rest, old1);
    } else {
      DotUpdate(a, b, n - 1, p, c, w);
      var last := Mul(a[n - 1], b[n - 1]);
      XorRotate(rest, old1, new1, last);
    }
  }

  lemma XorRotate(r: Gf, a: Gf, b: Gf, c: Gf)
    ensures Xor(Xor(Xor(r, a), b), c) == Xor(Xor(Xor(r, c), a), b)
  {
  }

  lemma {:induction false} DotAddScaled(a: Vec, c: Gf, b: Vec, v: Vec, n: nat)
    requires |a| == |b| && n <= |a| && n <= |v|
    ensures Dot(AddScaled(a, c, b), v, n) == Xor(Dot(a, v, n), Mul(c, Dot(b, v, n)))
  {
    hide Mul, Xor;
    if n == 0 {
      MulZeroRight(c);
      XorZero(ZERO);
    } else {
      DotAddScaled(a, c, b, v, n - 1);
      var i := n - 1;
      MulLinearLeft(a[i], Mul(c, b[i]), v[i]);
      MulAssoc(c, b[i], v[i]);
      MulLinearRight(c, Dot(b, v, i), Mul(b[i], v[i]));
      Xor4(Dot(a, v, i), Mul(c, Dot(b, v, i)), Mul(a[i], v[i]), Mul(c, Mul(b[i], v[i])));
    }
  }

  lemma {:induction false} DotScale(c: Gf, b: Vec, v: Vec, n: nat)
    requires n <= |b| && n <= |v|
    ensures Dot(Scale(c, b), v, n) == Mul(c, Dot(b, v, n))
  {
    hide Mul, Xor;
    if n == 0 {
      MulZeroRight(c);
    } else {
      DotScale(c, b, v, n - 1);
      var i := n - 1;
      MulAssoc(c, b[i], v[i]);
      MulLinearRight(c, Dot(b, v, i), Mul(b[i], v[i]));
    }
  }

  lemma {:induction false} DotZeros(a: Vec, b: Vec, n: nat)
    requires n <= |a| && n <= |b|
    requires forall i :: 0 <= i < n ==> a[i] == ZERO || b[i] == ZERO
    ensures Dot(a, b, n) == ZERO
  {
    hide Mul, Xor;
    if n > 0 {
      DotZeros(a, b, n - 1);
      MulZeroRight(a[n - 1]);
      MulZeroLeft(b[n - 1]);
      XorZero(ZERO);
    }
  }

  /** Only one product differs from zero. */
  lemma {:induction false} DotSingle(a: Vec, b: Vec, n: nat, p: nat)
    requires p < n <= |a| && n <= |b|
    requires forall i :: 0 <= i < n && i != p ==> a[i] == ZERO || b[i] == ZERO
    ensures Dot(a, b, n) == Mul(a[p], b[p])
  {
    hide Mul, Xor;
    if p == n - 1 {
      DotZeros(a, b, n - 1);
      XorZero(Mul(a[p], b[p]));
    } else {
      DotSingle(a, b, n - 1, p);
      MulZeroRight(a[n - 1]);
      MulZeroLeft(b[n - 1]);
      XorZero(Mul(a[p], b[p]));
    }
  }

  // ---- The tableau ----

  /** What the columns of the tableau multiply: still an unknown, or already a right-hand side. */
  function Inputs(piv: seq<bool>, tau: seq<nat>, x: Vec, y: Vec): (v: Vec)
    requires |piv| == |tau| == |x| == |y|
    requires forall i :: 0 <= i < |tau| ==> tau[i] < |y|
  {
    seq(|x|, c requires 0 <= c < |x| => if piv[c] then y[tau[c]] else x[c])
  }

  /** What each row of the tableau yields. */
  function Output(piv: seq<bool>, tau: seq<nat>, x: Vec, y: Vec, r: nat): Gf
    requires |piv| == |tau| == |x| == |y| && r < |x|
    requires forall i :: 0 <= i < |tau| ==> tau[i] < |y|
  {
    if piv[r] then x[r] else y[tau[r]]
  }

  ghost predicate Indices(k: nat, piv: seq<bool>, tau: seq<nat>) {
    |piv| == k && |tau| == k && forall i :: 0 <= i < k ==> tau[i] < k
  }

  ghost predicate Related(m: seq<Vec>, k: nat, piv: seq<bool>, tau: seq<nat>, x: Vec, y: Vec)
    requires Square(m, k) && Indices(k, piv, tau) && |x| == k && |y| == k
  {
    forall r :: 0 <= r < k ==> Dot(m[r], Inputs(piv, tau, x, y), k) == Output(piv, tau, x, y, r)
  }

  /** The tableau states the same equations as y = a0 x. */
  ghost predicate Represents(m: seq<Vec>, k: nat, piv: seq<bool>, tau: seq<nat>, a0: seq<Vec>)
    requires Square(m, k) && Square(a0, k) && Indices(k, piv, tau)
  {
    forall x: Vec, y: Vec :: |x| == k && |y| == k ==>
      (Related(m, k, piv, tau, x, y) <==> y == Apply(a0, x))
  }

  function SwapAt<T>(s: seq<T>, i: nat, j: nat): seq<T>
    requires i < |s| && j < |s|
  {
    s[i := s[j]][j := s[i]]
  }

  /** Row `p` solved for unknown `p`. */
  ghost function PivotRow(row: Vec, p: nat): (v: Vec)
    requires p < |row|
    ensures |v| == |row|
  {
    Scale(Inv(row[p]), row[p := ONE])
  }

  /** Solve row `p` for unknown `p`, then substitute it in every other row. */
  ghost function Pivot(m: seq<Vec>, k: nat, p: nat): (m': seq<Vec>)
    requires Square(m, k) && p < k
    ensures Square(m', k)
  {
    var solved := PivotRow(m[p], p);
    seq(k, r requires 0 <= r < k => if r == p then solved else AddScaled(m[r][p := ZERO], m[r][p], solved))
  }

  lemma StartRepresents(a0: seq<Vec>, k: nat, piv: seq<bool>, tau: seq<nat>)
    requires Square(a0, k) && Indices(k, piv, tau)
    requires forall i :: 0 <= i < k ==> !piv[i] && tau[i] == i
    ensures Represents(a0, k, piv, tau, a0)
  {
    hide Dot;
    forall x: Vec, y: Vec | |x| == k && |y| == k
      ensures Related(a0, k, piv, tau, x, y) <==> y == Apply(a0, x)
    {
      assert Inputs(piv, tau, x, y) == x;
      if Related(a0, k, piv, tau, x, y) {
        forall r | 0 <= r < k ensures y[r] == Apply(a0, x)[r] {
          assert Output(piv, tau, x, y, r) == y[r];
        }
      } else if y == Apply(a0, x) {
        forall r | 0 <= r < k
          ensures Dot(a0[r], Inputs(piv, tau, x, y), k) == Output(piv, tau, x, y, r)
        {
          assert Apply(a0, x)[r] == Dot(a0[r], x, k);
        }
      }
    }
  }

  lemma SwapRepresents(m: seq<Vec>, k: nat, piv: seq<bool>, tau: seq<nat>, a0: seq<Vec>, i: nat, j: nat)
    requires Square(m, k) && Square(a0, k) && Indices(k, piv, tau) && i < k && j < k
    requires !piv[i] && !piv[j]
    requires Represents(m, k, piv, tau, a0)
    ensures Represents(SwapAt(m, i, j), k, piv, SwapAt(tau, i, j), a0)
  {
    hide Dot;
    var m', tau' := SwapAt(m, i, j), SwapAt(tau, i, j);
    forall x: Vec, y: Vec | |x| == k && |y| == k
      ensures Related(m', k, piv, tau', x, y) <==> y == Apply(a0, x)
    {
      assert Inputs(piv, tau', x, y) == Inputs(piv, tau, x, y);
      var v := Inputs(piv, tau, x, y);
      if Related(m, k, piv, tau, x, y) {
        forall r | 0 <= r < k ensures Dot(m'[r], v, k) == Output(piv, tau', x, y, r) {
          var s := if r == i then j else if r == j then i else r;
          assert Dot(m[s], v, k) == Output(piv, tau, x, y, s);
        }
        assert Related(m', k, piv, tau', x, y);
      } else if Related(m', k, piv, tau', x, y) {
        forall r | 0 <= r < k ensures Dot(m[r], v, k) == Output(piv, tau, x, y, r) {
          var s := if r == i then j else if r == j then i else r;
          assert Dot(m'[s], v, k) == Output(piv, tau', x, y, s);
        }
        assert false;
      }
      assert Related(m, k, piv, tau, x, y) <==> y == Apply(a0, x);
    }
  }

  /** The pivot row, before and after, read as an equation for x[p]. */
  lemma PivotRowEquation(row: Vec, k: nat, p: nat, v: Vec, target: Gf)
    requires |row| == k && |v| == k && p < k && row[p] != ZERO
    ensures Dot(PivotRow(row, p), v[p := target], k) == v[p] <==> Dot(row, v, k) == target
  {
    hide Mul, Xor, Dot, Inv;
    var c := row[p];
    var d := Dot(row, v, k);
    var inner := Dot(row[p := ONE], v[p := target], k);
    DotScale(Inv(c), row[p := ONE], v[p := target], k);
    DotUpdate(row, v, k, p, ONE, target);
    MulOneLeft(target);
    assert inner == Xor(Xor(d, Mul(c, v[p])), target);
    MulInv(c);
    MulAssoc(Inv(c), c, v[p]);
    MulOneLeft(v[p]);
    SolveXor(d, Mul(c, v[p]), target);
    if Mul(Inv(c), inner) == v[p] {
      MulCancel(Inv(c), inner, Mul(c, v[p]));
    }
  }

  lemma SolveXor(d: Gf, e: Gf, t: Gf)
    ensures Xor(Xor(d, e), t) == e <==> d == t
  {
  }

  /** Any other row, once the pivot row's equation holds. */
  lemma OtherRowEquation(row: Vec, solved: Vec, k: nat, p: nat, v: Vec, target: Gf)
    requires |row| == k && |solved| == k && |v| == k && p < k
    requires Dot(solved, v[p := target], k) == v[p]
    ensures Dot(AddScaled(row[p := ZERO], row[p], solved), v[p := target], k) == Dot(row, v, k)
  {
    hide Mul, Xor, Dot;
    var w := v[p := target];
    DotAddScaled(row[p := ZERO], row[p], solved, w, k);
    DotUpdate(row, v, k, p, ZERO, target);
    MulZeroLeft(target);
    XorZero(Xor(Dot(row, v, k), Mul(row[p], v[p])));
    XorCancel(Dot(row, v, k), Mul(row[p], v[p]));
  }

  lemma PivotRelated(m: seq<Vec>, k: nat, piv: seq<bool>, tau: seq<nat>, p: nat, x: Vec, y: Vec)
    requires Square(m, k) && Indices(k, piv, tau) && |x| == k && |y| == k
    requires p < k && !piv[p] && m[p][p] != ZERO
    ensures Related(Pivot(m, k, p), k, piv[p := true], tau, x, y) <==> Related(m, k, piv, tau, x, y)
  {
    hide Mul, Xor, Dot, PivotRow, AddScaled;
    var m', piv' := Pivot(m, k, p), piv[p := true];
    var v, target := Inputs(piv, tau, x, y), y[tau[p]];
    assert Inputs(piv', tau, x, y) == v[p := target];
    var w := v[p := target];
    PivotRowEquation(m[p], k, p, v, target);
    assert Dot(m'[p], w, k) == Output(piv', tau, x, y, p) <==> Dot(m[p], v, k) == Output(piv, tau, x, y, p);
    if Dot(m[p], v, k) == target {
      forall r | 0 <= r < k && r != p
        ensures Dot(m'[r], w, k) == Dot(m[r], v, k)
      {
        OtherRowEquation(m[r], m'[p], k, p, v, target);
      }
      forall r | 0 <= r < k
        ensures Dot(m'[r], w, k) == Output(piv', tau, x, y, r) <==> Dot(m[r], v, k) == Output(piv, tau, x, y, r)
      {
      }
    }
  }

  lemma PivotRepresents(m: seq<Vec>, k: nat, piv: seq<bool>, tau: seq<nat>, a0: seq<Vec>, p: nat)
    requires Square(m, k) && Square(a0, k) && Indices(k, piv, tau)
    requires p < k && !piv[p] && m[p][p] != ZERO
    requires Represents(m, k, piv, tau, a0)
    ensures Represents(Pivot(m, k, p), k, piv[p := true], tau, a0)
  {
    hide Dot, Pivot, Related, Apply;
    forall x: Vec, y: Vec | |x| == k && |y| == k
      ensures Related(Pivot(m, k, p), k, piv[p := true], tau, x, y) <==> y == Apply(a0, x)
    {
      PivotRelated(m, k, piv, tau, p, x, y);
      assert Related(m, k, piv, tau, x, y) <==> y == Apply(a0, x);
    }
  }
}
