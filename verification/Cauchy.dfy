/** The parity matrix: every mix of surviving and parity rows is nonsingular. */
module Cauchy {
  import opened Gf256
  import opened Matrix
  import opened Elimination

  ghost function CauchyRow(xs: Vec, y: Gf): (row: Vec)
    ensures |row| == |xs|
  {
    seq(|xs|, i requires 0 <= i < |xs| => Inv(Xor(xs[i], y)))
  }

  ghost predicate Distinct(xs: Vec) { forall i, j :: 0 <= i < j < |xs| ==> xs[i] != xs[j] }

  ghost predicate Apart(xs: Vec, ys: Vec) {
    forall i, j :: 0 <= i < |xs| && 0 <= j < |ys| ==> xs[i] != ys[j]
  }

  // ---- One term of the elimination ----

  lemma MulLeftCommute(a: Gf, b: Gf, c: Gf)
    ensures Mul(a, Mul(b, c)) == Mul(b, Mul(a, c))
  {
    hide Mul;
    MulAssoc(a, b, c);
    MulAssoc(b, a, c);
    MulComm(a, b);
  }

  lemma CancelFactor(p: Gf, v: Gf)
    requires p != ZERO
    ensures Mul(p, Mul(v, Inv(p))) == v
  {
    hide Mul, Inv;
    MulLeftCommute(p, v, Inv(p));
    MulInv(p);
    MulComm(v, ONE);
    MulOneLeft(v);
  }

  lemma SwapFactors(v: Gf, d: Gf, p: Gf, q: Gf)
    ensures Mul(Mul(v, Mul(d, q)), p) == Mul(Mul(v, Mul(d, p)), q)
  {
    hide Mul;
    MulAssoc(v, Mul(d, q), p);
    MulAssoc(v, Mul(d, p), q);
    MulAssoc(d, q, p);
    MulAssoc(d, p, q);
    MulComm(p, q);
  }

  lemma CancelMiddle(a: Gf, v: Gf, b: Gf)
    ensures Xor(Xor(a, v), Xor(b, v)) == Xor(a, b)
  {
  }

  lemma TermIdentity(d: Gf, p: Gf, q: Gf, v: Gf)
    requires p != ZERO && q != ZERO
    ensures Xor(Mul(Xor(d, p), Mul(v, Inv(p))), Mul(Xor(d, q), Mul(v, Inv(q)))) ==
      Mul(Xor(p, q), Mul(Mul(v, Mul(d, Inv(q))), Inv(p)))
  {
    hide Mul, Xor, Inv;
    var ip, iq := Inv(p), Inv(q);
    MulLinearLeft(d, p, Mul(v, ip));
    MulLinearLeft(d, q, Mul(v, iq));
    CancelFactor(p, v);
    CancelFactor(q, v);
    CancelMiddle(Mul(d, Mul(v, ip)), v, Mul(d, Mul(v, iq)));
    var w := Mul(Mul(v, Mul(d, iq)), ip);
    MulLinearLeft(p, q, w);
    CancelFactor(p, Mul(v, Mul(d, iq)));
    SwapFactors(v, d, ip, iq);
    CancelFactor(q, Mul(v, Mul(d, ip)));
    MulLeftCommute(v, d, iq);
    MulLeftCommute(v, d, ip);
    XorComm(Mul(d, Mul(v, ip)), Mul(d, Mul(v, iq)));
  }

  /** The vector left after eliminating the last unknown and the last row. */
  ghost function Reduced(xs: Vec, yLast: Gf, v: Vec): (u: Vec)
    requires |v| == |xs| > 0
    ensures |u| == |xs| - 1
  {
    var m := |xs| - 1;
    seq(m, i requires 0 <= i < m => Mul(v[i], Mul(Xor(xs[m], xs[i]), Inv(Xor(xs[i], yLast)))))
  }

  lemma Telescope(a: Gf, b: Gf, c: Gf)
    ensures Xor(Xor(a, b), Xor(b, c)) == Xor(a, c)
    ensures Xor(Xor(a, b), Xor(a, c)) == Xor(b, c)
  {
  }

  lemma {:induction false} ReducedSum(xs: Vec, y: Gf, yLast: Gf, v: Vec, n: nat)
    requires |v| == |xs| > n
    requires forall i :: 0 <= i < |xs| ==> xs[i] != y && xs[i] != yLast
    ensures
      var m := |xs| - 1;
      Xor(Mul(Xor(xs[m], y), Dot(v, CauchyRow(xs, y), n)), Mul(Xor(xs[m], yLast), Dot(v, CauchyRow(xs, yLast), n)))
      == Mul(Xor(y, yLast), Dot(Reduced(xs, yLast, v), CauchyRow(xs[..m], y), n))
  {
    hide Mul, Xor, Inv;
    var m := |xs| - 1;
    var a, b, c := Xor(xs[m], y), Xor(xs[m], yLast), Xor(y, yLast);
    if n == 0 {
      MulZeroRight(a);
      MulZeroRight(b);
      MulZeroRight(c);
      XorZero(ZERO);
    } else {
      var i := n - 1;
      ReducedSum(xs, y, yLast, v, i);
      var row, rowLast, u := CauchyRow(xs, y), CauchyRow(xs, yLast), Reduced(xs, yLast, v);
      var short := CauchyRow(xs[..m], y);
      MulLinearRight(a, Dot(v, row, i), Mul(v[i], row[i]));
      MulLinearRight(b, Dot(v, rowLast, i), Mul(v[i], rowLast[i]));
      MulLinearRight(c, Dot(u, short, i), Mul(u[i], short[i]));
      Xor4(Mul(a, Dot(v, row, i)), Mul(a, Mul(v[i], row[i])),
           Mul(b, Dot(v, rowLast, i)), Mul(b, Mul(v[i], rowLast[i])));
      var d, p, q := Xor(xs[m], xs[i]), Xor(xs[i], y), Xor(xs[i], yLast);
      Telescope(xs[m], xs[i], y);
      Telescope(xs[m], xs[i], yLast);
      Telescope(xs[i], y, yLast);
      XorSelf(xs[i], y);
      XorSelf(xs[i], yLast);
      TermIdentity(d, p, q, v[i]);
    }
  }

  /** The reduced vector is annihilated by the remaining rows. */
  lemma ReducedAnnihilated(xs: Vec, y: Gf, yLast: Gf, v: Vec)
    requires |v| == |xs| > 0 && y != yLast
    requires forall i :: 0 <= i < |xs| ==> xs[i] != y && xs[i] != yLast
    requires Dot(v, CauchyRow(xs, y), |xs|) == ZERO
    requires Dot(v, CauchyRow(xs, yLast), |xs|) == ZERO
    ensures Dot(Reduced(xs, yLast, v), CauchyRow(xs[..|xs| - 1], y), |xs| - 1) == ZERO
  {
    hide Mul, Xor, Inv;
    var m := |xs| - 1;
    ReducedSum(xs, y, yLast, v, m);
    LastTerm(xs, y, v);
    LastTerm(xs, yLast, v);
    XorSelf(v[m], v[m]);
    XorSelf(y, yLast);
    var d := Dot(Reduced(xs, yLast, v), CauchyRow(xs[..m], y), m);
    if d != ZERO {
      MulNonzero(Xor(y, yLast), d);
    }
  }

  lemma LastTerm(xs: Vec, y: Gf, v: Vec)
    requires |v| == |xs| > 0 && xs[|xs| - 1] != y
    requires Dot(v, CauchyRow(xs, y), |xs|) == ZERO
    ensures Mul(Xor(xs[|xs| - 1], y), Dot(v, CauchyRow(xs, y), |xs| - 1)) == v[|xs| - 1]
  {
    hide Mul, Xor, Inv;
    var m := |xs| - 1;
    var p := Xor(xs[m], y);
    XorSelf(xs[m], y);
    XorSelf(Dot(v, CauchyRow(xs, y), m), Mul(v[m], Inv(p)));
    CancelFactor(p, v[m]);
  }

  /** A square Cauchy matrix annihilates only the zero vector. */
  lemma {:induction false} CauchyKernel(xs: Vec, ys: Vec, v: Vec)
    requires |xs| == |ys| == |v| && Distinct(xs) && Distinct(ys) && Apart(xs, ys)
    requires forall j :: 0 <= j < |ys| ==> Dot(v, CauchyRow(xs, ys[j]), |xs|) == ZERO
    ensures v == Zeros(|v|)
    decreases |xs|
  {
    hide Mul, Xor, Inv, Dot;
    if xs != [] {
      var m := |xs| - 1;
      var u := Reduced(xs, ys[m], v);
      forall j | 0 <= j < m
        ensures Dot(u, CauchyRow(xs[..m], ys[..m][j]), m) == ZERO
      {
        ReducedAnnihilated(xs, ys[j], ys[m], v);
      }
      CauchyKernel(xs[..m], ys[..m], u);
      forall i | 0 <= i < m
        ensures v[i] == ZERO
      {
        ReducedEntry(xs, ys[m], v, i);
      }
      FirstColumnOnly(xs, ys[m], v);
    }
  }

  lemma ReducedEntry(xs: Vec, yLast: Gf, v: Vec, i: nat)
    requires |v| == |xs| > 0 && i < |xs| - 1 && Distinct(xs) && xs[i] != yLast
    requires Reduced(xs, yLast, v)[i] == ZERO
    ensures v[i] == ZERO
  {
    hide Mul, Xor, Inv;
    var m := |xs| - 1;
    var d, p := Xor(xs[m], xs[i]), Xor(xs[i], yLast);
    XorSelf(xs[m], xs[i]);
    XorSelf(xs[i], yLast);
    MulInv(p);
    MulNonzero(d, Inv(p));
    if v[i] != ZERO {
      MulNonzero(v[i], Mul(d, Inv(p)));
    }
  }

  lemma FirstColumnOnly(xs: Vec, y: Gf, v: Vec)
    requires |v| == |xs| > 0 && xs[|xs| - 1] != y
    requires forall i :: 0 <= i < |xs| - 1 ==> v[i] == ZERO
    requires Dot(v, CauchyRow(xs, y), |xs|) == ZERO
    ensures v[|xs| - 1] == ZERO
  {
    hide Mul, Xor, Inv;
    LastTerm(xs, y, v);
    DotZeros(v, CauchyRow(xs, y), |xs| - 1);
    MulZeroRight(Xor(xs[|xs| - 1], y));
  }

  // ---- Positions picked by a mask ----

  function Positions(mask: seq<bool>): (ps: seq<nat>)
    ensures forall i :: 0 <= i < |ps| ==> ps[i] < |mask| && mask[ps[i]]
    ensures forall i, j :: 0 <= i < j < |ps| ==> ps[i] < ps[j]
    ensures forall p :: 0 <= p < |mask| && mask[p] ==> p in ps
  {
    if mask == [] then []
    else
      var n := |mask| - 1;
      Positions(mask[..n]) + (if mask[n] then [n] else [])
  }

  lemma {:induction false} PositionsCount(mask: seq<bool>)
    ensures |Positions(mask)| == Count(mask)
  {
    if mask != [] {
      PositionsCount(mask[..|mask| - 1]);
    }
  }

  /** The elements at the given positions. */
  function Pick<T>(v: seq<T>, at: seq<nat>): (w: seq<T>)
    requires forall i :: 0 <= i < |at| ==> at[i] < |v|
    ensures |w| == |at|
  {
    seq(|at|, i requires 0 <= i < |at| => v[at[i]])
  }

  lemma PositionsNext(mask: seq<bool>, n: nat)
    requires |mask| == n + 1
    ensures Positions(mask) == if mask[n] then Positions(mask[..n]) + [n] else Positions(mask[..n])
  {
  }

  lemma PickNext(v: Vec, at: seq<nat>, n: nat)
    requires n < |v| && forall i :: 0 <= i < |at| ==> at[i] < |v|
    ensures Pick(v, at + [n]) == Pick(v, at) + [v[n]]
  {
  }

  lemma DotNext(a: Vec, b: Vec, n: nat)
    requires n < |a| && n < |b|
    ensures Dot(a, b, n + 1) == Xor(Dot(a, b, n), Mul(a[n], b[n]))
  {
    hide Mul, Xor;
  }

  /** One more entry, picked or zero. */
  lemma SparseStep(row: Vec, x: Vec, at: seq<nat>, n: nat, picked: bool)
    requires n < |row| && n < |x| && (forall i :: 0 <= i < |at| ==> at[i] < n) && (picked || x[n] == ZERO)
    requires Dot(row, x, n) == Dot(Pick(x, at), Pick(row, at), |at|)
    ensures var all := if picked then at + [n] else at;
      && (forall i :: 0 <= i < |all| ==> all[i] <= n)
      && Dot(row, x, n + 1) == Dot(Pick(x, all), Pick(row, all), |all|)
  {
    hide Mul, Xor, Dot, Pick;
    DotNext(row, x, n);
    if picked {
      PickNext(x, at, n);
      PickNext(row, at, n);
      DotAgree(Pick(x, at), Pick(x, at + [n]), Pick(row, at), Pick(row, at + [n]), |at|);
      DotNext(Pick(x, at + [n]), Pick(row, at + [n]), |at|);
      MulComm(row[n], x[n]);
    } else {
      MulZeroRight(row[n]);
      XorZero(Dot(row, x, n));
    }
  }

  /** Entries outside the mask are zero, so only the picked entries contribute. */
  lemma {:induction false} SparseDot(mask: seq<bool>, row: Vec, x: Vec)
    requires |row| >= |mask| && |x| >= |mask|
    requires forall i :: 0 <= i < |mask| && !mask[i] ==> x[i] == ZERO
    ensures Dot(row, x, |mask|) == Dot(Pick(x, Positions(mask)), Pick(row, Positions(mask)), |Positions(mask)|)
  {
    if mask == [] {
      assert Positions(mask) == [];
    } else {
      hide Mul, Xor, Dot, Positions, Pick;
      var n := |mask| - 1;
      SparseDot(mask[..n], row, x);
      PositionsNext(mask, n);
      SparseStep(row, x, Positions(mask[..n]), n, mask[n]);
    }
  }

  // ---- Parity rows ----

  /** Row `j` of the parity block, entry i being inverse[(ps + i) ^ j]. */
  ghost function ParityRow(ds: nat, ps: nat, j: nat): (row: Vec)
    requires ds + ps <= 255 && j < ps
    ensures |row| == ds
  {
    seq(ds, i requires 0 <= i < ds => Inv(Xor(FromInt(ps + i), FromInt(j))))
  }

  lemma FromIntDistinct(m: nat, n: nat)
    requires m < 256 && n < 256 && m != n
    ensures FromInt(m) != FromInt(n)
  {
    hide FromInt, ToInt;
    ToIntFromInt(m);
    ToIntFromInt(n);
  }

  /** The entry times (ps + i) ^ j is one. */
  lemma ParityEntry(ds: nat, ps: nat, j: nat, i: nat)
    requires ds + ps <= 255 && j < ps && i < ds
    ensures Mul(ParityRow(ds, ps, j)[i], Xor(FromInt(ps + i), FromInt(j))) == ONE
  {
    hide FromInt, Xor, Inv, Mul;
    FromIntDistinct(ps + i, j);
    XorSelf(FromInt(ps + i), FromInt(j));
    MulInv(Xor(FromInt(ps + i), FromInt(j)));
  }

  lemma ParityEntryNonzero(ds: nat, ps: nat, j: nat, i: nat)
    requires ds + ps <= 255 && j < ps && i < ds
    ensures ParityRow(ds, ps, j)[i] != ZERO
  {
    hide FromInt, Xor, Inv;
    FromIntDistinct(ps + i, j);
    XorSelf(FromInt(ps + i), FromInt(j));
    MulInv(Xor(FromInt(ps + i), FromInt(j)));
  }

  ghost predicate DistinctBelow(fecs: seq<nat>, ps: nat) {
    && (forall i :: 0 <= i < |fecs| ==> fecs[i] < ps)
    && (forall i, j :: 0 <= i < j < |fecs| ==> fecs[i] != fecs[j])
  }

  /** The field elements of the numbers base + at[i]. */
  ghost function Points(base: nat, at: seq<nat>): (xs: Vec)
    requires forall i :: 0 <= i < |at| ==> base + at[i] < 256
    ensures |xs| == |at|
  {
    seq(|at|, i requires 0 <= i < |at| => FromInt(base + at[i]))
  }

  lemma PointsDistinct(base: nat, at: seq<nat>)
    requires forall i :: 0 <= i < |at| ==> base + at[i] < 256
    requires forall i, j :: 0 <= i < j < |at| ==> at[i] != at[j]
    ensures Distinct(Points(base, at))
  {
    hide FromInt;
    var xs := Points(base, at);
    forall i, j | 0 <= i < j < |xs|
      ensures xs[i] != xs[j]
    {
      FromIntDistinct(base + at[i], base + at[j]);
    }
  }

  lemma PointsApart(base: nat, at: seq<nat>, fecs: seq<nat>)
    requires forall i :: 0 <= i < |at| ==> base + at[i] < 256
    requires forall i :: 0 <= i < |fecs| ==> fecs[i] < base && fecs[i] < 256
    ensures Apart(Points(base, at), Points(0, fecs))
  {
    hide FromInt;
    var xs, ys := Points(base, at), Points(0, fecs);
    forall i, j | 0 <= i < |xs| && 0 <= j < |ys|
      ensures xs[i] != ys[j]
    {
      FromIntDistinct(base + at[i], fecs[j]);
    }
  }

  lemma PickedParityRow(ds: nat, ps: nat, j: nat, at: seq<nat>)
    requires ds + ps <= 255 && j < ps
    requires forall i :: 0 <= i < |at| ==> at[i] < ds
    ensures Pick(ParityRow(ds, ps, j), at) == CauchyRow(Points(ps, at), FromInt(j))
  {
    hide FromInt, Inv, Xor;
  }

  /** As many distinct parity rows as unknowns leave no nonzero solution. */
  lemma ParityKernel(ds: nat, ps: nat, mask: seq<bool>, fecs: seq<nat>, x: Vec)
    requires ds + ps <= 255 && |mask| == |x| == ds && DistinctBelow(fecs, ps)
    requires |fecs| == Count(mask)
    requires forall i :: 0 <= i < ds && !mask[i] ==> x[i] == ZERO
    requires forall j :: 0 <= j < |fecs| ==> Dot(ParityRow(ds, ps, fecs[j]), x, ds) == ZERO
    ensures x == Zeros(ds)
  {
    hide Mul, Xor, Inv, Dot, FromInt, Positions, ParityRow, CauchyRow;
    PositionsCount(mask);
    var at := Positions(mask);
    var xs, ys, v := Points(ps, at), Points(0, fecs), Pick(x, at);
    PointsDistinct(ps, at);
    PointsDistinct(0, fecs);
    PointsApart(ps, at, fecs);
    forall j | 0 <= j < |ys|
      ensures Dot(v, CauchyRow(xs, ys[j]), |xs|) == ZERO
    {
      SparseDot(mask, ParityRow(ds, ps, fecs[j]), x);
      PickedParityRow(ds, ps, fecs[j], at);
    }
    CauchyKernel(xs, ys, v);
    PickedZero(mask, x);
  }

  lemma PickedZero(mask: seq<bool>, x: Vec)
    requires |mask| == |x|
    requires forall i :: 0 <= i < |mask| && !mask[i] ==> x[i] == ZERO
    requires Pick(x, Positions(mask)) == Zeros(|Positions(mask)|)
    ensures x == Zeros(|x|)
  {
    var at := Positions(mask);
    forall i | 0 <= i < |x|
      ensures x[i] == ZERO
    {
      if mask[i] {
        var k :| 0 <= k < |at| && at[k] == i;
        assert Pick(x, at)[k] == ZERO;
      }
    }
  }
}
