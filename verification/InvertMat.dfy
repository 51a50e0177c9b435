/** Gauss-Jordan inversion in place, with pivoting and deferred column exchanges. */
module InvertMat {
  import opened Gf256
  import opened GfTables
  import opened Matrix
  import opened Elimination

  /** The contents of a square array, row by row. */
  ghost function Rows(a: array2<Gf>): (m: seq<Vec>)
    reads a
    ensures |m| == a.Length0 && forall r :: 0 <= r < |m| ==> |m[r]| == a.Length1
  {
    seq(a.Length0, r requires 0 <= r < a.Length0 reads a =>
      seq(a.Length1, c requires 0 <= c < a.Length1 reads a => a[r, c]))
  }

  lemma SameMatrix(m: seq<Vec>, n: seq<Vec>, k: nat)
    requires Square(m, k) && Square(n, k)
    requires forall r, c :: 0 <= r < k && 0 <= c < k ==> m[r][c] == n[r][c]
    ensures m == n
  {
    forall r | 0 <= r < k ensures m[r] == n[r] {
    }
  }

  ghost predicate Marks(ipiv: array<nat>, piv: seq<bool>)
    reads ipiv
  {
    ipiv.Length == |piv| && forall i :: 0 <= i < |piv| ==> ipiv[i] == if piv[i] then 1 else 0
  }

  /** The diagonal first, then any entry whose row and column are both unused. */
  method FindPivot(src: array2<Gf>, k: nat, ipiv: array<nat>, ghost piv: seq<bool>, col: nat)
    returns (found: bool, irow: nat, icol: nat)
    requires src.Length0 == src.Length1 == k && col < k && Marks(ipiv, piv) && |piv| == k
    ensures found ==> irow < k && icol < k && !piv[irow] && !piv[icol] && src[irow, icol] != ZERO
    ensures !found ==> Stuck(Rows(src), k, piv)
  {
    if ipiv[col] != 1 && src[col, col] != ZERO {
      return true, col, col;
    }
    for row := 0 to k
      invariant forall r, c :: 0 <= r < row && 0 <= c < k && !piv[r] && !piv[c] ==> src[r, c] == ZERO
    {
      if ipiv[row] != 1 {
        for ix := 0 to k
          invariant forall c :: 0 <= c < ix && !piv[c] ==> src[row, c] == ZERO
        {
          if ipiv[ix] == 0 {
            if src[row, ix] != ZERO {
              return true, row, ix;
            }
          } else if ipiv[ix] > 1 {
            assert false;  // marks stay 0 or 1
          }
        }
      }
    }
    return false, 0, 0;
  }

  method SwapRows(src: array2<Gf>, k: nat, i: nat, j: nat)
    requires src.Length0 == src.Length1 == k && i < k && j < k
    modifies src
    ensures Rows(src) == SwapAt(old(Rows(src)), i, j)
  {
    ghost var m := Rows(src);
    ghost var target := SwapAt(m, i, j);
    for ix := 0 to k
      invariant forall r, c :: 0 <= r < k && 0 <= c < k ==>
        src[r, c] == (if c < ix then target[r][c] else m[r][c])
    {
      src[i, ix], src[j, ix] := src[j, ix], src[i, ix];
    }
    SameMatrix(Rows(src), target, k);
  }

  method SwapColumnsInPlace(src: array2<Gf>, k: nat, i: nat, j: nat)
    requires src.Length0 == src.Length1 == k && i < k && j < k
    modifies src
    ensures Rows(src) == SwapColumns(old(Rows(src)), k, i, j)
  {
    ghost var m := Rows(src);
    ghost var target := SwapColumns(m, k, i, j);
    for row := 0 to k
      invariant forall r, c :: 0 <= r < k && 0 <= c < k ==>
        src[r, c] == (if r < row then target[r][c] else m[r][c])
    {
      src[row, i], src[row, j] := src[row, j], src[row, i];
    }
    SameMatrix(Rows(src), target, k);
  }

  lemma InvOne()
    ensures Inv(ONE) == ONE
  {
    hide Mul, Inv;
    MulInv(ONE);
    MulOneLeft(Inv(ONE));
  }

  lemma UnitPivotRow(row: Vec, p: nat)
    requires p < |row| && row[p] == ONE
    ensures PivotRow(row, p) == row
  {
    hide Mul, Inv;
    InvOne();
    forall i | 0 <= i < |row| ensures Mul(ONE, row[i]) == row[i] {
      MulOneLeft(row[i]);
    }
    assert row[p := ONE] == row;
  }

  /** Divide the pivot row by its pivot, leaving the pivot's inverse in its place. */
  method SolveRow(t: FieldTables, src: array2<Gf>, k: nat, p: nat)
    requires t.Ready() && src.Length0 == src.Length1 == k && p < k && src[p, p] != ZERO
    modifies src
    ensures Rows(src) == old(Rows(src))[p := PivotRow(old(Rows(src))[p], p)]
  {
    hide Mul, Inv, ToInt, Xor;
    ghost var m := Rows(src);
    ghost var row := m[p];
    var c := src[p, p];
    if c != ONE {
      c := t.inverse[ToInt(c)];
      src[p, p] := ONE;
      SameMatrix(Rows(src), m[p := row[p := ONE]], k);
      ScaleRow(t, src, k, p, c);
    } else {
      UnitPivotRow(row, p);
    }
    SameMatrix(Rows(src), m[p := PivotRow(row, p)], k);
  }

  method ScaleRow(t: FieldTables, src: array2<Gf>, k: nat, p: nat, c: Gf)
    requires t.Ready() && src.Length0 == src.Length1 == k && p < k
    modifies src
    ensures Rows(src) == old(Rows(src))[p := Scale(c, old(Rows(src))[p])]
  {
    hide Mul, Xor, ToInt, FieldTables.Ready, FieldTables.GfMul;
    ghost var m := Rows(src);
    ghost var scaled := Scale(c, m[p]);
    for ix := 0 to k
      invariant t.Ready()
      invariant forall r, i :: 0 <= r < k && 0 <= i < k && r != p ==> src[r, i] == m[r][i]
      invariant forall i :: 0 <= i < k ==> src[p, i] == (if i < ix then scaled[i] else m[p][i])
    {
      src[p, ix] := t.GfMul(c, src[p, ix]);
    }
    SameMatrix(Rows(src), m[p := scaled], k);
  }

  lemma AddScaledZero(a: Vec, b: Vec)
    requires |a| == |b|
    ensures AddScaled(a, ZERO, b) == a
  {
    hide Mul, Xor;
    forall i | 0 <= i < |a| ensures Xor(a[i], Mul(ZERO, b[i])) == a[i] {
      MulZeroLeft(b[i]);
      XorZero(a[i]);
    }
  }

  /** dst += c * src on two different rows of one matrix. */
  method AddMulRow(t: FieldTables, m: array2<Gf>, k: nat, dst: nat, src: nat, c: Gf)
    requires t.Ready() && m.Length0 == m.Length1 == k && dst < k && src < k && dst != src
    modifies m
    ensures Rows(m) == old(Rows(m))[dst := AddScaled(old(Rows(m))[dst], c, old(Rows(m))[src])]
  {
    hide Mul, Xor, ToInt, FieldTables.Ready, FieldTables.GfMul;
    ghost var rows := Rows(m);
    ghost var sum := AddScaled(rows[dst], c, rows[src]);
    if c != ZERO {
      for i := 0 to k
        invariant t.Ready()
        invariant forall r, x :: 0 <= r < k && 0 <= x < k && r != dst ==> m[r, x] == rows[r][x]
        invariant forall x :: 0 <= x < k ==> m[dst, x] == (if x < i then sum[x] else rows[dst][x])
      {
        m[dst, i] := Xor(m[dst, i], t.GfMul(c, m[src, i]));
      }
    } else {
      AddScaledZero(rows[dst], rows[src]);
    }
    SameMatrix(Rows(m), rows[dst := sum], k);
  }

  /** Substitute the solved row `p` in every other row. */
  method Substitute(t: FieldTables, src: array2<Gf>, k: nat, p: nat)
    requires t.Ready() && src.Length0 == src.Length1 == k && p < k
    modifies src
    ensures Rows(src)[p] == old(Rows(src))[p]
    ensures forall r :: 0 <= r < k && r != p ==>
      Rows(src)[r] == AddScaled(old(Rows(src))[r][p := ZERO], old(Rows(src))[r][p], old(Rows(src))[p])
  {
    hide AddScaled, Mul, ToInt;
    ghost var m := Rows(src);
    for ix := 0 to k
      invariant t.Ready()
      invariant Rows(src)[p] == m[p]
      invariant forall r :: ix <= r < k ==> Rows(src)[r] == m[r]
      invariant forall r :: 0 <= r < ix && r != p ==>
        Rows(src)[r] == AddScaled(m[r][p := ZERO], m[r][p], m[p])
    {
      if ix != p {
        assert Rows(src)[ix] == m[ix] && Rows(src)[p] == m[p];
        ghost var before := Rows(src);
        var c := src[ix, p];
        src[ix, p] := ZERO;
        SameMatrix(Rows(src), before[ix := m[ix][p := ZERO]], k);
        AddMulRow(t, src, k, ix, p, c);
      }
    }
  }

  lemma AddScaledUnit(row: Vec, p: nat)
    requires p < |row|
    ensures AddScaled(row[p := ZERO], row[p], Unit(|row|, p)) == row
  {
    hide Mul, Xor;
    var c, unit := row[p], Unit(|row|, p);
    forall i | 0 <= i < |row|
      ensures Xor(row[p := ZERO][i], Mul(c, unit[i])) == row[i]
    {
      if i == p {
        MulComm(c, ONE);
        MulOneLeft(c);
        XorZero(c);
      } else {
        MulZeroRight(c);
        XorZero(row[i]);
      }
    }
  }

  /** One whole elimination step on row and column `p`. */
  method PivotInPlace(t: FieldTables, src: array2<Gf>, k: nat, idRow: array<Gf>, p: nat)
    requires t.Ready() && src.Length0 == src.Length1 == k && p < k && src[p, p] != ZERO
    requires idRow.Length == k && idRow[..] == Zeros(k)
    requires idRow != t.inverse && idRow != t.mulTable
    modifies src, idRow
    ensures Rows(src) == Pivot(old(Rows(src)), k, p)
    ensures idRow[..] == Zeros(k)
  {
    hide PivotRow, AddScaled, Mul, Inv, ToInt;
    ghost var m := Rows(src);
    SolveRow(t, src, k, p);
    ghost var solved := PivotRow(m[p], p);
    assert Rows(src) == m[p := solved];
    assert t.Ready();
    idRow[p] := ONE;
    assert idRow[..] == Unit(k, p);
    if exists ix :: 0 <= ix < k && src[p, ix] != idRow[ix] {
      Substitute(t, src, k, p);
    } else {
      assert Rows(src)[p] == Unit(k, p) by {
        assert forall ix :: 0 <= ix < k ==> Rows(src)[p][ix] == idRow[..][ix];
      }
      forall r | 0 <= r < k && r != p
        ensures AddScaled(m[r][p := ZERO], m[r][p], solved) == m[r]
      {
        AddScaledUnit(m[r], p);
      }
    }
    idRow[p] := ZERO;
    assert Rows(src) == Pivot(m, k, p);
  }

  /** The orders of the right-hand sides before and after each row exchange. */
  ghost predicate Orders(k: nat, rs: seq<nat>, cs: seq<nat>, taus: seq<seq<nat>>) {
    && |cs| == |rs| && |taus| == |rs| + 1 && taus[0] == Identity(k)
    && (forall i :: 0 <= i < |taus| ==> Order(k, taus[i]))
    && (forall i :: 0 <= i < |rs| ==> rs[i] < k && cs[i] < k && taus[i + 1] == SwapAt(taus[i], rs[i], cs[i]))
  }

  ghost predicate Order(k: nat, tau: seq<nat>) {
    |tau| == k && forall c :: 0 <= c < k ==> tau[c] < k
  }

  lemma OrdersStart(k: nat)
    ensures Orders(k, [], [], [Identity(k)])
  {
  }

  lemma OrdersExtend(k: nat, rs: seq<nat>, cs: seq<nat>, taus: seq<seq<nat>>, i: nat, j: nat)
    requires Orders(k, rs, cs, taus) && i < k && j < k
    ensures Orders(k, rs + [i], cs + [j], taus + [SwapAt(taus[|rs|], i, j)])
  {
  }

  /** Undoing an exchange goes back one order. */
  lemma OrdersBack(k: nat, rs: seq<nat>, cs: seq<nat>, taus: seq<seq<nat>>, n: nat)
    requires Orders(k, rs, cs, taus) && n < |rs|
    ensures rs[n] < k && cs[n] < k && Order(k, taus[n]) && Order(k, taus[n + 1])
    ensures SwapAt(taus[n + 1], rs[n], cs[n]) == taus[n]
  {
  }

  /** Mark the pivot, bring it to the diagonal, eliminate. */
  method Step(t: FieldTables, src: array2<Gf>, k: nat, ipiv: array<nat>, idRow: array<Gf>,
              ghost piv: seq<bool>, irow: nat, icol: nat)
    requires t.Ready() && src.Length0 == src.Length1 == k && idRow.Length == k && idRow[..] == Zeros(k)
    requires idRow != t.inverse && idRow != t.mulTable
    requires |piv| == k && Marks(ipiv, piv)
    requires irow < k && icol < k && !piv[irow] && !piv[icol] && src[irow, icol] != ZERO
    modifies src, ipiv, idRow
    ensures Rows(src) == Pivot(SwapAt(old(Rows(src)), irow, icol), k, icol)
    ensures Marks(ipiv, piv[icol := true]) && idRow[..] == Zeros(k)
  {
    hide Pivot, Mul, ToInt, FieldTables.Ready;
    ghost var m := Rows(src);
    Entry(src, irow, icol);
    ipiv[icol] := ipiv[icol] + 1;
    if irow != icol {
      SwapRows(src, k, irow, icol);
    } else {
      assert SwapAt(m, irow, icol) == m;
    }
    Entry(src, icol, icol);
    assert Rows(src)[icol] == m[irow];
    if src[icol, icol] == ZERO {
      assert false;  // the pivot is nonzero
    }
    PivotInPlace(t, src, k, idRow, icol);
  }

  lemma StepRepresents(m: seq<Vec>, k: nat, piv: seq<bool>, tau: seq<nat>, a0: seq<Vec>, irow: nat, icol: nat)
    requires Square(m, k) && Square(a0, k) && Indices(k, piv, tau)
    requires irow < k && icol < k && !piv[irow] && !piv[icol] && m[irow][icol] != ZERO
    requires Represents(m, k, piv, tau, a0)
    ensures Represents(Pivot(SwapAt(m, irow, icol), k, icol), k, piv[icol := true], SwapAt(tau, irow, icol), a0)
  {
    hide Pivot, Represents;
    SwapRepresents(m, k, piv, tau, a0, irow, icol);
    PivotRepresents(SwapAt(m, irow, icol), k, piv, SwapAt(tau, irow, icol), a0, icol);
  }

  /** One column: choose a pivot, clear its column, and note the swap; without a pivot the matrix is singular. */
  method EliminateColumn(t: FieldTables, src: array2<Gf>, k: nat, ipiv: array<nat>, idRow: array<Gf>, indxr: array<nat>,
        indxc: array<nat>, col: nat, ghost piv: seq<bool>, ghost tau: seq<nat>, ghost taus: seq<seq<nat>>,
        ghost a0: seq<Vec>)
    returns (found: bool, ghost piv': seq<bool>, ghost tau': seq<nat>, ghost taus': seq<seq<nat>>)
    requires t.Ready() && src.Length0 == src.Length1 == k && Square(a0, k)
    requires indxr.Length == indxc.Length == k && indxr != indxc && col < k && ipiv != indxr && ipiv != indxc
    requires idRow.Length == k && idRow[..] == Zeros(k) && idRow != t.inverse && idRow != t.mulTable
    requires |piv| == k && Marks(ipiv, piv) && Count(piv) == col
    requires |taus| == col + 1 && taus[col] == tau && Order(k, tau)
    requires Orders(k, indxr[..col], indxc[..col], taus)
    requires Represents(Rows(src), k, piv, tau, a0)
    modifies src, ipiv, idRow, indxr, indxc
    ensures t.Ready() && idRow[..] == Zeros(k)
    ensures !found ==> !Nonsingular(a0, k)
    ensures found ==> |piv'| == k && Marks(ipiv, piv') && Count(piv') == col + 1
    ensures found ==> |taus'| == col + 2 && taus'[col + 1] == tau' && Order(k, tau')
    ensures found ==> Orders(k, indxr[..col + 1], indxc[..col + 1], taus')
    ensures found ==> Represents(Rows(src), k, piv', tau', a0)
  {
    hide Pivot, Represents, Stuck, Nonsingular, Mul, ToInt, Xor, FieldTables.Ready, SwapAt, Rows, Orders, Count, Apply,
      Identity;
    piv', tau', taus' := piv, tau, taus;
    ghost var m, rs, cs := Rows(src), indxr[..col], indxc[..col];
    var irow, icol;
    found, irow, icol := FindPivot(src, k, ipiv, piv, col);
    if !found {
      CountBounds(piv);
      ghost var p :| 0 <= p < k && !piv[p];
      StuckIsSingular(m, k, piv, tau, a0, p);
      return;
    }
    Entry(src, irow, icol);
    Step(t, src, k, ipiv, idRow, piv, irow, icol);
    indxr[col] := irow;
    indxc[col] := icol;
    assert indxr[..col + 1] == rs + [irow] && indxc[..col + 1] == cs + [icol];
    OrdersExtend(k, rs, cs, taus, irow, icol);
    StepRepresents(m, k, piv, tau, a0, irow, icol);
    SwapAtOrder(tau, k, irow, icol);
    tau' := SwapAt(tau, irow, icol);
    taus' := taus + [tau'];
    CountSet(piv, icol);
    piv' := piv[icol := true];
  }

  method Eliminate(t: FieldTables, src: array2<Gf>, k: nat, indxr: array<nat>, indxc: array<nat>)
    returns (error: int, ghost taus: seq<seq<nat>>)
    requires t.Ready() && src.Length0 == src.Length1 == k
    requires indxr.Length == indxc.Length == k && indxr != indxc
    modifies src, indxr, indxc
    ensures error == 0 || error == 1
    ensures error == 0 ==> Orders(k, indxr[..], indxc[..], taus) && |taus| == k + 1 && Order(k, taus[k])
    ensures error == 0 ==> Represents(Rows(src), k, AllTrue(k), taus[k], old(Rows(src)))
    ensures error == 1 ==> !Nonsingular(old(Rows(src)), k)
  {
    hide Pivot, Represents, Stuck, Nonsingular, Mul, ToInt, Xor, FieldTables.Ready, SwapAt, Rows, Orders, Count, Apply,
      Identity;
    var ipiv := new nat[k](_ => 0);
    var idRow := new Gf[k](_ => ZERO);
    assert idRow[..] == Zeros(k);
    ghost var a0, piv, tau := Rows(src), seq(k, _ => false), Identity(k);
    taus := [tau];
    OrdersStart(k);
    IdentityOrder(k);
    StartRepresents(a0, k, piv, tau);
    CountBounds(piv);
    for col := 0 to k
      invariant t.Ready() && idRow[..] == Zeros(k)
      invariant |piv| == k && Marks(ipiv, piv) && Count(piv) == col
      invariant |taus| == col + 1 && taus[col] == tau && Order(k, tau)
      invariant Orders(k, indxr[..col], indxc[..col], taus)
      invariant Represents(Rows(src), k, piv, tau, a0)
    {
      var found;
      found, piv, tau, taus := EliminateColumn(t, src, k, ipiv, idRow, indxr, indxc, col, piv, tau, taus, a0);
      if !found {
        return 1, taus;
      }
    }
    CountBounds(piv);
    assert indxr[..k] == indxr[..] && indxc[..k] == indxc[..];
    return 0, taus;
  }

  lemma IdentityOrder(k: nat)
    ensures Order(k, Identity(k)) && forall i :: 0 <= i < k ==> Identity(k)[i] == i
  {
  }

  lemma Entry(src: array2<Gf>, r: nat, c: nat)
    requires r < src.Length0 && c < src.Length1
    ensures Rows(src)[r][c] == src[r, c]
  {
  }

  lemma SwapAtOrder(tau: seq<nat>, k: nat, i: nat, j: nat)
    requires Order(k, tau) && i < k && j < k
    ensures Order(k, SwapAt(tau, i, j))
  {
  }

  /**
   * Replaces a matrix by its inverse and returns 0, or returns 1: exactly the
   * nonsingular matrices are inverted.
   */
  method InvertInPlace(t: FieldTables, src: array2<Gf>, k: nat) returns (error: int)
    requires t.Ready() && src.Length0 == src.Length1 == k
    modifies src
    ensures error == 0 || error == 1
    ensures error == 0 <==> Nonsingular(old(Rows(src)), k)
    ensures error == 0 ==> Inverse(Rows(src), old(Rows(src)), k)
  {
    hide Represents, Nonsingular, Inverse, Mul, ToInt, FieldTables.Ready, Rows, Orders;
    var indxr := new nat[k](_ => 0);
    var indxc := new nat[k](_ => 0);
    ghost var a0, taus := Rows(src), [];
    error, taus := Eliminate(t, src, k, indxr, indxc);
    if error != 0 {
      return;
    }
    ghost var rs, cs, tau := indxr[..], indxc[..], taus[k];
    var col := k;
    while col > 0
      invariant col <= k
      invariant indxr[..] == rs && indxc[..] == cs && Orders(k, rs, cs, taus)
      invariant |taus| == k + 1 && taus[col] == tau && Order(k, tau)
      invariant Represents(Rows(src), k, AllTrue(k), tau, a0)
    {
      col := col - 1;
      OrdersBack(k, rs, cs, taus, col);
      ghost var m := Rows(src);
      var i, j := indxr[col], indxc[col];
      if i != j {
        SwapColumnsInPlace(src, k, i, j);
      } else {
        SameMatrix(SwapColumns(m, k, i, j), m, k);
      }
      SwapColumnsRepresents(m, k, tau, a0, i, j);
      tau := taus[col];
    }
    OrdersFirst(k, rs, cs, taus);
    FinishedIsInverse(Rows(src), k, a0);
    InverseNonsingular(Rows(src), a0, k);
  }

  lemma OrdersFirst(k: nat, rs: seq<nat>, cs: seq<nat>, taus: seq<seq<nat>>)
    requires Orders(k, rs, cs, taus)
    ensures |taus| == |rs| + 1 && taus[0] == Identity(k)
  {
  }
}
