/** Why reconstruction works: the matrix of surviving and parity rows and its inverse. */
module Recovery {
  import opened Gf256
  import opened Matrix
  import opened Elimination
  import opened Cauchy

  function Complement(mask: seq<bool>): (c: seq<bool>)
    ensures |c| == |mask|
  {
    seq(|mask|, i requires 0 <= i < |mask| => !mask[i])
  }

  /** The data shards that were not erased, in order. */
  function Survivors(mask: seq<bool>): (at: seq<nat>)
    ensures forall i :: 0 <= i < |at| ==> at[i] < |mask| && !mask[at[i]]
    ensures forall p :: 0 <= p < |mask| && !mask[p] ==> p in at
  {
    Positions(Complement(mask))
  }

  lemma {:induction false} CountComplement(mask: seq<bool>)
    ensures Count(Complement(mask)) + Count(mask) == |mask|
  {
    if mask != [] {
      var n := |mask| - 1;
      CountComplement(mask[..n]);
      assert Complement(mask)[..n] == Complement(mask[..n]);
    }
  }

  lemma SurvivorCount(mask: seq<bool>)
    ensures |Survivors(mask)| + |Positions(mask)| == |mask|
    ensures |Positions(mask)| == Count(mask)
  {
    CountComplement(mask);
    PositionsCount(mask);
    PositionsCount(Complement(mask));
  }

  ghost function DecodeRow(ds: nat, ps: nat, at: seq<nat>, fecs: seq<nat>, r: nat): (row: Vec)
    requires ds + ps <= 255 && r < |at| + |fecs| && forall j :: 0 <= j < |fecs| ==> fecs[j] < ps
    ensures |row| == ds
  {
    if r < |at| then Unit(ds, at[r]) else ParityRow(ds, ps, fecs[r - |at|])
  }

  /** Identity rows of the survivors followed by the parity rows in use. */
  ghost function DecodeMatrix(ds: nat, ps: nat, mask: seq<bool>, fecs: seq<nat>): (m: seq<Vec>)
    requires ds + ps <= 255 && |mask| == ds && |fecs| == Count(mask) && DistinctBelow(fecs, ps)
    ensures Square(m, ds)
  {
    SurvivorCount(mask);
    var at := Survivors(mask);
    seq(ds, r requires 0 <= r < ds => DecodeRow(ds, ps, at, fecs, r))
  }

  lemma DotUnitLeft(k: nat, p: nat, x: Vec)
    requires |x| == k && p < k
    ensures Dot(Unit(k, p), x, k) == x[p]
  {
    hide Mul, Dot;
    DotSingle(Unit(k, p), x, k, p);
    MulOneLeft(x[p]);
  }

  /** What the decode matrix makes of a vector of data bytes. */
  lemma DecodeApply(ds: nat, ps: nat, mask: seq<bool>, fecs: seq<nat>, x: Vec)
    requires ds + ps <= 255 && |mask| == |x| == ds && |fecs| == Count(mask) && DistinctBelow(fecs, ps)
    ensures |Survivors(mask)| + |fecs| == ds
    ensures forall i :: 0 <= i < |Survivors(mask)| ==>
      Apply(DecodeMatrix(ds, ps, mask, fecs), x)[i] == x[Survivors(mask)[i]]
    ensures forall j :: 0 <= j < |fecs| ==>
      Apply(DecodeMatrix(ds, ps, mask, fecs), x)[|Survivors(mask)| + j] == Dot(ParityRow(ds, ps, fecs[j]), x, ds)
  {
    hide Dot, Survivors, ParityRow;
    SurvivorCount(mask);
    var at := Survivors(mask);
    forall i | 0 <= i < |at|
      ensures Dot(Unit(ds, at[i]), x, ds) == x[at[i]]
    {
      DotUnitLeft(ds, at[i], x);
    }
  }

  /** Any mix of surviving and distinct parity rows is nonsingular. */
  lemma DecodeNonsingular(ds: nat, ps: nat, mask: seq<bool>, fecs: seq<nat>)
    requires ds + ps <= 255 && |mask| == ds && |fecs| == Count(mask) && DistinctBelow(fecs, ps)
    ensures Nonsingular(DecodeMatrix(ds, ps, mask, fecs), ds)
  {
    hide Dot, DecodeMatrix, ParityRow, Apply;
    var m, at := DecodeMatrix(ds, ps, mask, fecs), Survivors(mask);
    forall x: Vec | |x| == ds && Apply(m, x) == Zeros(ds)
      ensures x == Zeros(ds)
    {
      DecodeApply(ds, ps, mask, fecs, x);
      forall p | 0 <= p < ds && !mask[p]
        ensures x[p] == ZERO
      {
        var i :| 0 <= i < |at| && at[i] == p;
        assert Zeros(ds)[i] == ZERO;
      }
      forall j | 0 <= j < |fecs|
        ensures Dot(ParityRow(ds, ps, fecs[j]), x, ds) == ZERO
      {
        assert Zeros(ds)[|at| + j] == ZERO;
      }
      ParityKernel(ds, ps, mask, fecs, x);
    }
  }

  lemma CountClear(mask: seq<bool>, e: nat)
    requires e < |mask| && mask[e]
    ensures Count(mask) == Count(mask[e := false]) + 1
  {
    CountSet(mask[e := false], e);
    assert mask[e := false][e := true] == mask;
  }

  /** With a survivor, the first column of the inverse is nonzero at every erased shard. */
  lemma FirstColumnWithSurvivor(ds: nat, ps: nat, mask: seq<bool>, fecs: seq<nat>, x: Vec, e: nat)
    requires ds + ps <= 255 && |mask| == |x| == ds && |fecs| == Count(mask) && DistinctBelow(fecs, ps)
    requires e < ds && mask[e] && |Survivors(mask)| > 0
    requires Apply(DecodeMatrix(ds, ps, mask, fecs), x) == Unit(ds, 0)
    ensures x[e] != ZERO
  {
    hide Dot, DecodeMatrix, ParityRow, Apply;
    DecodeApply(ds, ps, mask, fecs, x);
    var at := Survivors(mask);
    var s0 := at[0];
    var unit := Unit(ds, 0);
    assert x[s0] == unit[0] == ONE;
    if x[e] == ZERO {
      var mask' := mask[e := false][s0 := true];
      CountClear(mask, e);
      CountSet(mask[e := false], s0);
      forall p | 0 <= p < ds && !mask'[p]
        ensures x[p] == ZERO
      {
        if p != e {
          var i :| 0 <= i < |at| && at[i] == p;
          assert unit[i] == x[p];
        }
      }
      forall j | 0 <= j < |fecs|
        ensures Dot(ParityRow(ds, ps, fecs[j]), x, ds) == ZERO
      {
        assert unit[|at| + j] == ZERO;
      }
      ParityKernel(ds, ps, mask', fecs, x);
    }
  }

  /** Without a survivor, one equation fewer still has no nonzero solution. */
  lemma FirstColumnNoSurvivor(ds: nat, ps: nat, mask: seq<bool>, fecs: seq<nat>, x: Vec, e: nat)
    requires ds + ps <= 255 && |mask| == |x| == ds && |fecs| == Count(mask) && DistinctBelow(fecs, ps)
    requires e < ds && mask[e] && |Survivors(mask)| == 0
    requires Apply(DecodeMatrix(ds, ps, mask, fecs), x) == Unit(ds, 0)
    ensures x[e] != ZERO
  {
    hide Dot, DecodeMatrix, ParityRow, Apply;
    DecodeApply(ds, ps, mask, fecs, x);
    var unit := Unit(ds, 0);
    if x[e] == ZERO {
      var mask', rest := mask[e := false], fecs[1..];
      CountClear(mask, e);
      forall p | 0 <= p < ds && !mask'[p]
        ensures x[p] == ZERO
      {
        assert p == e || p in Survivors(mask);
      }
      forall j | 0 <= j < |rest|
        ensures Dot(ParityRow(ds, ps, rest[j]), x, ds) == ZERO
      {
        assert unit[j + 1] == Dot(ParityRow(ds, ps, fecs[j + 1]), x, ds);
      }
      ParityKernel(ds, ps, mask', rest, x);
      assert unit[0] == Dot(ParityRow(ds, ps, fecs[0]), x, ds);
      DotZeros(ParityRow(ds, ps, fecs[0]), x, ds);
    }
  }

  /** Every coefficient that decoding hands to `mul` for the first shard is nonzero. */
  lemma FirstCoefficientNonzero(ds: nat, ps: nat, mask: seq<bool>, fecs: seq<nat>, inv: seq<Vec>, e: nat)
    requires ds + ps <= 255 && |mask| == ds && |fecs| == Count(mask) && DistinctBelow(fecs, ps)
    requires Square(inv, ds) && Inverse(inv, DecodeMatrix(ds, ps, mask, fecs), ds)
    requires e < ds && mask[e]
    ensures inv[e][0] != ZERO
  {
    hide Dot, DecodeMatrix, Inverse;
    var x := Apply(inv, Unit(ds, 0));
    InverseUndoes(inv, DecodeMatrix(ds, ps, mask, fecs), ds, Unit(ds, 0));
    ApplyUnit(inv, ds, 0);
    assert x[e] == inv[e][0];
    if |Survivors(mask)| > 0 {
      FirstColumnWithSurvivor(ds, ps, mask, fecs, x, e);
    } else {
      FirstColumnNoSurvivor(ds, ps, mask, fecs, x, e);
    }
  }

  lemma ApplyAt(m: seq<Vec>, x: Vec, r: nat)
    requires (forall i :: 0 <= i < |m| ==> |m[i]| == |x|) && r < |m|
    ensures Apply(m, x)[r] == Dot(m[r], x, |x|)
  {
  }

  /** The shards in hand, one byte position at a time. */
  lemma InHandAt(ds: nat, ps: nat, mask: seq<bool>, fecs: seq<nat>, x: Vec, r: nat)
    requires ds + ps <= 255 && |mask| == |x| == ds && |fecs| == Count(mask) && DistinctBelow(fecs, ps)
    requires r < ds
    ensures |Survivors(mask)| + |fecs| == ds
    ensures Apply(DecodeMatrix(ds, ps, mask, fecs), x)[r] ==
      if r < |Survivors(mask)| then x[Survivors(mask)[r]]
      else Dot(ParityRow(ds, ps, fecs[r - |Survivors(mask)|]), x, ds)
  {
    hide Dot, DecodeMatrix, ParityRow, Survivors, Apply;
    DecodeApply(ds, ps, mask, fecs, x);
    var s := |Survivors(mask)|;
    if r >= s {
      var j := r - s;
      assert Apply(DecodeMatrix(ds, ps, mask, fecs), x)[s + j] == Dot(ParityRow(ds, ps, fecs[j]), x, ds);
    }
  }

  /** The inverse turns the shards in hand back into every data byte. */
  lemma RecoversByte(ds: nat, ps: nat, mask: seq<bool>, fecs: seq<nat>, inv: seq<Vec>, x: Vec, e: nat)
    requires ds + ps <= 255 && |mask| == |x| == ds && |fecs| == Count(mask) && DistinctBelow(fecs, ps)
    requires Square(inv, ds) && Inverse(inv, DecodeMatrix(ds, ps, mask, fecs), ds) && e < ds
    ensures Dot(inv[e], Apply(DecodeMatrix(ds, ps, mask, fecs), x), ds) == x[e]
  {
    hide Dot, DecodeMatrix, Inverse, Apply;
    var m := DecodeMatrix(ds, ps, mask, fecs);
    InverseUndoes(inv, m, ds, x);
    ApplyAt(inv, Apply(m, x), e);
  }
}
