/** Reconstruction of erased data shards. */
module Decode {
  import opened Numbers
  import opened Gf256
  import opened GfTables
  import opened Matrix
  import opened Elimination
  import opened Cauchy
  import opened Recovery
  import opened InvertMat
  import opened ShardCoding
  import opened ReedSolomon

  ghost predicate Increasing(s: seq<nat>) { forall i, j :: 0 <= i < j < |s| ==> s[i] < s[j] }

  /** The sort in front of decoding: already sorted numbers stay where they are. */
  method SortErased(erased: array<nat>, n: nat)
    requires n <= erased.Length
    modifies erased
    ensures multiset(erased[..]) == old(multiset(erased[..]))
    ensures old(Increasing(erased[..n])) ==> erased[..] == old(erased[..])
  {
    for i := 0 to n
      invariant multiset(erased[..]) == old(multiset(erased[..]))
      invariant old(Increasing(erased[..n])) ==> erased[..] == old(erased[..])
    {
      var swap := false;
      for j := i + 1 to n
        invariant multiset(erased[..]) == old(multiset(erased[..]))
        invariant old(Increasing(erased[..n])) ==> erased[..] == old(erased[..]) && !swap
      {
        assert Increasing(erased[..n]) ==> erased[..n][i] < erased[..n][j];
        if erased[i] > erased[j] {
          erased[i], erased[j] := erased[j], erased[i];
          swap := true;
        }
      }
      if !swap {
        break;
      }
    }
  }

  // ---- Collecting the rows ----

  lemma {:induction false} PositionsSplit(mask: seq<bool>, i: nat)
    requires i <= |mask|
    ensures Positions(mask[..i]) <= Positions(mask)
    ensures forall t :: |Positions(mask[..i])| <= t < |Positions(mask)| ==> Positions(mask)[t] >= i
    decreases |mask|
  {
    if i == |mask| {
      assert mask[..i] == mask;
    } else {
      var n := |mask| - 1;
      PositionsSplit(mask[..n], i);
      assert mask[..n][..i] == mask[..i];
    }
  }

  /** Walking the sorted erasures alongside the shards finds each erased shard. */
  lemma NextErased(mask: seq<bool>, i: nat)
    requires i < |mask|
    ensures |Positions(mask[..i])| <= |Positions(mask)|
    ensures mask[i] <==>
      |Positions(mask[..i])| < |Positions(mask)| && Positions(mask)[|Positions(mask[..i])|] == i
  {
    hide Positions;
    PositionsSplit(mask, i);
    var before, at := Positions(mask[..i]), Positions(mask);
    if mask[i] {
      var t :| 0 <= t < |at| && at[t] == i;
      assert forall u :: 0 <= u < |before| ==> at[u] == before[u] < i;
      assert t >= |before|;
    }
  }

  lemma ExtendMask(mask: seq<bool>, i: nat)
    requires i < |mask|
    ensures |Positions(mask[..i + 1])| == |Positions(mask[..i])| + (if mask[i] then 1 else 0)
    ensures Survivors(mask[..i + 1]) == Survivors(mask[..i]) + (if mask[i] then [] else [i])
  {
    var head := mask[..i + 1];
    assert head[..i] == mask[..i];
    assert Complement(head)[..i] == Complement(mask[..i]);
  }

  method CopyRow(src: array2<Gf>, r: nat, dst: array2<Gf>, d: nat, k: nat)
    requires src != dst && r < src.Length0 && src.Length1 == k && d < dst.Length0 && dst.Length1 == k
    modifies dst
    ensures Rows(dst)[d] == Rows(src)[r]
    ensures forall x :: 0 <= x < dst.Length0 && x != d ==> Rows(dst)[x] == old(Rows(dst)[x])
  {
    for c := 0 to k
      invariant forall y :: 0 <= y < c ==> dst[d, y] == src[r, y]
      invariant forall x, y :: 0 <= x < dst.Length0 && 0 <= y < k && x != d ==> dst[x, y] == old(dst[x, y])
    {
      dst[d, c] := src[r, c];
    }
  }

  /** Identity rows of the shards that are still there. */
  method SurvivorRows(rs: Codec, d: array2<Gf>, dataBlocks: seq<array<Gf>>, erased: array<nat>, n: nat,
                      ghost mask: seq<bool>)
    returns (subShards: seq<array<Gf>>)
    requires rs.Valid() && d != rs.m && d != rs.parity && d.Length0 == d.Length1 == rs.dataShards
    requires |mask| == |dataBlocks| == rs.dataShards
    requires n <= erased.Length && erased[..n] == Positions(mask)
    modifies d
    ensures subShards == Pick(dataBlocks, Survivors(mask))
    ensures |subShards| + n == rs.dataShards
    ensures forall r :: 0 <= r < |subShards| ==> Rows(d)[r] == Unit(rs.dataShards, Survivors(mask)[r])
  {
    hide Positions, Survivors, Rows, Pick, ParityRow;
    var ds, j := rs.dataShards, 0;
    subShards := [];
    EmptyMask(mask);
    for i := 0 to ds
      invariant rs.Valid() && erased[..n] == Positions(mask)
      invariant j == |Positions(mask[..i])|
      invariant |subShards| == |Survivors(mask[..i])| && |subShards| <= i
      invariant forall r :: 0 <= r < |subShards| ==> Survivors(mask[..i])[r] < i
      invariant forall r :: 0 <= r < |subShards| ==> subShards[r] == dataBlocks[Survivors(mask[..i])[r]]
      invariant forall r :: 0 <= r < |subShards| ==> Rows(d)[r] == Unit(ds, Survivors(mask[..i])[r])
    {
      NextErased(mask, i);
      ExtendMask(mask, i);
      if j < n && i == erased[j] {
        assert erased[..n][j] == i;
        j := j + 1;
      } else {
        assert j < n ==> erased[..n][j] != i;
        CopyRow(rs.m, i, d, |subShards|, ds);
        subShards := subShards + [dataBlocks[i]];
      }
    }
    assert mask[..ds] == mask;
    SurvivorCount(mask);
    PickIs(dataBlocks, Survivors(mask), subShards);
  }

  lemma EmptyMask(mask: seq<bool>)
    ensures Positions(mask[..0]) == [] && Survivors(mask[..0]) == []
  {
  }

  /** The parity rows that stand in for the erased shards. */
  method ParityRows(rs: Codec, d: array2<Gf>, survivors: seq<array<Gf>>, fecBlocks: seq<array<Gf>>,
                    fecNos: array<nat>, n: nat)
    returns (subShards: seq<array<Gf>>)
    requires rs.Valid() && d != rs.m && d != rs.parity && d.Length0 == d.Length1 == rs.dataShards
    requires |survivors| + n == rs.dataShards && |fecBlocks| == n <= fecNos.Length
    requires forall i :: 0 <= i < n ==> fecNos[i] < rs.parityShards
    modifies d
    ensures subShards == survivors + fecBlocks
    ensures forall r :: 0 <= r < |survivors| ==> Rows(d)[r] == old(Rows(d))[r]
    ensures forall i :: 0 <= i < n ==>
      Rows(d)[|survivors| + i] == ParityRow(rs.dataShards, rs.parityShards, fecNos[i])
  {
    hide Rows, ParityRow;
    var ds := rs.dataShards;
    subShards := survivors;
    var i := 0;
    while i < n && |subShards| < ds
      invariant rs.Valid() && i <= n
      invariant subShards == survivors + fecBlocks[..i]
      invariant forall r :: 0 <= r < |survivors| ==> Rows(d)[r] == old(Rows(d))[r]
      invariant forall x :: 0 <= x < i ==> Rows(d)[|survivors| + x] == ParityRow(ds, rs.parityShards, fecNos[x])
    {
      CopyRow(rs.m, ds + fecNos[i], d, |subShards|, ds);
      subShards := subShards + [fecBlocks[i]];
      i := i + 1;
    }
    assert fecBlocks[..n] == fecBlocks;
  }

  /** Row erased[i] moves up to row i; the numbers increase, so no row is read after it is overwritten. */
  method GatherRows(d: array2<Gf>, k: nat, erased: array<nat>, n: nat, dataBlocks: seq<array<Gf>>)
    returns (outputs: seq<array<Gf>>)
    requires d.Length0 == d.Length1 == k == |dataBlocks| && n <= erased.Length
    requires Increasing(erased[..n]) && forall i :: 0 <= i < n ==> erased[i] < k
    modifies d
    ensures outputs == Pick(dataBlocks, erased[..n]) && n <= k
    ensures forall i :: 0 <= i < n ==> Rows(d)[i] == old(Rows(d))[erased[i]]
  {
    hide Rows, Pick;
    outputs := [];
    ghost var rows, at := Rows(d), erased[..n];
    for i := 0 to n
      invariant |outputs| == i && (i < n ==> i <= erased[i]) && i <= k
      invariant forall x :: 0 <= x < i ==> outputs[x] == dataBlocks[at[x]]
      invariant forall x :: 0 <= x < i ==> Rows(d)[x] == rows[at[x]]
      invariant forall x :: i <= x < k ==> Rows(d)[x] == rows[x]
    {
      var j := erased[i];
      assert at[i] == j && (i + 1 < n ==> at[i] < at[i + 1]);
      outputs := outputs + [dataBlocks[j]];
      if i != j {
        CopyRowWithin(d, j, i, k);
      }
    }
    PickIs(dataBlocks, at, outputs);
  }

  lemma PickIs(blocks: seq<array<Gf>>, at: seq<nat>, outputs: seq<array<Gf>>)
    requires |outputs| == |at| && forall i :: 0 <= i < |at| ==> at[i] < |blocks| && outputs[i] == blocks[at[i]]
    ensures outputs == Pick(blocks, at)
  {
  }

  method CopyRowWithin(d: array2<Gf>, from: nat, to: nat, k: nat)
    requires d.Length0 == d.Length1 == k && from < k && to < k && from != to
    modifies d
    ensures Rows(d)[to] == old(Rows(d))[from]
    ensures forall x :: 0 <= x < k && x != to ==> Rows(d)[x] == old(Rows(d))[x]
  {
    for c := 0 to k
      invariant forall y :: 0 <= y < c ==> d[to, y] == old(d[from, y])
      invariant forall x, y :: 0 <= x < k && 0 <= y < k && x != to ==> d[x, y] == old(d[x, y])
    {
      d[to, c] := d[from, c];
    }
  }

  // ---- One stripe ----

  /** The blocks still hold the bytes they were encoded from, except where the mask says erased. */
  ghost predicate Surviving(mask: seq<bool>, blocks: seq<Vec>, original: seq<Vec>) {
    |mask| == |blocks| == |original| && forall i :: 0 <= i < |mask| && !mask[i] ==> blocks[i] == original[i]
  }

  method FillDecodeMatrix(rs: Codec, d: array2<Gf>, dataBlocks: seq<array<Gf>>, fecBlocks: seq<array<Gf>>,
                          fecNos: array<nat>, erased: array<nat>, n: nat, ghost mask: seq<bool>)
    returns (subShards: seq<array<Gf>>)
    requires rs.Valid() && d != rs.m && d != rs.parity && d.Length0 == d.Length1 == rs.dataShards
    requires |mask| == |dataBlocks| == rs.dataShards && |fecBlocks| == n
    requires n <= erased.Length && erased[..n] == Positions(mask)
    requires n <= fecNos.Length && DistinctBelow(fecNos[..n], rs.parityShards)
    modifies d
    ensures n == Count(mask) && |Survivors(mask)| + n == rs.dataShards
    ensures subShards == Pick(dataBlocks, Survivors(mask)) + fecBlocks
    ensures Rows(d) == DecodeMatrix(rs.dataShards, rs.parityShards, mask, fecNos[..n])
  {
    hide Positions, Survivors, Rows, ParityRow, Unit;
    SurvivorCount(mask);
    var ds := rs.dataShards;
    var survivors := SurvivorRows(rs, d, dataBlocks, erased, n, mask);
    var s := |survivors|;
    ghost var before := Rows(d);
    subShards := ParityRows(rs, d, survivors, fecBlocks, fecNos, n);
    if |subShards| < ds {
      assert false;  // as many parity blocks as erasures
    }
    ghost var target := DecodeMatrix(ds, rs.parityShards, mask, fecNos[..n]);
    forall r | 0 <= r < ds
      ensures Rows(d)[r] == target[r]
    {
      if r >= s {
        assert Rows(d)[s + (r - s)] == ParityRow(ds, rs.parityShards, fecNos[r - s]);
      }
    }
  }

  /** The shards in hand: surviving data blocks, then codeword parity blocks. */
  ghost predicate InHand(ds: nat, ps: nat, mask: seq<bool>, fecs: seq<nat>, original: seq<Vec>, ins: seq<Vec>,
        size: nat) {
    && ds + ps <= DATA_SHARDS_MAX && |mask| == |original| == |ins| == ds
    && |fecs| == Count(mask) && DistinctBelow(fecs, ps) && |Survivors(mask)| + |fecs| == ds
    && SameLength(original, size) && SameLength(ins, size)
    && (forall r :: 0 <= r < |Survivors(mask)| ==> ins[r] == original[Survivors(mask)[r]])
    && (forall r, b :: |Survivors(mask)| <= r < ds && 0 <= b < size ==>
      ins[r][b] == Dot(ParityRow(ds, ps, fecs[r - |Survivors(mask)|]), At(original, b), ds))
  }

  lemma BytesInHand(blocks: seq<array<Gf>>, at: seq<nat>, fecBlocks: seq<array<Gf>>)
    requires forall i :: 0 <= i < |at| ==> at[i] < |blocks|
    ensures Bytes(Pick(blocks, at) + fecBlocks) == Pick(Bytes(blocks), at) + Bytes(fecBlocks)
  {
  }

  lemma HandContents(ds: nat, ps: nat, mask: seq<bool>, fecs: seq<nat>, original: seq<Vec>,
                     data: seq<Vec>, fec: seq<Vec>, size: nat)
    requires ds + ps <= DATA_SHARDS_MAX && |mask| == |original| == ds
    requires |fec| == |fecs| == Count(mask) && DistinctBelow(fecs, ps) && |Survivors(mask)| + |fecs| == ds
    requires SameLength(original, size) && SameLength(fec, size) && Surviving(mask, data, original)
    requires forall j, b :: 0 <= j < |fecs| && 0 <= b < size ==>
      fec[j][b] == Dot(ParityRow(ds, ps, fecs[j]), At(original, b), ds)
    ensures InHand(ds, ps, mask, fecs, original, Pick(data, Survivors(mask)) + fec, size)
  {
    hide Dot, ParityRow, Survivors, At;
    var s := |Survivors(mask)|;
    var ins := Pick(data, Survivors(mask)) + fec;
    forall r, b | s <= r < ds && 0 <= b < size
      ensures ins[r][b] == Dot(ParityRow(ds, ps, fecs[r - s]), At(original, b), ds)
    {
      var j := r - s;
      assert ins[r] == fec[j];
    }
  }

  /** The contents of the shards in hand are the decode matrix applied to the data bytes. */
  lemma HandIsApplied(ds: nat, ps: nat, mask: seq<bool>, fecs: seq<nat>, original: seq<Vec>, ins: seq<Vec>,
                      size: nat, b: nat)
    requires InHand(ds, ps, mask, fecs, original, ins, size) && b < size
    ensures At(ins, b) == Apply(DecodeMatrix(ds, ps, mask, fecs), At(original, b))
  {
    hide Dot, ParityRow, Survivors, Apply, DecodeMatrix;
    var x := At(original, b);
    forall r | 0 <= r < ds
      ensures At(ins, b)[r] == Apply(DecodeMatrix(ds, ps, mask, fecs), x)[r]
    {
      InHandAt(ds, ps, mask, fecs, x, r);
    }
  }

  /** One recovered byte. */
  lemma RecoveredByte(ds: nat, ps: nat, mask: seq<bool>, fecs: seq<nat>, inv: seq<Vec>,
                      original: seq<Vec>, ins: seq<Vec>, size: nat, b: nat, e: nat, before: Gf)
    requires InHand(ds, ps, mask, fecs, original, ins, size) && b < size
    requires Square(inv, ds) && Inverse(inv, DecodeMatrix(ds, ps, mask, fecs), ds) && e < ds && mask[e]
    ensures Coded(inv[e], At(ins, b), ds, before) == original[e][b]
  {
    hide Dot, ParityRow, Survivors, Apply, DecodeMatrix, Inverse, Coded;
    HandIsApplied(ds, ps, mask, fecs, original, ins, size, b);
    FirstCoefficientNonzero(ds, ps, mask, fecs, inv, e);
    CodedIsDot(inv[e], At(ins, b), before);
    RecoversByte(ds, ps, mask, fecs, inv, At(original, b), e);
  }

  /** The rows that compute the erased blocks, and the blocks they are applied to. */
  method PrepareDecode(t: FieldTables, rs: Codec, dataBlocks: seq<array<Gf>>, fecBlocks: seq<array<Gf>>,
                       fecNos: array<nat>, erased: array<nat>, n: nat, ghost mask: seq<bool>)
    returns (d: array2<Gf>, subShards: seq<array<Gf>>, outputs: seq<array<Gf>>, ghost inv: seq<Vec>)
    requires t.Ready() && rs.Valid()
    requires |mask| == |dataBlocks| == rs.dataShards && |fecBlocks| == n
    requires n <= erased.Length && erased[..n] == Positions(mask) && fecNos != erased
    requires n <= fecNos.Length && DistinctBelow(fecNos[..n], rs.parityShards)
    modifies erased
    ensures n == Count(mask) && |Survivors(mask)| + n == rs.dataShards
    ensures fresh(d) && d.Length0 == d.Length1 == rs.dataShards
    ensures subShards == Pick(dataBlocks, Survivors(mask)) + fecBlocks
    ensures n == |Positions(mask)| && outputs == Pick(dataBlocks, Positions(mask))
    ensures Square(inv, rs.dataShards)
    ensures Inverse(inv, DecodeMatrix(rs.dataShards, rs.parityShards, mask, fecNos[..n]), rs.dataShards)
    ensures forall r :: 0 <= r < n ==> Rows(d)[r] == inv[Positions(mask)[r]]
  {
    hide FieldTables.Ready, Positions, Survivors, Rows, Inverse, DecodeMatrix, Nonsingular;
    var ds := rs.dataShards;
    SortErased(erased, n);
    assert erased[..n] == Positions(mask);
    d := new Gf[ds, ds]((_, _) => ZERO);
    subShards := FillDecodeMatrix(rs, d, dataBlocks, fecBlocks, fecNos, erased, n, mask);
    DecodeNonsingular(ds, rs.parityShards, mask, fecNos[..n]);
    var status := InvertInPlace(t, d, ds);
    inv := Rows(d);
    outputs := GatherRows(d, ds, erased, n, dataBlocks);
  }

  lemma AtIncreasing(mask: seq<bool>)
    ensures Increasing(Positions(mask))
    ensures forall i :: 0 <= i < |Positions(mask)| ==> Positions(mask)[i] !in Survivors(mask)
  {
  }

  lemma HandShape(ds: nat, ps: nat, mask: seq<bool>, fecs: seq<nat>, original: seq<Vec>, ins: seq<Vec>, size: nat)
    requires InHand(ds, ps, mask, fecs, original, ins, size)
    ensures |ins| == ds && SameLength(ins, size)
  {
  }

  /** The blocks in hand are none of the erased ones. */
  lemma BlocksInHand(dataBlocks: seq<array<Gf>>, alive: seq<nat>, fecBlocks: seq<array<Gf>>,
                     outputs: seq<array<Gf>>, at: seq<nat>, size: nat)
    requires forall i :: 0 <= i < |alive| ==> alive[i] < |dataBlocks|
    requires forall i :: 0 <= i < |at| ==> at[i] < |dataBlocks| && at[i] !in alive
    requires outputs == Pick(dataBlocks, at) && AllDistinct(dataBlocks)
    requires Blocks(dataBlocks, size) && Blocks(fecBlocks, size)
    requires forall i, j :: 0 <= i < |dataBlocks| && 0 <= j < |fecBlocks| ==> dataBlocks[i] != fecBlocks[j]
    ensures Blocks(Pick(dataBlocks, alive) + fecBlocks, size) && Blocks(outputs, size)
    ensures forall i, r :: 0 <= i < |alive| + |fecBlocks| && 0 <= r < |outputs| ==>
      (Pick(dataBlocks, alive) + fecBlocks)[i] != outputs[r]
  {
  }

  lemma OutputsDistinct(dataBlocks: seq<array<Gf>>, at: seq<nat>, outputs: seq<array<Gf>>)
    requires AllDistinct(dataBlocks) && Increasing(at) && forall i :: 0 <= i < |at| ==> at[i] < |dataBlocks|
    requires outputs == Pick(dataBlocks, at)
    ensures AllDistinct(outputs) && |outputs| == |at|
    ensures forall i :: 0 <= i < |outputs| ==> outputs[i] == dataBlocks[at[i]]
    ensures forall i :: 0 <= i < |dataBlocks| && i !in at ==> dataBlocks[i] !in outputs
  {
    forall i, j | 0 <= i < j < |outputs|
      ensures outputs[i] != outputs[j]
    {
      assert at[i] < at[j];
    }
  }

  lemma AllRestored(dataBlocks: seq<array<Gf>>, mask: seq<bool>, outputs: seq<array<Gf>>, original: seq<Vec>, size: nat)
    requires |mask| == |dataBlocks| == |original| && Blocks(dataBlocks, size) && SameLength(original, size)
    requires outputs == Pick(dataBlocks, Positions(mask))
    requires forall r, b :: 0 <= r < |outputs| && 0 <= b < size ==>
      outputs[r].Length == size && outputs[r][b] == original[Positions(mask)[r]][b]
    requires forall i :: 0 <= i < |mask| && !mask[i] ==> dataBlocks[i][..] == original[i]
    ensures Bytes(dataBlocks) == original
  {
    var at := Positions(mask);
    forall i | 0 <= i < |mask| && mask[i]
      ensures dataBlocks[i][..] == original[i]
    {
      var r :| 0 <= r < |at| && at[r] == i;
      assert forall b :: 0 <= b < size ==> outputs[r][b] == original[i][b];
    }
  }

  /** reed_solomon_decode: every erased data block gets its original bytes back. */
  method DecodeStripe(t: FieldTables, rs: Codec, dataBlocks: seq<array<Gf>>, size: nat,
                      fecBlocks: seq<array<Gf>>, fecNos: array<nat>, erased: array<nat>, n: nat,
                      ghost mask: seq<bool>, ghost original: seq<Vec>)
    requires t.Ready() && rs.Valid()
    requires |mask| == |dataBlocks| == rs.dataShards && |fecBlocks| == n
    requires n <= erased.Length && erased[..n] == Positions(mask) && fecNos != erased
    requires n <= fecNos.Length && DistinctBelow(fecNos[..n], rs.parityShards)
    requires Blocks(dataBlocks, size) && Blocks(fecBlocks, size) && SameLength(original, size)
    requires AllDistinct(dataBlocks) && NoTable(t, dataBlocks)
    requires forall i, j :: 0 <= i < |dataBlocks| && 0 <= j < n ==> dataBlocks[i] != fecBlocks[j]
    requires Surviving(mask, Bytes(dataBlocks), original)
    requires forall j, b :: 0 <= j < n && 0 <= b < size ==>
      fecBlocks[j][b] == Dot(ParityRow(rs.dataShards, rs.parityShards, fecNos[j]), At(original, b), rs.dataShards)
    modifies dataBlocks, erased
    ensures Bytes(dataBlocks) == original
  {
    hide FieldTables.Ready, Positions, Survivors, Rows, Dot, ParityRow, At, Coded, Inverse, DecodeMatrix, InHand,
      Pick, Pick, Increasing;
    var ds := rs.dataShards;
    ghost var fecs, at, alive := fecNos[..n], Positions(mask), Survivors(mask);
    var d, subShards, outputs, inv := PrepareDecode(t, rs, dataBlocks, fecBlocks, fecNos, erased, n, mask);
    ghost var ins, before := Bytes(subShards), Bytes(outputs);
    AtIncreasing(mask);
    OutputsDistinct(dataBlocks, at, outputs);
    BytesInHand(dataBlocks, alive, fecBlocks);
    HandContents(ds, rs.parityShards, mask, fecs, original, Bytes(dataBlocks), Bytes(fecBlocks), size);
    BlocksInHand(dataBlocks, alive, fecBlocks, outputs, at, size);
    HandShape(ds, rs.parityShards, mask, fecs, original, ins, size);
    CodeSomeShards(t, d, subShards, outputs, ds, n, size);
    forall r, b | 0 <= r < n && 0 <= b < size
      ensures outputs[r][b] == original[at[r]][b]
    {
      RecoveredByte(ds, rs.parityShards, mask, fecs, inv, original, ins, size, b, at[r], before[r][b]);
    }
    forall i | 0 <= i < ds && !mask[i]
      ensures dataBlocks[i][..] == original[i]
    {
      assert dataBlocks[i] !in outputs;
    }
    AllRestored(dataBlocks, mask, outputs, original, size);
  }

  // ---- All stripes ----

  /** Enough surviving parity shards for the erased data shards. */
  ghost predicate Enough(marks: seq<bool>, fecMarks: seq<bool>) {
    Count(marks) <= Count(Complement(fecMarks))
  }

  /** `n` stripes of marks. */
  ghost predicate AllEnough(n: nat, ds: nat, ps: nat, marks: seq<bool>, fecMarks: seq<bool>) {
    n == 0 ||
    (|marks| >= ds && |fecMarks| >= ps &&
     var d, f := |marks| - ds, |fecMarks| - ps;
     AllEnough(n - 1, ds, ps, marks[..d], fecMarks[..f]) && Enough(marks[d..], fecMarks[f..]))
  }

  /** Stripes with enough parity get their original data, the others stay as they were. */
  ghost function Repaired(n: nat, ds: nat, ps: nat, marks: seq<bool>, fecMarks: seq<bool>,
                          original: seq<Vec>, before: seq<Vec>): seq<Vec>
    requires |marks| == |original| == |before|
  {
    if n == 0 || |marks| < ds || |fecMarks| < ps then []
    else
      var d, f := |marks| - ds, |fecMarks| - ps;
      Repaired(n - 1, ds, ps, marks[..d], fecMarks[..f], original[..d], before[..d]) +
      (if Enough(marks[d..], fecMarks[f..]) then original[d..] else before[d..])
  }

  /** With enough parity everywhere, every data shard is restored. */
  lemma {:induction false} RepairedAll(n: nat, ds: nat, ps: nat, marks: seq<bool>, fecMarks: seq<bool>,
                                       original: seq<Vec>, before: seq<Vec>)
    requires |marks| == |original| == |before| == Times(n, ds) && |fecMarks| == Times(n, ps) && 0 < ds && 0 < ps
    requires AllEnough(n, ds, ps, marks, fecMarks)
    ensures Repaired(n, ds, ps, marks, fecMarks, original, before) == original
  {
    if n > 0 {
      StripeCounts(n, n - 1, ds, ps);
      var d, f := |marks| - ds, |fecMarks| - ps;
      RepairedAll(n - 1, ds, ps, marks[..d], fecMarks[..f], original[..d], before[..d]);
      assert original == original[..d] + original[d..];
    }
  }

  /** The numbers of the erased data shards of one stripe. */
  method FindErased(marks: seq<bool>, erased: array<nat>) returns (dn: nat)
    requires |marks| <= erased.Length
    modifies erased
    ensures dn <= erased.Length && erased[..dn] == Positions(marks) && dn == Count(marks)
  {
    hide *;
    dn := 0;
    EmptyPositions(marks);
    for i := 0 to |marks|
      invariant dn <= i && erased[..dn] == Positions(marks[..i])
    {
      NextPosition(marks, i);
      if marks[i] {
        ghost var before := erased[..dn];
        erased[dn] := i;
        assert erased[..dn + 1] == before + [i];
        dn := dn + 1;
      }
    }
    assert marks[..|marks|] == marks;
    PositionsCount(marks);
  }

  /** The first parity shards that survived, as many as needed. */
  method FindParity(fecMarks: seq<bool>, fecBlocks: seq<array<Gf>>, dn: nat, fecNos: array<nat>)
    returns (pn: nat, decFec: seq<array<Gf>>)
    requires |fecMarks| <= fecNos.Length && |fecBlocks| == |fecMarks|
    modifies fecNos
    ensures pn <= fecNos.Length && pn <= dn && (dn == pn <==> dn <= Count(Complement(fecMarks)))
    ensures fecNos[..pn] <= Positions(Complement(fecMarks)) && DistinctBelow(fecNos[..pn], |fecMarks|)
    ensures decFec == Pick(fecBlocks, fecNos[..pn])
  {
    hide Positions, Complement;
    ghost var free := Complement(fecMarks);
    pn, decFec := 0, [];
    EmptyPositions(free);
    var i := 0;
    while i < |fecMarks| && pn < dn
      invariant i <= |fecMarks| && pn <= dn && pn <= i
      invariant fecNos[..pn] == Positions(free[..i])
      invariant |decFec| == pn && forall x :: 0 <= x < pn ==> decFec[x] == fecBlocks[fecNos[x]]
    {
      NextPosition(free, i);
      ComplementAt(fecMarks, i);
      if !fecMarks[i] {
        fecNos[pn] := i;
        decFec := decFec + [fecBlocks[i]];
        pn := pn + 1;
        assert fecNos[..pn] == fecNos[..pn - 1] + [i];
      }
      i := i + 1;
    }
    PositionsSplit(free, i);
    PositionsCount(free);
    if i == |fecMarks| {
      assert free[..i] == free;
    }
  }

  lemma EmptyPositions(mask: seq<bool>)
    ensures Positions(mask[..0]) == []
  {
  }

  lemma ComplementAt(mask: seq<bool>, i: nat)
    requires i < |mask|
    ensures Complement(mask)[i] == !mask[i]
  {
  }

  lemma NextPosition(mask: seq<bool>, i: nat)
    requires i < |mask|
    ensures Positions(mask[..i + 1]) == Positions(mask[..i]) + (if mask[i] then [i] else [])
  {
    assert mask[..i + 1][..i] == mask[..i];
  }

  lemma NothingErased(marks: seq<bool>, fecMarks: seq<bool>)
    requires Positions(marks) == []
    ensures Enough(marks, fecMarks) && forall i :: 0 <= i < |marks| ==> !marks[i]
  {
    PositionsCount(marks);
  }

  lemma EnoughMeans(marks: seq<bool>, fecMarks: seq<bool>)
    ensures Enough(marks, fecMarks) <==> Count(marks) <= Count(Complement(fecMarks))
  {
  }

  /** The parity blocks in use hold codeword bytes. */
  lemma UsedParity(ds: nat, ps: nat, fecMarks: seq<bool>, fecNos: seq<nat>, blocks: seq<Vec>,
                   original: seq<Vec>, fecOriginal: seq<Vec>, size: nat, j: nat, b: nat)
    requires Codeword(ds, ps, original, fecOriginal, size) && Surviving(fecMarks, blocks, fecOriginal)
    requires fecNos <= Positions(Complement(fecMarks)) && j < |fecNos| && b < size
    ensures fecNos[j] < ps
    ensures |blocks[fecNos[j]]| == size
      && blocks[fecNos[j]][b] == Dot(ParityRow(ds, ps, fecNos[j]), At(original, b), ds)
  {
    hide Dot, ParityRow, At, Positions;
    assert fecNos[j] == Positions(Complement(fecMarks))[j];
  }

  /** One stripe: repaired when there is enough parity, untouched otherwise. */
  method ReconstructStripe(t: FieldTables, rs: Codec, dataBlocks: seq<array<Gf>>, fecBlocks: seq<array<Gf>>,
                           marks: seq<bool>, fecMarks: seq<bool>, size: nat, erased: array<nat>, fecNos: array<nat>,
                           ghost original: seq<Vec>, ghost fecOriginal: seq<Vec>)
    returns (ok: bool)
    requires t.Ready() && rs.Valid() && Separate(t, dataBlocks, fecBlocks, size)
    requires |dataBlocks| == |marks| == rs.dataShards && |fecBlocks| == |fecMarks| == rs.parityShards
    requires erased.Length == fecNos.Length == DATA_SHARDS_MAX && erased != fecNos
    requires Codeword(rs.dataShards, rs.parityShards, original, fecOriginal, size)
    requires Surviving(marks, Bytes(dataBlocks), original) && Surviving(fecMarks, Bytes(fecBlocks), fecOriginal)
    modifies dataBlocks, erased, fecNos
    ensures t.Ready() && rs.Valid()
    ensures ok <==> Enough(marks, fecMarks)
    ensures Bytes(dataBlocks) == if ok then original else old(Bytes(dataBlocks))
    ensures Bytes(fecBlocks) == old(Bytes(fecBlocks))
  {
    hide FieldTables.Ready, Positions, Complement, Dot, ParityRow, At, Enough, Rows;
    var ds, ps := rs.dataShards, rs.parityShards;
    ghost var data, fec := Bytes(dataBlocks), Bytes(fecBlocks);
    var dn := FindErased(marks, erased);
    assert Bytes(dataBlocks) == data && Bytes(fecBlocks) == fec;
    if dn == 0 {
      NothingErased(marks, fecMarks);
      assert data == original;
      return true;
    }
    var pn, decFec := FindParity(fecMarks, fecBlocks, dn, fecNos);
    EnoughMeans(marks, fecMarks);
    assert Bytes(dataBlocks) == data && Bytes(fecBlocks) == fec;
    if dn != pn {
      return false;
    }
    forall j, b | 0 <= j < dn && 0 <= b < size
      ensures decFec[j][b] == Dot(ParityRow(ds, ps, fecNos[j]), At(original, b), ds)
    {
      UsedParity(ds, ps, fecMarks, fecNos[..pn], fec, original, fecOriginal, size, j, b);
    }
    DecodeStripe(t, rs, dataBlocks, size, decFec, fecNos, erased, dn, marks, original);
    assert Bytes(fecBlocks) == fec;
    return true;
  }

  lemma StripeSurvives(blocks: seq<array<Gf>>, marks: seq<bool>, original: seq<Vec>, d: nat, ds: nat)
    requires |blocks| == |marks| == |original| && d + ds <= |blocks|
    requires Surviving(marks[d..], Bytes(blocks[d..]), original[d..])
    ensures Surviving(marks[d..d + ds], Bytes(blocks[d..d + ds]), original[d..d + ds])
  {
    var part := marks[d..d + ds];
    forall i | 0 <= i < ds && !part[i]
      ensures Bytes(blocks[d..d + ds])[i] == original[d..d + ds][i]
    {
      assert !marks[d..][i];
      assert Bytes(blocks[d..])[i] == original[d..][i];
    }
  }

  lemma FecSurvives(blocks: seq<array<Gf>>, marks: seq<bool>, original: seq<Vec>, f: nat, ps: nat)
    requires Surviving(marks, Bytes(blocks), original) && f + ps <= |blocks|
    ensures Surviving(marks[f..f + ps], Bytes(blocks[f..f + ps]), original[f..f + ps])
  {
  }

  lemma SeparateSlices(t: FieldTables, dataBlocks: seq<array<Gf>>, fecBlocks: seq<array<Gf>>,
                       d: nat, e: nat, f: nat, g: nat, size: nat)
    requires Separate(t, dataBlocks, fecBlocks, size) && d <= e <= |dataBlocks| && f <= g <= |fecBlocks|
    ensures Separate(t, dataBlocks[d..e], fecBlocks[f..g], size)
    ensures forall i :: 0 <= i < d ==> dataBlocks[..d][i] !in dataBlocks[d..e]
    ensures forall i :: 0 <= i < |dataBlocks| - e ==> dataBlocks[e..][i] !in dataBlocks[d..e]
    ensures forall i :: 0 <= i < |fecBlocks| ==> fecBlocks[i] !in dataBlocks[d..e]
  {
  }

  /** Any stripe of an encoded whole is a codeword. */
  lemma {:induction false} EncodedStripe(n: nat, j: nat, ds: nat, ps: nat, data: seq<Vec>, fec: seq<Vec>, size: nat)
    requires j < n && 0 < ds && 0 < ps && Encoded(n, ds, ps, data, fec, size)
    requires |data| == Times(n, ds) && |fec| == Times(n, ps)
    ensures var d, f := Times(j, ds), Times(j, ps);
      d + ds <= |data| && f + ps <= |fec| && Codeword(ds, ps, data[d..d + ds], fec[f..f + ps], size)
  {
    hide Codeword, Times, Encoded;
    StripeCounts(n, n - 1, ds, ps);
    StripeCounts(n, j, ds, ps);
    EncodedLast(n, ds, ps, data, fec, size);
    var d, f := |data| - ds, |fec| - ps;
    if j < n - 1 {
      StripeCounts(n - 1, j, ds, ps);
      EncodedStripe(n - 1, j, ds, ps, data[..d], fec[..f], size);
      SliceOfPrefix(data, d, Times(j, ds), ds);
      SliceOfPrefix(fec, f, Times(j, ps), ps);
    } else {
      assert data[d..d + ds] == data[d..] && fec[f..f + ps] == fec[f..];
    }
  }

  lemma EncodedLast(n: nat, ds: nat, ps: nat, data: seq<Vec>, fec: seq<Vec>, size: nat)
    requires 0 < n && Encoded(n, ds, ps, data, fec, size)
    ensures |data| >= ds && |fec| >= ps
    ensures Encoded(n - 1, ds, ps, data[..|data| - ds], fec[..|fec| - ps], size)
    ensures Codeword(ds, ps, data[|data| - ds..], fec[|fec| - ps..], size)
  {
  }

  lemma SliceOfPrefix<T>(s: seq<T>, cut: nat, lo: nat, len: nat)
    requires lo + len <= cut <= |s|
    ensures s[..cut][lo..lo + len] == s[lo..lo + len]
  {
  }

  /** How the result grows by one stripe. */
  lemma RepairedNext(j: nat, ds: nat, ps: nat, marks: seq<bool>, fecMarks: seq<bool>,
                     original: seq<Vec>, before: seq<Vec>, d: nat, f: nat)
    requires |marks| == |original| == |before| && d + ds <= |marks| && f + ps <= |fecMarks|
    ensures AllEnough(j + 1, ds, ps, marks[..d + ds], fecMarks[..f + ps]) <==>
      AllEnough(j, ds, ps, marks[..d], fecMarks[..f]) && Enough(marks[d..d + ds], fecMarks[f..f + ps])
    ensures Repaired(j + 1, ds, ps, marks[..d + ds], fecMarks[..f + ps], original[..d + ds], before[..d + ds]) ==
      Repaired(j, ds, ps, marks[..d], fecMarks[..f], original[..d], before[..d]) +
      (if Enough(marks[d..d + ds], fecMarks[f..f + ps]) then original[d..d + ds] else before[d..d + ds])
  {
    assert marks[..d + ds][..d] == marks[..d] && marks[..d + ds][d..] == marks[d..d + ds];
    assert fecMarks[..f + ps][..f] == fecMarks[..f] && fecMarks[..f + ps][f..] == fecMarks[f..f + ps];
    assert original[..d + ds][..d] == original[..d] && original[..d + ds][d..] == original[d..d + ds];
    assert before[..d + ds][..d] == before[..d] && before[..d + ds][d..] == before[d..d + ds];
  }

  /** One more stripe; the blocks of the others keep their contents. */
  method ReconstructNext(t: FieldTables, rs: Codec, dataBlocks: seq<array<Gf>>, fecBlocks: seq<array<Gf>>,
                         marks: seq<bool>, fecMarks: seq<bool>, d: nat, f: nat, size: nat,
                         erased: array<nat>, fecNos: array<nat>, ghost original: seq<Vec>, ghost fecOriginal: seq<Vec>)
    returns (ok: bool)
    requires t.Ready() && rs.Valid() && Separate(t, dataBlocks, fecBlocks, size)
    requires |dataBlocks| == |marks| == |original| && |fecBlocks| == |fecMarks| == |fecOriginal|
    requires d + rs.dataShards <= |dataBlocks| && f + rs.parityShards <= |fecBlocks|
    requires erased.Length == fecNos.Length == DATA_SHARDS_MAX && erased != fecNos
    requires Codeword(rs.dataShards, rs.parityShards,
      original[d..d + rs.dataShards], fecOriginal[f..f + rs.parityShards], size)
    requires Surviving(marks[d..], Bytes(dataBlocks[d..]), original[d..])
    requires Surviving(fecMarks, Bytes(fecBlocks), fecOriginal)
    modifies dataBlocks, erased, fecNos
    ensures t.Ready() && rs.Valid()
    ensures ok <==> Enough(marks[d..d + rs.dataShards], fecMarks[f..f + rs.parityShards])
    ensures Bytes(dataBlocks[..d]) == old(Bytes(dataBlocks[..d]))
    ensures Bytes(dataBlocks[d..d + rs.dataShards]) ==
      if ok then original[d..d + rs.dataShards] else old(Bytes(dataBlocks[d..d + rs.dataShards]))
    ensures Bytes(dataBlocks[d + rs.dataShards..]) == old(Bytes(dataBlocks[d + rs.dataShards..]))
    ensures Bytes(fecBlocks) == old(Bytes(fecBlocks))
  {
    hide FieldTables.Ready, Codec.Valid, Codeword, Enough, Surviving, Separate;
    var ds, ps := rs.dataShards, rs.parityShards;
    ghost var head, tail, fec := Bytes(dataBlocks[..d]), Bytes(dataBlocks[d + ds..]), Bytes(fecBlocks);
    StripeSurvives(dataBlocks, marks, original, d, ds);
    FecSurvives(fecBlocks, fecMarks, fecOriginal, f, ps);
    SeparateSlices(t, dataBlocks, fecBlocks, d, d + ds, f, f + ps, size);
    ok := ReconstructStripe(t, rs, dataBlocks[d..d + ds], fecBlocks[f..f + ps], marks[d..d + ds], fecMarks[f..f + ps],
                            size, erased, fecNos, original[d..d + ds], fecOriginal[f..f + ps]);
    assert Bytes(dataBlocks[..d]) == head;
    assert Bytes(dataBlocks[d + ds..]) == tail;
    assert Bytes(fecBlocks) == fec;
  }

  /** The loop body of reconstruction, with what it keeps about the stripes done so far. */
  method RepairNext(t: FieldTables, rs: Codec, dataBlocks: seq<array<Gf>>, fecBlocks: seq<array<Gf>>,
                    marks: seq<bool>, fecMarks: seq<bool>, d: nat, f: nat, size: nat,
                    erased: array<nat>, fecNos: array<nat>, ghost j: nat, ghost n: nat,
                    ghost original: seq<Vec>, ghost fecOriginal: seq<Vec>, ghost before: seq<Vec>)
    returns (ok: bool)
    requires t.Ready() && rs.Valid() && Separate(t, dataBlocks, fecBlocks, size)
    requires |dataBlocks| == |marks| == |original| == |before| == Times(n, rs.dataShards)
    requires |fecBlocks| == |fecMarks| == |fecOriginal| == Times(n, rs.parityShards)
    requires j < n && d == Times(j, rs.dataShards) && f == Times(j, rs.parityShards)
    requires d + rs.dataShards <= |dataBlocks| && f + rs.parityShards <= |fecBlocks|
    requires erased.Length == fecNos.Length == DATA_SHARDS_MAX && erased != fecNos
    requires Encoded(n, rs.dataShards, rs.parityShards, original, fecOriginal, size)
    requires Surviving(marks, before, original) && Surviving(fecMarks, Bytes(fecBlocks), fecOriginal)
    requires Bytes(dataBlocks[d..]) == before[d..]
    requires Bytes(dataBlocks[..d]) ==
      Repaired(j, rs.dataShards, rs.parityShards, marks[..d], fecMarks[..f], original[..d], before[..d])
    modifies dataBlocks, erased, fecNos
    ensures t.Ready() && rs.Valid() && Bytes(fecBlocks) == old(Bytes(fecBlocks))
    ensures var d', f' := d + rs.dataShards, f + rs.parityShards;
      && Bytes(dataBlocks[d'..]) == before[d'..]
      && (AllEnough(j + 1, rs.dataShards, rs.parityShards, marks[..d'], fecMarks[..f']) <==>
        AllEnough(j, rs.dataShards, rs.parityShards, marks[..d], fecMarks[..f]) && ok)
      && Bytes(dataBlocks[..d']) ==
        Repaired(j + 1, rs.dataShards, rs.parityShards, marks[..d'], fecMarks[..f'], original[..d'], before[..d'])
  {
    hide FieldTables.Ready, Codeword, Encoded, Codec.Valid, Bytes, Separate, Times, Surviving, Enough, AllEnough,
      Repaired;
    var ds, ps := rs.dataShards, rs.parityShards;
    CodecShape(rs);
    EncodedStripe(n, j, ds, ps, original, fecOriginal, size);
    SurvivingSuffix(marks, before, original, d);
    BytesMiddle(dataBlocks, d, ds, before);
    ok := ReconstructNext(t, rs, dataBlocks, fecBlocks, marks, fecMarks, d, f, size, erased, fecNos, original,
      fecOriginal);
    RepairedNext(j, ds, ps, marks, fecMarks, original, before, d, f);
    BytesAppend(dataBlocks, d, d + ds);
  }

  /** All stripes, one after the other. */
  method RepairStripes(t: FieldTables, rs: Codec, dataBlocks: seq<array<Gf>>, fecBlocks: seq<array<Gf>>,
        marks: seq<bool>, fecMarks: seq<bool>, n: nat, size: nat, ghost original: seq<Vec>, ghost fecOriginal: seq<Vec>)
    returns (err: int)
    requires t.Ready() && rs.Valid() && Separate(t, dataBlocks, fecBlocks, size)
    requires |dataBlocks| == |marks| == |original| == Times(n, rs.dataShards)
    requires |fecBlocks| == |fecMarks| == |fecOriginal| == Times(n, rs.parityShards)
    requires Encoded(n, rs.dataShards, rs.parityShards, original, fecOriginal, size)
    requires Surviving(marks, Bytes(dataBlocks), original) && Surviving(fecMarks, Bytes(fecBlocks), fecOriginal)
    modifies dataBlocks
    ensures err == (if AllEnough(n, rs.dataShards, rs.parityShards, marks, fecMarks) then 0 else -1)
    ensures Bytes(fecBlocks) == old(Bytes(fecBlocks))
    ensures Bytes(dataBlocks) ==
      Repaired(n, rs.dataShards, rs.parityShards, marks, fecMarks, original, old(Bytes(dataBlocks)))
  {
    hide *;
    var ds, ps := rs.dataShards, rs.parityShards;
    CodecShape(rs);
    StripeCounts(n, 0, ds, ps);
    StripeCounts(n, n, ds, ps);
    ghost var before, fecBefore := Bytes(dataBlocks), Bytes(fecBlocks);
    var erased := new nat[DATA_SHARDS_MAX](_ => 0);
    var fecNos := new nat[DATA_SHARDS_MAX](_ => 0);
    err := 0;
    var d, f := 0, 0;
    NoBytes(dataBlocks, fecBlocks);
    NothingRepaired(ds, ps, marks, fecMarks, original, before);
    WholeSuffix(dataBlocks);
    for j := 0 to n
      invariant t.Ready() && rs.Valid()
      invariant d == Times(j, ds) && f == Times(j, ps) && d <= |dataBlocks| && f <= |fecBlocks|
      invariant Bytes(fecBlocks) == fecBefore && Bytes(dataBlocks[d..]) == before[d..]
      invariant err == if AllEnough(j, ds, ps, marks[..d], fecMarks[..f]) then 0 else -1
      invariant Bytes(dataBlocks[..d]) ==
        Repaired(j, ds, ps, marks[..d], fecMarks[..f], original[..d], before[..d])
    {
      StripeCounts(n, j, ds, ps);
      var ok := RepairNext(t, rs, dataBlocks, fecBlocks, marks, fecMarks, d, f, size, erased, fecNos,
                           j, n, original, fecOriginal, before);
      if !ok {
        err := -1;
      }
      d, f := d + ds, f + ps;
    }
    WholePrefix(dataBlocks, before, marks, fecMarks, original);
  }

  /**
   * reed_solomon_reconstruct. Every stripe with enough surviving parity gets its
   * original data back, and 0 is returned exactly when all stripes have enough.
   */
  method Reconstruct(t: FieldTables, rs: Codec, shards: seq<array<Gf>>, marks: seq<bool>, nrShards: nat, size: nat,
                     ghost original: seq<Vec>)
    returns (err: int)
    requires t.Ready() && rs.Valid()
    requires |shards| == |marks| == |original| == nrShards && WholeStripes(nrShards, rs.shards)
    requires Blocks(shards, size) && AllDistinct(shards) && NoTable(t, shards)
    requires var n := Stripes(nrShards, rs.shards); var d := Times(n, rs.dataShards);
      d <= nrShards && Encoded(n, rs.dataShards, rs.parityShards, original[..d], original[d..], size)
    requires Surviving(marks, Bytes(shards), original)
    modifies shards
    ensures var n := Stripes(nrShards, rs.shards); var d := Times(n, rs.dataShards);
      && d <= nrShards
      && err == (if AllEnough(n, rs.dataShards, rs.parityShards, marks[..d], marks[d..]) then 0 else -1)
      && Bytes(shards)[d..] == old(Bytes(shards))[d..]
      && Bytes(shards)[..d] ==
        Repaired(n, rs.dataShards, rs.parityShards, marks[..d], marks[d..], original[..d], old(Bytes(shards))[..d])
      && (err == 0 ==> Bytes(shards)[..d] == original[..d])
  {
    hide FieldTables.Ready, Codeword, Encoded, Codec.Valid, Bytes, Blocks, AllDistinct, NoTable, Separate, Times,
      Stripes, WholeStripes, Surviving, Enough, AllEnough, Repaired;
    var ds, ps, ss := rs.dataShards, rs.parityShards, rs.shards;
    CodecShape(rs);
    var n := Stripes(nrShards, ss);
    SplitShards(nrShards, ds, ps);
    StripeCounts(n, 0, ds, ps);
    StripeCounts(n, n, ds, ps);
    var nds := Times(n, ds);
    var dataBlocks, fecBlocks := shards[..nds], shards[nds..];
    var dataMarks, fecMarks := marks[..nds], marks[nds..];
    ghost var dataOriginal, fecOriginal := original[..nds], original[nds..];
    SeparateParts(t, shards, nds, size);
    BytesParts(shards, nds);
    ghost var before := Bytes(dataBlocks);
    SurvivingParts(marks, Bytes(shards), original, nds);
    err := RepairStripes(t, rs, dataBlocks, fecBlocks, dataMarks, fecMarks, n, size, dataOriginal, fecOriginal);
    if err == 0 {
      RepairedAll(n, ds, ps, dataMarks, fecMarks, dataOriginal, before);
    }
    BytesParts(shards, nds);
  }

  lemma SurvivingParts(marks: seq<bool>, blocks: seq<Vec>, original: seq<Vec>, at: nat)
    requires Surviving(marks, blocks, original) && at <= |marks|
    ensures Surviving(marks[..at], blocks[..at], original[..at])
    ensures Surviving(marks[at..], blocks[at..], original[at..])
  {
    SurvivingSuffix(marks, blocks, original, at);
  }

  lemma SurvivingSuffix(marks: seq<bool>, blocks: seq<Vec>, original: seq<Vec>, at: nat)
    requires Surviving(marks, blocks, original) && at <= |marks|
    ensures Surviving(marks[at..], blocks[at..], original[at..])
  {
    var part := marks[at..];
    forall i | 0 <= i < |part| && !part[i]
      ensures blocks[at..][i] == original[at..][i]
    {
      assert !marks[at + i];
    }
  }

  lemma NothingRepaired(ds: nat, ps: nat, marks: seq<bool>, fecMarks: seq<bool>, original: seq<Vec>, before: seq<Vec>)
    requires |marks| == |original| == |before|
    ensures AllEnough(0, ds, ps, marks[..0], fecMarks[..0])
    ensures Repaired(0, ds, ps, marks[..0], fecMarks[..0], original[..0], before[..0]) == []
  {
  }

  lemma WholeSuffix(blocks: seq<array<Gf>>)
    ensures Bytes(blocks[0..]) == Bytes(blocks)[0..]
  {
    assert blocks[0..] == blocks;
  }

  lemma WholePrefix(blocks: seq<array<Gf>>, before: seq<Vec>, marks: seq<bool>, fecMarks: seq<bool>, original: seq<Vec>)
    ensures blocks[..|blocks|] == blocks && before[..|before|] == before && marks[..|marks|] == marks
    ensures fecMarks[..|fecMarks|] == fecMarks && original[..|original|] == original
  {
  }

  lemma BytesMiddle(blocks: seq<array<Gf>>, d: nat, ds: nat, before: seq<Vec>)
    requires d + ds <= |blocks| == |before| && Bytes(blocks[d..]) == before[d..]
    ensures Bytes(blocks[d..d + ds]) == before[d..d + ds]
    ensures Bytes(blocks[d + ds..]) == before[d + ds..]
  {
    var tail, bytes := blocks[d..], before[d..];
    assert forall i :: 0 <= i < |tail| ==> tail[i][..] == bytes[i];
    assert blocks[d..d + ds] == tail[..ds] && blocks[d + ds..] == tail[ds..];
    assert before[d..d + ds] == bytes[..ds] && before[d + ds..] == bytes[ds..];
  }
}
