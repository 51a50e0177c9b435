/** Blocks of bytes combined under a coefficient matrix. */
module ShardCoding {
  import opened Gf256
  import opened GfTables
  import opened Matrix
  import opened InvertMat

  /** The contents of every block. */
  ghost function Bytes(shards: seq<array<Gf>>): (b: seq<Vec>)
    reads shards
    ensures |b| == |shards|
    ensures forall i :: 0 <= i < |shards| ==> b[i] == shards[i][..]
  {
    seq(|shards|, i requires 0 <= i < |shards| reads shards => shards[i][..])
  }

  ghost predicate Blocks(shards: seq<array<Gf>>, size: nat) {
    forall i :: 0 <= i < |shards| ==> shards[i].Length == size
  }

  ghost predicate SameLength(bytes: seq<Vec>, size: nat) {
    forall i :: 0 <= i < |bytes| ==> |bytes[i]| == size
  }

  ghost predicate AllDistinct(shards: seq<array<Gf>>) {
    forall i, j :: 0 <= i < j < |shards| ==> shards[i] != shards[j]
  }

  ghost predicate NoTable(t: FieldTables, shards: seq<array<Gf>>) {
    forall i :: 0 <= i < |shards| ==> shards[i] != t.inverse && shards[i] != t.mulTable
  }

  /** Byte `b` of every block. */
  ghost function At(bytes: seq<Vec>, b: nat): (v: Vec)
    requires forall i :: 0 <= i < |bytes| ==> b < |bytes[i]|
    ensures |v| == |bytes|
  {
    seq(|bytes|, i requires 0 <= i < |bytes| => bytes[i][b])
  }

  /** dst := c * src, except that a zero coefficient leaves dst alone. */
  method MulBlock(t: FieldTables, dst: array<Gf>, src: array<Gf>, c: Gf, sz: nat)
    requires t.Ready() && dst.Length == src.Length == sz && dst != src
    requires dst != t.inverse && dst != t.mulTable
    modifies dst
    ensures forall i :: 0 <= i < sz ==> dst[i] == if c == ZERO then old(dst[i]) else Mul(c, src[i])
  {
    hide Mul, FieldTables.Ready, FieldTables.GfMul;
    if c != ZERO {
      for i := 0 to sz
        invariant t.Ready()
        invariant forall x :: 0 <= x < i ==> dst[x] == Mul(c, src[x])
      {
        dst[i] := t.GfMul(c, src[i]);
      }
    }
  }

  /** dst += c * src */
  method AddMulBlock(t: FieldTables, dst: array<Gf>, src: array<Gf>, c: Gf, sz: nat)
    requires t.Ready() && dst.Length == src.Length == sz && dst != src
    requires dst != t.inverse && dst != t.mulTable
    modifies dst
    ensures forall i :: 0 <= i < sz ==> dst[i] == Xor(old(dst[i]), Mul(c, src[i]))
  {
    hide Mul, Xor, FieldTables.Ready, FieldTables.GfMul;
    if c != ZERO {
      for i := 0 to sz
        invariant t.Ready()
        invariant forall x :: 0 <= x < sz ==>
          dst[x] == if x < i then Xor(old(dst[x]), Mul(c, src[x])) else old(dst[x])
      {
        dst[i] := Xor(dst[i], t.GfMul(c, src[i]));
      }
    } else {
      forall x | 0 <= x < sz
        ensures Xor(dst[x], Mul(c, src[x])) == dst[x]
      {
        MulZeroLeft(src[x]);
        XorZero(dst[x]);
      }
    }
  }

  /**
   * One output byte after the first `c` inputs. What the output held before shows
   * through exactly when the first coefficient is zero.
   */
  ghost function Coded(row: Vec, v: Vec, c: nat, before: Gf): Gf
    requires |row| == |v| > 0 && c <= |row|
  {
    if c == 0 then before
    else Xor(if row[0] == ZERO then before else ZERO, Dot(row, v, c))
  }

  lemma CodedFirst(row: Vec, v: Vec, before: Gf)
    requires |row| == |v| > 0
    ensures Coded(row, v, 1, before) == if row[0] == ZERO then before else Mul(row[0], v[0])
  {
    hide Mul, Xor;
    assert Dot(row, v, 0) == ZERO;
    assert Dot(row, v, 1) == Xor(Dot(row, v, 0), Mul(row[0], v[0]));
    XorZero(Mul(row[0], v[0]));
    XorZero(before);
    MulZeroLeft(v[0]);
    XorZero(ZERO);
  }

  lemma CodedNext(row: Vec, v: Vec, c: nat, before: Gf)
    requires |row| == |v| && 0 < c < |row|
    ensures Coded(row, v, c + 1, before) == Xor(Coded(row, v, c, before), Mul(row[c], v[c]))
  {
    hide Mul, Xor;
    XorAssoc(if row[0] == ZERO then before else ZERO, Dot(row, v, c), Mul(row[c], v[c]));
  }

  /** The old contents vanish under a nonzero first coefficient, or when they were zero. */
  lemma CodedIsDot(row: Vec, v: Vec, before: Gf)
    requires |row| == |v| > 0
    ensures Coded(row, v, |row|, before) == Dot(row, v, |row|) <==> row[0] != ZERO || before == ZERO
  {
    hide Mul, Dot;
    var base := if row[0] == ZERO then before else ZERO;
    XorBase(base, Dot(row, v, |row|));
  }

  lemma XorBase(b: Gf, d: Gf)
    ensures Xor(b, d) == d <==> b == ZERO
  {
  }

  /** One coefficient applied to one output block. */
  method CodeOne(t: FieldTables, output: array<Gf>, input: array<Gf>, c: nat, coefficient: Gf, size: nat,
                 ghost row: Vec, ghost ins: seq<Vec>, ghost before: Vec)
    requires t.Ready() && output.Length == input.Length == size && output != input
    requires output != t.inverse && output != t.mulTable
    requires |row| == |ins| && c < |row| && row[c] == coefficient && ins[c] == input[..]
    requires SameLength(ins, size) && |before| == size
    requires forall b :: 0 <= b < size ==> output[b] == Coded(row, At(ins, b), c, before[b])
    modifies output
    ensures forall b :: 0 <= b < size ==> output[b] == Coded(row, At(ins, b), c + 1, before[b])
  {
    hide Mul, Xor, Coded, FieldTables.Ready;
    ghost var was := output[..];
    if c == 0 {
      MulBlock(t, output, input, coefficient, size);
      forall b | 0 <= b < size
        ensures output[b] == Coded(row, At(ins, b), c + 1, before[b])
      {
        CodedFirst(row, At(ins, b), before[b]);
        CodedNone(row, At(ins, b), before[b]);
        assert was[b] == before[b];
      }
    } else {
      AddMulBlock(t, output, input, coefficient, size);
      forall b | 0 <= b < size
        ensures output[b] == Coded(row, At(ins, b), c + 1, before[b])
      {
        CodedNext(row, At(ins, b), c, before[b]);
        assert was[b] == Coded(row, At(ins, b), c, before[b]);
      }
    }
  }

  lemma CodedNone(row: Vec, v: Vec, before: Gf)
    requires |row| == |v| > 0
    ensures Coded(row, v, 0, before) == before
  {
  }

  /** One input block applied to every output block. */
  method CodeColumn(t: FieldTables, m: array2<Gf>, input: array<Gf>, outputs: seq<array<Gf>>, c: nat, outputCount: nat,
        byteCount: nat, ghost inputs: seq<array<Gf>>, ghost rows: seq<Vec>, ghost ins: seq<Vec>, ghost before: seq<Vec>)
    requires t.Ready() && c < m.Length1 == |inputs| == |ins| && outputCount <= m.Length0 && rows == Rows(m)
      && input == inputs[c]
    requires |outputs| == |before| == outputCount && Blocks(inputs, byteCount) && Blocks(outputs, byteCount)
    requires AllDistinct(outputs) && NoTable(t, outputs) && SameLength(ins, byteCount) && SameLength(before, byteCount)
    requires forall i, r :: 0 <= i < |inputs| && 0 <= r < outputCount ==> inputs[i] != outputs[r]
    requires Bytes(inputs) == ins
    requires forall r, b :: 0 <= r < outputCount && 0 <= b < byteCount ==>
      outputs[r][b] == Coded(rows[r], At(ins, b), c, before[r][b])
    modifies outputs
    ensures t.Ready() && Bytes(inputs) == ins
    ensures forall r, b :: 0 <= r < outputCount && 0 <= b < byteCount ==>
      outputs[r][b] == Coded(rows[r], At(ins, b), c + 1, before[r][b])
  {
    hide Coded, At, Rows, FieldTables.Ready;
    for iRow := 0 to outputCount
      invariant t.Ready() && Bytes(inputs) == ins
      invariant forall r, b :: 0 <= r < outputCount && 0 <= b < byteCount ==>
        outputs[r][b] == Coded(rows[r], At(ins, b), if r < iRow then c + 1 else c, before[r][b])
    {
      Entry(m, iRow, c);
      CodeOne(t, outputs[iRow], input, c, m[iRow, c], byteCount, rows[iRow], ins, before[iRow]);
    }
  }

  method CodeSomeShards(t: FieldTables, m: array2<Gf>, inputs: seq<array<Gf>>, outputs: seq<array<Gf>>,
                        dataShards: nat, outputCount: nat, byteCount: nat)
    requires t.Ready() && 0 < dataShards && m.Length1 == dataShards && outputCount <= m.Length0
    requires |inputs| == dataShards && |outputs| == outputCount
    requires Blocks(inputs, byteCount) && Blocks(outputs, byteCount)
    requires AllDistinct(outputs) && NoTable(t, outputs)
    requires forall i, r :: 0 <= i < dataShards && 0 <= r < outputCount ==> inputs[i] != outputs[r]
    modifies outputs
    ensures forall r, b :: 0 <= r < outputCount && 0 <= b < byteCount ==>
      outputs[r][b] == Coded(Rows(m)[r], At(old(Bytes(inputs)), b), dataShards, old(Bytes(outputs))[r][b])
  {
    hide Coded, At, Rows, FieldTables.Ready;
    ghost var rows, ins, before := Rows(m), Bytes(inputs), Bytes(outputs);
    forall r, b | 0 <= r < outputCount && 0 <= b < byteCount
      ensures outputs[r][b] == Coded(rows[r], At(ins, b), 0, before[r][b])
    {
      CodedNone(rows[r], At(ins, b), before[r][b]);
    }
    for c := 0 to dataShards
      invariant t.Ready() && Bytes(inputs) == ins
      invariant forall r, b :: 0 <= r < outputCount && 0 <= b < byteCount ==>
        outputs[r][b] == Coded(rows[r], At(ins, b), c, before[r][b])
    {
      CodeColumn(t, m, inputs[c], outputs, c, outputCount, byteCount, inputs, rows, ins, before);
    }
  }
}
