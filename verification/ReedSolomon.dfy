/** The erasure code: construction, encoding and reconstruction of striped shards. */
module ReedSolomon {
  import opened Numbers
  import opened Gf256
  import opened GfTables
  import opened Matrix
  import opened Elimination
  import opened Cauchy
  import opened Recovery
  import opened InvertMat
  import opened ShardCoding

  const DATA_SHARDS_MAX := 255

  // ---- Construction ----

  lemma ApplyIdentity(m: seq<Vec>, k: nat, x: Vec)
    requires Square(m, k) && |x| == k && forall r :: 0 <= r < k ==> m[r] == Unit(k, r)
    ensures Apply(m, x) == x
  {
    hide Dot;
    forall r | 0 <= r < k
      ensures Apply(m, x)[r] == x[r]
    {
      DotUnitLeft(k, r, x);
    }
  }

  lemma IdentityNonsingular(m: seq<Vec>, k: nat)
    requires Square(m, k) && forall r :: 0 <= r < k ==> m[r] == Unit(k, r)
    ensures Nonsingular(m, k)
  {
    hide Dot, Apply;
    forall x: Vec | |x| == k && Apply(m, x) == Zeros(k)
      ensures x == Zeros(k)
    {
      ApplyIdentity(m, k, x);
    }
  }

  /** The inverse of the identity is the identity. */
  lemma InverseOfIdentity(inv: seq<Vec>, m: seq<Vec>, k: nat, c: nat)
    requires Square(m, k) && forall r :: 0 <= r < k ==> m[r] == Unit(k, r)
    requires Square(inv, k) && Inverse(inv, m, k) && c < k
    ensures Column(inv, k, c) == Unit(k, c)
  {
    hide Dot, Apply, Inverse;
    InverseUndoes(inv, m, k, Unit(k, c));
    ApplyIdentity(m, k, Unit(k, c));
    ApplyUnit(inv, k, c);
  }

  method SubMatrix(matrix: array2<Gf>, rmin: nat, cmin: nat, rmax: nat, cmax: nat) returns (sub: array2<Gf>)
    requires rmin <= rmax <= matrix.Length0 && cmin <= cmax <= matrix.Length1
    ensures fresh(sub) && sub.Length0 == rmax - rmin && sub.Length1 == cmax - cmin
    ensures forall r, c :: 0 <= r < rmax - rmin && 0 <= c < cmax - cmin ==>
      sub[r, c] == matrix[rmin + r, cmin + c]
  {
    sub := new Gf[rmax - rmin, cmax - cmin]((_, _) => ZERO);
    for i := 0 to rmax - rmin
      invariant forall r, c :: 0 <= r < i && 0 <= c < cmax - cmin ==> sub[r, c] == matrix[rmin + r, cmin + c]
    {
      for j := 0 to cmax - cmin
        invariant forall r, c :: 0 <= r < i && 0 <= c < cmax - cmin ==> sub[r, c] == matrix[rmin + r, cmin + c]
        invariant forall c :: 0 <= c < j ==> sub[i, c] == matrix[rmin + i, cmin + c]
      {
        sub[i, j] := matrix[rmin + i, cmin + j];
      }
    }
  }

  /** a.dot(b), b square. */
  method Multiply(t: FieldTables, a: array2<Gf>, b: array2<Gf>, k: nat) returns (product: array2<Gf>)
    requires t.Ready() && a.Length1 == k && b.Length0 == b.Length1 == k
    ensures fresh(product) && product.Length0 == a.Length0 && product.Length1 == k
    ensures forall r, c :: 0 <= r < a.Length0 && 0 <= c < k ==>
      product[r, c] == Dot(Rows(a)[r], Column(Rows(b), k, c), k)
  {
    hide Dot, Rows, Column, FieldTables.Ready;
    product := new Gf[a.Length0, k]((_, _) => ZERO);
    ghost var ra, rb := Rows(a), Rows(b);
    for r := 0 to a.Length0
      invariant forall x, y :: 0 <= x < r && 0 <= y < k ==> product[x, y] == Dot(ra[x], Column(rb, k, y), k)
    {
      for c := 0 to k
        invariant forall x, y :: 0 <= x < r && 0 <= y < k ==> product[x, y] == Dot(ra[x], Column(rb, k, y), k)
        invariant forall y :: 0 <= y < c ==> product[r, y] == Dot(ra[r], Column(rb, k, y), k)
      {
        var tg := RowByColumn(t, a, b, k, r, c);
        product[r, c] := tg;
      }
    }
  }

  method RowByColumn(t: FieldTables, a: array2<Gf>, b: array2<Gf>, k: nat, r: nat, c: nat) returns (tg: Gf)
    requires t.Ready() && a.Length1 == k && b.Length0 == b.Length1 == k && r < a.Length0 && c < k
    ensures tg == Dot(Rows(a)[r], Column(Rows(b), k, c), k)
  {
    hide Mul, Xor, FieldTables.Ready, FieldTables.GfMul;
    ghost var row, column := Rows(a)[r], Column(Rows(b), k, c);
    tg := ZERO;
    for i := 0 to k
      invariant tg == Dot(row, column, i)
    {
      tg := Xor(tg, t.GfMul(a[r, i], b[i, c]));
    }
  }

  class Codec {
    const dataShards: nat
    const parityShards: nat
    const shards: nat
    const m: array2<Gf>
    const parity: array2<Gf>

    /** Identity rows over the parity block, and the parity block again on its own. */
    ghost predicate Valid()
      reads m, parity
    {
      && 0 < dataShards && 0 < parityShards && shards == dataShards + parityShards <= DATA_SHARDS_MAX
      && m.Length0 == shards && m.Length1 == dataShards
      && parity.Length0 == parityShards && parity.Length1 == dataShards
      && (forall r :: 0 <= r < dataShards ==> Rows(m)[r] == Unit(dataShards, r))
      && (forall j :: 0 <= j < parityShards ==>
        Rows(m)[dataShards + j] == ParityRow(dataShards, parityShards, j))
      && (forall j :: 0 <= j < parityShards ==> Rows(parity)[j] == ParityRow(dataShards, parityShards, j))
    }

    constructor (ds: nat, ps: nat, m: array2<Gf>, parity: array2<Gf>)
      ensures dataShards == ds && parityShards == ps && shards == ds + ps
      ensures this.m == m && this.parity == parity
    {
      dataShards, parityShards, shards := ds, ps, ds + ps;
      this.m, this.parity := m, parity;
    }
  }

  /** vm times the inverse of its own top square: identity rows over zero rows. */
  method SystematicMatrix(t: FieldTables, ds: nat, shards: nat) returns (m: array2<Gf>)
    requires t.Ready() && 0 < ds <= shards
    ensures fresh(m) && m.Length0 == shards && m.Length1 == ds
    ensures forall r, c :: 0 <= r < ds && 0 <= c < ds ==> m[r, c] == Unit(ds, r)[c]
  {
    hide FieldTables.Ready, Dot, Nonsingular, Inverse;
    var vm := new Gf[shards, ds]((_, _) => ZERO);
    for row := 0 to shards
      invariant forall r, c :: 0 <= r < row && 0 <= c < ds ==> vm[r, c] == if r == c then ONE else ZERO
    {
      for col := 0 to ds
        invariant forall r, c :: 0 <= r < row && 0 <= c < ds ==> vm[r, c] == if r == c then ONE else ZERO
        invariant forall c :: 0 <= c < col ==> vm[row, c] == if row == c then ONE else ZERO
      {
        vm[row, col] := if row == col then ONE else ZERO;
      }
    }
    var top := SubMatrix(vm, 0, 0, ds, ds);
    ghost var identity := Rows(top);
    assert forall r :: 0 <= r < ds ==> identity[r] == Unit(ds, r);
    IdentityNonsingular(identity, ds);
    var err := InvertInPlace(t, top, ds);
    assert err == 0;
    m := Multiply(t, vm, top, ds);
    forall r, c | 0 <= r < ds && 0 <= c < ds
      ensures m[r, c] == Unit(ds, r)[c]
    {
      assert Rows(vm)[r] == Unit(ds, r);
      InverseOfIdentity(Rows(top), identity, ds, c);
      DotUnitLeft(ds, r, Unit(ds, c));
    }
  }

  /** reed_solomon_new */
  method New(t: FieldTables, dataShards: int, parityShards: int) returns (rs: Codec?)
    requires t.Ready()
    ensures rs != null <==> 0 < dataShards && 0 < parityShards && dataShards + parityShards <= 255
    ensures rs != null ==>
      rs.Valid() && rs.dataShards == dataShards && rs.parityShards == parityShards
    ensures rs != null ==>
      && (forall r, c :: 0 <= r < dataShards && 0 <= c < dataShards ==> rs.m[r, c] == if r == c then ONE else ZERO)
      && (forall j, i :: 0 <= j < parityShards && 0 <= i < dataShards ==>
        && Mul(rs.parity[j, i], Xor(FromInt(parityShards + i), FromInt(j))) == ONE
        && rs.m[dataShards + j, i] == rs.parity[j, i])
  {
    hide FieldTables.Ready, Inv, FromInt, ToInt, Xor, Mul, Codec.Valid, ParityRow, Unit, Rows;
    if dataShards + parityShards > DATA_SHARDS_MAX || dataShards <= 0 || parityShards <= 0 {
      return null;
    }
    var ds, ps: nat := dataShards, parityShards;
    var m := SystematicMatrix(t, ds, ds + ps);
    FillParity(t, m, ds, ps);
    var parity := SubMatrix(m, ds, 0, ds + ps, ds);
    rs := new Codec(ds, ps, m, parity);
    CodecValid(rs, ds, ps);
    CodecEntries(rs, ds, ps);
  }

  /** Each parity entry is the inverse of the sum of its point's number and its row's. */
  lemma CodecEntries(rs: Codec, ds: nat, ps: nat)
    requires rs.Valid() && rs.dataShards == ds && rs.parityShards == ps
    ensures rs.m.Length0 == ds + ps <= 255 && rs.m.Length1 == ds && rs.parity.Length0 == ps && rs.parity.Length1 == ds
    ensures forall r, c :: 0 <= r < ds && 0 <= c < ds ==> rs.m[r, c] == if r == c then ONE else ZERO
    ensures forall j, i :: 0 <= j < ps && 0 <= i < ds ==>
      Mul(rs.parity[j, i], Xor(FromInt(ps + i), FromInt(j))) == ONE && rs.m[ds + j, i] == rs.parity[j, i]
  {
    hide FromInt, ToInt, Xor, Mul, ParityRow, Inv;
    forall r, c | 0 <= r < ds && 0 <= c < ds
      ensures rs.m[r, c] == if r == c then ONE else ZERO
    {
      assert Rows(rs.m)[r][c] == Unit(ds, r)[c];
    }
    forall j, i | 0 <= j < ps && 0 <= i < ds
      ensures Mul(rs.parity[j, i], Xor(FromInt(ps + i), FromInt(j))) == ONE && rs.m[ds + j, i] == rs.parity[j, i]
    {
      assert Rows(rs.m)[ds + j][i] == ParityRow(ds, ps, j)[i];
      assert Rows(rs.parity)[j][i] == ParityRow(ds, ps, j)[i];
      ParityEntry(ds, ps, j, i);
    }
  }

  /** The three parts of the matrix, entry by entry, are what Valid asks for. */
  lemma CodecValid(rs: Codec, ds: nat, ps: nat)
    requires 0 < ds && 0 < ps && ds + ps <= DATA_SHARDS_MAX
    requires rs.dataShards == ds && rs.parityShards == ps && rs.shards == ds + ps
    requires rs.m.Length0 == ds + ps && rs.m.Length1 == ds && rs.parity.Length0 == ps && rs.parity.Length1 == ds
    requires forall r, c :: 0 <= r < ds && 0 <= c < ds ==> rs.m[r, c] == Unit(ds, r)[c]
    requires forall j, i :: 0 <= j < ps && 0 <= i < ds ==> rs.m[ds + j, i] == ParityRow(ds, ps, j)[i]
    requires forall j, i :: 0 <= j < ps && 0 <= i < ds ==> rs.parity[j, i] == rs.m[ds + j, i]
    ensures rs.Valid()
  {
    hide Inv, FromInt, ToInt, Xor;
    assert forall r :: 0 <= r < ds ==> Rows(rs.m)[r] == Unit(ds, r);
    assert forall j :: 0 <= j < ps ==> Rows(rs.m)[ds + j] == ParityRow(ds, ps, j);
    assert forall j :: 0 <= j < ps ==> Rows(rs.parity)[j] == ParityRow(ds, ps, j);
  }

  method FillParity(t: FieldTables, m: array2<Gf>, ds: nat, ps: nat)
    requires t.Ready() && m.Length0 == ds + ps <= DATA_SHARDS_MAX && m.Length1 == ds
    modifies m
    ensures forall r, c :: 0 <= r < ds && 0 <= c < ds ==> m[r, c] == old(m[r, c])
    ensures forall j, i :: 0 <= j < ps && 0 <= i < ds ==> m[ds + j, i] == ParityRow(ds, ps, j)[i]
  {
    hide Inv, FromInt, ToInt, Xor;
    for j := 0 to ps
      invariant t.Ready()
      invariant forall r, c :: 0 <= r < ds && 0 <= c < ds ==> m[r, c] == old(m[r, c])
      invariant forall x, i :: 0 <= x < j && 0 <= i < ds ==> m[ds + x, i] == ParityRow(ds, ps, x)[i]
    {
      for i := 0 to ds
        invariant t.Ready()
        invariant forall r, c :: 0 <= r < ds && 0 <= c < ds ==> m[r, c] == old(m[r, c])
        invariant forall x, y :: 0 <= x < j && 0 <= y < ds ==> m[ds + x, y] == ParityRow(ds, ps, x)[y]
        invariant forall y :: 0 <= y < i ==> m[ds + j, y] == ParityRow(ds, ps, j)[y]
      {
        m[ds + j, i] := t.inverse[ToInt(Xor(FromInt(ps + i), FromInt(j)))];
      }
    }
  }

  // ---- Codewords ----

  /** The parity blocks are what the parity rows make of the data blocks. */
  ghost predicate Codeword(ds: nat, ps: nat, data: seq<Vec>, fec: seq<Vec>, size: nat) {
    && ds + ps <= DATA_SHARDS_MAX && |data| == ds && |fec| == ps && SameLength(data, size) && SameLength(fec, size)
    && forall j, b :: 0 <= j < ps && 0 <= b < size ==> fec[j][b] == Dot(ParityRow(ds, ps, j), At(data, b), ds)
  }

  /** `n` stripes, all data blocks before all parity blocks, each stripe a codeword. */
  ghost predicate Encoded(n: nat, ds: nat, ps: nat, data: seq<Vec>, fec: seq<Vec>, size: nat) {
    if n == 0 then data == [] && fec == []
    else
      && |data| >= ds && |fec| >= ps
      && var d, f := |data| - ds, |fec| - ps;
         Encoded(n - 1, ds, ps, data[..d], fec[..f], size) && Codeword(ds, ps, data[d..], fec[f..], size)
  }

  /** One stripe: afterwards its blocks form a codeword. */
  method EncodeStripe(t: FieldTables, rs: Codec, dataBlocks: seq<array<Gf>>, fecBlocks: seq<array<Gf>>, size: nat)
    requires t.Ready() && rs.Valid()
    requires |dataBlocks| == rs.dataShards && |fecBlocks| == rs.parityShards
    requires Blocks(dataBlocks, size) && Blocks(fecBlocks, size)
    requires AllDistinct(fecBlocks) && NoTable(t, fecBlocks)
    requires forall i, j :: 0 <= i < |dataBlocks| && 0 <= j < |fecBlocks| ==> dataBlocks[i] != fecBlocks[j]
    modifies fecBlocks
    ensures t.Ready() && rs.Valid()
    ensures Codeword(rs.dataShards, rs.parityShards, Bytes(dataBlocks), Bytes(fecBlocks), size)
    ensures Bytes(dataBlocks) == old(Bytes(dataBlocks))
  {
    hide FieldTables.Ready, Coded, At, Rows, Dot, ParityRow;
    var ds, ps := rs.dataShards, rs.parityShards;
    ghost var ins, before, rows := Bytes(dataBlocks), Bytes(fecBlocks), Rows(rs.parity);
    CodeSomeShards(t, rs.parity, dataBlocks, fecBlocks, ds, ps, size);
    assert Bytes(dataBlocks) == ins;
    forall j, b | 0 <= j < ps && 0 <= b < size
      ensures Bytes(fecBlocks)[j][b] == Dot(ParityRow(ds, ps, j), At(ins, b), ds)
    {
      assert rows[j] == ParityRow(ds, ps, j);
      ParityEntryNonzero(ds, ps, j, 0);
      CodedIsDot(rows[j], At(ins, b), before[j][b]);
    }
  }

  /** The number of whole stripes, and whether the blocks divide into them. */
  function Stripes(nrShards: nat, perStripe: nat): nat
    requires 0 < perStripe
  {
    nrShards / perStripe
  }

  ghost predicate WholeStripes(nrShards: nat, perStripe: nat)
    requires 0 < perStripe
  {
    nrShards % perStripe == 0
  }

  /** Block offsets as multiples of the stripe shapes. */
  lemma StripeCounts(n: nat, j: nat, ds: nat, ps: nat)
    requires j <= n && 0 < ds && 0 < ps
    ensures Times(n, ds + ps) == Times(n, ds) + Times(n, ps)
    ensures Times(j, ds) <= Times(n, ds) && Times(j, ps) <= Times(n, ps)
    ensures j < n <==> Times(j, ds + ps) < Times(n, ds + ps)
    ensures j < n ==> Times(j + 1, ds) == Times(j, ds) + ds <= Times(n, ds)
    ensures j < n ==> Times(j + 1, ps) == Times(j, ps) + ps <= Times(n, ps)
    ensures Times(j + 1, ds + ps) == Times(j, ds + ps) + ds + ps
    ensures Times(0, ds) == Times(0, ps) == Times(0, ds + ps) == 0
  {
    var k := n - j;
    assert n * ds == j * ds + k * ds && n * ps == j * ps + k * ps;
    if k > 0 {
      assert k * ds == ds + (k - 1) * ds && k * ps == ps + (k - 1) * ps;
    }
  }

  lemma BytesAppend(shards: seq<array<Gf>>, lo: nat, hi: nat)
    requires lo <= hi <= |shards|
    ensures Bytes(shards[..hi]) == Bytes(shards[..lo]) + Bytes(shards[lo..hi])
  {
  }

  lemma EncodedAppend(j: nat, ds: nat, ps: nat, data: seq<Vec>, fec: seq<Vec>, data': seq<Vec>, fec': seq<Vec>,
        size: nat)
    requires Encoded(j, ds, ps, data, fec, size) && Codeword(ds, ps, data', fec', size)
    ensures Encoded(j + 1, ds, ps, data + data', fec + fec', size)
  {
    assert (data + data')[..|data|] == data && (data + data')[|data|..] == data';
    assert (fec + fec')[..|fec|] == fec && (fec + fec')[|fec|..] == fec';
  }

  /** Data and parity blocks are pairwise different buffers outside the tables. */
  ghost predicate Separate(t: FieldTables, dataBlocks: seq<array<Gf>>, fecBlocks: seq<array<Gf>>, size: nat) {
    && Blocks(dataBlocks, size) && Blocks(fecBlocks, size) && AllDistinct(dataBlocks) && AllDistinct(fecBlocks)
    && NoTable(t, dataBlocks) && NoTable(t, fecBlocks)
    && forall i, j :: 0 <= i < |dataBlocks| && 0 <= j < |fecBlocks| ==> dataBlocks[i] != fecBlocks[j]
  }

  lemma SeparateParts(t: FieldTables, shards: seq<array<Gf>>, at: nat, size: nat)
    requires at <= |shards| && Blocks(shards, size) && AllDistinct(shards) && NoTable(t, shards)
    ensures Separate(t, shards[..at], shards[at..], size)
  {
  }

  lemma SeparateStripe(t: FieldTables, dataBlocks: seq<array<Gf>>, fecBlocks: seq<array<Gf>>, d: nat, d': nat, f: nat,
                       f': nat, size: nat)
    requires Separate(t, dataBlocks, fecBlocks, size) && d <= d' <= |dataBlocks| && f <= f' <= |fecBlocks|
    ensures Blocks(dataBlocks[d..d'], size) && Blocks(fecBlocks[f..f'], size)
    ensures AllDistinct(fecBlocks[f..f']) && NoTable(t, fecBlocks[f..f'])
    ensures forall i, j :: 0 <= i < f && 0 <= j < f' - f ==> fecBlocks[..f][i] != fecBlocks[f..f'][j]
    ensures forall i, j :: 0 <= i < |dataBlocks| && 0 <= j < f' - f ==> dataBlocks[i] != fecBlocks[f..f'][j]
    ensures forall i, j :: 0 <= i < d' - d && 0 <= j < f' - f ==> dataBlocks[d..d'][i] != fecBlocks[f..f'][j]
  {
  }

  /** One more stripe after the first `j`. */
  method EncodeNext(t: FieldTables, rs: Codec, dataBlocks: seq<array<Gf>>, fecBlocks: seq<array<Gf>>,
                    d: nat, f: nat, size: nat, ghost j: nat)
    requires t.Ready() && rs.Valid() && Separate(t, dataBlocks, fecBlocks, size)
    requires d + rs.dataShards <= |dataBlocks| && f + rs.parityShards <= |fecBlocks|
    requires Encoded(j, rs.dataShards, rs.parityShards, Bytes(dataBlocks[..d]), Bytes(fecBlocks[..f]), size)
    modifies fecBlocks
    ensures t.Ready() && rs.Valid()
    ensures Encoded(j + 1, rs.dataShards, rs.parityShards,
      Bytes(dataBlocks[..d + rs.dataShards]), Bytes(fecBlocks[..f + rs.parityShards]), size)
    ensures Bytes(dataBlocks) == old(Bytes(dataBlocks))
  {
    hide FieldTables.Ready, Codeword, Encoded, Codec.Valid, AllDistinct, NoTable, Blocks, Separate;
    SeparateStripe(t, dataBlocks, fecBlocks, d, d + rs.dataShards, f, f + rs.parityShards, size);
    var ds, ps := rs.dataShards, rs.parityShards;
    ghost var before, dataDone, fecDone := Bytes(dataBlocks), Bytes(dataBlocks[..d]), Bytes(fecBlocks[..f]);
    EncodeStripe(t, rs, dataBlocks[d..d + ds], fecBlocks[f..f + ps], size);
    assert Bytes(fecBlocks[..f]) == fecDone;
    assert Bytes(dataBlocks) == before;
    assert Bytes(dataBlocks[..d]) == dataDone;
    BytesAppend(dataBlocks, d, d + ds);
    BytesAppend(fecBlocks, f, f + ps);
    EncodedAppend(j, ds, ps, dataDone, fecDone, Bytes(dataBlocks[d..d + ds]), Bytes(fecBlocks[f..f + ps]), size);
  }

  /** reed_solomon_encode: afterwards every stripe is a codeword over its unchanged data. */
  method Encode(t: FieldTables, rs: Codec, shards: seq<array<Gf>>, nrShards: nat, size: nat)
    requires t.Ready() && rs.Valid()
    requires |shards| == nrShards && WholeStripes(nrShards, rs.shards)
    requires Blocks(shards, size) && AllDistinct(shards) && NoTable(t, shards)
    modifies shards
    ensures var n := Stripes(nrShards, rs.shards); var d := Times(n, rs.dataShards);
      && d <= nrShards
      && Bytes(shards)[..d] == old(Bytes(shards))[..d]
      && Encoded(n, rs.dataShards, rs.parityShards, Bytes(shards)[..d], Bytes(shards)[d..], size)
  {
    hide FieldTables.Ready, Codeword, Encoded, Codec.Valid, Bytes, Blocks, AllDistinct, NoTable, Separate, Times,
      Stripes, WholeStripes;
    var ds, ps, ss := rs.dataShards, rs.parityShards, rs.shards;
    CodecShape(rs);
    var n := Stripes(nrShards, ss);
    SplitShards(nrShards, ds, ps);
    StripeCounts(n, 0, ds, ps);
    var nds := Times(n, ds);
    var dataBlocks, fecBlocks := shards[..nds], shards[nds..];
    SeparateParts(t, shards, nds, size);
    ghost var before := Bytes(dataBlocks);
    BytesParts(shards, nds);
    EncodedNone(ds, ps, size);
    var i, d, f := 0, 0, 0;
    ghost var j := 0;
    NoBytes(dataBlocks, fecBlocks);
    while i < nrShards
      invariant t.Ready() && rs.Valid()
      invariant j <= n && i == Times(j, ss) && d == Times(j, ds) && f == Times(j, ps)
      invariant d <= |dataBlocks| && f <= |fecBlocks|
      invariant Bytes(dataBlocks) == before
      invariant Encoded(j, ds, ps, Bytes(dataBlocks[..d]), Bytes(fecBlocks[..f]), size)
    {
      StripeCounts(n, j, ds, ps);
      EncodeNext(t, rs, dataBlocks, fecBlocks, d, f, size, j);
      d, f, i := d + ds, f + ps, i + ss;
      j := j + 1;
    }
    StripeCounts(n, j, ds, ps);
    assert dataBlocks[..d] == dataBlocks && fecBlocks[..f] == fecBlocks;
    BytesParts(shards, nds);
  }

  lemma BytesParts(shards: seq<array<Gf>>, at: nat)
    requires at <= |shards|
    ensures Bytes(shards)[..at] == Bytes(shards[..at]) && Bytes(shards)[at..] == Bytes(shards[at..])
  {
  }

  lemma NoBytes(dataBlocks: seq<array<Gf>>, fecBlocks: seq<array<Gf>>)
    ensures Bytes(dataBlocks[..0]) == [] && Bytes(fecBlocks[..0]) == []
  {
  }

  lemma SplitShards(nrShards: nat, ds: nat, ps: nat)
    requires 0 < ds + ps && WholeStripes(nrShards, ds + ps)
    ensures nrShards == Times(Stripes(nrShards, ds + ps), ds + ps)
  {
  }

  lemma CodecShape(rs: Codec)
    requires rs.Valid()
    ensures rs.shards == rs.dataShards + rs.parityShards <= DATA_SHARDS_MAX
    ensures 0 < rs.dataShards && 0 < rs.parityShards
  {
  }

  lemma EncodedNone(ds: nat, ps: nat, size: nat)
    ensures Encoded(0, ds, ps, [], [], size)
  {
  }
}
