/** Reading back a printed parameter set: exactly which ones come back. */
module SpsReread {
  import opened Numbers
  import opened BitStream
  import opened Nal
  import opened Options
  import opened SpsSyntax
  import opened SpsCanonical

  /** `code` at `p`, a stop bit and fewer than eight zeros, and nothing more. */
  ghost predicate Ends(s: seq<bool>, p: nat, code: seq<bool>, pad: nat) {
    pad <= 7 && p + |code| + 1 + pad == |s| && CodeAt(s, p, code) && s[p + |code|]
      && forall k :: p + |code| < k < |s| ==> !s[k]
  }

  // ---- How far the lists reach ----

  lemma SmallStep(s: seq<bool>, p: nat)
    ensures var r := ReadSe(s, p); r.Got? ==> r.pos > p && (r.pos < p + 5 ==> -1 <= r.value <= 1)
  {
    hide ReadUe;
    UeStands(s, p);
    if ReadUe(s, p).Got? {
      Log2Bounds(ReadUe(s, p).value + 1);
    }
  }

  lemma {:induction false} ScalesForward(s: seq<bool>, p: nat, n: nat, last: nat, next: nat)
    ensures var r := ParseScales(s, p, n, last, next); r.Got? ==> r.pos >= p
    decreases n
  {
    hide ReadSe;
    if n > 0 && ParseScales(s, p, n, last, next).Got? {
      SmallStep(s, p);
      if next != 0 {
        var next' := (last + ReadSe(s, p).value + 256) % 256;
        ScalesForward(s, ReadSe(s, p).pos, n - 1, if next' == 0 then last else next', next');
      } else {
        ScalesForward(s, p, n - 1, last, next);
      }
    }
  }

  /** Scales above `m` cannot reach zero in fewer than `m` bits. */
  lemma {:induction false} ScalesReach(s: seq<bool>, p: nat, n: nat, last: nat, m: nat)
    requires m <= 5 && m <= n && m < last <= 255 - m
    ensures var r := ParseScales(s, p, n, last, last); r.Got? ==> r.pos >= p + m
    decreases m
  {
    hide ReadSe;
    if m > 0 && ParseScales(s, p, n, last, last).Got? {
      SmallStep(s, p);
      var q, d := ReadSe(s, p).pos, ReadSe(s, p).value;
      var next := (last + d + 256) % 256;
      ScalesForward(s, q, n - 1, if next == 0 then last else next, next);
      if q < p + 5 {
        assert next == last + d;
        ScalesReach(s, q, n - 1, next, m - 1);
      }
    } else {
      ScalesForward(s, p, n, last, last);
    }
  }

  lemma ListOptReach(s: seq<bool>, p: nat, i: nat)
    ensures var r := ParseListOpt(s, p, i); r.Got? ==> p < |s| && if s[p] then r.pos >= p + 6 else r.pos == p + 1
  {
    hide ParseScales;
    ScalesReach(s, p + 1, ListSize(i), 8, 5);
  }

  /** Either all lists are absent, one clear flag each, or they take at least five bits more. */
  lemma {:induction false} ListsReach(s: seq<bool>, p: nat, i: nat, n: nat)
    requires i <= n
    ensures var r := ParseLists(s, p, i, n); r.Got? ==> r.pos >= p + (n - i)
    ensures var r := ParseLists(s, p, i, n); r.Got? && r.pos < p + (n - i) + 5 ==>
      r.pos == p + (n - i) && (p + (n - i) <= |s| || i == n) && forall k :: p <= k < p + (n - i) ==> !s[k]
    decreases n - i
  {
    hide ParseListOpt;
    if i < n && ParseLists(s, p, i, n).Got? {
      ListOptReach(s, p, i);
      ListsReach(s, ParseListOpt(s, p, i).pos, i + 1, n);
    }
  }

  lemma {:induction false} ListsSplit(s: seq<bool>, p: nat, i: nat, m: nat, n: nat)
    requires i <= m <= n
    ensures var r := ParseLists(s, p, i, n); r.Got? ==>
      var a := ParseLists(s, p, i, m);
      a.Got? && |a.value| == m - i
      && var b := ParseLists(s, a.pos, m, n); b.Got? && r.value == a.value + b.value && r.pos == b.pos
    decreases m - i
  {
    hide ParseListOpt;
    var r := ParseLists(s, p, i, n);
    if r.Got? && i < m {
      var first := ParseListOpt(s, p, i);
      ListsSplit(s, first.pos, i + 1, m, n);
      var a := ParseLists(s, first.pos, i + 1, m);
      var b := ParseLists(s, a.pos, m, n);
      assert [first.value] + (a.value + b.value) == ([first.value] + a.value) + b.value;
    } else if r.Got? {
      assert [] + r.value == r.value;
    }
  }

  lemma {:induction false} PrintListsPrefix(lists: seq<Option<ScalingList>>, i: nat, n: nat)
    requires i <= n <= |lists|
    ensures PrintLists(lists, i, n) == PrintLists(lists[..n], i, n)
    decreases n - i
  {
    if i < n {
      PrintListsPrefix(lists, i + 1, n);
    }
  }

  // ---- 4:4:4 with a scaling matrix ----

  /** Bits that repeat after four places, and start with four zeros, are all zeros. */
  lemma {:induction false} AllZero(s: seq<bool>, p: nat, n: nat, i: nat)
    requires p + n + 4 <= |s| && i < n + 4
    requires forall k :: p <= k < p + 4 ==> !s[k]
    requires s[p + 4..p + 4 + n] == s[p..p + n]
    ensures !s[p + i]
    decreases i
  {
    if i >= 4 {
      AllZero(s, p, n, i - 4);
      assert s[p + 4..p + 4 + n][i - 4] == s[p..p + n][i - 4];
    }
  }

  /** Where the reader is after the printed part of the matrix, and what it must then make of four lists more. */
  lemma HighFirst(s: seq<bool>, p: nat, h: High)
    requires HighFits(h) && !Whole(h) && CodeAt(s, p, PrintHigh(h))
    ensures var r := ParseHigh(s, p); r.Got? && r.value == h ==>
      var more := ParseLists(s, p + |PrintHigh(h)|, 8, 12); more.Got? && r.pos == more.pos
  {
    hide CodeAt, ReadFlag, Ue, ReadUe, ParseLists, PrintLists, MatrixFits;
    var r := ParseHigh(s, p);
    var lists := h.matrix.value;
    var c4 := PrintLists(lists, 0, 8);
    var c3 := [h.bypass] + ([true] + c4);
    var c2 := Ue(h.chromaDepth) + c3;
    var c1 := Ue(h.lumaDepth) + c2;
    UeThen(s, p, h.chromaFormat, PrintResidual(h) + c1);
    var p1 := p + |Ue(h.chromaFormat)|;
    FlagThen(s, p1, h.residualColour, c1);
    UeThen(s, p1 + 1, h.lumaDepth, c2);
    var p3 := p1 + 1 + |Ue(h.lumaDepth)|;
    UeThen(s, p3, h.chromaDepth, c3);
    var p4 := p3 + |Ue(h.chromaDepth)|;
    FlagThen(s, p4, h.bypass, [true] + c4);
    FlagThen(s, p4 + 1, true, c4);
    if r.Got? && r.value == h {
      EightLists(s, p4 + 2, lists);
    }
  }

  lemma EightLists(s: seq<bool>, p: nat, lists: seq<Option<ScalingList>>)
    requires |lists| == 12 && MatrixFits(lists) && CodeAt(s, p, PrintLists(lists, 0, 8))
    ensures var r := ParseLists(s, p, 0, 12); r.Got? && r.value == lists ==>
      var more := ParseLists(s, p + |PrintLists(lists, 0, 8)|, 8, 12); more.Got? && r.pos == more.pos
  {
    hide CodeAt, ParseLists, PrintLists, AllGentle, ListFits;
    var r := ParseLists(s, p, 0, 12);
    if r.Got? && r.value == lists {
      ListsSplit(s, p, 0, 8, 12);
      PrintListsPrefix(lists, 0, 8);
      ListsBack(s, p, lists[..8], 0, 8);
      assert lists[..8][0..] == lists[..8];
    }
  }

  /** The reader's four lists too many would have to come out of what follows, which then comes too short. */
  lemma NotWhole(s: seq<bool>, p: nat, v: Sps, pad: nat)
    requires SpsFits(v) && !Printable(v) && Ends(s, p, PrintSps(v), pad)
    ensures var r := ParseSps(s, p); !(r.Got? && r.value == v)
  {
    hide CodeAt, PrintHead, ParseHead, PrintHigh, ParseHigh, PrintTail, ParseTail, IsHigh, PicOrderFits, HighFits,
      VuiOptFits, ChromaFits, Pow2, UsFit, Whole;
    var r := ParseSps(s, p);
    if r.Got? && r.value == v {
      var h := v.high.value;
      CodeSplit(s, p, PrintHead(v), PrintHigh(h) + PrintTail(v));
      HeadBack(s, p, v);
      var p1 := p + |PrintHead(v)|;
      CodeSplit(s, p1, PrintHigh(h), PrintTail(v));
      HighFirst(s, p1, h);
      var q := p1 + |PrintHigh(h)|;
      var high := ParseHighOpt(s, p1, v.profile);
      var tail := ParseTail(s, high.pos);
      assert high.value == v.high && tail.value == TailOf(v);
      TailStands(s, high.pos, v);
      ListsReach(s, q, 8, 12);
      NoRoom(s, q, PrintTail(v), high.pos);
    }
  }

  lemma NoRoom(s: seq<bool>, q: nat, t: seq<bool>, q': nat)
    requires q + |t| < |s| <= q + |t| + 8 && s[q + |t|] && CodeAt(s, q, t)
    requires q' >= q + 4 && (q' < q + 9 ==> q' == q + 4 && q' <= |s| && forall k :: q <= k < q + 4 ==> !s[k])
    requires q' + |t| <= |s| && CodeAt(s, q', t)
    ensures false
  {
    AllZero(s, q, |t|, |t|);
  }

  /**
   * Followed by its stop bit, a printed parameter set parses back to itself exactly when it is no 4:4:4 set with a
   * scaling matrix and no scaling list takes too large a step.
   */
  lemma Reread(s: seq<bool>, p: nat, v: Sps, pad: nat)
    requires SpsFits(v) && Ends(s, p, PrintSps(v), pad)
    ensures (ParseSps(s, p).Got? && ParseSps(s, p).value == v) <==> Printable(v) && Rereadable(v)
    ensures Printable(v) && Rereadable(v) ==> ParseSps(s, p).pos == p + |PrintSps(v)|
  {
    hide ParseSps, PrintSps, SpsFits, Rereadable, Printable;
    if Printable(v) {
      SpsBack(s, p, v);
    } else {
      NotWhole(s, p, v, pad);
    }
  }
}
