/** The symbol array and the steps that walk and change it in place. */
module SymbolTable {
  import opened Numbers
  import opened RangeCoder
  import opened Ppm
  import opened SymbolTree

  // ---- Rescaling a tree, on values ----

  /** The node lies in the part of the context's tree between `lo` and `hi`. */
  predicate Inside(p: Place, h: History, lo: nat, hi: nat) {
    p.Node? && Spanned(p) && p.context == h && lo <= p.lo && p.hi <= hi
  }

  /** A node with its count halved and its `under` summed again. */
  ghost predicate Redone(s: Symbol, s': Symbol, p: Place, halved: map<Byte, nat>)
    requires p.Node? && Spanned(p)
  {
    && s'.count == Halve(s.count) && s' == s.(count := s'.count, under := s'.under)
    && s'.under == SumBelow(halved, p.value + 1) - SumBelow(halved, p.lo)
  }

  /** Between `b` and `c` the nodes of `lo..hi` were redone, except those from `rest` on. */
  ghost predicate RedoneAt(s: Symbol, b: Symbol, c: Symbol, p: Place, h: History, halved: map<Byte, nat>, lo: nat,
        rest: nat, hi: nat) {
    if Inside(p, h, lo, hi) && !Inside(p, h, rest, hi) then Redone(s, c, p, halved) else c == b
  }

  ghost predicate RedoneUpTo(a: seq<Symbol>, b: seq<Symbol>, c: seq<Symbol>, places: seq<Place>, h: History,
                             halved: map<Byte, nat>, lo: nat, rest: nat, hi: nat)
  {
    && |places| <= |a| == |b| == |c| == CAPACITY
    && (forall k :: 0 <= k < |places| ==> RedoneAt(a[k], b[k], c[k], places[k], h, halved, lo, rest, hi))
  }

  ghost predicate UntouchedAt(s: Symbol, b: Symbol, p: Place, h: History, lo: nat, hi: nat) {
    Inside(p, h, lo, hi) ==> b == s
  }

  ghost predicate Untouched(a: seq<Symbol>, b: seq<Symbol>, places: seq<Place>, h: History, lo: nat, hi: nat) {
    && |places| <= |a| == |b| == CAPACITY
    && (forall k :: 0 <= k < |places| ==> UntouchedAt(a[k], b[k], places[k], h, lo, hi))
  }

  lemma SmallSums(counts: map<Byte, nat>, a: nat, b: nat)
    requires SumBelow(counts, 256) < BOTTOM && a <= b <= 256
    ensures SumBelow(Halved(counts), a) <= SumBelow(Halved(counts), b) < BOTTOM
  {
    SumHalved(counts, 256);
    SumMonotone(Halved(counts), a, b);
    SumMonotone(Halved(counts), b, 256);
  }

  /** A node inside another's span is inside its left part or its right part. */
  lemma Inner(a: seq<Symbol>, places: seq<Place>, m: Model, j: nat, k: nat)
    requires Stands(a, places, m) && 0 < j < |places| && k < |places| && k != j
    ensures places[j].Node? && Spanned(places[j])
    ensures var p := places[j];
      Inside(places[k], p.context, p.lo, p.hi) <==>
        (Inside(places[k], p.context, p.lo, p.value) && a[j].left != 0)
          || (Inside(places[k], p.context, p.value + 1, p.hi) && a[j].right != 0)
    ensures var p :=
      places[j]; !(Inside(places[k], p.context, p.lo, p.value) && Inside(places[k], p.context, p.value + 1, p.hi))
    ensures var p := places[j]; Inside(places[k], p.context, p.lo, p.value) ==> a[j].left != 0
    ensures var p := places[j]; Inside(places[k], p.context, p.value + 1, p.hi) ==> a[j].right != 0
  {
    Located(a, places, m, j);
    Located(a, places, m, k);
    LaidAt(places, j, k);
    hide Stands, Laid, Linked, Heads;
    if k > 0 {
      NodeValue(a[k], places[k], m);
    }
  }

  /** One turn of the rescaling loop: node `j` and its left subtree are done. */
  lemma RescaleTurn(a: seq<Symbol>, b: seq<Symbol>, c: seq<Symbol>, c1: seq<Symbol>, d: seq<Symbol>, places: seq<Place>,
        m: Model, halved: map<Byte, nat>, lo: nat, j: nat, s: Symbol, k: nat)
    requires Stands(a, places, m) && 0 < j < |places| && k < |places| && |b| == |c| == |c1| == |d| == CAPACITY
      && places[j].Node? && Spanned(places[j])
    requires var p := places[j];
      && lo <= p.lo && Redone(a[j], s, p, halved)
      && RedoneAt(a[k], b[k], c[k], places[k], p.context, halved, lo, p.lo, p.hi)
      && (k != j ==> c1[k] == c[k])
      && RedoneAt(a[k], c1[k], d[k], places[k], p.context, halved, p.lo, p.value, p.value)
    ensures var p := places[j]; RedoneAt(a[k], b[k], d[j := s][k], places[k], p.context, halved, lo, p.value + 1, p.hi)
  {
    Located(a, places, m, j);
    if k != j {
      Inner(a, places, m, j, k);
    }
    hide Stands, Laid, Linked, Heads, Counts, Redone;
  }

  lemma RescaleStart(a: seq<Symbol>, b: seq<Symbol>, places: seq<Place>, h: History, halved: map<Byte, nat>, lo: nat,
        hi: nat)
    requires |places| <= |a| == |b| == CAPACITY
    ensures RedoneUpTo(a, b, b, places, h, halved, lo, lo, hi)
  {
  }

  /** The whole turn, for every node at once. */
  lemma RescaleTurns(a: seq<Symbol>, b: seq<Symbol>, c: seq<Symbol>, t: Symbol, d: seq<Symbol>, places: seq<Place>,
        m: Model, halved: map<Byte, nat>, lo: nat, j: nat, s: Symbol)
    requires Stands(a, places, m) && 0 < j < |places| <= CAPACITY && places[j].Node? && Spanned(places[j])
      && |c| == CAPACITY
    requires var p := places[j];
      && lo <= p.lo && Redone(a[j], s, p, halved)
      && RedoneUpTo(a, b, c, places, p.context, halved, lo, p.lo, p.hi)
      && RedoneUpTo(a, c[j := t], d, places, p.context, halved, p.lo, p.value, p.value)
    ensures var p := places[j]; RedoneUpTo(a, b, d[j := s], places, p.context, halved, lo, p.value + 1, p.hi)
  {
    var p, c1 := places[j], c[j := t];
    hide Stands, Spanned, Redone, RedoneAt;
    forall k | 0 <= k < |places|
      ensures RedoneAt(a[k], b[k], d[j := s][k], places[k], p.context, halved, lo, p.value + 1, p.hi)
    {
      assert RedoneAt(a[k], b[k], c[k], places[k], p.context, halved, lo, p.lo, p.hi);
      assert RedoneAt(a[k], c1[k], d[k], places[k], p.context, halved, p.lo, p.value, p.value);
      hide RedoneUpTo;
      RescaleTurn(a, b, c, c1, d, places, m, halved, lo, j, s, k);
    }
  }

  /** Nodes of a part not reached yet are as they were. */
  lemma StillUntouched(a: seq<Symbol>, b: seq<Symbol>, c: seq<Symbol>, places: seq<Place>, h: History, halved: map<Byte,
        nat>, lo: nat, rest: nat, hi: nat, from: nat, to: nat)
    requires Untouched(a, b, places, h, lo, hi) && RedoneUpTo(a, b, c, places, h, halved, lo, rest, hi)
    requires lo <= rest <= from && to <= hi
    ensures Untouched(a, c, places, h, from, to)
  {
    hide Spanned, Redone;
    forall k | 0 <= k < |places|
      ensures UntouchedAt(a[k], c[k], places[k], h, from, to)
    {
      assert UntouchedAt(a[k], b[k], places[k], h, lo, hi);
      assert RedoneAt(a[k], b[k], c[k], places[k], h, halved, lo, rest, hi);
    }
  }

  lemma NoneLeft(a: seq<Symbol>, b: seq<Symbol>, c: seq<Symbol>, places: seq<Place>, m: Model, h: History,
        halved: map<Byte, nat>, lo: nat, j: nat)
    requires Stands(a, places, m) && 0 < j < |places| && places[j].Node? && Spanned(places[j]) && places[j].context == h
    requires a[j].right == 0 && RedoneUpTo(a, b, c, places, h, halved, lo, places[j].value + 1, places[j].hi)
    ensures RedoneUpTo(a, b, c, places, h, halved, lo, places[j].hi, places[j].hi)
  {
    var p := places[j];
    hide Redone, Stands;
    forall k | 0 <= k < |places|
      ensures RedoneAt(a[k], b[k], c[k], places[k], h, halved, lo, p.hi, p.hi)
    {
      assert RedoneAt(a[k], b[k], c[k], places[k], h, halved, lo, p.value + 1, p.hi);
      if k != j {
        Inner(a, places, m, j, k);
      }
    }
  }

  /** What a node adds to the sums of the halved counts. */
  lemma HalvedSums(s: Symbol, p: Place, m: Model)
    requires p.Node? && Spanned(p) && Counts(s, p, m)
    ensures p.context in m
    ensures var halved := Halved(m[p.context].counts);
      && SumBelow(halved, p.value + 1) == SumBelow(halved, p.value) + Halve(s.count)
      && (s.left == 0 ==> SumBelow(halved, p.value) == SumBelow(halved, p.lo))
      && (s.right == 0 ==> SumBelow(halved, p.hi) == SumBelow(halved, p.value + 1))
  {
    var counts := m[p.context].counts;
    var halved := Halved(counts);
    assert CountOf(halved, p.value) == Halve(CountOf(counts, p.value));
    if s.left == 0 {
      SumNone(halved, p.lo, p.value);
    }
    if s.right == 0 {
      SumNone(halved, p.value + 1, p.hi);
    }
  }

  /** A tree node, with what its offsets lead to. */
  lemma TreeNode(a: seq<Symbol>, places: seq<Place>, m: Model, j: nat)
    requires Stands(a, places, m) && 0 < j < |places|
    ensures |places| <= CAPACITY == |a| && places[j].Node? && Spanned(places[j])
      && places[j].lo <= places[j].value < places[j].hi <= 256
    ensures places[j].context in m && Counts(a[j], places[j], m) && a[j].value == places[j].value
    ensures var p := places[j];
      && (a[j].left != 0 ==>
            && j + a[j].left < |places| && places[j + a[j].left].Node? && Spanned(places[j + a[j].left])
            && places[j + a[j].left].context == p.context && places[j + a[j].left].lo == p.lo
            && places[j + a[j].left].hi == p.value)
      && (a[j].right != 0 ==>
            && j + a[j].right < |places| && places[j + a[j].right].Node? && Spanned(places[j + a[j].right])
            && places[j + a[j].right].context == p.context && places[j + a[j].right].lo == p.value + 1
            && places[j + a[j].right].hi == p.hi)
    ensures var halved := Halved(m[places[j].context].counts);
      var p := places[j];
      && SumBelow(halved, p.value + 1) == SumBelow(halved, p.value) + Halve(a[j].count)
      && (a[j].left == 0 ==> SumBelow(halved, p.value) == SumBelow(halved, p.lo))
      && (a[j].right == 0 ==> SumBelow(halved, p.hi) == SumBelow(halved, p.value + 1))
  {
    Located(a, places, m, j);
    if a[j].left != 0 {
      Located(a, places, m, j + a[j].left);
    }
    if a[j].right != 0 {
      Located(a, places, m, j + a[j].right);
    }
    HalvedSums(a[j], places[j], m);
  }

  /** Where a rescaling stands: the subtree at `node` is left to do, and the sum covers what is before it. */
  ghost predicate Rescaling(a: seq<Symbol>, b: seq<Symbol>, c: seq<Symbol>, places: seq<Place>, m: Model, h: History,
        lo: nat, hi: nat, node: nat, total: int) {
    && 0 < node < |places| && places[node].Node? && Spanned(places[node]) && places[node].context == h && h in m
    && lo <= places[node].lo && places[node].hi == hi
    && RedoneUpTo(a, b, c, places, h, Halved(m[h].counts), lo, places[node].lo, hi)
    && SumIs(m, h, total, lo, places[node].lo)
  }

  ghost predicate SumIs(m: Model, h: History, total: int, lo: nat, hi: nat)
    requires h in m
  {
    lo <= hi <= 256 && total == SumBelow(Halved(m[h].counts), hi) - SumBelow(Halved(m[h].counts), lo)
  }

  ghost predicate TreeRescaled(a: seq<Symbol>, b: seq<Symbol>, c: seq<Symbol>, places: seq<Place>, m: Model, h: History,
        lo: nat, hi: nat, total: int) {
    h in m && RedoneUpTo(a, b, c, places, h, Halved(m[h].counts), lo, hi, hi) && SumIs(m, h, total, lo, hi)
  }

  lemma SumsAdd(m: Model, h: History, lo: nat, mid: nat, hi: nat, total: int, sum: int)
    requires h in m && SumBelow(m[h].counts, 256) < BOTTOM && SumIs(m, h, total, lo, mid) && SumIs(m, h, sum, mid, hi)
    ensures SumIs(m, h, total + sum, lo, hi) && 0 <= total + sum < BOTTOM
  {
    SmallSums(m[h].counts, lo, hi);
    hide SumBelow, Halved;
  }

  /** After the node and its left subtree the spine ends. */
  lemma SpineStop(a: seq<Symbol>, b: seq<Symbol>, c: seq<Symbol>, places: seq<Place>, m: Model, h: History, lo: nat,
        hi: nat, node: nat, total: nat, sum: int)
    requires Stands(a, places, m) && h in m && SumBelow(m[h].counts, 256) < BOTTOM
    requires 0 < node < |places| && places[node].Node? && Spanned(places[node]) && places[node].context == h
      && lo <= places[node].lo && places[node].hi == hi
    requires SumIs(m, h, total, lo, places[node].lo) && SumIs(m, h, sum, places[node].lo, places[node].value + 1)
    requires RedoneUpTo(a, b, c, places, h, Halved(m[h].counts), lo, places[node].value + 1, hi)
    requires a[node].right == 0
    ensures TreeRescaled(a, b, c, places, m, h, lo, hi, total + sum)
  {
    hide Stands, RedoneUpTo, Halved, Counts, Spanned, SumBelow;
    var p := places[node];
    TreeNode(a, places, m, node);
    NoneLeft(a, b, c, places, m, h, Halved(m[h].counts), lo, node);
    SumsAdd(m, h, lo, p.lo, p.value + 1, total, sum);
  }

  /** After the node and its left subtree, on to the right. */
  lemma SpineGo(a: seq<Symbol>, b: seq<Symbol>, c: seq<Symbol>, places: seq<Place>, m: Model, h: History, lo: nat,
        hi: nat, node: nat, total: nat, sum: int)
    requires Stands(a, places, m) && h in m && SumBelow(m[h].counts, 256) < BOTTOM
    requires 0 < node < |places| && places[node].Node? && Spanned(places[node]) && places[node].context == h
      && lo <= places[node].lo && places[node].hi == hi
    requires SumIs(m, h, total, lo, places[node].lo) && SumIs(m, h, sum, places[node].lo, places[node].value + 1)
    requires RedoneUpTo(a, b, c, places, h, Halved(m[h].counts), lo, places[node].value + 1, hi)
    requires a[node].right != 0
    ensures var n := node + a[node].right;
      Rescaling(a, b, c, places, m, h, lo, hi, n, total + sum) && places[node].lo < places[n].lo < hi
  {
    hide Stands, RedoneUpTo, Halved, Counts, SumBelow;
    var p := places[node];
    TreeNode(a, places, m, node);
    SumsAdd(m, h, lo, p.lo, p.value + 1, total, sum);
  }

  /** The setting in which the subtree at `node` is rescaled. */
  ghost predicate Halving(a: seq<Symbol>, b: seq<Symbol>, c: seq<Symbol>, places: seq<Place>, m: Model, h: History,
        lo: nat, hi: nat, node: nat, total: int) {
    && Stands(a, places, m) && h in m && SumBelow(m[h].counts, 256) < BOTTOM
    && Rescaling(a, b, c, places, m, h, lo, hi, node, total) && Untouched(a, b, places, h, lo, hi)
  }

  ghost function From(places: seq<Place>, node: nat): nat {
    if node < |places| && places[node].Node? then places[node].lo else 0
  }

  /** Entering a node: it is as it was, and so is what is below it. */
  lemma NodeStart(a: seq<Symbol>, b: seq<Symbol>, c: seq<Symbol>, places: seq<Place>, m: Model, h: History, lo: nat,
        hi: nat, node: nat, total: nat, t: Symbol)
    requires Halving(a, b, c, places, m, h, lo, hi, node, total)
    ensures 0 < node < |places| <= CAPACITY == |a| == |c| && c[node] == a[node] && places[node].Node?
    ensures a[node].left != 0 ==> var n := node + a[node].left;
      && 0 < n < |places| && Spanned(places[n]) && places[n].Node? && From(places, n) == places[n].lo
      && places[n] == Node(h, a[n].value, From(places, node), places[node].value) && places[node].value < hi
      && Untouched(a, c[node := t], places, h, From(places, node), places[node].value)
  {
    var p, halved := places[node], Halved(m[h].counts);
    TreeNode(a, places, m, node);
    StillUntouched(a, b, c, places, h, halved, lo, p.lo, p.hi, p.lo, p.hi);
    assert UntouchedAt(a[node], c[node], p, h, p.lo, p.hi);
    hide Stands, RedoneUpTo, Counts, SumBelow, Halved;
    forall k | 0 <= k < |places|
      ensures UntouchedAt(a[k], c[node := t][k], places[k], h, p.lo, p.value)
    {
      assert UntouchedAt(a[k], c[k], places[k], h, p.lo, p.hi);
    }
  }

  /** Leaving a node: its subtree's sum is known. */
  lemma NodeSum(a: seq<Symbol>, places: seq<Place>, m: Model, h: History, node: nat, t: Symbol, left: Half)
    requires Stands(a, places, m) && 0 < node < |places| && places[node].Node? && places[node].context == h && h in m
    requires SumBelow(m[h].counts, 256) < BOTTOM
    requires if a[node].left == 0 then left == 0 else SumIs(m, h, left, places[node].lo, places[node].value)
    requires t == Shrunk(a[node])
    ensures 0 <= t.under + left < BOTTOM && Redone(a[node], Grown(t, left), places[node], Halved(m[h].counts))
    ensures SumIs(m, h, t.under + left, places[node].lo, places[node].value + 1)
  {
    hide Stands, SumBelow, Halved, Counts;
    TreeNode(a, places, m, node);
    SmallSums(m[h].counts, places[node].lo, places[node].value + 1);
  }

  /** Leaving a node: it and what is left of it are done. */
  lemma NodeDone(a: seq<Symbol>, b: seq<Symbol>, c: seq<Symbol>, t: Symbol, d: seq<Symbol>, places: seq<Place>,
        m: Model, h: History, lo: nat, node: nat, total: nat, s: Symbol)
    requires Stands(a, places, m) && 0 < node < |places| && places[node].Node? && places[node].context == h && h in m
    requires Rescaling(a, b, c, places, m, h, lo, places[node].hi, node, total) && |c| == CAPACITY
    requires Spanned(places[node]) && Redone(a[node], s, places[node], Halved(m[h].counts))
    requires if a[node].left == 0 then d == c[node := t]
             else RedoneUpTo(a, c[node := t], d, places, h, Halved(m[h].counts), places[node].lo, places[node].value,
               places[node].value)
    ensures |d| == CAPACITY
    ensures RedoneUpTo(a, b, d[node := s], places, h, Halved(m[h].counts), lo, places[node].value + 1, places[node].hi)
  {
    var p, halved := places[node], Halved(m[h].counts);
    if a[node].left == 0 {
      NothingInside(a, c[node := t], places, m, halved, node);
    }
    Located(a, places, m, node);
    assert |d| == CAPACITY && lo <= p.lo && RedoneUpTo(a, b, c, places, h, halved, lo, p.lo, p.hi);
    hide *;
    RescaleTurns(a, b, c, t, d, places, m, halved, lo, node, s);
  }

  lemma NodeKept(a: seq<Symbol>, c: seq<Symbol>, d: seq<Symbol>, places: seq<Place>, h: History, halved: map<Byte, nat>,
        j: nat, t: Symbol)
    requires j < |places| <= |c| && places[j].Node? && Spanned(places[j])
    requires RedoneUpTo(a, c[j := t], d, places, h, halved, places[j].lo, places[j].value, places[j].value)
    ensures |d| == CAPACITY && d[j] == t
  {
    hide Redone;
    assert RedoneAt(a[j], c[j := t][j], d[j], places[j], h, halved, places[j].lo, places[j].value, places[j].value);
  }

  /** An empty left part has nothing to redo. */
  lemma NothingInside(a: seq<Symbol>, c: seq<Symbol>, places: seq<Place>, m: Model, halved: map<Byte, nat>, j: nat)
    requires Stands(a, places, m) && 0 < j < |places| && places[j].Node? && Spanned(places[j]) && a[j].left == 0
      && |c| == CAPACITY
    ensures |places| <= |a| == CAPACITY
    ensures RedoneUpTo(a, c, c, places, places[j].context, halved, places[j].lo, places[j].value, places[j].value)
  {
    Located(a, places, m, j);
    var p := places[j];
    hide Stands, Redone;
    forall k | 0 <= k < |places|
      ensures RedoneAt(a[k], c[k], c[k], places[k], p.context, halved, p.lo, p.value, p.value)
    {
      if k != j {
        Inner(a, places, m, j, k);
      }
    }
  }

  lemma LeftDone(a: seq<Symbol>, b: seq<Symbol>, c: seq<Symbol>, t: Symbol, d: seq<Symbol>, places: seq<Place>,
        m: Model, h: History, lo: nat, node: nat, total: nat, left: Half)
    requires Stands(a, places, m) && 0 < node < |places| && places[node].Node? && places[node].context == h && h in m
    requires SumBelow(m[h].counts, 256) < BOTTOM && |c| == CAPACITY
    requires Rescaling(a, b, c, places, m, h, lo, places[node].hi, node, total)
    requires if a[node].left == 0 then d == c[node := t] && left == 0
             else TreeRescaled(a, c[node := t], d, places, m, h, places[node].lo, places[node].value, left)
    requires t == Shrunk(a[node])
    ensures |d| == CAPACITY && d[node] == t && 0 <= t.under + left < BOTTOM
    ensures RedoneUpTo(a, b, d[node := Grown(t, left)], places, h, Halved(m[h].counts), lo, places[node].value + 1,
      places[node].hi)
    ensures SumIs(m, h, t.under + left, places[node].lo, places[node].value + 1)
  {
    Located(a, places, m, node);
    hide SumIs, RedoneUpTo, Stands, Counts, SumBelow, Halved, Rescaling, Redone, Spanned;
    NodeSum(a, places, m, h, node, t, left);
    if a[node].left != 0 {
      NodeKept(a, c, d, places, h, Halved(m[h].counts), node, t);
    }
    NodeDone(a, b, c, t, d, places, m, h, lo, node, total, Grown(t, left));
  }

  /** Past `node`: either the whole subtree is done or its right child is next. */
  ghost predicate SpineAt(a: seq<Symbol>, b: seq<Symbol>, c: seq<Symbol>, places: seq<Place>, m: Model, h: History,
        lo: nat, hi: nat, node: nat, right: nat, total: int)
  {
    if right == 0 then TreeRescaled(a, b, c, places, m, h, lo, hi, total)
    else
      && Rescaling(a, b, c, places, m, h, lo, hi, node + right, total)
      && node < |places| && places[node].Node? && places[node].lo < places[node + right].lo < hi
  }

  lemma SpineStep(a: seq<Symbol>, b: seq<Symbol>, c: seq<Symbol>, places: seq<Place>, m: Model, h: History, lo: nat,
        hi: nat, node: nat, total: nat, sum: int)
    requires Stands(a, places, m) && h in m && SumBelow(m[h].counts, 256) < BOTTOM
    requires 0 < node < |places| && places[node].Node? && Spanned(places[node]) && places[node].context == h
      && lo <= places[node].lo && places[node].hi == hi
    requires SumIs(m, h, total, lo, places[node].lo) && SumIs(m, h, sum, places[node].lo, places[node].value + 1)
    requires RedoneUpTo(a, b, c, places, h, Halved(m[h].counts), lo, places[node].value + 1, hi)
    ensures 0 <= total + sum < BOTTOM && SpineAt(a, b, c, places, m, h, lo, hi, node, a[node].right, total + sum)
  {
    SumsAdd(m, h, lo, places[node].lo, places[node].value + 1, total, sum);
    if a[node].right == 0 {
      SpineStop(a, b, c, places, m, h, lo, hi, node, total, sum);
    } else {
      SpineGo(a, b, c, places, m, h, lo, hi, node, total, sum);
    }
  }

  /** A node and its left subtree are done. */
  lemma NodeFinish(a: seq<Symbol>, b: seq<Symbol>, c: seq<Symbol>, t: Symbol, d: seq<Symbol>, places: seq<Place>,
        m: Model, h: History, lo: nat, hi: nat, node: nat, total: nat, left: Half)
    requires Halving(a, b, c, places, m, h, lo, hi, node, total) && places[node].Node? && node < |c| == |a| == CAPACITY
    requires t == Shrunk(a[node])
    requires if a[node].left == 0 then d == c[node := t] && left == 0
             else TreeRescaled(a, c[node := t], d, places, m, h, From(places, node), places[node].value, left)
    ensures |d| == CAPACITY && d[node] == t && 0 <= t.under + left < BOTTOM && 0 <= total + t.under + left < BOTTOM
    ensures SpineAt(a, b, d[node := Grown(t, left)], places, m, h, lo, hi, node, a[node].right, total + t.under + left)
  {
    hide Stands, SumBelow, Spanned, TreeRescaled, Untouched, RedoneUpTo, SumIs, SpineAt;
    LeftDone(a, b, c, t, d, places, m, h, lo, node, total, left);
    SpineStep(a, b, d[node := Grown(t, left)], places, m, h, lo, hi, node, total, t.under + left);
  }

  lemma SpineMeans(a: seq<Symbol>, b: seq<Symbol>, c: seq<Symbol>, c': seq<Symbol>, places: seq<Place>, m: Model,
        h: History, lo: nat, hi: nat, node: nat, right: nat, total: nat, total': nat)
    requires Halving(a, b, c, places, m, h, lo, hi, node, total)
    requires SpineAt(a, b, c', places, m, h, lo, hi, node, right, total')
    ensures right == 0 ==> TreeRescaled(a, b, c', places, m, h, lo, hi, total')
    ensures right != 0 ==>
      Halving(a, b, c', places, m, h, lo, hi, node + right, total') && From(places, node) < From(places, node + right)
  {
  }

  function Shrunk(s: Symbol): Symbol { s.(count := Halve(s.count), under := Halve(s.count)) }

  function Grown(s: Symbol, left: Half): Symbol
    requires s.under + left < BOTTOM
  {
    s.(under := s.under + left)
  }

  lemma ShrunkLinks(s: Symbol)
    ensures Shrunk(s).left == s.left && Shrunk(s).right == s.right
  {
  }

  lemma GrownLinks(s: Symbol, left: Half)
    requires s.under + left < BOTTOM
    ensures Grown(s, left).under == s.under + left && Grown(s, left).right == s.right
  {
  }

  lemma HalvingStart(a: seq<Symbol>, b: seq<Symbol>, places: seq<Place>, m: Model, h: History, lo: nat, hi: nat, j: nat)
    requires Stands(a, places, m) && 0 < j < |places| && places[j] == Node(h, a[j].value, lo, hi) && Spanned(places[j])
    requires h in m && SumBelow(m[h].counts, 256) < BOTTOM && Untouched(a, b, places, h, lo, hi)
    ensures Halving(a, b, b, places, m, h, lo, hi, j, 0) && lo < hi && From(places, j) == lo
  {
    hide Stands, Untouched, SumBelow, RedoneUpTo, Halved;
    Located(a, places, m, j);
    assert |b| == CAPACITY by { UntouchedSize(a, b, places, h, lo, hi); }
    RescaleStart(a, b, places, h, Halved(m[h].counts), lo, hi);
  }

  lemma UntouchedSize(a: seq<Symbol>, b: seq<Symbol>, places: seq<Place>, h: History, lo: nat, hi: nat)
    requires Untouched(a, b, places, h, lo, hi)
    ensures |places| <= |a| == |b| == CAPACITY
  {
  }

  lemma HalvingMeans(a: seq<Symbol>, b: seq<Symbol>, c: seq<Symbol>, places: seq<Place>, m: Model, h: History, lo: nat,
        hi: nat, node: nat, total: int)
    requires Halving(a, b, c, places, m, h, lo, hi, node, total)
    ensures 0 < node < |places| <= |a| == |c| == CAPACITY && places[node].Node? && lo <= From(places, node) < hi
    ensures Stands(a, places, m) && h in m && SumBelow(m[h].counts, 256) < BOTTOM
  {
    hide Stands, Untouched, SumBelow, Halved, SumIs;
    UntouchedSize(a, b, places, h, lo, hi);
  }

  // ---- A context's totals ----

  function WithTotals(s: Symbol, escapes: Half, total: Half): (r: Symbol)
    ensures r.parent == s.parent
  {
    s.(escapes := escapes, total := total)
  }

  predicate SameParents(a: seq<Symbol>, b: seq<Symbol>, n: nat) {
    n <= |a| && n <= |b| && forall k :: 0 <= k < n ==> b[k].parent == a[k].parent
  }

  lemma FineElsewhere(s: Symbol, places: seq<Place>, k: nat, m: Model, h: History, c: Context)
    requires k < |places| && Fine(s, places, k, m) && h in m && Key(places[k]) != h
    requires places[k].Node? && Spanned(places[k]) && places[k].context == h ==> c.counts == m[h].counts
    ensures Fine(s, places, k, m[h := c])
  {
  }

  lemma KeyLonger(p: Place)
    ensures p.Node? ==> Key(p) != p.context
  {
    if p.Node? {
      SnocLonger(p.context, p.value);
    }
  }

  lemma FineHead(s: Symbol, places: seq<Place>, k: nat, m: Model, h: History, escapes: Half, total: Half)
    requires k < |places| && Fine(s, places, k, m) && Key(places[k]) == h
    ensures h in m && Fine(WithTotals(s, escapes, total), places, k, m[h := Context(m[h].counts, escapes, total)])
  {
    KeyLonger(places[k]);
  }

  /** Changing a context's escapes and total. */
  lemma TotalsSet(a: seq<Symbol>, places: seq<Place>, m: Model, h: History, i: nat, escapes: Half, total: Half)
    requires Stands(a, places, m) && i < |places| && Key(places[i]) == h
    ensures h in m && |places| <= CAPACITY == |a|
    ensures Stands(a[i := WithTotals(a[i], escapes, total)], places, m[h := Context(m[h].counts, escapes, total)])
  {
    Located(a, places, m, i);
    var a', m' := a[i := WithTotals(a[i], escapes, total)], m[h := Context(m[h].counts, escapes, total)];
    FineHead(a[i], places, i, m, h, escapes, total);
    MapSize(m, h, m'[h]);
    hide *;
    forall k | 0 <= k < |places|
      ensures Fine(a'[k], places, k, m')
    {
      if k != i {
        Located(a, places, m, k);
        LaidAt(places, i, k);
        FineElsewhere(a[k], places, k, m, h, m'[h]);
      }
    }
    StandsWhen(a', places, m');
  }

  lemma MapSize(m: Model, h: History, c: Context)
    requires h in m
    ensures |m[h := c]| == |m|
  {
    assert m[h := c].Keys == m.Keys;
    assert |m[h := c].Keys| == |m[h := c]| && |m.Keys| == |m|;
  }

  /** A node of the rescaled context. */
  lemma FineRedone(s: Symbol, b: Symbol, s': Symbol, places: seq<Place>, k: nat, m: Model, h: History, c: Context)
    requires k < |places| && Fine(s, places, k, m) && h in m && Key(places[k]) != h && Spanned(places[k])
    requires c.counts == Halved(m[h].counts)
    requires RedoneAt(s, s, s', places[k], h, c.counts, 0, 256, 256)
    ensures Fine(s', places, k, m[h := c])
  {
    var p := places[k];
    if p.Node? && p.context == h {
      assert Redone(s, s', p, c.counts);
      assert CountOf(c.counts, p.value) == Halve(CountOf(m[h].counts, p.value));
      hide SumBelow, Halved;
      assert Counts(s', p, m[h := c]);
    }
  }

  lemma RescaledHead(s: Symbol, places: seq<Place>, k: nat, m: Model, h: History, total: Half)
    requires k < |places| && Fine(s, places, k, m) && Key(places[k]) == h && h in m
    requires total == SumBelow(Halved(m[h].counts), 256) && total + Halve(s.escapes) + Floor(h == [], 256) < BOTTOM
    ensures Fine(WithTotals(s, Halve(s.escapes), total + Halve(s.escapes) + Floor(h == [], 256)), places, k,
      m[h := Rescaled(m[h], h == [])])
  {
    KeyLonger(places[k]);
    hide SumBelow, Halved;
    assert m[h].counts == map[] ==> Halved(m[h].counts) == map[];
  }

  lemma RedoneElsewhere(a: seq<Symbol>, b: seq<Symbol>, places: seq<Place>, h: History, halved: map<Byte, nat>, i: nat)
    requires RedoneUpTo(a, a, b, places, h, halved, 0, 256, 256) && i < |places| && Key(places[i]) == h
    ensures b[i] == a[i] && |b| == CAPACITY && |places| <= |a| && SameParents(a, b, |places|)
  {
    KeyLonger(places[i]);
    assert RedoneAt(a[i], a[i], b[i], places[i], h, halved, 0, 256, 256);
    hide Key;
    forall k | 0 <= k < |places|
      ensures b[k].parent == a[k].parent
    {
      assert RedoneAt(a[k], a[k], b[k], places[k], h, halved, 0, 256, 256);
    }
  }

  lemma SumFromZero(counts: map<Byte, nat>)
    ensures SumBelow(counts, 0) == 0
  {
  }

  /** Rescaled totals fit. */
  lemma RescaledFits(m: Model, h: History, total: int)
    requires h in m && SumIs(m, h, total, 0, 256)
      && SumBelow(m[h].counts, 256) + m[h].escapes + Floor(h == [], 256) < BOTTOM
    ensures total + Halve(m[h].escapes) + Floor(h == [], 256) < BOTTOM
  {
    SumFromZero(Halved(m[h].counts));
    hide SumBelow;
    SumHalved(m[h].counts, 256);
  }

  lemma RescaledStands(a: seq<Symbol>, b: seq<Symbol>, places: seq<Place>, m: Model, h: History, i: nat, total: Half)
    requires Stands(a, places, m) && i < |places| && Key(places[i]) == h
    requires TreeRescaled(a, a, b, places, m, h, 0, 256, total)
      && total + Halve(a[i].escapes) + Floor(h == [], 256) < BOTTOM
    ensures |places| <= CAPACITY == |b| && b[i] == a[i] && SameParents(a, b, |places|)
    ensures var escapes := Halve(b[i].escapes);
      Stands(b[i := WithTotals(b[i], escapes, total + escapes + Floor(h == [], 256))], places,
        m[h := Rescaled(m[h], h == [])])
  {
    hide SumBelow, Stands, Halved, RedoneUpTo, SameParents;
    var c := Rescaled(m[h], h == []);
    Located(a, places, m, i);
    assert RedoneUpTo(a, a, b, places, h, c.counts, 0, 256, 256) && c.counts == Halved(m[h].counts);
    assert total == SumBelow(Halved(m[h].counts), 256) by { SumFromZero(Halved(m[h].counts)); }
    RedoneElsewhere(a, b, places, h, c.counts, i);
    var s := WithTotals(b[i], Halve(b[i].escapes), total + Halve(b[i].escapes) + Floor(h == [], 256));
    RescaledHead(a[i], places, i, m, h, total);
    MapSize(m, h, c);
    var b' := b[i := s];
    hide *;
    forall k | 0 <= k < |places|
      ensures Fine(b'[k], places, k, m[h := c])
    {
      if k != i {
        Located(a, places, m, k);
        LaidAt(places, i, k);
        RedoneNode(a, b, places, h, c.counts, k);
        FineRedone(a[k], a[k], b[k], places, k, m, h, c);
      }
    }
    StandsWhen(b', places, m[h := c]);
  }

  lemma RedoneNode(a: seq<Symbol>, b: seq<Symbol>, places: seq<Place>, h: History, halved: map<Byte, nat>, k: nat)
    requires RedoneUpTo(a, a, b, places, h, halved, 0, 256, 256) && k < |places|
    ensures RedoneAt(a[k], a[k], b[k], places[k], h, halved, 0, 256, 256)
  {
  }

  /** A context after coding `v`: first the value's place, then the totals, then perhaps a rescaling. */
  lemma TouchedModel(m: Model, h: History, v: Byte)
    requires h in m
    ensures var p, b := Placed(m, h, v), Bumped(m[h], h == [], v);
      && Context(p[h].counts, b.escapes, b.total) == b && p[h].escapes == m[h].escapes && p[h].total == m[h].total
      && (if NeedsRescale(Coded(m[h], h == [], v), b.total, h == [])
        then TouchAt(m, h, v) == p[h := b][h := Rescaled(b, h == [])]
          else TouchAt(m, h, v) == p[h := b])
  {
    SnocLonger(h, v);
    hide Rescaled;
  }

  /** Everything about a context that its accounting needs. */
  lemma AccountFits(m: Model, h: History, v: Byte)
    requires Sized(m) && h in m
    ensures var b, n := Bumped(m[h], h == [], v), CountOf(m[h].counts, v);
      && b.total < BOTTOM && b.escapes < BOTTOM && n + Delta(h == []) <= 0xFF && b.counts != map[]
      && SumBelow(b.counts, 256) + b.escapes + Floor(h == [], 256) < BOTTOM
  {
    assert Consistent(m[h], h == []) && Roomy(m[h], h == []);
    hide SumBelow;
    BumpedFits(m[h], h == [], v);
    assert v in Bumped(m[h], h == [], v).counts;
  }

  lemma TreeSum(a: seq<Symbol>, b: seq<Symbol>, places: seq<Place>, m: Model, h: History, total: int)
    requires h in m && SumBelow(m[h].counts, 256) + m[h].escapes + Floor(h == [], 256) < BOTTOM
    requires TreeRescaled(a, a, b, places, m, h, 0, 256, total)
    ensures total + Halve(m[h].escapes) + Floor(h == [], 256) < BOTTOM
  {
    hide SumBelow, RedoneUpTo, Halved;
    RescaledFits(m, h, total);
  }

  lemma ParentsKept(a: seq<Symbol>, b: seq<Symbol>, i: nat, s: Symbol, n: nat)
    requires SameParents(a, b, n) && i < n && s.parent == b[i].parent
    ensures SameParents(a, b[i := s], n)
  {
  }

  lemma ParentsChain(a: seq<Symbol>, b: seq<Symbol>, c: seq<Symbol>, n: nat)
    requires SameParents(a, b, n) && SameParents(b, c, n)
    ensures SameParents(a, c, n)
  {
  }

  /** The first node of a context's tree. */
  lemma TreeRoot(a: seq<Symbol>, places: seq<Place>, m: Model, i: nat)
    requires Stands(a, places, m) && i < |places| && a[i].symbols != 0
    ensures |places| <= CAPACITY == |a|
    ensures var j := i + a[i].symbols;
      && 0 < j < |places| && Spanned(places[j]) && places[j].Node? && a[j].value == places[j].value
      && places[j] == Node(Key(places[i]), places[j].value, 0, 256)
  {
    Located(a, places, m, i);
    Located(a, places, m, i + a[i].symbols);
  }

  lemma SelfUntouched(a: seq<Symbol>, places: seq<Place>, h: History, lo: nat, hi: nat)
    requires |places| <= |a| == CAPACITY
    ensures Untouched(a, a, places, h, lo, hi)
  {
  }

  class Table {
    const symbols: array<Symbol>
    var next: nat
    ghost var places: seq<Place>

    ghost predicate Stored(m: Model)
      reads this, symbols
    {
      next == |places| && Stands(symbols[..], places, m)
    }

    /** Halve the counts of the subtree at `j` and sum its nodes again; `a` is the table before. */
    method Rescale(j: nat, ghost a: seq<Symbol>, ghost m: Model, ghost h: History, ghost lo: nat, ghost hi: nat)
          returns (total: Half)
      requires Stands(a, places, m) && 0 < j < |places| && places[j] == Node(h, a[j].value, lo, hi)
        && Spanned(places[j])
      requires h in m && SumBelow(m[h].counts, 256) < BOTTOM && Untouched(a, symbols[..], places, h, lo, hi)
      modifies symbols
      ensures TreeRescaled(a, old(symbols[..]), symbols[..], places, m, h, lo, hi, total)
      decreases hi - lo, 1
    {
      hide *;
      ghost var ps, b := places, symbols[..];
      var node: nat := j;
      total := 0;
      HalvingStart(a, b, ps, m, h, lo, hi, j);
      while true
        invariant Halving(a, b, symbols[..], ps, m, h, lo, hi, node, total)
        decreases hi - From(ps, node)
      {
        ghost var c := symbols[..];
        HalvingMeans(a, b, c, ps, m, h, lo, hi, node, total);
        var sum, right := RescaleNode(node, a, m, b, h, lo, hi, total);
        SpineMeans(a, b, c, symbols[..], ps, m, h, lo, hi, node, right, total, total + sum);
        total := total + sum;
        if right == 0 { break; }
        node := node + right;
      }
    }

    /** One node of the right spine, with its left subtree. */
    method RescaleNode(node: nat, ghost a: seq<Symbol>, ghost m: Model, ghost b: seq<Symbol>, ghost h: History,
          ghost lo: nat, ghost hi: nat, ghost total: nat) returns (sum: Half, right: Half)
      requires Halving(a, b, symbols[..], places, m, h, lo, hi, node, total)
      modifies symbols
      ensures 0 <= total + sum < BOTTOM && SpineAt(a, b, symbols[..], places, m, h, lo, hi, node, right, total + sum)
      decreases hi - From(places, node), 0
    {
      hide *;
      ghost var ps, c := places, symbols[..];
      HalvingMeans(a, b, c, ps, m, h, lo, hi, node, total);
      ghost var t := Shrunk(symbols[node]);
      NodeStart(a, b, c, ps, m, h, lo, hi, node, total, t);
      ShrunkLinks(symbols[node]);
      symbols[node] := Shrunk(symbols[node]);
      assert symbols[..] == c[node := t];
      var left: Half := 0;
      if symbols[node].left != 0 {
        left := Rescale(node + symbols[node].left, a, m, h, From(ps, node), ps[node].value);
      }
      ghost var d := symbols[..];
      NodeFinish(a, b, c, t, d, ps, m, h, lo, hi, node, total, left);
      GrownLinks(t, left);
      symbols[node] := Grown(symbols[node], left);
      assert symbols[..] == d[node := Grown(t, left)];
      sum, right := symbols[node].under, symbols[node].right;
    }
  
    /** Halve a context's counts and escapes and sum its total again. */
    method RescaleContext(i: nat, root: bool, ghost m: Model, ghost h: History)
      requires Stands(symbols[..], places, m) && i < |places| && Key(places[i]) == h && (root <==> h == [])
      requires h in m && m[h].counts != map[] && SumBelow(m[h].counts, 256) + m[h].escapes + Floor(root, 256) < BOTTOM
      modifies symbols
      ensures Stands(symbols[..], places, m[h := Rescaled(m[h], root)])
      ensures SameParents(old(symbols[..]), symbols[..], |places|)
    {
      hide SumBelow, Stands, Halved, SameParents;
      ghost var ps, a := places, symbols[..];
      Located(a, ps, m, i);
      TreeRoot(a, ps, m, i);
      SelfUntouched(a, ps, h, 0, 256);
      assert symbols[i].escapes == m[h].escapes && symbols[i].symbols != 0;
      SmallSums(m[h].counts, 0, 256);
      hide *;
      var total: Half := 0;
      if symbols[i].symbols != 0 {
        total := Rescale(i + symbols[i].symbols, a, m, h, 0, 256);
      }
      TreeSum(a, symbols[..], ps, m, h, total);
      RescaledStands(a, symbols[..], ps, m, h, i, total);
      ghost var b := symbols[..];
      var escapes := Halve(symbols[i].escapes);
      symbols[i] := WithTotals(symbols[i], escapes, total + escapes + Floor(root, 256));
      assert symbols[..] == b[i := symbols[i]];
      ParentsKept(a, b, i, symbols[i], |ps|);
    }
  
    /** After `v` has its place in context `i`: escapes and totals move, and counts are rescaled in time. */
    method Account(i: nat, count: nat, root: bool, ghost m: Model, ghost h: History, ghost v: Byte)
      requires Sized(m) && h in m && Stands(symbols[..], places, Placed(m, h, v))
      requires i < |places| && Key(places[i]) == h && (root <==> h == []) && count == Coded(m[h], root, v)
      modifies symbols
      ensures Stands(symbols[..], places, TouchAt(m, h, v))
      ensures SameParents(old(symbols[..]), symbols[..], |places|)
    {
      hide SumBelow, Stands, SameParents, Rescaled, Placed, TouchAt, Sized;
      ghost var ps, a, b := places, symbols[..], Bumped(m[h], root, v);
      AccountFits(m, h, v);
      TouchedModel(m, h, v);
      Located(a, ps, Placed(m, h, v), i);
      TotalsSet(a, ps, Placed(m, h, v), h, i, b.escapes, b.total);
      var extra := if count <= 0 then SUBESCAPE_DELTA else 0;
      var escapes, total := symbols[i].escapes + extra, symbols[i].total + extra + Delta(root);
      assert escapes == b.escapes && total == b.total;
      var scale := NeedsRescale(count, total, root);
      hide *;
      symbols[i] := WithTotals(symbols[i], escapes, total);
      assert symbols[..] == a[i := symbols[i]];
      ghost var c := symbols[..];
      ParentsKept(a, a, i, symbols[i], |ps|);
      if scale {
        RescaleContext(i, root, Placed(m, h, v)[h := b], h);
        ParentsChain(a, c, symbols[..], |ps|);
      }
    }
  }
}
