/**
 * The symbol table as it lies in memory: one binary search tree per context, linked by
 * relative offsets, every node holding its count and the counts of its left subtree.
 */
module SymbolTree {
  import opened Numbers
  import opened RangeCoder
  import opened Ppm

  /** A 16-bit field. */
  type Half = x: nat | x < BOTTOM

  datatype Symbol = Symbol(value: Byte, count: Byte, under: Half, left: Half, right: Half,
                           symbols: Half, escapes: Half, total: Half, parent: Half)

  function Blank(value: Byte, count: Byte): Symbol { Symbol(value, count, count, 0, 0, 0, 0, 0, 0) }

  /** Where a symbol stands: the context it belongs to, its value, and the values its subtree may hold. */
  datatype Place = Root | Node(context: History, value: Byte, lo: nat, hi: nat)

  /** The context a symbol defines. */
  function Key(p: Place): History { if p.Root? then [] else p.context + [p.value] }

  /** `q`'s values lie on one side of `p`'s value, inside `p`'s. */
  predicate Under(p: Place, q: Place)
    requires p.Node? && q.Node?
  {
    (p.lo <= q.lo && q.hi <= p.value) || (p.value < q.lo && q.hi <= p.hi)
  }

  predicate Apart(p: Place, q: Place) {
    p.Node? && q.Node? && p.context == q.context ==> p.hi <= q.lo || q.hi <= p.lo || Under(p, q) || Under(q, p)
  }

  predicate Spanned(p: Place) { p.Node? ==> p.lo <= p.value < p.hi <= 256 }

  ghost predicate Laid(places: seq<Place>) {
    && 0 < |places| <= CAPACITY && places[0].Root?
    && (forall i :: 0 < i < |places| ==> places[i].Node?)
    && (forall i :: 0 <= i < |places| ==> Spanned(places[i]))
    && (forall i, j :: 0 <= i < |places| && 0 <= j < |places| && i != j ==> Apart(places[i], places[j]))
  }

  predicate Child(places: seq<Place>, i: nat, h: History, lo: nat, hi: nat) {
    i < |places| && places[i].Node? && places[i].context == h && places[i].lo == lo && places[i].hi == hi
  }

  /** The offsets of a symbol lead to the symbols they should. */
  predicate Linked(s: Symbol, places: seq<Place>, i: nat)
    requires i < |places|
  {
    var p := places[i];
    && (s.symbols != 0 ==> Child(places, i + s.symbols, Key(p), 0, 256))
    && (p.Node? ==>
          && s.value == p.value
          && (s.left != 0 ==> Child(places, i + s.left, p.context, p.lo, p.value))
          && (s.right != 0 ==> Child(places, i + s.right, p.context, p.value + 1, p.hi)))
  }

  ghost predicate NoneIn(counts: map<Byte, nat>, lo: nat, hi: nat) { forall w: Byte :: lo <= w < hi ==> w !in counts }

  /** A tree node holds its value's count and, in `under`, also everything to its left. */
  ghost predicate Counts(s: Symbol, p: Place, m: Model) {
    p.Node? && Spanned(p) ==>
      && p.context in m
      && var counts := m[p.context].counts;
      && p.value in counts && s.count == counts[p.value]
      && s.under == SumBelow(counts, p.value + 1) - SumBelow(counts, p.lo)
      && (s.left == 0 ==> NoneIn(counts, p.lo, p.value))
      && (s.right == 0 ==> NoneIn(counts, p.value + 1, p.hi))
  }

  /** A symbol carries the totals of the context it defines. */
  ghost predicate Heads(s: Symbol, p: Place, m: Model) {
    && Key(p) in m
    && s.escapes == m[Key(p)].escapes && s.total == m[Key(p)].total
    && (s.symbols == 0 ==> m[Key(p)].counts == map[])
  }

  /** The table and the model agree at one symbol. */
  ghost predicate Fine(s: Symbol, places: seq<Place>, i: nat, m: Model)
    requires i < |places|
  {
    Linked(s, places, i) && Counts(s, places[i], m) && Heads(s, places[i], m)
  }

  ghost predicate Stands(a: seq<Symbol>, places: seq<Place>, m: Model) {
    && |a| == CAPACITY && Laid(places) && |m| == |places|
    && (forall i :: 0 <= i < |places| ==> Linked(a[i], places, i))
    && (forall i :: 0 <= i < |places| ==> Counts(a[i], places[i], m))
    && (forall i :: 0 <= i < |places| ==> Heads(a[i], places[i], m))
  }

  lemma Located(a: seq<Symbol>, places: seq<Place>, m: Model, i: nat)
    requires Stands(a, places, m) && i < |places|
    ensures |a| == CAPACITY && |m| == |places| <= CAPACITY && Laid(places)
    ensures Spanned(places[i]) && Linked(a[i], places, i) && Counts(a[i], places[i], m) && Heads(a[i], places[i], m)
    ensures Fine(a[i], places, i, m)
    ensures i > 0 <==> places[i].Node?
  {
    hide Linked, Counts, Heads, Apart;
  }

  lemma LaidAt(places: seq<Place>, i: nat, j: nat)
    requires Laid(places) && i < |places| && j < |places| && i != j
    ensures Apart(places[i], places[j]) && Spanned(places[i]) && Spanned(places[j])
    ensures Key(places[i]) != Key(places[j])
    ensures i > 0 ==> places[i].Node?
    ensures j > 0 ==> places[j].Node?
  {
    var p, q := places[i], places[j];
    if p.Node? && q.Node? {
      SameLast(p.context, p.value, q.context, q.value);
    }
  }

  lemma {:induction false} SumNone(counts: map<Byte, nat>, lo: nat, hi: nat)
    requires lo <= hi <= 256 && NoneIn(counts, lo, hi)
    ensures SumBelow(counts, hi) == SumBelow(counts, lo)
  {
    if lo < hi {
      SumNone(counts, lo, hi - 1);
      var w: Byte := hi - 1;
      assert w !in counts;
    }
  }

  /** Sums in a consistent context fit the fields that hold them. */
  lemma NodeFits(s: Symbol, p: Place, m: Model)
    requires Steady(m) && p.Node? && Spanned(p) && Counts(s, p, m)
    ensures s.under <= SumBelow(m[p.context].counts, p.value + 1) <= TOTAL_LIMIT - Floor(p.context == [], 256)
    ensures s.count <= 0xFF - Delta(p.context == [])
    ensures s.under >= s.count > 0
    ensures s.under - s.count == SumBelow(m[p.context].counts, p.value) - SumBelow(m[p.context].counts, p.lo)
  {
    hide Indexed, PrefixClosed, NoneIn;
    var c := m[p.context];
    assert Consistent(c, p.context == []) && Roomy(c, p.context == []);
    SumMonotone(c.counts, p.value + 1, 256);
    SumMonotone(c.counts, p.lo, p.value);
  }

  // ---- One walk down a tree ----

  /** The nodes whose left part or own count includes `v`. */
  predicate OnPath(p: Place, h: History, v: Byte) { p.Node? && p.context == h && p.lo <= v <= p.value }

  predicate Wider(p: Place, width: nat) { p.Node? && Spanned(p) && p.hi - p.lo > width }

  predicate Added(s: Symbol, s': Symbol, d: nat) { s'.under == s.under + d && s' == s.(under := s'.under) }

  ghost predicate WalkedAt(s: Symbol, s': Symbol, p: Place, h: History, v: Byte, d: nat, width: nat) {
    if OnPath(p, h, v) && Wider(p, width) then Added(s, s', d) else s' == s
  }

  /** The nodes wider than `width` on the way to `v` have been passed. */
  ghost predicate Walked(a: seq<Symbol>, a': seq<Symbol>, places: seq<Place>, h: History, v: Byte, d: nat, width: nat) {
    && |places| <= |a| == |a'| == CAPACITY
    && (forall k :: 0 <= k < |places| ==> WalkedAt(a[k], a'[k], places[k], h, v, d, width))
  }

  predicate Covers(p: Place, h: History, v: Byte) { p.Node? && Spanned(p) && p.context == h && p.lo <= v < p.hi }

  lemma WalkStart(a: seq<Symbol>, places: seq<Place>, h: History, v: Byte, d: nat)
    requires |places| <= |a| == CAPACITY
    ensures Walked(a, a, places, h, v, d, 256)
  {
  }

  lemma WalkLeft(a: seq<Symbol>, a': seq<Symbol>, places: seq<Place>, h: History, v: Byte, d: nat, j: nat, s: Symbol)
    requires Laid(places) && j < |places| && Covers(places[j], h, v)
    requires Walked(a, a', places, h, v, d, places[j].hi - places[j].lo)
    requires v <= places[j].value && Added(a[j], s, d)
    ensures a'[j] == a[j]
    ensures Walked(a, a'[j := s], places, h, v, d, places[j].value - places[j].lo)
  {
    hide Laid;
    forall k | 0 <= k < |places|
      ensures WalkedAt(a[k], a'[j := s][k], places[k], h, v, d, places[j].value - places[j].lo)
    {
      if k != j {
        LaidAt(places, j, k);
      }
      assert WalkedAt(a[k], a'[k], places[k], h, v, d, places[j].hi - places[j].lo);
    }
    assert WalkedAt(a[j], a'[j], places[j], h, v, d, places[j].hi - places[j].lo);
  }

  lemma WalkRight(a: seq<Symbol>, a': seq<Symbol>, places: seq<Place>, h: History, v: Byte, d: nat, j: nat)
    requires Laid(places) && j < |places| && Covers(places[j], h, v)
    requires Walked(a, a', places, h, v, d, places[j].hi - places[j].lo)
    requires v > places[j].value
    ensures a'[j] == a[j]
    ensures Walked(a, a', places, h, v, d, places[j].hi - places[j].value - 1)
  {
    hide Laid;
    forall k | 0 <= k < |places|
      ensures WalkedAt(a[k], a'[k], places[k], h, v, d, places[j].hi - places[j].value - 1)
    {
      if k != j {
        LaidAt(places, j, k);
      }
      assert WalkedAt(a[k], a'[k], places[k], h, v, d, places[j].hi - places[j].lo);
    }
    assert WalkedAt(a[j], a'[j], places[j], h, v, d, places[j].hi - places[j].lo);
  }

  // ---- Finishing a walk ----

  /** The model once `v` is counted in `h`, before escapes and totals move. */
  function Placed(m: Model, h: History, v: Byte): (m': Model)
    requires h in m
    ensures m'.Keys == m.Keys + {h + [v]}
    ensures forall k :: k in m && k != h ==> m'[k] == m[k]
    ensures m'[h] == m[h].(counts := m'[h].counts)
    ensures m'[h].counts == m[h].counts[v := CountOf(m[h].counts, v) + Delta(h == [])]
    ensures h + [v] !in m ==> m'[h + [v]] == FRESH
  {
    var c := m[h];
    var m1 := m[h := c.(counts := c.counts[v := CountOf(c.counts, v) + Delta(h == [])])];
    if h + [v] in m then m1 else m1[h + [v] := FRESH]
  }

  lemma PlacedSize(m: Model, h: History, v: Byte)
    requires Indexed(m) && h in m
    ensures |Placed(m, h, v)| == |m| + if v in m[h].counts then 0 else 1
    ensures h + [v] in m <==> v in m[h].counts
  {
    var m' := Placed(m, h, v);
    hide Placed;
    assert |m'| == |m'.Keys| && |m| == |m.Keys|;
    if h + [v] in m {
      assert m'.Keys == m.Keys;
    }
  }

  /** A node after the walk, in the new model. */
  lemma CountsMove(s: Symbol, s': Symbol, p: Place, m: Model, h: History, v: Byte)
    requires h in m && p.Node? && Spanned(p) && Counts(s, p, m)
    requires var d := Delta(h == []);
      && s'.under == s.under + (if OnPath(p, h, v) then d else 0)
      && s'.count == s.count + (if p.context == h && p.value == v then d else 0)
    requires s'.left == s.left || (s.left == 0 && s'.left != 0)
    requires s'.right == s.right || (s.right == 0 && s'.right != 0)
    requires p.context == h && v !in m[h].counts && p.lo <= v < p.value ==> s'.left != 0
    requires p.context == h && v !in m[h].counts && p.value < v < p.hi ==> s'.right != 0
    ensures Counts(s', p, Placed(m, h, v))
  {
    hide Placed, SumBelow;
    var m' := Placed(m, h, v);
    if p.context == h {
      var counts := m[h].counts;
      var n := CountOf(counts, v) + Delta(h == []);
      SumSet(counts, v, n, p.value + 1);
      SumSet(counts, v, n, p.lo);
      assert v in counts || v != p.value;
    }
  }

  /** A context's totals are not touched by the walk. */
  lemma HeadsMove(s: Symbol, s': Symbol, p: Place, m: Model, h: History, v: Byte)
    requires h in m && Heads(s, p, m)
    requires s'.escapes == s.escapes && s'.total == s.total
    requires s'.symbols == s.symbols || s.symbols == 0
    requires Key(p) == h ==> s'.symbols != 0
    requires Key(p) != h ==> s'.symbols == s.symbols
    ensures Heads(s', p, Placed(m, h, v))
  {
    var m' := Placed(m, h, v);
    hide Placed;
  }

  /** Only one node can be missing `v`. */
  lemma OneGap(a: seq<Symbol>, places: seq<Place>, m: Model, h: History, v: Byte, j: nat, k: nat)
    requires Stands(a, places, m) && j < |places| && k < |places| && j != k
    requires Covers(places[j], h, v) && Covers(places[k], h, v) && v != places[j].value && v != places[k].value
    requires v < places[j].value ==> a[j].left == 0
    requires v > places[j].value ==> a[j].right == 0
    ensures v < places[k].value ==> a[k].left != 0
    ensures v > places[k].value ==> a[k].right != 0
    ensures v !in m[h].counts
  {
    Located(a, places, m, j);
    Located(a, places, m, k);
    LaidAt(places, j, k);
    hide Stands, Laid, SumBelow;
  }

  /** After a finished walk exactly the nodes on the path have moved. */
  lemma WalkedNode(a: seq<Symbol>, a': seq<Symbol>, places: seq<Place>, h: History, v: Byte, d: nat, width: nat, j: nat,
        k: nat)
    requires Laid(places) && j < |places| && k < |places| && Covers(places[j], h, v)
    requires Walked(a, a', places, h, v, d, width) && width < places[j].hi - places[j].lo
    requires Covers(places[k], h, v) && k != j ==> !Under(places[j], places[k])
    ensures if OnPath(places[k], h, v) then Added(a[k], a'[k], d) else a'[k] == a[k]
  {
    assert WalkedAt(a[k], a'[k], places[k], h, v, d, width);
    assert Spanned(places[k]);
    if k != j {
      LaidAt(places, j, k);
    }
  }

  /** The walk ended at a node with the value: its count goes up. */
  lemma WalkHit(a: seq<Symbol>, a': seq<Symbol>, places: seq<Place>, m: Model, h: History, v: Byte, i: nat, j: nat,
        s: Symbol)
    requires Stands(a, places, m) && Indexed(m) && i < |places| && Key(places[i]) == h && a[i].symbols != 0
    requires j < |places| && Covers(places[j], h, v) && places[j].value == v
    requires Walked(a, a', places, h, v, Delta(h == []), places[j].hi - places[j].lo)
    requires Incremented(a[j], s, Delta(h == []))
    ensures h in m && v in m[h].counts
    ensures Stands(a'[j := s], places, Placed(m, h, v))
  {
    var d := Delta(h == []);
    Located(a, places, m, j);
    Located(a, places, m, i);
    PlacedSize(m, h, v);
    var a2 := a'[j := s];
    hide *;
    forall k | 0 <= k < |places|
      ensures Fine(a2[k], places, k, Placed(m, h, v))
    {
      HitNode(a, a', places, m, h, v, i, j, s, k);
    }
    StandsWhen(a2, places, Placed(m, h, v));
  }

  predicate Incremented(s: Symbol, s': Symbol, d: nat) {
    s'.count == s.count + d && s'.under == s.under + d && s' == s.(count := s'.count, under := s'.under)
  }

  lemma StandsWhen(a: seq<Symbol>, places: seq<Place>, m: Model)
    requires |a| == CAPACITY && Laid(places) && |m| == |places|
    requires forall k :: 0 <= k < |places| <= CAPACITY ==> Fine(a[k], places, k, m)
    ensures Stands(a, places, m)
  {
    assert |places| <= CAPACITY;
    hide Linked, Counts, Heads, Laid;
    forall k | 0 <= k < |places|
      ensures Linked(a[k], places, k) && Counts(a[k], places[k], m) && Heads(a[k], places[k], m)
    {
      assert Fine(a[k], places, k, m);
    }
  }

  /** What a walk to `v` does to a symbol that was already there. */
  predicate Moved(s: Symbol, s': Symbol, p: Place, h: History, v: Byte, d: nat) {
    && s'.under == s.under + (if OnPath(p, h, v) then d else 0)
    && s'.count == s.count + (if p.Node? && p.context == h && p.value == v then d else 0)
    && s'.escapes == s.escapes && s'.total == s.total && s'.value == s.value && s'.parent == s.parent
  }

  lemma HitNode(a: seq<Symbol>, a': seq<Symbol>, places: seq<Place>, m: Model, h: History, v: Byte, i: nat, j: nat,
        s: Symbol, k: nat)
    requires Stands(a, places, m) && i < |places| && Key(places[i]) == h && a[i].symbols != 0 && h in m
    requires j < |places| && Covers(places[j], h, v) && places[j].value == v && v in m[h].counts
    requires Walked(a, a', places, h, v, Delta(h == []), places[j].hi - places[j].lo)
    requires Incremented(a[j], s, Delta(h == []))
    requires k < |places|
    ensures Fine(a'[j := s][k], places, k, Placed(m, h, v))
  {
    Located(a, places, m, k);
    if k != i {
      LaidAt(places, i, k);
    }
    HitMoved(a, a', places, h, v, Delta(h == []), j, s, k);
    LinkedSame(a[k], a'[j := s][k], places, k);
    hide *;
    FineMoves(a[k], a'[j := s][k], places, places, k, m, h, v);
  }

  lemma HitMoved(a: seq<Symbol>, a': seq<Symbol>, places: seq<Place>, h: History, v: Byte, d: nat, j: nat, s: Symbol,
        k: nat)
    requires Laid(places) && j < |places| && Covers(places[j], h, v) && places[j].value == v
    requires Walked(a, a', places, h, v, d, places[j].hi - places[j].lo)
    requires Incremented(a[j], s, d) && k < |places|
    ensures var s' := a'[j := s][k];
      Moved(a[k], s', places[k], h, v, d) && s'.left == a[k].left && s'.right == a[k].right
        && s'.symbols == a[k].symbols
  {
    if k != j {
      LaidAt(places, j, k);
      WalkLeft(a, a', places, h, v, d, j, a[j].(under := s.under));
      WalkedNode(a, a'[j := a[j].(under := s.under)], places, h, v, d, v - places[j].lo, j, k);
    }
  }

  lemma FineMoves(s: Symbol, s': Symbol, places: seq<Place>, places': seq<Place>, k: nat, m: Model, h: History, v: Byte)
    requires k < |places| <= |places'| && places'[k] == places[k] && Spanned(places[k])
    requires Fine(s, places, k, m) && h in m
    requires Moved(s, s', places[k], h, v, Delta(h == [])) && Linked(s', places', k)
    requires s'.left == s.left || (s.left == 0 && s'.left != 0)
    requires s'.right == s.right || (s.right == 0 && s'.right != 0)
    requires s'.symbols == s.symbols || (s.symbols == 0 && Key(places[k]) == h)
    requires Key(places[k]) == h ==> s'.symbols != 0
    requires Covers(places[k], h, v) && v !in m[h].counts && v < places[k].value ==> s'.left != 0
    requires Covers(places[k], h, v) && v !in m[h].counts && v > places[k].value ==> s'.right != 0
    ensures Fine(s', places', k, Placed(m, h, v))
  {
    hide Placed, SumBelow, Counts, Heads, OnPath;
    HeadsMove(s, s', places[k], m, h, v);
    if places[k].Node? {
      CountsMove(s, s', places[k], m, h, v);
    } else {
      RootCounts(s', places[k], Placed(m, h, v));
    }
  }

  lemma LinkedSame(s: Symbol, s': Symbol, places: seq<Place>, k: nat)
    requires k < |places| && Linked(s, places, k)
    requires s'.left == s.left && s'.right == s.right && s'.symbols == s.symbols && s'.value == s.value
    ensures Linked(s', places, k)
  {
  }

  lemma RootCounts(s: Symbol, p: Place, m: Model)
    requires p.Root?
    ensures Counts(s, p, m)
  {
  }

  // ---- A walk that ends at a gap ----

  /** Where the new symbol goes: below `j`, or first in its context. */
  datatype Gap = First(context: nat) | Left(node: nat) | Right(node: nat)

  /** The gap on the way to `v` in the context of symbol `i`. */
  ghost predicate IsGap(a: seq<Symbol>, places: seq<Place>, m: Model, h: History, v: Byte, g: Gap, i: nat) {
    && Stands(a, places, m) && i < |places| && |places| < CAPACITY && Key(places[i]) == h && h in m
    && match g
       case First(j) => j == i && a[i].symbols == 0
       case Left(j) => a[i].symbols != 0 && j < |places| && Covers(places[j], h, v) && v < places[j].value
         && a[j].left == 0
       case Right(j) =>
         a[i].symbols != 0 && j < |places| && Covers(places[j], h, v) && v > places[j].value && a[j].right == 0
  }

  function At(g: Gap): nat { if g.First? then g.context else g.node }

  function GapPlace(places: seq<Place>, h: History, v: Byte, g: Gap): Place
    requires At(g) < |places| && (!g.First? ==> places[At(g)].Node?)
  {
    match g
    case First(_) => Node(h, v, 0, 256)
    case Left(j) => Node(h, v, places[j].lo, places[j].value)
    case Right(j) => Node(h, v, places[j].value + 1, places[j].hi)
  }

  /** Link the symbol at the gap to a new one `offset` further on. */
  function Joined(s: Symbol, g: Gap, d: nat, offset: Half): Symbol
    requires g.Left? ==> s.under + d < BOTTOM
  {
    match g
    case First(_) => s.(symbols := offset)
    case Left(_) => s.(under := s.under + d, left := offset)
    case Right(_) => s.(right := offset)
  }

  lemma GapEmpty(a: seq<Symbol>, places: seq<Place>, m: Model, h: History, v: Byte, g: Gap, i: nat)
    requires IsGap(a, places, m, h, v, g, i)
    ensures v !in m[h].counts && Laid(places) && |a| == CAPACITY
    ensures !g.First? ==> places[At(g)].Node? && Spanned(places[At(g)])
    ensures Spanned(GapPlace(places, h, v, g)) && Key(GapPlace(places, h, v, g)) == h + [v]
    ensures NoneIn(m[h].counts, GapPlace(places, h, v, g).lo, GapPlace(places, h, v, g).hi)
  {
    Located(a, places, m, i);
    Located(a, places, m, At(g));
    hide Stands, Laid, Linked;
  }

  lemma GapApart(a: seq<Symbol>, places: seq<Place>, m: Model, h: History, v: Byte, g: Gap, i: nat, k: nat)
    requires IsGap(a, places, m, h, v, g, i) && k < |places|
    ensures !g.First? ==> places[At(g)].Node?
    ensures Apart(places[k], GapPlace(places, h, v, g)) && Apart(GapPlace(places, h, v, g), places[k])
    ensures !g.First? && Covers(places[k], h, v) && k != At(g) ==> !Under(places[At(g)], places[k])
    ensures Key(places[k]) == h ==> k == i
  {
    GapEmpty(a, places, m, h, v, g, i);
    Located(a, places, m, k);
    if k != i {
      LaidAt(places, i, k);
    }
    if k != At(g) {
      LaidAt(places, At(g), k);
    }
    hide Stands, Laid, Linked, Heads, Key, Counts;
    if k > 0 && places[k].context == h {
      NodeValue(a[k], places[k], m);
      if !g.First? {
        PlaceApart(places[At(g)], places[k], GapPlace(places, h, v, g), v, m[h].counts);
      }
    }
  }

  lemma NodeValue(s: Symbol, p: Place, m: Model)
    requires Counts(s, p, m) && Spanned(p) && p.Node?
    ensures p.context in m && p.value in m[p.context].counts
  {
  }

  /** Beside an empty half of `p`'s span, a symbol's span meets another's only by nesting. */
  lemma PlaceApart(p: Place, q: Place, n: Place, v: Byte, counts: map<Byte, nat>)
    requires p.Node? && q.Node? && n.Node? && Spanned(p) && Spanned(q) && Spanned(n) && (p == q || Apart(p, q))
    requires n.value == v && q.value in counts && NoneIn(counts, n.lo, n.hi) && p.context == q.context == n.context
    requires (n.lo == p.lo && n.hi == p.value) || (n.lo == p.value + 1 && n.hi == p.hi)
    ensures Apart(q, n) && Apart(n, q)
    ensures q.lo <= v < q.hi && p != q ==> !Under(p, q)
  {
    assert !(n.lo <= q.value < n.hi);
    hide NoneIn;
  }

  lemma GapLaid(a: seq<Symbol>, places: seq<Place>, m: Model, h: History, v: Byte, g: Gap, i: nat)
    requires IsGap(a, places, m, h, v, g, i)
    ensures !g.First? ==> places[At(g)].Node?
    ensures Laid(places + [GapPlace(places, h, v, g)])
  {
    GapEmpty(a, places, m, h, v, g, i);
    var p := GapPlace(places, h, v, g);
    hide IsGap, GapPlace, Stands, At, Key;
    forall k | 0 <= k < |places|
      ensures Apart(places[k], p) && Apart(p, places[k])
    {
      GapApart(a, places, m, h, v, g, i, k);
    }
    LaidMore(places, p);
  }

  lemma LaidMore(places: seq<Place>, p: Place)
    requires Laid(places) && |places| < CAPACITY && p.Node? && Spanned(p)
    requires forall k :: 0 <= k < |places| ==> Apart(places[k], p) && Apart(p, places[k])
    ensures Laid(places + [p])
  {
    hide Apart, Spanned;
  }

  /** The table after the walk stopped at a gap and a new symbol was linked in. */
  function Inserted(a': seq<Symbol>, n: nat, j: nat, s: Symbol, v: Byte, d: Byte): seq<Symbol>
    requires j < n < |a'|
  {
    a'[j := s][n := Blank(v, d)]
  }

  /** The width the walk has reached when it stops. */
  function GapWidth(places: seq<Place>, g: Gap): int
    requires At(g) < |places| && (!g.First? ==> places[At(g)].Node?)
  {
    if g.First? then 256 else places[At(g)].hi - places[At(g)].lo
  }

  lemma WalkGap(a: seq<Symbol>, a': seq<Symbol>, places: seq<Place>, m: Model, h: History, v: Byte, i: nat, g: Gap,
        s: Symbol)
    requires IsGap(a, places, m, h, v, g, i) && Indexed(m) && (!g.First? ==> places[At(g)].Node?)
    requires GapWidth(places, g) >= 0 && Walked(a, a', places, h, v, Delta(h == []), GapWidth(places, g))
    requires (g.Left? ==> a[At(g)].under + Delta(h == []) < BOTTOM)
      && s == Joined(a[At(g)], g, Delta(h == []), |places| - At(g))
    ensures v !in m[h].counts && h + [v] !in m
    ensures Stands(Inserted(a', |places|, At(g), s, v, Delta(h == [])), places + [GapPlace(places, h, v, g)],
      Placed(m, h, v))
  {
    hide *;
    var n, d := |places|, Delta(h == []);
    GapBasics(a, a', places, m, h, v, i, g);
    var a2, places', m' := Inserted(a', n, At(g), s, v, d), places + [GapPlace(places, h, v, g)], Placed(m, h, v);
    GapLaid(a, places, m, h, v, g, i);
    GapSizes(a, a', places, m, h, v, i, g, s);
    NewFine(places', m, h, v, n);
    forall k | 0 <= k < n + 1
      ensures Fine(a2[k], places', k, m')
    {
      if k < n {
        GapNode(a, a', places, m, h, v, i, g, s, k);
      }
    }
    StandsWhen(a2, places', m');
  }

  lemma GapBasics(a: seq<Symbol>, a': seq<Symbol>, places: seq<Place>, m: Model, h: History, v: Byte, i: nat, g: Gap)
    requires IsGap(a, places, m, h, v, g, i) && (!g.First? ==> places[At(g)].Node?)
    requires GapWidth(places, g) >= 0 && Walked(a, a', places, h, v, Delta(h == []), GapWidth(places, g))
    ensures h in m && At(g) < |places| < CAPACITY == |a'| == |a| && Delta(h == []) < 256
  {
    hide Stands;
    Located(a, places, m, i);
    hide Laid;
  }

  lemma GapSizes(a: seq<Symbol>, a': seq<Symbol>, places: seq<Place>, m: Model, h: History, v: Byte, i: nat, g: Gap,
        s: Symbol)
    requires IsGap(a, places, m, h, v, g, i) && Indexed(m) && (!g.First? ==> places[At(g)].Node?)
    requires GapWidth(places, g) >= 0 && Walked(a, a', places, h, v, Delta(h == []), GapWidth(places, g))
    ensures var n, p := |places|, GapPlace(places, h, v, g);
      var a2 := Inserted(a', n, At(g), s, v, Delta(h == []));
      && |a2| == CAPACITY && a2[n] == Blank(v, Delta(h == [])) && |Placed(m, h, v)| == n + 1
      && p.Node? && p.context == h && p.value == v && Spanned(p) && NoneIn(m[h].counts, p.lo, p.hi)
    ensures v !in m[h].counts && h + [v] !in m
  {
    hide Stands, Laid, Placed, NoneIn, Indexed, Walked, Covers, Spanned, Linked, Counts, Heads, Under;
    GapEmpty(a, places, m, h, v, g, i);
    Located(a, places, m, i);
    PlacedSize(m, h, v);
    GapSize(a, a', places, h, v, g);
  }

  lemma GapSize(a: seq<Symbol>, a': seq<Symbol>, places: seq<Place>, h: History, v: Byte, g: Gap)
    requires At(g) < |places| && (!g.First? ==> places[At(g)].Node?)
    requires GapWidth(places, g) >= 0 && Walked(a, a', places, h, v, Delta(h == []), GapWidth(places, g))
    ensures |a'| == CAPACITY
  {
  }

  lemma NewFine(places: seq<Place>, m: Model, h: History, v: Byte, n: nat)
    requires h in m && v !in m[h].counts && h + [v] !in m && n < |places| && places[n].Node?
    requires places[n].context == h && places[n].value == v && Spanned(places[n])
    requires NoneIn(m[h].counts, places[n].lo, places[n].hi)
    ensures Fine(Blank(v, Delta(h == [])), places, n, Placed(m, h, v))
  {
    var p, counts := places[n], Placed(m, h, v)[h].counts;
    hide Placed;
    SumNone(m[h].counts, p.lo, v);
    SumSet(m[h].counts, v, Delta(h == []), p.lo);
    SumSet(m[h].counts, v, Delta(h == []), v + 1);
    assert Counts(Blank(v, Delta(h == [])), p, Placed(m, h, v));
  }

  lemma GapNode(a: seq<Symbol>, a': seq<Symbol>, places: seq<Place>, m: Model, h: History, v: Byte, i: nat, g: Gap,
        s: Symbol, k: nat)
    requires IsGap(a, places, m, h, v, g, i) && (!g.First? ==> places[At(g)].Node?)
    requires GapWidth(places, g) >= 0 && Walked(a, a', places, h, v, Delta(h == []), GapWidth(places, g))
    requires (g.Left? ==> a[At(g)].under + Delta(h == []) < BOTTOM)
      && s == Joined(a[At(g)], g, Delta(h == []), |places| - At(g))
    requires k < |places|
    ensures Fine(Inserted(a', |places|, At(g), s, v, Delta(h == []))[k], places + [GapPlace(places, h, v, g)], k,
      Placed(m, h, v))
  {
    var n, d := |places|, Delta(h == []);
    var s' := Inserted(a', n, At(g), s, v, d)[k];
    var places' := places + [GapPlace(places, h, v, g)];
    GapEmpty(a, places, m, h, v, g, i);
    Located(a, places, m, k);
    GapApart(a, places, m, h, v, g, i, k);
    GapMoved(a, a', places, m, h, v, i, g, s, k);
    GapLinked(a[k], s', places, h, v, g, k);
    GapWays(a, places, m, h, v, i, g, k, s');
    assert places'[k] == places[k];
    hide *;
    FineMoves(a[k], s', places, places', k, m, h, v);
  }

  /** Once joined, every symbol of the context has its way to `v`. */
  lemma GapWays(a: seq<Symbol>, places: seq<Place>, m: Model, h: History, v: Byte, i: nat, g: Gap, k: nat, s': Symbol)
    requires IsGap(a, places, m, h, v, g, i) && k < |places| && Joins(a[k], s', g, k, |places|)
    ensures s'.left == a[k].left || (a[k].left == 0 && s'.left != 0)
    ensures s'.right == a[k].right || (a[k].right == 0 && s'.right != 0)
    ensures s'.symbols == a[k].symbols || (a[k].symbols == 0 && Key(places[k]) == h)
    ensures Key(places[k]) == h ==> s'.symbols != 0
    ensures Covers(places[k], h, v) && v < places[k].value ==> s'.left != 0
    ensures Covers(places[k], h, v) && v > places[k].value ==> s'.right != 0
  {
    if k != At(g) {
      GapFull(a, places, m, h, v, i, g, k);
    } else {
      GapApart(a, places, m, h, v, g, i, k);
      GapEmpty(a, places, m, h, v, g, i);
      Located(a, places, m, k);
      if g.First? && Covers(places[k], h, v) {
        SnocLonger(places[k].context, places[k].value);
      }
    }
    hide Stands, Covers, Laid, Linked, Key;
  }

  lemma SnocLonger(h: History, v: Byte)
    ensures h + [v] != h
  {
    assert |h + [v]| == |h| + 1;
  }

  /** No other symbol of the context lacks a way to `v`. */
  lemma GapFull(a: seq<Symbol>, places: seq<Place>, m: Model, h: History, v: Byte, i: nat, g: Gap, k: nat)
    requires IsGap(a, places, m, h, v, g, i) && k < |places| && k != At(g)
    ensures Covers(places[k], h, v) ==> places[k].value != v && !g.First?
    ensures Covers(places[k], h, v) && v < places[k].value ==> a[k].left != 0
    ensures Covers(places[k], h, v) && v > places[k].value ==> a[k].right != 0
    ensures Key(places[k]) == h ==> a[k].symbols != 0
  {
    GapEmpty(a, places, m, h, v, g, i);
    GapApart(a, places, m, h, v, g, i, k);
    Located(a, places, m, k);
    Located(a, places, m, i);
    hide Stands, Laid, Linked, Counts, Walked, NoneIn, Under;
    if Covers(places[k], h, v) {
      NodeValue(a[k], places[k], m);
      if !g.First? {
        OneGap(a, places, m, h, v, At(g), k);
      }
    }
  }

  /** What linking does to a symbol's offsets. */
  predicate Joins(s: Symbol, s': Symbol, g: Gap, k: nat, n: nat)
    requires k < n
  {
    && s'.symbols == (if g == First(k) then n - k else s.symbols)
    && s'.left == (if g == Left(k) then n - k else s.left)
    && s'.right == (if g == Right(k) then n - k else s.right)
  }

  lemma GapMoved(a: seq<Symbol>, a': seq<Symbol>, places: seq<Place>, m: Model, h: History, v: Byte, i: nat, g: Gap,
        s: Symbol, k: nat)
    requires IsGap(a, places, m, h, v, g, i) && (!g.First? ==> places[At(g)].Node?)
    requires GapWidth(places, g) >= 0 && Walked(a, a', places, h, v, Delta(h == []), GapWidth(places, g))
    requires (g.Left? ==> a[At(g)].under + Delta(h == []) < BOTTOM)
      && s == Joined(a[At(g)], g, Delta(h == []), |places| - At(g))
    requires k < |places|
    ensures var s' := Inserted(a', |places|, At(g), s, v, Delta(h == []))[k];
      Moved(a[k], s', places[k], h, v, Delta(h == [])) && Joins(a[k], s', g, k, |places|)
  {
    var d, j := Delta(h == []), At(g);
    assert k != j ==> Inserted(a', |places|, j, s, v, d)[k] == a'[k];
    assert k == j ==> Inserted(a', |places|, j, s, v, d)[k] == s;
    hide *;
    if k != j {
      GapBeside(a, a', places, m, h, v, i, g, k);
    } else {
      GapHere(a, a', places, m, h, v, i, g, s);
    }
  }

  lemma GapBeside(a: seq<Symbol>, a': seq<Symbol>, places: seq<Place>, m: Model, h: History, v: Byte, i: nat, g: Gap,
        k: nat)
    requires IsGap(a, places, m, h, v, g, i) && (!g.First? ==> places[At(g)].Node?)
    requires GapWidth(places, g) >= 0 && Walked(a, a', places, h, v, Delta(h == []), GapWidth(places, g))
    requires k < |places| && k != At(g)
    ensures Moved(a[k], a'[k], places[k], h, v, Delta(h == [])) && Joins(a[k], a'[k], g, k, |places|)
  {
    var d, w := Delta(h == []), GapWidth(places, g);
    GapEmpty(a, places, m, h, v, g, i);
    Located(a, places, m, k);
    assert WalkedAt(a[k], a'[k], places[k], h, v, d, w);
    GapApart(a, places, m, h, v, g, i, k);
    GapFull(a, places, m, h, v, i, g, k);
    LaidAt(places, At(g), k);
    GapPassed(places, h, v, g, k);
    hide *;
    MovedPast(a[k], a'[k], places[k], h, v, d, w, g, k, |places|);
  }

  lemma GapHere(a: seq<Symbol>, a': seq<Symbol>, places: seq<Place>, m: Model, h: History, v: Byte, i: nat, g: Gap,
        s: Symbol)
    requires IsGap(a, places, m, h, v, g, i) && (!g.First? ==> places[At(g)].Node?)
    requires GapWidth(places, g) >= 0 && Walked(a, a', places, h, v, Delta(h == []), GapWidth(places, g))
    requires (g.Left? ==> a[At(g)].under + Delta(h == []) < BOTTOM)
      && s == Joined(a[At(g)], g, Delta(h == []), |places| - At(g))
    ensures Moved(a[At(g)], s, places[At(g)], h, v, Delta(h == [])) && Joins(a[At(g)], s, g, At(g), |places|)
  {
    hide Stands, Laid, Linked, Counts, Heads, NoneIn, Walked, Joined, Joins, Moved, GapPlace, Under, Apart, OnPath;
    var k, d := At(g), Delta(h == []);
    GapEmpty(a, places, m, h, v, g, i);
    Located(a, places, m, k);
    if g.First? && places[k].Node? {
      SnocLonger(places[k].context, places[k].value);
    }
    MovedHere(a[k], s, places[k], h, v, d, g, k, |places|);
  }

  lemma GapPassed(places: seq<Place>, h: History, v: Byte, g: Gap, k: nat)
    requires At(g) < |places| && k < |places| && k != At(g) && Spanned(places[k])
    requires !g.First? ==> Covers(places[At(g)], h, v) && places[At(g)].value != v && Apart(places[At(g)], places[k])
    requires Covers(places[k], h, v) ==> places[k].value != v && !g.First? && !Under(places[At(g)], places[k])
    ensures OnPath(places[k], h, v) ==> Wider(places[k], GapWidth(places, g)) && places[k].value != v
    ensures places[k].Node? && places[k].context == h ==> places[k].value != v
  {
  }

  lemma MovedPast(s: Symbol, s': Symbol, p: Place, h: History, v: Byte, d: nat, w: nat, g: Gap, k: nat, n: nat)
    requires WalkedAt(s, s', p, h, v, d, w) && k < n && k != At(g)
    requires OnPath(p, h, v) ==> Wider(p, w)
    requires p.Node? && p.context == h ==> p.value != v
    ensures Moved(s, s', p, h, v, d) && Joins(s, s', g, k, n)
  {
  }

  lemma MovedHere(s: Symbol, s': Symbol, p: Place, h: History, v: Byte, d: nat, g: Gap, k: nat, n: nat)
    requires k < n < BOTTOM && k == At(g) && (g.Left? ==> s.under + d < BOTTOM) && s' == Joined(s, g, d, n - k)
    requires match g
      case First(_) => !(p.Node? && p.context == h)
      case Left(_) => Covers(p, h, v) && v < p.value
      case Right(_) => Covers(p, h, v) && v > p.value
    ensures Moved(s, s', p, h, v, d) && Joins(s, s', g, k, n)
  {
  }

  lemma GapLinked(s: Symbol, s': Symbol, places: seq<Place>, h: History, v: Byte, g: Gap, k: nat)
    requires k < |places| && Linked(s, places, k) && At(g) < |places| && (!g.First? ==> places[At(g)].Node?)
    requires s'.value == s.value && Joins(s, s', g, k, |places|)
    requires if g.First? then k == At(g) ==> Key(places[k]) == h else places[At(g)].context == h
    ensures Linked(s', places + [GapPlace(places, h, v, g)], k)
  {
  }
}
