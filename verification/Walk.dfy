/** Walking a context's tree: by value when coding, by slot number when decoding. */
module Walk {
  import opened Numbers
  import opened RangeCoder
  import opened Ppm
  import opened SymbolTree
  import opened SymbolTable

  /** On the way to `v` at `node`, having passed on the left the values that sum to `passed`. */
  ghost predicate Walking(a: seq<Symbol>, b: seq<Symbol>, places: seq<Place>, m: Model, h: History, v: Byte, i: nat,
        node: nat, passed: int) {
    && Stands(a, places, m) && Steady(m) && i < |places| && Key(places[i]) == h && h in m && a[i].symbols != 0
    && 0 < node < |places| && Covers(places[node], h, v)
    && Walked(a, b, places, h, v, Delta(h == []), places[node].hi - places[node].lo)
    && passed == SumBelow(m[h].counts, places[node].lo)
  }

  ghost function Width(places: seq<Place>, node: nat): nat {
    if node < |places| && places[node].Node? && Spanned(places[node]) then places[node].hi - places[node].lo else 0
  }

  /** `v` has its place in context `h`, at `symbol`. */
  ghost predicate PlacedIn(a: seq<Symbol>, b: seq<Symbol>, places: seq<Place>, places': seq<Place>, m: Model,
        h: History, v: Byte, symbol: nat) {
    && h in m && Stands(b, places', Placed(m, h, v)) && SameParents(a, b, |places|)
    && symbol < |places'| && Key(places'[symbol]) == h + [v]
    && (if v in m[h].counts then places' == places
        else
          && |places'| == |places| + 1 && places'[..|places|] == places
          && symbol == |places| < |b| && b[symbol].parent == 0)
  }

  lemma WalkBegin(a: seq<Symbol>, places: seq<Place>, m: Model, h: History, v: Byte, i: nat)
    requires Stands(a, places, m) && Steady(m) && i < |places| && Key(places[i]) == h && a[i].symbols != 0
    ensures Walking(a, a, places, m, h, v, i, i + a[i].symbols, 0)
  {
    Located(a, places, m, i);
    TreeRoot(a, places, m, i);
    WalkStart(a, places, h, v, Delta(h == []));
    hide Stands, Laid, Linked, Counts, Steady, Walked;
  }

  /** What is known at a node. */
  lemma WalkAt(a: seq<Symbol>, b: seq<Symbol>, places: seq<Place>, m: Model, h: History, v: Byte, i: nat, node: nat,
        passed: int)
    requires Walking(a, b, places, m, h, v, i, node, passed)
    ensures node < |places| <= |a| == |b| == CAPACITY && h in m
    ensures var s := b[node];
      && s == a[node] && s.under + 3 < BOTTOM && s.count + Delta(h == []) < 256 && s.under >= s.count > 0
      && passed + s.under == SumBelow(m[h].counts, s.value + 1)
      && passed + s.under - s.count == SumBelow(m[h].counts, s.value)
      && s.value in m[h].counts && s.count == m[h].counts[s.value]
      && (s.left == 0 ==>
        v < s.value ==> v !in m[h].counts && SumBelow(m[h].counts, s.value) == SumBelow(m[h].counts, v) == passed)
      && (s.right == 0 ==>
        v > s.value ==> v !in m[h].counts && SumBelow(m[h].counts, v) == SumBelow(m[h].counts, s.value + 1))
  {
    hide SumBelow, Stands, Laid, Walked, Steady;
    var p := places[node];
    Located(a, places, m, node);
    NodeFits(a[node], p, m);
    WalkLinks(a, b, places, m, h, v, i, node, passed);
    SumNext(m[h].counts, p.value);
    if a[node].left == 0 && v < p.value {
      SumNone(m[h].counts, p.lo, v);
      SumNone(m[h].counts, v, p.value);
    }
    if a[node].right == 0 && v > p.value {
      SumNone(m[h].counts, p.value + 1, v);
    }
  }

  lemma SumNext(counts: map<Byte, nat>, v: Byte)
    ensures SumBelow(counts, v + 1) == SumBelow(counts, v) + CountOf(counts, v)
  {
  }

  /** Where a node's offsets lead. */
  lemma WalkLinks(a: seq<Symbol>, b: seq<Symbol>, places: seq<Place>, m: Model, h: History, v: Byte, i: nat, node: nat,
        passed: int)
    requires Walking(a, b, places, m, h, v, i, node, passed)
    ensures 0 < node < |places| <= |a| == |b| == CAPACITY && Laid(places) && b[node] == a[node] && places[node].Node?
      && Spanned(places[node])
    ensures a[node].value == places[node].value && places[node].context == h && places[node].lo <= v < places[node].hi
    ensures Width(places, node) == places[node].hi - places[node].lo
    ensures var p, s := places[node], b[node];
      && (s.left != 0 ==> Child(places, node + s.left, h, p.lo, p.value) && Spanned(places[node + s.left]))
      && (s.right != 0 ==> Child(places, node + s.right, h, p.value + 1, p.hi) && Spanned(places[node + s.right]))
  {
    hide SumBelow, Steady, Stands, Laid, Counts, Heads, Walked;
    Located(a, places, m, node);
    NotYet(a, b, places, h, v, Delta(h == []), node);
    if a[node].left != 0 {
      Located(a, places, m, node + a[node].left);
    }
    if a[node].right != 0 {
      Located(a, places, m, node + a[node].right);
    }
  }

  /** The node a walk has reached is as it was. */
  lemma NotYet(a: seq<Symbol>, b: seq<Symbol>, places: seq<Place>, h: History, v: Byte, d: nat, node: nat)
    requires node < |places| && places[node].Node? && places[node].lo <= places[node].hi
    requires Walked(a, b, places, h, v, d, places[node].hi - places[node].lo)
    ensures |a| == |b| == CAPACITY && |places| <= |a| && b[node] == a[node]
  {
    assert WalkedAt(a[node], b[node], places[node], h, v, d, places[node].hi - places[node].lo);
  }

  lemma GoLeft(a: seq<Symbol>, b: seq<Symbol>, places: seq<Place>, m: Model, h: History, v: Byte, i: nat, node: nat,
        passed: int)
    requires Walking(a, b, places, m, h, v, i, node, passed) && node < |b| && v < b[node].value && b[node].left != 0
    requires b[node].under + Delta(h == []) < BOTTOM
    ensures Walking(a, b[node := Grown(b[node], Delta(h == []))], places, m, h, v, i, node + b[node].left, passed)
    ensures Width(places, node + b[node].left) < Width(places, node)
  {
    hide SumBelow, Steady, Stands, Laid, Walked, Spanned;
    WalkLinks(a, b, places, m, h, v, i, node, passed);
    WalkLeft(a, b, places, h, v, Delta(h == []), node, Grown(b[node], Delta(h == [])));
    ChildWidth(places, node);
    ChildWidth(places, node + b[node].left);
  }

  lemma ChildWidth(places: seq<Place>, n: nat)
    requires n < |places| && places[n].Node? && Spanned(places[n])
    ensures Width(places, n) == places[n].hi - places[n].lo
    ensures places[n].lo <= places[n].value < places[n].hi <= 256
  {
  }

  lemma GoRight(a: seq<Symbol>, b: seq<Symbol>, places: seq<Place>, m: Model, h: History, v: Byte, i: nat, node: nat,
        passed: int)
    requires Walking(a, b, places, m, h, v, i, node, passed) && node < |b| && v > b[node].value && b[node].right != 0
    ensures Walking(a, b, places, m, h, v, i, node + b[node].right, passed + b[node].under)
    ensures Width(places, node + b[node].right) < Width(places, node)
  {
    hide SumBelow, Steady, Stands, Laid, Walked, Spanned;
    WalkLinks(a, b, places, m, h, v, i, node, passed);
    WalkAt(a, b, places, m, h, v, i, node, passed);
    WalkRight(a, b, places, h, v, Delta(h == []), node);
    ChildWidth(places, node);
    ChildWidth(places, node + b[node].right);
  }

  /** A node counting its value once more. */
  function Counted(s: Symbol, d: nat): Symbol
    requires s.count + d < 256 && s.under + d < BOTTOM
  {
    s.(under := s.under + d, count := s.count + d)
  }

  lemma Found(a: seq<Symbol>, b: seq<Symbol>, places: seq<Place>, m: Model, h: History, v: Byte, i: nat, node: nat,
        passed: int)
    requires Walking(a, b, places, m, h, v, i, node, passed) && node < |b| && b[node].value == v
    requires b[node].count + Delta(h == []) < 256 && b[node].under + Delta(h == []) < BOTTOM
    ensures PlacedIn(a, b[node := Counted(b[node], Delta(h == []))], places, places, m, h, v, node)
  {
    hide SumBelow, Stands, Walked, SameParents, Laid, Placed, Counted, PlacedIn, Steady, Width;
    var d, p, s := Delta(h == []), places[node], Counted(b[node], Delta(h == []));
    WalkLinks(a, b, places, m, h, v, i, node, passed);
    CountedIs(b[node], d);
    assert Stands(a, places, m) && Indexed(m) && i < |places| && Key(places[i]) == h && a[i].symbols != 0
           && Walked(a, b, places, h, v, d, p.hi - p.lo) && Covers(p, h, v) by { SteadyMeans(m); }
    hide *;
    WalkParents(a, b, places, h, v, d, p.hi - p.lo);
    ParentsKept(a, b, node, s, |places|);
    WalkHit(a, b, places, m, h, v, i, node, s);
    PlacedOld(a, b[node := s], places, m, h, v, node);
  }

  lemma PlacedOld(a: seq<Symbol>, b: seq<Symbol>, places: seq<Place>, m: Model, h: History, v: Byte, node: nat)
    requires h in m && v in m[h].counts && Stands(b, places, Placed(m, h, v)) && SameParents(a, b, |places|)
    requires node < |places| && Covers(places[node], h, v) && places[node].value == v
    ensures PlacedIn(a, b, places, places, m, h, v, node)
  {
    hide Stands, SameParents, Placed;
  }

  lemma PlacedNew(a: seq<Symbol>, b: seq<Symbol>, places: seq<Place>, p: Place, m: Model, h: History, v: Byte)
    requires h in m && v !in m[h].counts && Stands(b, places + [p], Placed(m, h, v)) && SameParents(a, b, |places|)
    requires Key(p) == h + [v] && |places| < |b| && b[|places|].parent == 0
    ensures PlacedIn(a, b, places, places + [p], m, h, v, |places|)
  {
    hide Stands, SameParents, Placed, Key;
  }

  lemma SteadyMeans(m: Model)
    requires Steady(m)
    ensures Indexed(m) && Sized(m) && [] in m
  {
  }

  lemma CountedIs(s: Symbol, d: nat)
    requires s.count + d < 256 && s.under + d < BOTTOM
    ensures Incremented(s, Counted(s, d), d) && Counted(s, d).parent == s.parent
  {
  }

  lemma JoinedParent(s: Symbol, g: Gap, d: nat, offset: Half)
    requires g.Left? ==> s.under + d < BOTTOM
    ensures Joined(s, g, d, offset).parent == s.parent
  {
  }

  lemma WalkParents(a: seq<Symbol>, b: seq<Symbol>, places: seq<Place>, h: History, v: Byte, d: nat, width: nat)
    requires Walked(a, b, places, h, v, d, width)
    ensures SameParents(a, b, |places|)
  {
    forall k | 0 <= k < |places|
      ensures b[k].parent == a[k].parent
    {
      assert WalkedAt(a[k], b[k], places[k], h, v, d, width);
    }
  }

  lemma Stop(a: seq<Symbol>, b: seq<Symbol>, places: seq<Place>, m: Model, h: History, v: Byte, i: nat, g: Gap,
        passed: int, s: Symbol)
    requires |places| < CAPACITY && Steady(m) && At(g) < |b| == CAPACITY && At(g) < |places|
      && (g.Left? ==> b[At(g)].under + Delta(h == []) < BOTTOM)
    requires if g.First? then Stands(a, places, m) && b == a && At(g) == i && Key(places[i]) == h && a[i].symbols == 0
             else Walking(a, b, places, m, h, v, i, At(g), passed)
    requires g.Left? ==> v < b[At(g)].value && b[At(g)].left == 0
    requires g.Right? ==> v > b[At(g)].value && b[At(g)].right == 0
    requires s == Joined(b[At(g)], g, Delta(h == []), |places| - At(g))
    ensures !g.First? ==> places[At(g)].Node?
    ensures PlacedIn(a, Inserted(b, |places|, At(g), s, v, Delta(h == [])), places,
      places + [GapPlace(places, h, v, g)], m, h, v, |places|)
  {
    hide SumBelow, Stands, Walked, SameParents, Laid, Counts, Heads, Inserted, Placed, Linked, PlacedIn, Steady, Width,
      Joined, GapPlace;
    var n, d := |places|, Delta(h == []);
    if g.First? {
      WalkStart(a, places, h, v, d);
      SelfParents(a, n);
    } else {
      WalkLinks(a, b, places, m, h, v, i, At(g), passed);
      WalkParents(a, b, places, h, v, d, places[At(g)].hi - places[At(g)].lo);
    }
    SteadyMeans(m);
    HasContext(a, places, m, i);
    assert IsGap(a, places, m, h, v, g, i) && Walked(a, b, places, h, v, d, GapWidth(places, g));
    assert b[At(g)] == a[At(g)];
    assert GapWidth(places, g) >= 0;
    JoinedParent(b[At(g)], g, d, n - At(g));
    hide *;
    ParentsKept(a, b, At(g), s, n);
    InsertedParents(a, b, n, At(g), s, v, d);
    WalkGap(a, b, places, m, h, v, i, g, s);
    GapEmpty(a, places, m, h, v, g, i);
    PlacedNew(a, Inserted(b, n, At(g), s, v, d), places, GapPlace(places, h, v, g), m, h, v);
  }

  lemma HasContext(a: seq<Symbol>, places: seq<Place>, m: Model, i: nat)
    requires Stands(a, places, m) && i < |places|
    ensures Key(places[i]) in m
  {
    Located(a, places, m, i);
  }

  lemma SelfParents(a: seq<Symbol>, n: nat)
    requires n <= |a|
    ensures SameParents(a, a, n)
  {
  }

  lemma InsertedParents(a: seq<Symbol>, b: seq<Symbol>, n: nat, j: nat, s: Symbol, v: Byte, d: Byte)
    requires j < n < |b| && SameParents(a, b[j := s], n)
    ensures |Inserted(b, n, j, s, v, d)| == |b|
    ensures SameParents(a, Inserted(b, n, j, s, v, d), n) && Inserted(b, n, j, s, v, d)[n].parent == 0
  {
  }

  /** The table as the walks see it. */
  ghost predicate Open(t: Table, m: Model)
    reads t, t.symbols
  {
    t.Stored(m) && Steady(m)
  }

  /** Create a symbol for `v` and link it in at the gap. */
  method Create(t: Table, g: Gap, value: Byte, d: Byte, ghost p: Place) returns (symbol: nat)
    requires At(g) < t.next < t.symbols.Length == CAPACITY && (g.Left? ==> t.symbols[At(g)].under + d < BOTTOM)
    modifies t, t.symbols
    ensures symbol == old(t.next) && t.next == symbol + 1 && t.places == old(t.places) + [p]
    ensures t.symbols[..] ==
      Inserted(old(t.symbols[..]), symbol, At(g), Joined(old(t.symbols[At(g)]), g, d, symbol - At(g)), value, d)
  {
    ghost var b := t.symbols[..];
    symbol := t.next;
    t.symbols[symbol] := Blank(value, d);
    t.next := t.next + 1;
    t.places := t.places + [p];
    t.symbols[At(g)] := Joined(t.symbols[At(g)], g, d, symbol - At(g));
    assert t.symbols[..] == b[At(g) := Joined(b[At(g)], g, d, symbol - At(g))][symbol := Blank(value, d)];
  }

  lemma OpenMeans(t: Table, m: Model)
    requires Open(t, m)
    ensures t.next == |t.places| && Stands(t.symbols[..], t.places, m) && Steady(m)
      && |t.symbols[..]| == t.symbols.Length
  {
    hide Stands, Steady;
  }

  lemma GapNodes()
    ensures forall g :: At(g) == if g.First? then g.context else g.node
  {
  }

  /** Before the walk: the slots of `v` start at its own number in the root, at zero elsewhere. */
  lemma EncodeStart(a: seq<Symbol>, places: seq<Place>, m: Model, h: History, v: Byte, i: nat, root: bool)
    requires Stands(a, places, m) && i < |places| && Key(places[i]) == h && (root <==> h == [])
    ensures h in m && |places| <= CAPACITY == |a| && 0 < Delta(root) <= 3
    ensures v * Floor(root, 1) == Floor(root, v) && Floor(root, 1) + CountOf(m[h].counts, v) == Coded(m[h], root, v)
    ensures v in m[h].counts ==> CountOf(m[h].counts, v) == m[h].counts[v]
    ensures v !in m[h].counts ==> CountOf(m[h].counts, v) == 0
    ensures a[i].symbols == 0 ==> v !in m[h].counts && SumBelow(m[h].counts, v) == 0
  {
    hide SumBelow, Stands;
    Located(a, places, m, i);
    SumEmpty(v);
  }

  /** The walk stops at a gap: a new symbol goes there. */
  method AddAt(t: Table, g: Gap, value: Byte, update: Byte, ghost a: seq<Symbol>, ghost m: Model, ghost h: History,
        ghost i: nat, ghost passed: int)
    returns (symbol: nat)
    requires Steady(m) && update == Delta(h == []) && t.next == |t.places| < CAPACITY == t.symbols.Length
      && At(g) < |t.places|
    requires g.Left? ==>
      value < t.symbols[At(g)].value && t.symbols[At(g)].left == 0 && t.symbols[At(g)].under + update < BOTTOM
    requires g.Right? ==> value > t.symbols[At(g)].value && t.symbols[At(g)].right == 0
    requires if g.First?
      then Stands(a, t.places, m) && t.symbols[..] == a && At(g) == i && Key(t.places[i]) == h && a[i].symbols == 0
             else Walking(a, t.symbols[..], t.places, m, h, value, i, At(g), passed)
    modifies t, t.symbols
    ensures t.next == |t.places| && PlacedIn(a, t.symbols[..], old(t.places), t.places, m, h, value, symbol)
  {
    hide SumBelow, Stands, Steady, PlacedIn, Walking, Inserted, Joined, Delta, GapPlace, Placed;
    ghost var b, ps := t.symbols[..], t.places;
    Stop(a, b, ps, m, h, value, i, g, passed, Joined(b[At(g)], g, update, |ps| - At(g)));
    symbol := Create(t, g, value, update, GapPlace(ps, h, value, g));
  }

  /** The walk reached the value's own node. */
  method CountAt(t: Table, node: nat, update: Byte, ghost a: seq<Symbol>, ghost m: Model, ghost h: History,
        ghost v: Byte, ghost i: nat, ghost passed: int)
    requires Walking(a, t.symbols[..], t.places, m, h, v, i, node, passed) && update == Delta(h == [])
    requires node < t.symbols.Length && t.symbols[node].value == v
    requires t.symbols[node].count + update < 256 && t.symbols[node].under + update < BOTTOM
    modifies t.symbols
    ensures PlacedIn(a, t.symbols[..], t.places, t.places, m, h, v, node)
  {
    hide *;
    ghost var b := t.symbols[..];
    Found(a, b, t.places, m, h, v, i, node, passed);
    t.symbols[node] := Counted(t.symbols[node], update);
    assert t.symbols[..] == b[node := Counted(b[node], update)];
  }

  /** One node down to the left, counting what is there. */
  method StepLeft(t: Table, node: nat, update: Byte, ghost a: seq<Symbol>, ghost m: Model, ghost h: History,
        ghost v: Byte, ghost i: nat, ghost passed: int)
    returns (next: nat)
    requires Walking(a, t.symbols[..], t.places, m, h, v, i, node, passed) && update == Delta(h == [])
    requires node < t.symbols.Length && v < t.symbols[node].value && t.symbols[node].left != 0
      && t.symbols[node].under + update < BOTTOM
    modifies t.symbols
    ensures Walking(a, t.symbols[..], t.places, m, h, v, i, next, passed)
      && Width(t.places, next) < Width(t.places, node)
  {
    hide *;
    ghost var b := t.symbols[..];
    GoLeft(a, b, t.places, m, h, v, i, node, passed);
    next := node + t.symbols[node].left;
    t.symbols[node] := Grown(t.symbols[node], update);
    assert t.symbols[..] == b[node := Grown(b[node], update)];
  }

  /** Find `value` in context `i`, or make a place for it, counting it on the way. */
  method EncodeIn(t: Table, i: nat, value: Byte, root: bool, ghost m: Model, ghost h: History)
        returns (symbol: nat, under: nat, count: nat)
    requires Open(t, m) && i < |t.places| < CAPACITY && Key(t.places[i]) == h && (root <==> h == [])
    modifies t, t.symbols
    ensures t.next == |t.places|
      && PlacedIn(old(t.symbols[..]), t.symbols[..], old(t.places), t.places, m, h, value, symbol)
    ensures under == SumBelow(m[h].counts, value) + Floor(root, value) && count == Coded(m[h], root, value)
  {
    hide *;
    ghost var a, ps := t.symbols[..], t.places;
    var minimum, update := Floor(root, 1), Delta(root);
    under, count := value * minimum, minimum;
    OpenMeans(t, m);
    EncodeStart(a, ps, m, h, value, i, root);
    GapNodes();
    if t.symbols[i].symbols == 0 {
      symbol := AddAt(t, First(i), value, update, a, m, h, i, 0);
    } else {
      var node: nat := i + t.symbols[i].symbols;
      WalkBegin(a, ps, m, h, value, i);
      ghost var passed := 0;
      while true
        invariant t.places == ps && t.next == |ps| && Walking(a, t.symbols[..], ps, m, h, value, i, node, passed)
        invariant under == Floor(root, value) + passed
        decreases Width(ps, node)
      {
        WalkAt(a, t.symbols[..], ps, m, h, value, i, node, passed);
        if value < t.symbols[node].value {
          if t.symbols[node].left != 0 {
            node := StepLeft(t, node, update, a, m, h, value, i, passed);
            continue;
          }
          symbol := AddAt(t, Left(node), value, update, a, m, h, i, passed);
        } else if value > t.symbols[node].value {
          under := under + t.symbols[node].under;
          if t.symbols[node].right != 0 {
            GoRight(a, t.symbols[..], ps, m, h, value, i, node, passed);
            passed := passed + t.symbols[node].under;
            node := node + t.symbols[node].right;
            continue;
          }
          symbol := AddAt(t, Right(node), value, update, a, m, h, i, passed);
        } else {
          count := count + t.symbols[node].count;
          under := under + t.symbols[node].under - t.symbols[node].count;
          symbol := node;
          CountAt(t, node, update, a, m, h, value, i, passed);
        }
        break;
      }
    }
  }

  // ---- Decoding ----

  /** The slot number of `v` in its context, with the escapes taken off. */
  ghost predicate InSlot(m: Model, h: History, v: Byte, code: int) {
    && h in m && Coded(m[h], h == [], v) > 0
    && SumBelow(m[h].counts, v) + Floor(h == [], v) <= code < SumBelow(m[h].counts, v) + Floor(h == [], v) +
      Coded(m[h], h == [], v)
  }

  /** The bounds of a node's slots, as the decoder computes them. */
  function After(passed: int, s: Symbol, root: bool): int { passed + s.under + Floor(root, s.value + 1) }

  function Before(s: Symbol, root: bool): int { s.count + Floor(root, 1) }

  lemma SlotArithmetic(u: nat, v: nat, su: nat, cu: nat, sv: nat, cv: nat, root: bool, code: int)
    requires v < u ==> sv + cv <= su
    requires v > u ==> su + cu <= sv
    requires v == u ==> su == sv && cu == cv
    requires 0 < cu && sv + Floor(root, v) <= code < sv + Floor(root, v) + cv + Floor(root, 1)
    ensures var after, before := su + cu + Floor(root, u + 1), cu + Floor(root, 1);
      && (code >= after <==> v > u) && (code < after - before <==> v < u) && after - before == su + Floor(root, u)
      && (v > u && cv == 0 && sv == su + cu ==> root && code == sv + v && v == u + 1 + (code - after))
      && (v < u && cv == 0 && sv == su ==> root && code == sv + v && v == u - 1 - (after - before - code - 1))
  {
  }

  /** Comparing the slot number with a node's own slots is comparing the values. */
  lemma CompareSlots(a: seq<Symbol>, b: seq<Symbol>, places: seq<Place>, m: Model, h: History, v: Byte, i: nat,
        node: nat, passed: int, code: int)
    requires Walking(a, b, places, m, h, v, i, node, passed) && InSlot(m, h, v, code) && node < |b|
    ensures h in m
    ensures var s, root := b[node], h == [];
      var after, before := After(passed, s, root), Before(s, root);
      && (code >= after <==> v > s.value) && (code < after - before <==> v < s.value)
      && after - before == SumBelow(m[h].counts, s.value) + Floor(root, s.value)
      && (v > s.value && s.right == 0 ==>
        root && code == SumBelow(m[h].counts, v) + Floor(root, v) && v == s.value + 1 + (code - after))
      && (v < s.value && s.left == 0 ==>
        root && code == SumBelow(m[h].counts, v) + Floor(root, v) && v == s.value - 1 - (after - before - code - 1))
  {
    hide SumBelow, Walking;
    WalkAt(a, b, places, m, h, v, i, node, passed);
    var u, counts := b[node].value, m[h].counts;
    if v < u {
      SumMonotone(counts, v, u);
    } else if u < v {
      SumMonotone(counts, u, v);
    }
    SlotArithmetic(u, v, SumBelow(counts, u), b[node].count, SumBelow(counts, v), CountOf(counts, v), h == [], code);
  }

  /** The values the decoder's slot bounds take fit 16 bits. */
  lemma AfterFits(a: seq<Symbol>, b: seq<Symbol>, places: seq<Place>, m: Model, h: History, v: Byte, i: nat, node: nat,
        passed: int)
    requires Walking(a, b, places, m, h, v, i, node, passed) && node < |b|
    ensures 0 <= passed && After(passed, b[node], h == []) < BOTTOM && b[node].count <= 0xFF
  {
    hide SumBelow, Stands, Walked, Indexed, PrefixClosed, Laid;
    Located(a, places, m, node);
    WalkLinks(a, b, places, m, h, v, i, node, passed);
    WalkAt(a, b, places, m, h, v, i, node, passed);
    NodeFits(a[node], places[node], m);
  }

  /** At an empty context only the root can be decoded, and the slot number is the value. */
  lemma EmptySlot(m: Model, h: History, v: Byte, code: int)
    requires InSlot(m, h, v, code) && v !in m[h].counts && SumBelow(m[h].counts, v) == 0
    ensures h == [] && code == v == Floor(true, v) && Coded(m[h], true, v) == Floor(true, 1)
  {
    hide SumBelow;
  }

  /**
   * Find the value whose slots hold `code`. Only the root makes places for new values; elsewhere the
   * source gives up at a gap, which the slot number of a known value never reaches.
   */
  method DecodeIn(t: Table, i: nat, code: nat, root: bool, ghost m: Model, ghost h: History, ghost v: Byte)
    returns (value: Byte, symbol: nat, under: nat, count: nat)
    requires Open(t, m) && i < |t.places| < CAPACITY && Key(t.places[i]) == h && (root <==> h == [])
      && InSlot(m, h, v, code)
    modifies t, t.symbols
    ensures value == v
    ensures t.next == |t.places|
      && PlacedIn(old(t.symbols[..]), t.symbols[..], old(t.places), t.places, m, h, v, symbol)
    ensures under == SumBelow(m[h].counts, v) + Floor(root, v) && count == Coded(m[h], root, v)
  {
    hide *;
    ghost var a, ps := t.symbols[..], t.places;
    var minimum, update := Floor(root, 1), Delta(root);
    value, symbol, under, count := 0, 0, 0, minimum;
    OpenMeans(t, m);
    EncodeStart(a, ps, m, h, v, i, root);
    GapNodes();
    if t.symbols[i].symbols == 0 {
      EmptySlot(m, h, v, code);
      if !root {
        assert false;
      }
      value, under := code, code;
      symbol := AddAt(t, First(i), value, update, a, m, h, i, 0);
    } else {
      var node: nat := i + t.symbols[i].symbols;
      WalkBegin(a, ps, m, h, v, i);
      while true
        invariant t.places == ps && t.next == |ps| && Walking(a, t.symbols[..], ps, m, h, v, i, node, under)
        decreases Width(ps, node)
      {
        WalkAt(a, t.symbols[..], ps, m, h, v, i, node, under);
        CompareSlots(a, t.symbols[..], ps, m, h, v, i, node, under, code);
        AfterFits(a, t.symbols[..], ps, m, h, v, i, node, under);
        var after, before := After(under, t.symbols[node], root), Before(t.symbols[node], root);
        if code >= after {
          if t.symbols[node].right != 0 {
            GoRight(a, t.symbols[..], ps, m, h, v, i, node, under);
            under := under + t.symbols[node].under;
            node := node + t.symbols[node].right;
            continue;
          }
          if !root {
            assert false;
          }
          value := t.symbols[node].value + 1 + (code - after);
          ghost var passed := under;
          under := code;
          symbol := AddAt(t, Right(node), value, update, a, m, h, i, passed);
        } else if code < after - before {
          if t.symbols[node].left != 0 {
            node := StepLeft(t, node, update, a, m, h, v, i, under);
            continue;
          }
          if !root {
            assert false;
          }
          value := t.symbols[node].value - 1 - (after - before - code - 1);
          ghost var passed := under;
          under := code;
          symbol := AddAt(t, Left(node), value, update, a, m, h, i, passed);
        } else {
          value := t.symbols[node].value;
          count := count + t.symbols[node].count;
          ghost var passed := under;
          under := after - before;
          symbol := node;
          CountAt(t, node, update, a, m, h, v, i, passed);
        }
        break;
      }
    }
  }
}
