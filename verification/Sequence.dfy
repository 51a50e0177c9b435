/** Sixteen-bit sequence numbers stand for unbounded ones near the receiver's own. */
module Sequence {
  import opened Transport

  /** The number as it is sent. */
  function Wire(x: nat): (w: nat)
    ensures w < WRAP
  {
    x % WRAP
  }

  /** The receiver's window arithmetic, on wire numbers. */
  function WireAhead(x: nat, c: nat): int { x / WINDOW + (if x < c then WINDOWS else 0) - c / WINDOW }

  /** `x` is less than one turn of the counter away from `c`. */
  predicate Near(x: nat, c: nat) { x < c + WRAP && c < x + WRAP }

  lemma Halves(x: nat) returns (cycle: nat, w: nat)
    ensures x == cycle * WRAP + w && w < WRAP && Wire(x) == w
    ensures Win(x) == cycle * WINDOWS + w / WINDOW
  {
    cycle, w := x / WRAP, x % WRAP;
    assert w == WINDOW * (w / WINDOW) + w % WINDOW;
    assert x == WINDOW * (cycle * WINDOWS + w / WINDOW) + w % WINDOW;
  }

  /** The wire arithmetic agrees with the true distance in windows. */
  lemma WindowTest(x: nat, c: nat)
    requires Near(x, c)
    ensures WireAhead(Wire(x), Wire(c)) == Ahead(x, c)
    ensures WireAhead(Wire(x), Wire(c)) >= 0
  {
    var i, v := Halves(x);
    var j, w := Halves(c);
    assert i == j || i == j + 1 || i + 1 == j by { Cycles(i, v, j, w); }
    hide Win, Wire;
  }

  lemma Cycles(i: nat, v: nat, j: nat, w: nat)
    requires v < WRAP && w < WRAP && i * WRAP + v < j * WRAP + w + WRAP && j * WRAP + w < i * WRAP + v + WRAP
    ensures i == j || i == j + 1 || i + 1 == j
  {
  }

  /** Seen from `c`, a wire number comes before another. */
  predicate WireBefore(e: nat, x: nat, c: nat) { if x >= c then c <= e < x else e >= c || e < x }

  /** Ahead of the receiver wire order is true order. */
  lemma OrderTest(e: nat, x: nat, c: nat)
    requires c <= e < c + WRAP && c <= x < c + WRAP
    ensures WireBefore(Wire(e), Wire(x), Wire(c)) <==> e < x
    ensures Wire(e) == Wire(x) <==> e == x
  {
    hide Win, Wire;
    var i, u := Halves(e);
    var k, v := Halves(x);
    var j, w := Halves(c);
    OnCycle(i, u, j, w);
    OnCycle(k, v, j, w);
  }

  lemma OnCycle(i: nat, u: nat, j: nat, w: nat)
    requires u < WRAP && w < WRAP && j * WRAP + w <= i * WRAP + u < j * WRAP + w + WRAP
    ensures (i == j && u >= w) || (i == j + 1 && u < w)
  {
  }

  lemma NextTest(c: nat)
    ensures Wire(c + 1) == (Wire(c) + 1) % WRAP
  {
    var j, w := Halves(c);
  }

  lemma AddTest(c: nat, n: nat)
    ensures Wire(c + n) == (Wire(c) + n) % WRAP
  {
    var j, w := Halves(c);
    assert (c + n) == j * WRAP + (w + n);
    ModAdd(w + n, j);
  }

  lemma {:induction false} ModAdd(a: nat, j: nat)
    ensures (j * WRAP + a) % WRAP == a % WRAP
  {
    if j > 0 {
      ModAdd(a, j - 1);
      assert j * WRAP + a == ((j - 1) * WRAP + a) + WRAP;
    }
  }
}
