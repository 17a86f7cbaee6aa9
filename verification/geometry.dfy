/** Angles of the wheel, in degrees measured clockwise on screen (the canvas
    y axis points down, so canvas angles and CSS `rotate` both turn
    clockwise). The circle is cut into `n` equal slices in name order,
    starting at angle 0. */
module Geometry {

  const FullTurn: real := 360.0

  /** Multiplying by a non-negative factor keeps `<=`. */
  lemma MulMonotone(a: real, b: real, w: real)
    requires a <= b && 0.0 <= w
    ensures a * w <= b * w
  {
  }

  /** Multiplying by a positive factor keeps `<`. */
  lemma MulStrictMonotone(a: real, b: real, w: real)
    requires a < b && 0.0 < w
    ensures a * w < b * w
  {
  }

  /** Multiplication distributes over `+ 1`. */
  lemma MulSucc(a: real, w: real)
    ensures (a + 1.0) * w == a * w + w
  {
  }

  /** Division by a non-zero number is undone by multiplication. */
  lemma DivMul(a: real, w: real)
    requires w != 0.0
    ensures (a / w) * w == a
  {
  }

  /** A positive factor can be cancelled from `<` and `<=`. */
  lemma MulCancel(a: real, b: real, w: real)
    requires 0.0 < w
    ensures a * w < b * w ==> a < b
    ensures a * w <= b * w ==> a <= b
  {
    if b < a {
      MulStrictMonotone(b, a, w);
    }
    if b <= a {
      MulMonotone(b, a, w);
    }
  }

  /** Stacking `i + 1` widths `w` reaches at most `j` widths when `i < j`. */
  lemma Stacked(i: nat, j: nat, w: real)
    requires i < j && 0.0 < w
    ensures 0.0 <= i as real * w
    ensures i as real * w + w <= j as real * w
  {
    MulMonotone(0.0, i as real, w);
    MulMonotone(i as real + 1.0, j as real, w);
    MulSucc(i as real, w);
  }

  /** Comparing with a quotient is comparing with a product. */
  lemma QuotientBounds(c: real, a: real, w: real)
    requires 0.0 < w
    ensures c <= a / w <==> c * w <= a
    ensures a / w < c <==> a < c * w
  {
    DivMul(a, w);
    if c <= a / w {
      MulMonotone(c, a / w, w);
    }
    if c * w <= a {
      MulCancel(c, a / w, w);
    }
    if a / w < c {
      MulStrictMonotone(a / w, c, w);
    }
    if a < c * w {
      MulCancel(a / w, c, w);
    }
  }

  /** How many widths `w` fit below `a`, when fewer than `b` do. */
  lemma FloorQuotient(a: real, w: real, b: real)
    requires 0.0 <= a && 0.0 < w && a < b * w
    ensures 0 <= (a / w).Floor
    ensures (a / w).Floor as real < b
    ensures (a / w).Floor as real * w <= a < (a / w).Floor as real * w + w
  {
    var k := (a / w).Floor;
    QuotientBounds(0.0, a, w);
    QuotientBounds(b, a, w);
    QuotientBounds(k as real, a, w);
    QuotientBounds(k as real + 1.0, a, w);
    MulSucc(k as real, w);
  }

  /** `360 / n`: the angle of one slice. */
  function SliceWidth(n: nat): (w: real)
    requires n > 0
    ensures 0.0 < w <= FullTurn
    ensures n as real * w == FullTurn
  {
    MulMonotone(1.0, n as real, FullTurn / n as real);
    FullTurn / n as real
  }

  /** `i * (360 / n)`: where slice `i` starts; the slice ends inside the
      circle. */
  function SliceStart(i: nat, n: nat): (a: real)
    requires i < n
    ensures 0.0 <= a
    ensures a + SliceWidth(n) <= FullTurn
  {
    var w := SliceWidth(n);
    Stacked(i, n, w);
    i as real * w
  }

  /** The bisector of slice `i`, where its label and the winner arrow go. */
  function SliceMiddle(i: nat, n: nat): (m: real)
    requires i < n
    ensures SliceStart(i, n) < m < SliceStart(i, n) + SliceWidth(n)
  {
    SliceStart(i, n) + SliceWidth(n) / 2.0
  }

  /** Slices follow one another without gap or overlap: each starts where the
      previous one ends, and the last one ends at a full turn. */
  lemma SlicesTile(i: nat, n: nat)
    requires i < n
    ensures SliceStart(i, n) + SliceWidth(n) ==
      if i + 1 < n then SliceStart(i + 1, n) else FullTurn
  {
    MulSucc(i as real, SliceWidth(n));
  }

  /** Slice starts strictly increase with the index. */
  lemma SlicesIncrease(i: nat, j: nat, n: nat)
    requires i < j < n
    ensures SliceStart(i, n) + SliceWidth(n) <= SliceStart(j, n)
  {
    Stacked(i, j, SliceWidth(n));
  }

  /** The angle `theta` reduced to one turn: in `[0, 360)` and a whole number
      of turns away from `theta`. */
  function Normalize(theta: real): (r: real)
    ensures 0.0 <= r < FullTurn
    ensures theta - r == FullTurn * (theta / FullTurn).Floor as real
  {
    theta - FullTurn * (theta / FullTurn).Floor as real
  }

  /** The reduction is determined by those two properties. */
  lemma NormalizeUnique(theta: real, r: real, turns: int)
    requires 0.0 <= r < FullTurn
    requires theta == r + FullTurn * turns as real
    ensures Normalize(theta) == r
  {
    var x := theta / FullTurn;
    assert x == turns as real + r / FullTurn;
    assert turns as real <= x < turns as real + 1.0;
    assert x.Floor == turns;
  }

  /** Whole turns do not change an angle's reduction. */
  lemma NormalizeTurns(theta: real, turns: int)
    ensures Normalize(theta + FullTurn * turns as real) == Normalize(theta)
  {
    var r := Normalize(theta);
    var k := (theta / FullTurn).Floor;
    NormalizeUnique(theta + FullTurn * turns as real, r, k + turns);
  }

  /** The slice that contains canvas angle `theta`. */
  function SectorAt(theta: real, n: nat): (k: nat)
    requires n > 0
    ensures k < n
    ensures SliceStart(k, n) <= Normalize(theta) < SliceStart(k, n) + SliceWidth(n)
  {
    var w := SliceWidth(n);
    var a := Normalize(theta);
    FloorQuotient(a, w, n as real);
    (a / w).Floor
  }

  /** The slice bounds single out the slice: an angle inside slice `k` lies
      in no other. */
  lemma SectorAtUnique(theta: real, n: nat, k: nat)
    requires k < n
    requires SliceStart(k, n) <= Normalize(theta) < SliceStart(k, n) + SliceWidth(n)
    ensures SectorAt(theta, n) == k
  {
    var j := SectorAt(theta, n);
    if j < k {
      SlicesIncrease(j, k, n);
    } else if k < j {
      SlicesIncrease(k, j, n);
    }
  }

  /** The bisector of slice `i`, turned by any number of whole turns, lies in
      slice `i`. */
  lemma SectorAtMiddle(i: nat, n: nat, turns: int)
    requires i < n
    ensures SectorAt(SliceMiddle(i, n) + FullTurn * turns as real, n) == i
  {
    var m := SliceMiddle(i, n);
    NormalizeTurns(m, turns);
    NormalizeUnique(m, m, 0);
    SectorAtUnique(m + FullTurn * turns as real, n, i);
  }

  /** The slice seen at screen angle `screen` when the wheel is turned
      clockwise by `rotation`: the wheel's canvas angle `screen - rotation`. */
  function SectorUnder(screen: real, rotation: real, n: nat): (k: nat)
    requires n > 0
    ensures k < n
    ensures SliceStart(k, n) <= Normalize(screen - rotation) < SliceStart(k, n) + SliceWidth(n)
  {
    SectorAt(screen - rotation, n)
  }
}
