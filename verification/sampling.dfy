/**
 * The geometry the filter samples new particles from: the bounding box of
 * the fingerprint store (Filter.calcBorder), the smaller box around the
 * survivors' mean position (Filter.createPseudoRandomPoint) and that mean
 * position itself (Filter.propagate).
 */
module Sampling {
  import opened JavaMath
  import opened Points

  /** The four bounds calcBorder keeps in its array [xmin, xmax, ymin, ymax]. */
  datatype Border = Border(xmin: int, xmax: int, ymin: int, ymax: int)

  /** The border as the four-cell array holds it. */
  function Cells(b: Border): (r: seq<int>)
    ensures |r| == 4
  {
    [b.xmin, b.xmax, b.ymin, b.ymax]
  }

  /** The border before any store point is seen: both minima at
      Integer.MAX_VALUE and both maxima at 0. */
  const InitialBorder: Border := Border(MaxInt, 0, MaxInt, 0)

  /** One step of calcBorder: each bound moves only when the point lies
      strictly beyond it. */
  function Widen(b: Border, p: Point): Border
  {
    Border(if p.x < b.xmin then p.x else b.xmin,
           if p.x > b.xmax then p.x else b.xmax,
           if p.y < b.ymin then p.y else b.ymin,
           if p.y > b.ymax then p.y else b.ymax)
  }

  /** The border calcBorder computes for the store positions `pts`, visited
      in list order. */
  function BorderOf(pts: seq<Point>): Border
  {
    if pts == [] then InitialBorder else Widen(BorderOf(pts[..|pts| - 1]), pts[|pts| - 1])
  }

  /** Every position of the store lies in its border; each bound is either
      its starting value or a coordinate of some store point; the maxima
      never fall below 0 and the minima never rise above Integer.MAX_VALUE. */
  lemma {:induction false} BorderOfSpec(pts: seq<Point>)
    ensures var b := BorderOf(pts);
            forall i :: 0 <= i < |pts| ==>
              b.xmin <= pts[i].x <= b.xmax && b.ymin <= pts[i].y <= b.ymax
    ensures var b := BorderOf(pts);
            b.xmin <= MaxInt && 0 <= b.xmax && b.ymin <= MaxInt && 0 <= b.ymax
    ensures var b := BorderOf(pts);
            (b.xmin == MaxInt || exists i :: 0 <= i < |pts| && pts[i].x == b.xmin) &&
            (b.xmax == 0 || exists i :: 0 <= i < |pts| && pts[i].x == b.xmax) &&
            (b.ymin == MaxInt || exists i :: 0 <= i < |pts| && pts[i].y == b.ymin) &&
            (b.ymax == 0 || exists i :: 0 <= i < |pts| && pts[i].y == b.ymax)
  {
    if pts != [] {
      var init := pts[..|pts| - 1];
      BorderOfSpec(init);
      forall i | 0 <= i < |init|
        ensures pts[i] == init[i]
      {
      }
    }
  }

  /** An empty store leaves the border at its starting value; a store at
      (0,0), (5,2) and (3,9) gives [0, 5, 0, 9]; a store lying entirely
      below zero still gets the maxima 0. */
  lemma BorderExamples()
    ensures Cells(BorderOf([])) == [MaxInt, 0, MaxInt, 0]
    ensures Cells(BorderOf([Point(0, 0), Point(5, 2), Point(3, 9)])) == [0, 5, 0, 9]
    ensures Cells(BorderOf([Point(-3, -4)])) == [-3, 0, -4, 0]
  {
    var pts := [Point(0, 0), Point(5, 2), Point(3, 9)];
    assert pts[..2] == [Point(0, 0), Point(5, 2)];
    assert pts[..2][..1] == [Point(0, 0)];
    assert BorderOf([Point(0, 0)]) == Border(0, 0, 0, 0);
    assert BorderOf(pts[..2]) == Border(0, 5, 0, 2);
  }

  /** The lower bound createPseudoRandomPoint computes around `mean` from the
      border bounds `lo` and `hi` of that axis: `(int) (mean - ((hi - lo) + lo) * 0.2)`. */
  function BoxLow(mean: int, lo: int, hi: int): int
  {
    TruncToInt(mean as real - ((hi - lo) + lo) as real * 0.2)
  }

  /** The matching upper bound `(int) (mean + ((hi - lo) + lo) * 0.2)`. */
  function BoxHigh(mean: int, lo: int, hi: int): int
  {
    TruncToInt(mean as real + ((hi - lo) + lo) as real * 0.2)
  }

  lemma TruncMonotone(r: real, s: real)
    requires r <= s
    ensures TruncToInt(r) <= TruncToInt(s)
  {
  }

  lemma TruncOfInt(n: int)
    ensures TruncToInt(n as real) == n
  {
  }

  /** The pseudo-random box always contains its centre, and its half-width
      depends on the upper border bound alone: the lower bound cancels out. */
  lemma BoxAroundMean(mean: int, lo: int, hi: int)
    ensures InRange(mean, BoxLow(mean, lo, hi), BoxHigh(mean, lo, hi))
    ensures BoxLow(mean, lo, hi) == BoxLow(mean, 0, hi)
    ensures BoxHigh(mean, lo, hi) == BoxHigh(mean, 0, hi)
    ensures 0 <= hi ==> BoxLow(mean, lo, hi) <= mean <= BoxHigh(mean, lo, hi)
  {
    var d := hi as real * 0.2;
    TruncOfInt(mean);
    if 0.0 <= d {
      TruncMonotone(mean as real - d, mean as real);
      TruncMonotone(mean as real, mean as real + d);
    } else {
      TruncMonotone(mean as real + d, mean as real);
      TruncMonotone(mean as real, mean as real - d);
    }
  }

  function Xs(pts: seq<Point>): (r: seq<int>)
    ensures |r| == |pts| && forall i :: 0 <= i < |pts| ==> r[i] == pts[i].x
  {
    seq(|pts|, i requires 0 <= i < |pts| => pts[i].x)
  }

  function Ys(pts: seq<Point>): (r: seq<int>)
    ensures |r| == |pts| && forall i :: 0 <= i < |pts| ==> r[i] == pts[i].y
  {
    seq(|pts|, i requires 0 <= i < |pts| => pts[i].y)
  }

  /** Adding a point to the list adds its coordinates to the sums. */
  lemma CoordinateSumsAppend(pts: seq<Point>, q: Point)
    ensures Sum(Xs(pts + [q])) == Sum(Xs(pts)) + q.x
    ensures Sum(Ys(pts + [q])) == Sum(Ys(pts)) + q.y
  {
    assert Xs(pts + [q])[..|pts|] == Xs(pts);
    assert Ys(pts + [q])[..|pts|] == Ys(pts);
  }

  /** The position propagate computes from the surviving particles:
      `Math.round(sum / count)` on each axis, which is 0 when nothing
      survived (the quotient is NaN and Math.round(NaN) is 0). */
  function MeanPoint(pts: seq<Point>): Point
  {
    Point(RoundedMean(Sum(Xs(pts)), |pts|), RoundedMean(Sum(Ys(pts)), |pts|))
  }

  /** The mean position of points inside a rectangle lies inside it too. */
  lemma MeanPointWithin(pts: seq<Point>, xlo: int, xhi: int, ylo: int, yhi: int)
    requires pts != []
    requires forall i :: 0 <= i < |pts| ==> xlo <= pts[i].x <= xhi && ylo <= pts[i].y <= yhi
    ensures xlo <= MeanPoint(pts).x <= xhi && ylo <= MeanPoint(pts).y <= yhi
  {
    SumBounds(Xs(pts), xlo, xhi);
    SumBounds(Ys(pts), ylo, yhi);
    RoundedMeanBounds(Sum(Xs(pts)), |pts|, xlo, xhi);
    RoundedMeanBounds(Sum(Ys(pts)), |pts|, ylo, yhi);
  }

  /** With no survivor the mean position is the origin, so propagate falls
      back to sampling in the whole border. */
  lemma MeanPointOfNothing()
    ensures MeanPoint([]) == Point(0, 0)
  {
  }

  /** Rounding a mean takes halves upward: survivors at x = 1 and x = 2 give
      x = 2, and at x = -1 and x = -2 give x = -1. */
  lemma MeanPointRoundsHalfUp()
    ensures MeanPoint([Point(1, 1), Point(2, 2)]) == Point(2, 2)
    ensures MeanPoint([Point(-1, -1), Point(-2, -2)]) == Point(-1, -1)
  {
    assert Xs([Point(1, 1), Point(2, 2)]) == [1, 2];
    assert Ys([Point(1, 1), Point(2, 2)]) == [1, 2];
    assert [1, 2][..1] == [1];
    assert Sum([1, 2]) == 3;
    assert RoundedMean(3, 2) == 2;
    assert Xs([Point(-1, -1), Point(-2, -2)]) == [-1, -2];
    assert Ys([Point(-1, -1), Point(-2, -2)]) == [-1, -2];
    assert [-1, -2][..1] == [-1];
    assert Sum([-1, -2]) == -3;
    assert RoundedMean(-3, 2) == -1;
  }
}
