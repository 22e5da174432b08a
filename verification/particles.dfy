/**
 * Particle.java: a position hypothesis carrying the signal profile expected
 * there and a weight. Its weight and its list of readings are updated in
 * place, so it is a class; its position never changes.
 */
module Particles {
  import opened JavaMath
  import opened Points
  import opened Measures

  /** A particle weight: a double that is either the constructors' default,
      Double.POSITIVE_INFINITY, or a finite value. */
  datatype Weight = Infinity | Finite(value: real)

  class Particle {
    /** getPoint; getX and getY are `point.x` and `point.y`. */
    const point: Point
    /** getMeasure: the readings expected at this position. */
    var measure: seq<Measure>
    /** getWeight */
    var weight: Weight

    /** Particle(point, measure): the given readings, default weight +infinity. */
    constructor (point: Point, measure: seq<Measure>)
      ensures this.point == point && this.measure == measure && weight == Infinity
    {
      this.point := point;
      this.measure := measure;
      weight := Infinity;
    }

    /** Particle(point, measure, weight): the given readings and weight. */
    constructor WithWeight(point: Point, measure: seq<Measure>, weight: Weight)
      ensures this.point == point && this.measure == measure && this.weight == weight
    {
      this.point := point;
      this.measure := measure;
      this.weight := weight;
    }

    /** Particle(point): no readings yet, default weight +infinity. */
    constructor AtPoint(point: Point)
      ensures this.point == point && measure == [] && weight == Infinity
    {
      this.point := point;
      measure := [];
      weight := Infinity;
    }

    /** setWeight: only the weight changes. */
    method SetWeight(w: Weight)
      modifies this
      ensures weight == w && measure == old(measure)
    {
      weight := w;
    }

    /** addMeasure: appends the reading at the end of the list; the list
        accepts every element, so the answer is always true. */
    method AddMeasure(m: Measure) returns (added: bool)
      modifies this
      ensures added && measure == old(measure) + [m] && weight == old(weight)
    {
      measure := measure + [m];
      added := true;
    }

    /** toString: walks the readings with an accumulator that starts as null. */
    method ToString() returns (s: string)
      ensures s == Render(point, measure)
    {
      var s1: string := [];
      var isNull := true;
      var i := 0;
      while i < |measure|
        invariant 0 <= i <= |measure|
        invariant isNull <==> i == 0
        invariant s1 == MeasuresText(measure[..i])
      {
        var tmp := measure[i];
        var s2 := MeasureText(tmp);
        MeasuresTextAppend(measure[..i], tmp);
        assert measure[..i + 1] == measure[..i] + [tmp];
        if !isNull {
          s1 := s1 + s2;
        } else {
          s1 := s2;
        }
        isNull := false;
        i := i + 1;
      }
      // String.format("%s", null) prints "null"
      var shown := if isNull then "null" else s1;
      assert measure[..|measure|] == measure;
      s := "x: " + Decimal(point.x) + ", y: " + Decimal(point.y) + ",    " + shown + " \n";
    }
  }

  /** How toString shows one reading. */
  function MeasureText(m: Measure): string
  {
    "MAC: " + m.bssid + " Signal: " + Decimal(m.rssi) + "    "
  }

  /** The readings shown one after the other, in list order. */
  function MeasuresText(ms: seq<Measure>): string
  {
    if ms == [] then [] else MeasureText(ms[0]) + MeasuresText(ms[1..])
  }

  lemma {:induction false} MeasuresTextAppend(ms: seq<Measure>, m: Measure)
    ensures MeasuresText(ms + [m]) == MeasuresText(ms) + MeasureText(m)
  {
    if ms != [] {
      assert (ms + [m])[1..] == ms[1..] + [m];
      MeasuresTextAppend(ms[1..], m);
    }
  }

  /** The text of `"x: %d, y: %d,    %s \n"` for a particle, the readings in
      place of `%s` or "null" when there are none. */
  function Render(p: Point, ms: seq<Measure>): string
  {
    "x: " + Decimal(p.x) + ", y: " + Decimal(p.y) + ",    "
      + (if ms == [] then "null" else MeasuresText(ms)) + " \n"
  }

  /** A rendering starts with the decimal coordinates, which read back as
      the particle's own. */
  lemma RenderShowsPosition(p: Point, ms: seq<Measure>)
    ensures var s := Render(p, ms);
            var n := |Decimal(p.x)|;
            s[..3] == "x: " && ParseDecimal(s[3..3 + n]) == p.x
  {
    DecimalRoundTrip(p.x);
    var s := Render(p, ms);
    assert s[3..3 + |Decimal(p.x)|] == Decimal(p.x);
  }

  /** A fingerprint: the position and readings of a stored particle. */
  datatype Fingerprint = Fingerprint(point: Point, measures: seq<Measure>)

  /** The fingerprints the stored particles hold right now. */
  function Snapshot(ps: seq<Particle>): (r: seq<Fingerprint>)
    reads ps
    ensures |r| == |ps|
    ensures forall i :: 0 <= i < |ps| ==> r[i] == Fingerprint(ps[i].point, ps[i].measure)
  {
    if ps == [] then [] else Snapshot(ps[..|ps| - 1]) + [Fingerprint(ps[|ps| - 1].point, ps[|ps| - 1].measure)]
  }

  /** The positions of a list of particles. */
  function PointsOf(ps: seq<Particle>): (r: seq<Point>)
    ensures |r| == |ps| && forall i :: 0 <= i < |ps| ==> r[i] == ps[i].point
  {
    seq(|ps|, i requires 0 <= i < |ps| => ps[i].point)
  }

  /** The reading lists of a list of particles. */
  function ProfilesOf(ps: seq<Particle>): (r: seq<seq<Measure>>)
    reads ps
    ensures |r| == |ps| && forall i :: 0 <= i < |ps| ==> r[i] == ps[i].measure
  {
    seq(|ps|, i reads ps requires 0 <= i < |ps| => ps[i].measure)
  }

  predicate AllFinite(ps: seq<Particle>)
    reads ps
  {
    forall i :: 0 <= i < |ps| ==> ps[i].weight.Finite?
  }

  /** The finite weights of a list of particles. */
  function WeightValues(ps: seq<Particle>): (r: seq<real>)
    reads ps
    requires AllFinite(ps)
    ensures |r| == |ps| && forall i :: 0 <= i < |ps| ==> r[i] == ps[i].weight.value
  {
    seq(|ps|, i reads ps requires 0 <= i < |ps| && ps[i].weight.Finite? => ps[i].weight.value)
  }

  /** No particle occurs twice in the list. */
  predicate Distinct(ps: seq<Particle>)
  {
    forall i, j :: 0 <= i < j < |ps| ==> ps[i] != ps[j]
  }
}
