/**
 * Filter.java: the particle filter. It holds the fingerprint store, the
 * border of the mapped area, the particle list and the latest live scan;
 * initFilter seeds the particles, estimate weighs them against the live
 * scan and propagate resamples them.
 */
module FilterEngine {
  import opened JavaMath
  import opened Points
  import opened Measures
  import opened Particles
  import opened Interpolation
  import opened Sampling
  import opened Weighting

  datatype Option<T> = None | Some(value: T)

  /** A particle as initFilter and propagate create it: interpolated from
      the store at its own position and given the weight `w`. */
  ghost predicate Seeded(p: Particle, store: seq<Fingerprint>, w: real)
    reads p
  {
    p.weight == Finite(w) && Interpolates(store, p.point, p.measure)
  }

  /** The interpolator may give the readings `profiles[k]` at `pts[k]`. */
  ghost predicate ProfileAt(store: seq<Fingerprint>, pts: seq<Point>, profiles: seq<seq<Measure>>, k: int)
    requires 0 <= k < |pts| && k < |profiles|
  {
    Interpolates(store, pts[k], profiles[k])
  }

  /** The interpolator may give each of `profiles` at the matching position. */
  ghost predicate AllProfiles(store: seq<Fingerprint>, pts: seq<Point>, profiles: seq<seq<Measure>>)
  {
    |pts| == |profiles| && forall k :: 0 <= k < |pts| ==> ProfileAt(store, pts, profiles, k)
  }

  lemma AllProfilesExtend(store: seq<Fingerprint>, pts: seq<Point>, profiles: seq<seq<Measure>>,
                          pt: Point, profile: seq<Measure>)
    requires AllProfiles(store, pts, profiles)
    requires forall c :: c == pt ==> Interpolates(store, c, profile)
    ensures AllProfiles(store, pts + [pt], profiles + [profile])
  {
    var pts', profiles' := pts + [pt], profiles + [profile];
    forall k | 0 <= k < |pts'|
      ensures ProfileAt(store, pts', profiles', k)
    {
      if k < |pts| {
        assert ProfileAt(store, pts, profiles, k);
      }
    }
  }

  lemma AllProfilesAt(store: seq<Fingerprint>, pts: seq<Point>, profiles: seq<seq<Measure>>, k: int)
    requires AllProfiles(store, pts, profiles) && 0 <= k < |pts|
    ensures Interpolates(store, pts[k], profiles[k])
  {
    assert ProfileAt(store, pts, profiles, k);
  }

  lemma SeededAt(p: Particle, store: seq<Fingerprint>, w: real,
                 pts: seq<Point>, profiles: seq<seq<Measure>>, k: int)
    requires AllProfiles(store, pts, profiles) && 0 <= k < |pts|
    requires p.point == pts[k] && p.measure == profiles[k] && p.weight == Finite(w)
    ensures Seeded(p, store, w)
  {
    assert ProfileAt(store, pts, profiles, k);
  }

  /** calcBorder: a fresh four-cell array [xmin, xmax, ymin, ymax] widened
      point by point over the store. */
  method CalcBorder(db: seq<Particle>) returns (border: array<int>)
    ensures fresh(border) && border[..] == Cells(BorderOf(PointsOf(db)))
  {
    border := new int[4];
    border[0], border[1], border[2], border[3] := MaxInt, 0, MaxInt, 0;
    var pts := PointsOf(db);
    var i := 0;
    while i < |db|
      invariant 0 <= i <= |db|
      invariant border[0] == BorderOf(pts[..i]).xmin && border[1] == BorderOf(pts[..i]).xmax
      invariant border[2] == BorderOf(pts[..i]).ymin && border[3] == BorderOf(pts[..i]).ymax
    {
      var x := pts[i].x;
      var y := pts[i].y;
      if x < border[0] {
        border[0] := x;
      }
      if x > border[1] {
        border[1] := x;
      }
      if y < border[2] {
        border[2] := y;
      }
      if y > border[3] {
        border[3] := y;
      }
      assert pts[..i + 1][..i] == pts[..i];
      i := i + 1;
    }
    assert pts[..|db|] == pts;
  }

  /** The inner loop of calcWeight: the weight of every expected reading
      of `mlist` that shares the BSSID of the live reading `c`, in list
      order. */
  method MatchWeights(c: Measure, mlist: seq<Measure>) returns (ws: seq<real>)
    requires NonZero(mlist)
    ensures ws == MatchList(c, mlist)
  {
    ws := [];
    var j := 0;
    assert mlist[..0] == [];
    while j < |mlist|
      invariant 0 <= j <= |mlist|
      invariant ws == MatchList(c, mlist[..j])
    {
      if c.bssid == mlist[j].bssid {
        var rssiCurr := c.rssi;
        var rssiPart := mlist[j].rssi;
        var weight := rssiCurr as real / rssiPart as real;
        if weight > 1.0 {
          weight := 1.0 / weight;
        }
        ws := ws + [weight];
      }
      assert mlist[..j + 1][..j] == mlist[..j];
      j := j + 1;
    }
    assert mlist[..|mlist|] == mlist;
  }

  /** The summing loop of calcWeight. */
  method AddUp(ws: seq<real>) returns (sum: real)
    ensures sum == RealSum(ws)
  {
    sum := 0.0;
    var k := 0;
    assert ws[..0] == [];
    while k < |ws|
      invariant 0 <= k <= |ws|
      invariant sum == RealSum(ws[..k])
    {
      sum := sum + ws[k];
      assert ws[..k + 1][..k] == ws[..k];
      k := k + 1;
    }
    assert ws[..|ws|] == ws;
  }

  class Filter {
    /** db_list: the fingerprints of the store, read but never changed. */
    const dbList: seq<Particle>
    /** border: [xmin, xmax, ymin, ymax] of the store, fixed at construction. */
    const border: array<int>
    /** num_part: how many particles the filter keeps. */
    const numPart: nat
    /** part_list */
    var partList: seq<Particle>
    /** current: the live scan; null until setCurrentMeasure. */
    var current: Option<seq<Measure>>

    /** Particles the filter may own: finite weights (the default +infinity
        is replaced before a particle enters the list), each occurring once,
        none of them a fingerprint of the store. */
    ghost predicate Owned(ps: seq<Particle>)
      reads ps
    {
      AllFinite(ps) && Distinct(ps) && forall i :: 0 <= i < |ps| ==> ps[i] !in dbList
    }

    /** What every operation keeps: a four-cell border, a positive particle
        count and a particle list the filter owns. */
    ghost predicate Valid()
      reads this, partList
    {
      border.Length == 4 && numPart > 0 && Owned(partList)
    }

    /** Filter(particles, database): no particles yet, the border of the store. */
    constructor (particles: nat, database: seq<Particle>)
      requires particles > 0
      ensures Valid()
      ensures numPart == particles && dbList == database && partList == [] && current == None
      ensures fresh(border) && border[..] == Cells(BorderOf(PointsOf(database)))
    {
      var b := CalcBorder(database);
      numPart := particles;
      partList := [];
      dbList := database;
      current := None;
      border := b;
    }

    /** A position inside the border, each bound included. */
    predicate InBorder(p: Point)
      reads this, border
      requires border.Length == 4
    {
      InRange(p.x, border[0], border[1]) && InRange(p.y, border[2], border[3])
    }

    /** A position inside the pseudo-random box around `c`. */
    predicate NearMean(p: Point, c: Point)
      reads this, border
      requires border.Length == 4
    {
      && InRange(p.x, BoxLow(c.x, border[0], border[1]), BoxHigh(c.x, border[0], border[1]))
      && InRange(p.y, BoxLow(c.y, border[2], border[3]), BoxHigh(c.y, border[2], border[3]))
    }

    /** Where propagate places a new particle given the survivors' mean
        position `c`: near it when both its coordinates are nonzero, anywhere
        in the border otherwise. */
    predicate Placed(p: Point, c: Point)
      reads this, border
      requires border.Length == 4
    {
      if c.x != 0 && c.y != 0 then NearMean(p, c) else InBorder(p)
    }

    /** createRandomPoint: a draw of Math.random() per axis, scaled into the
        border and rounded. */
    method CreateRandomPoint() returns (p: Point)
      requires border.Length == 4
      ensures InBorder(p)
    {
      var u: real :| 0.0 <= u < 1.0;
      var v: real :| 0.0 <= v < 1.0;
      p := Point(Sample(u, border[0], border[1]), Sample(v, border[2], border[3]));
    }

    /** createPseudoRandomPoint: a draw inside the box around (xMean, yMean). */
    method CreatePseudoRandomPoint(xMean: int, yMean: int) returns (p: Point)
      requires border.Length == 4
      ensures NearMean(p, Point(xMean, yMean))
    {
      var highX := BoxHigh(xMean, border[0], border[1]);
      var lowX := BoxLow(xMean, border[0], border[1]);
      var highY := BoxHigh(yMean, border[2], border[3]);
      var lowY := BoxLow(yMean, border[2], border[3]);
      var u: real :| 0.0 <= u < 1.0;
      var v: real :| 0.0 <= v < 1.0;
      p := Point(Sample(u, lowX, highX), Sample(v, lowY, highY));
    }

    /** initFilter: appends numPart particles, each at a random point of the
        border, interpolated from the store and weighted 1/numPart. */
    method InitFilter()
      requires Valid()
      modifies this
      ensures Valid() && current == old(current)
      ensures |partList| == old(|partList|) + numPart
      ensures partList[..old(|partList|)] == old(partList)
      ensures forall i :: old(|partList|) <= i < |partList| ==>
                fresh(partList[i]) && InBorder(partList[i].point) &&
                Seeded(partList[i], old(Snapshot(dbList)), 1.0 / numPart as real)
    {
      var initialWeight := 1.0 / numPart as real;
      var store := Snapshot(dbList);
      ghost var n0 := |partList|;
      ghost var pts: seq<Point> := [];
      ghost var profiles: seq<seq<Measure>> := [];
      var i := 0;
      while i < numPart
        invariant 0 <= i <= numPart && |pts| == i && |profiles| == i
        invariant Valid() && current == old(current)
        invariant |partList| == n0 + i && partList[..n0] == old(partList)
        invariant forall k :: n0 <= k < |partList| ==> fresh(partList[k])
        invariant forall k :: 0 <= k < i ==> InBorder(pts[k])
        invariant forall k :: n0 <= k < |partList| ==> partList[k].point == pts[k - n0]
        invariant forall k :: n0 <= k < |partList| ==> partList[k].weight == Finite(initialWeight)
        invariant forall k :: n0 <= k < |partList| ==> partList[k].measure == profiles[k - n0]
        invariant AllProfiles(store, pts, profiles)
      {
        var p := CreateRandomPoint();
        var part := new Particle.AtPoint(p);
        var clean := InterpolatedParticle(part, store);
        ghost var profile := clean.measure;
        AllProfilesExtend(store, pts, profiles, p, profile);
        clean.SetWeight(Finite(initialWeight));
        partList := partList + [clean];
        pts := pts + [p];
        profiles := profiles + [profile];
        i := i + 1;
      }
      forall k | n0 <= k < |partList|
        ensures InBorder(partList[k].point) && Seeded(partList[k], store, initialWeight)
      {
        SeededAt(partList[k], store, initialWeight, pts, profiles, k - n0);
      }
    }

    /** interpolate: an interpolated copy of every particle of `part`, in
        order; the originals are left as they are. */
    method Interpolate(part: seq<Particle>, db: seq<Particle>) returns (plist: seq<Particle>)
      ensures |plist| == |part|
      ensures forall i :: 0 <= i < |part| ==>
                fresh(plist[i]) && plist[i].point == part[i].point && plist[i].weight == Infinity &&
                Interpolates(old(Snapshot(db)), part[i].point, plist[i].measure)
    {
      plist := [];
      var store := Snapshot(db);
      ghost var pts: seq<Point> := [];
      ghost var profiles: seq<seq<Measure>> := [];
      var i := 0;
      while i < |part|
        invariant 0 <= i <= |part| && |plist| == i && |pts| == i && |profiles| == i
        invariant forall k :: 0 <= k < i ==> fresh(plist[k])
        invariant forall k :: 0 <= k < i ==>
                    pts[k] == part[k].point && plist[k].point == pts[k] &&
                    plist[k].weight == Infinity && plist[k].measure == profiles[k]
        invariant AllProfiles(store, pts, profiles)
      {
        var mean := InterpolatedParticle(part[i], store);
        AllProfilesExtend(store, pts, profiles, part[i].point, mean.measure);
        plist := plist + [mean];
        pts := pts + [part[i].point];
        profiles := profiles + [mean.measure];
        i := i + 1;
      }
      forall k | 0 <= k < |part|
        ensures Interpolates(store, part[k].point, plist[k].measure)
      {
        AllProfilesAt(store, pts, profiles, k);
      }
    }

    /** setCurrentMeasure: stores the live scan; nothing else changes. */
    method SetCurrentMeasure(m: seq<Measure>)
      requires Valid()
      modifies this
      ensures Valid() && current == Some(m) && partList == old(partList)
    {
      current := Some(m);
    }

    /** calcWeight: the particle's new weight is its score against the live
        scan; its readings stay as they are. */
    method CalcWeight(p: Particle)
      requires current.Some? && current.value != [] && NonZero(p.measure)
      modifies p
      ensures p.measure == old(p.measure) && p.weight == Finite(Score(current.value, p.measure))
    {
      var cur := current.value;
      var mlist := p.measure;
      var weightList: seq<real> := [];
      var i := 0;
      assert cur[..0] == [];
      while i < |cur|
        invariant 0 <= i <= |cur|
        invariant weightList == WeightList(cur[..i], mlist)
        invariant p.measure == mlist
      {
        var matched := MatchWeights(cur[i], mlist);
        weightList := weightList + matched;
        assert cur[..i + 1][..i] == cur[..i];
        i := i + 1;
      }
      assert cur[..|cur|] == cur;
      var sum := AddUp(weightList);
      var meanWeight := sum / |cur| as real;
      assert meanWeight == Score(cur, mlist);
      p.SetWeight(Finite(meanWeight));
    }

    /** sumWeight: the sum of the weights of a list of particles. */
    method SumWeight(list: seq<Particle>) returns (sum: real)
      requires AllFinite(list)
      ensures sum == RealSum(WeightValues(list))
    {
      ghost var ws := WeightValues(list);
      sum := 0.0;
      var i := 0;
      assert ws[..0] == [];
      while i < |list|
        invariant 0 <= i <= |list|
        invariant sum == RealSum(ws[..i])
      {
        sum := sum + list[i].weight.value;
        assert ws[..i + 1][..i] == ws[..i];
        i := i + 1;
      }
      assert ws[..|list|] == ws;
    }

    /** normWeight: every weight divided by the sum of all of them. */
    method NormWeight(list: seq<Particle>)
      requires AllFinite(list) && Distinct(list) && RealSum(WeightValues(list)) != 0.0
      modifies list
      ensures AllFinite(list)
      ensures forall i :: 0 <= i < |list| ==> list[i].measure == old(list[i].measure)
      ensures WeightValues(list) == Scaled(old(WeightValues(list)), old(RealSum(WeightValues(list))))
    {
      var sum := SumWeight(list);
      ghost var ws := WeightValues(list);
      var i := 0;
      while i < |list|
        invariant 0 <= i <= |list|
        invariant forall k :: 0 <= k < |list| ==>
                    list[k].weight.Finite? && list[k].measure == old(list[k].measure)
        invariant forall k :: 0 <= k < i ==> list[k].weight.value == ws[k] / sum
        invariant forall k :: i <= k < |list| ==> list[k].weight == old(list[k].weight)
      {
        var newWeight := list[i].weight.value / sum;
        list[i].SetWeight(Finite(newWeight));
        i := i + 1;
      }
      assert WeightValues(list) == Scaled(ws, sum);
    }

    /** The scores of the particles against the live scan, in list order. */
    ghost function CurrentScores(): seq<real>
      reads this, partList
      requires current.Some? && current.value != []
      requires forall i :: 0 <= i < |partList| ==> NonZero(partList[i].measure)
    {
      Scores(current.value, ProfilesOf(partList))
    }

    /** The loop of estimate: calcWeight on every particle in turn. */
    method WeighParticles()
      requires Valid() && current.Some? && current.value != []
      requires forall i :: 0 <= i < |partList| ==> NonZero(partList[i].measure)
      modifies partList
      ensures forall i :: 0 <= i < |partList| ==> partList[i].measure == old(partList[i].measure)
      ensures AllFinite(partList) && WeightValues(partList) == old(CurrentScores())
    {
      ghost var scores := CurrentScores();
      var i := 0;
      while i < |partList|
        invariant 0 <= i <= |partList|
        invariant forall k :: 0 <= k < |partList| ==> partList[k].measure == old(partList[k].measure)
        invariant forall k :: 0 <= k < i ==> partList[k].weight == Finite(scores[k])
        invariant forall k :: i <= k < |partList| ==> partList[k].weight == old(partList[k].weight)
      {
        var tmp := partList[i];
        CalcWeight(tmp);
        i := i + 1;
      }
    }

    /** estimate: every particle is weighed against the live scan and the
        weights are normalised. Only the weights change: the list, the
        positions and the readings stay as they are, and the store lies
        outside what it may modify. */
    method Estimate()
      requires Valid() && current.Some? && current.value != []
      requires forall i :: 0 <= i < |partList| ==> NonZero(partList[i].measure)
      requires RealSum(CurrentScores()) != 0.0
      modifies partList
      ensures Valid() && partList == old(partList)
      ensures forall i :: 0 <= i < |partList| ==> partList[i].measure == old(partList[i].measure)
      ensures WeightValues(partList) == Scaled(old(CurrentScores()), old(RealSum(CurrentScores())))
    {
      WeighParticles();
      NormWeight(partList);
    }

    /** The particles propagate keeps: those whose weight is at least the
        sum of all weights divided by numPart, in list order. */
    ghost function Survivors(): seq<Particle>
      reads this, partList
      requires AllFinite(partList) && numPart > 0
    {
      var ws := WeightValues(partList);
      Keep(partList, ws, RealSum(ws) / numPart as real)
    }

    /** The first loop of propagate: the survivors and the sums of their
        coordinates. */
    method SelectSurvivors(meanWeight: real) returns (kept: seq<Particle>, sumX: int, sumY: int)
      requires Owned(partList)
      ensures kept == Keep(partList, WeightValues(partList), meanWeight) && Owned(kept)
      ensures sumX == Sum(Xs(PointsOf(kept))) && sumY == Sum(Ys(PointsOf(kept)))
    {
      ghost var ws := WeightValues(partList);
      kept := [];
      sumX, sumY := 0, 0;
      var i := 0;
      while i < |partList|
        invariant 0 <= i <= |partList|
        invariant kept == Keep(partList[..i], ws[..i], meanWeight)
        invariant sumX == Sum(Xs(PointsOf(kept))) && sumY == Sum(Ys(PointsOf(kept)))
      {
        var p := partList[i];
        var weight := p.weight.value;
        assert partList[..i + 1][..i] == partList[..i] && ws[..i + 1][..i] == ws[..i];
        if weight >= meanWeight {
          assert PointsOf(kept + [p]) == PointsOf(kept) + [p.point];
          CoordinateSumsAppend(PointsOf(kept), p.point);
          kept := kept + [p];
          sumX := sumX + p.point.x;
          sumY := sumY + p.point.y;
        }
        i := i + 1;
      }
      assert partList[..|partList|] == partList && ws[..|partList|] == ws;
      KeepFromList(partList, ws, meanWeight);
    }

    /** The second loop of propagate: `count` new particles placed around
        `center`, interpolated and weighted 1/numPart, after `list`. */
    method TopUp(list: seq<Particle>, center: Point, count: nat) returns (r: seq<Particle>)
      requires border.Length == 4 && numPart > 0 && Owned(list)
      ensures |r| == |list| + count && r[..|list|] == list && Owned(r)
      ensures forall i :: |list| <= i < |r| ==>
                fresh(r[i]) && Placed(r[i].point, center) &&
                Seeded(r[i], old(Snapshot(dbList)), 1.0 / numPart as real)
    {
      var initialWeight := 1.0 / numPart as real;
      var store := Snapshot(dbList);
      ghost var pts: seq<Point> := [];
      ghost var profiles: seq<seq<Measure>> := [];
      r := list;
      var j := 0;
      while j < count
        invariant 0 <= j <= count && |pts| == j && |profiles| == j
        invariant |r| == |list| + j && r[..|list|] == list && Owned(r)
        invariant forall i :: |list| <= i < |r| ==> fresh(r[i])
        invariant forall k :: 0 <= k < j ==> Placed(pts[k], center)
        invariant forall i :: |list| <= i < |r| ==> r[i].point == pts[i - |list|]
        invariant forall i :: |list| <= i < |r| ==> r[i].weight == Finite(initialWeight)
        invariant forall i :: |list| <= i < |r| ==> r[i].measure == profiles[i - |list|]
        invariant AllProfiles(store, pts, profiles)
      {
        var newCoord: Point;
        if center.x != 0 && center.y != 0 {
          newCoord := CreatePseudoRandomPoint(center.x, center.y);
          assert Point(center.x, center.y) == center;
        } else {
          newCoord := CreateRandomPoint();
        }
        var part := new Particle.AtPoint(newCoord);
        var clean := InterpolatedParticle(part, store);
        ghost var profile := clean.measure;
        AllProfilesExtend(store, pts, profiles, newCoord, profile);
        clean.SetWeight(Finite(initialWeight));
        r := r + [clean];
        pts := pts + [newCoord];
        profiles := profiles + [profile];
        j := j + 1;
      }
      forall i | |list| <= i < |r|
        ensures Placed(r[i].point, center) && Seeded(r[i], store, initialWeight)
      {
        SeededAt(r[i], store, initialWeight, pts, profiles, i - |list|);
      }
    }

    /** propagate: keeps the survivors, in order and untouched, and tops the
        list up to numPart with new particles placed around the survivors'
        rounded mean position. */
    method Propagate()
      requires Valid()
      modifies this
      ensures Valid() && current == old(current)
      ensures var kept := old(Survivors());
              |partList| == Max(numPart, |kept|) && partList[..|kept|] == kept
      ensures var kept := old(Survivors());
              forall i :: |kept| <= i < |partList| ==>
                fresh(partList[i]) && Placed(partList[i].point, MeanPoint(PointsOf(kept))) &&
                Seeded(partList[i], old(Snapshot(dbList)), 1.0 / numPart as real)
    {
      ghost var store := Snapshot(dbList);
      ghost var kept := Survivors();
      var sum := SumWeight(partList);
      var meanWeight := sum / numPart as real;
      var tmpList, meanX, meanY := SelectSurvivors(meanWeight);
      assert tmpList == kept;
      var x := RoundedMean(meanX, |tmpList|);
      var y := RoundedMean(meanY, |tmpList|);
      ghost var center := Point(x, y);
      assert center == MeanPoint(PointsOf(tmpList));
      var diff := numPart - |tmpList|;
      if diff > 0 {
        assert Snapshot(dbList) == store;
        tmpList := TopUp(tmpList, Point(x, y), diff);
      }
      partList := tmpList;
    }
  }

  /** Propagating a full list keeps its length at numPart and keeps at least
      one particle, so the mean position is never the NaN fallback. */
  lemma FullListStaysFull(ps: seq<Particle>, ws: seq<real>, numPart: nat)
    requires |ps| == |ws| == numPart > 0
    ensures var kept := Keep(ps, ws, RealSum(ws) / numPart as real);
            kept != [] && Max(numPart, |kept|) == numPart
  {
    KeepFromList(ps, ws, RealSum(ws) / numPart as real);
    KeepAtMeanNonEmpty(ps, ws);
  }
}
