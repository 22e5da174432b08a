/**
 * InterpolateParticle.java: synthesises the readings expected at a position
 * from the fingerprint store. Store points are sorted into four quadrant maps
 * around the position, the nearest point of each map is taken, their readings
 * are concatenated and then merged per access point into a mean.
 *
 * The Java class only holds the particle and the store for one call of
 * interpolatedParticle; here both are parameters of InterpolatedParticle.
 */
module Interpolation {
  import opened JavaMath
  import opened Points
  import opened Measures
  import opened Particles

  // ---- distance ----

  /** getDistance without its square root: Math.sqrt is increasing, so the
      nearest point and the ties are the same for the squared distance. */
  function Dist2(a: Point, b: Point): nat
  {
    (a.x - b.x) * (a.x - b.x) + (a.y - b.y) * (a.y - b.y)
  }

  /** Comparing Euclidean distances is comparing squared distances: for the
      non-negative roots `r1`, `r2` of `d1`, `d2`, order and equality agree. */
  lemma RootOrderIsSquareOrder(r1: real, r2: real, d1: nat, d2: nat)
    requires 0.0 <= r1 && 0.0 <= r2 && r1 * r1 == d1 as real && r2 * r2 == d2 as real
    ensures r1 <= r2 <==> d1 <= d2
    ensures r1 == r2 <==> d1 == d2
  {
    assert (r2 - r1) * (r2 + r1) == (d2 - d1) as real;
    if r1 < r2 {
      PositiveProduct(r2 - r1, r2 + r1);
    } else if r2 < r1 {
      PositiveProduct(r1 - r2, r1 + r2);
    }
  }

  lemma PositiveProduct(a: real, b: real)
    requires a > 0.0 && b > 0.0
    ensures a * b > 0.0
  {
  }

  // ---- quadrant maps ----

  /** The k-th quadrant test of interpolatedParticle, k = 1..4. */
  predicate InQuadrant(k: int, c: Point, q: Point)
  {
    if k == 1 then c.Quad1st(q)
    else if k == 2 then c.Quad2nd(q)
    else if k == 3 then c.Quad3rd(q)
    else c.Quad4th(q)
  }

  /** The k-th quadrant map: store index to store point, for the points that
      pass the k-th test around `c`. In coordinates, map 1 is the closed
      upper-right quarter plane, maps 2 and 4 both the upper-left one and map
      3 the lower-left one; a store point at `c` itself is in every map and
      one strictly to the lower right is in none. */
  function QuadrantMap(c: Point, store: seq<Fingerprint>, k: int): (m: map<nat, Point>)
    ensures forall i :: i in m ==> i < |store| && m[i] == store[i].point
    ensures k == 1 ==> forall i :: 0 <= i < |store| ==>
              (i in m <==> c.x <= store[i].point.x && c.y <= store[i].point.y)
    ensures k == 2 || k == 4 ==> forall i :: 0 <= i < |store| ==>
              (i in m <==> store[i].point.x <= c.x && c.y <= store[i].point.y)
    ensures k == 3 ==> forall i :: 0 <= i < |store| ==>
              (i in m <==> store[i].point.x <= c.x && store[i].point.y <= c.y)
    ensures forall i :: 0 <= i < |store| && store[i].point == c ==> i in m
    ensures forall i :: 0 <= i < |store| && store[i].point.x > c.x && store[i].point.y < c.y ==> i !in m
  {
    map i: nat | i < |store| && InQuadrant(k, c, store[i].point) :: store[i].point
  }

  /** Maps 2 and 4 are always equal, and a store point strictly to the lower
      right of the target is in none of the four maps. */
  lemma QuadrantMapsOverlap(c: Point, store: seq<Fingerprint>)
    ensures QuadrantMap(c, store, 2) == QuadrantMap(c, store, 4)
    ensures forall i :: 0 <= i < |store| && store[i].point.x > c.x && store[i].point.y < c.y ==>
              forall k :: 1 <= k <= 4 ==> i !in QuadrantMap(c, store, k)
  {
    assert QuadrantMap(c, store, 2).Keys == QuadrantMap(c, store, 4).Keys;
  }

  // ---- nearest neighbour ----

  /** A nearest point of a quadrant map, or MAX_VALUE when the map is empty. */
  predicate IsNearestPick(c: Point, m: map<nat, Point>, index: int)
  {
    if m == map[] then index == MaxInt
    else index in m && forall j :: j in m ==> Dist2(c, m[index]) <= Dist2(c, m[j])
  }

  /** A non-empty set of distances has a least element, the first key of
      a TreeMap holding them. */
  lemma LeastNatExists(s: set<nat>)
    requires s != {}
    ensures exists d :: d in s && forall e :: e in s ==> d <= e
  {
    assert |s| != 0;
    var x :| x in s;
    LeastAtMost(s, x);
  }

  lemma LeastAtMost(s: set<nat>, n: nat)
    requires n in s
    ensures exists d :: d in s && forall e :: e in s ==> d <= e
    decreases n
  {
    if !(forall e :: e in s ==> n <= e) {
      var e :| e in s && e < n;
      LeastAtMost(s, e);
    }
  }

  /** The value under the least key of a map from distances to indexes that
      covers every index of `m` is a nearest index of `m`. */
  lemma LeastDistanceIsNearest(c: Point, m: map<nat, Point>, sortedMap: map<int, nat>, first: int)
    requires forall d :: d in sortedMap ==> sortedMap[d] in m && Dist2(c, m[sortedMap[d]]) == d
    requires forall j :: j in m ==> Dist2(c, m[j]) in sortedMap
    requires first in sortedMap && forall d :: d in sortedMap ==> first <= d
    ensures sortedMap[first] in m
    ensures forall j :: j in m ==> Dist2(c, m[sortedMap[first]]) <= Dist2(c, m[j])
  {
  }

  /** getNearestPoint: the map's entries are visited in the unspecified
      order of a HashMap and put into a TreeMap keyed by distance, where a
      later index overwrites an earlier one at the same distance; the first
      value of the TreeMap is the answer. */
  method GetNearestPoint(c: Point, m: map<nat, Point>) returns (index: int)
    ensures IsNearestPick(c, m, index)
  {
    index := 0;
    if |m| != 0 {
      var sortedMap: map<int, nat> := map[];
      var rest := m.Keys;
      while rest != {}
        invariant rest <= m.Keys
        invariant forall d :: d in sortedMap ==> sortedMap[d] in m && Dist2(c, m[sortedMap[d]]) == d
        invariant forall j :: j in m.Keys - rest ==> Dist2(c, m[j]) in sortedMap
        invariant rest != m.Keys ==> sortedMap != map[]
        decreases |rest|
      {
        assert |rest| != 0;
        var e :| e in rest;
        var tmpDist := Dist2(c, m[e]);
        index := e;
        sortedMap := sortedMap[tmpDist := index];
        rest := rest - {e};
      }
      LeastNatExists(sortedMap.Keys);
      var first :| first in sortedMap && forall d :: d in sortedMap ==> first <= d;
      index := sortedMap[first];
      LeastDistanceIsNearest(c, m, sortedMap, first);
    } else {
      index := MaxInt;
    }
  }

  // ---- merging readings per access point ----

  /** meanMeasure: sums the list as a double, divides by the length and casts
      to int; for an empty list the quotient is NaN and the cast gives 0. */
  method MeanMeasure(list: seq<int>) returns (back: int)
    ensures back == TruncMean(list)
  {
    var size := |list|;
    var sum := 0;
    for i := 0 to size
      invariant sum == Sum(list[..i])
    {
      assert list[..i + 1][..i] == list[..i];
      sum := sum + list[i];
    }
    assert list[..size] == list;
    if size == 0 {
      back := 0;
    } else {
      back := TruncToInt(sum as real / size as real);
      CastOfQuotient(sum, size);
    }
  }

  /** The `(int)` cast of the double quotient is Java's int division. */
  lemma CastOfQuotient(a: int, b: int)
    requires b > 0
    ensures TruncToInt(a as real / b as real) == TruncDiv(a, b)
  {
    var q := TruncDiv(a, b);
    if a >= 0 {
      QuotientFrom(a, b, q);
    } else {
      QuotientUpTo(a, b, q);
    }
  }

  lemma QuotientFrom(a: int, b: int, q: int)
    requires b > 0 && b * q <= a < b * q + b
    ensures q as real <= a as real / b as real < q as real + 1.0
  {
    ScaledBounds(a, b, q, q + 1);
  }

  lemma QuotientUpTo(a: int, b: int, q: int)
    requires b > 0 && b * q - b < a <= b * q
    ensures q as real - 1.0 < a as real / b as real <= q as real
  {
    ScaledBounds(a, b, q - 1, q);
  }

  /** `lo * b <= a <= hi * b` carries over to the real quotient `a / b`,
      strictness included. */
  lemma ScaledBounds(a: int, b: int, lo: int, hi: int)
    requires b > 0
    ensures b * lo <= a ==> lo as real <= a as real / b as real
    ensures b * lo < a ==> lo as real < a as real / b as real
    ensures a <= b * hi ==> a as real / b as real <= hi as real
    ensures a < b * hi ==> a as real / b as real < hi as real
  {
    var br := b as real;
    CastMul(b, lo);
    CastMul(b, hi);
    MulDiv(lo as real, br);
    MulDiv(hi as real, br);
    if b * lo <= a {
      DivMonotone((b * lo) as real, a as real, br);
    }
    if a <= b * hi {
      DivMonotone(a as real, (b * hi) as real, br);
    }
  }

  lemma CastMul(b: int, q: int)
    ensures (b * q) as real == (b as real) * (q as real)
  {
  }

  lemma MulDiv(x: real, c: real)
    requires c > 0.0
    ensures ((c * x) / c) == x
  {
  }

  /** Dividing by a positive number keeps the order. */
  lemma DivMonotone(x: real, y: real, c: real)
    requires c > 0.0 && x <= y
    ensures x / c <= y / c
    ensures x < y ==> x / c < y / c
  {
    var u := x / c;
    var v := y / c;
    assert u * c == x && v * c == y;
    assert (v - u) * c == y - x;
  }

  /** What getMeanMeasure returns: one reading per access point of the input,
      in ascending BSSID order (the order of its TreeMap), each carrying the
      truncated mean of that access point's strengths. */
  ghost function MeanProfile(ms: seq<Measure>): seq<Measure>
  {
    MeansOver(SortedKeys(Bssids(ms)), ms)
  }

  /** One mean reading per key, in key order. */
  function MeansOver(keys: seq<string>, ms: seq<Measure>): seq<Measure>
  {
    if keys == [] then []
    else [Measure(keys[0], TruncMean(ValuesFor(ms, keys[0])))] + MeansOver(keys[1..], ms)
  }

  lemma {:induction false} MeansOverAt(keys: seq<string>, ms: seq<Measure>)
    ensures |MeansOver(keys, ms)| == |keys|
    ensures forall i :: 0 <= i < |keys| ==>
              MeansOver(keys, ms)[i] == Measure(keys[i], TruncMean(ValuesFor(ms, keys[i])))
  {
    if keys != [] {
      MeansOverAt(keys[1..], ms);
    }
  }

  /** `hotspot` maps each access point of `ms` to its strengths in list order. */
  predicate GroupsOf(hotspot: map<string, seq<int>>, ms: seq<Measure>)
  {
    hotspot.Keys == Bssids(ms) && forall k :: k in hotspot ==> hotspot[k] == ValuesFor(ms, k)
  }

  /** Adding one reading to its access point's list keeps the grouping. */
  lemma GroupsOfStep(hotspot: map<string, seq<int>>, ms: seq<Measure>, m: Measure)
    requires GroupsOf(hotspot, ms)
    ensures GroupsOf(hotspot[m.bssid := (if m.bssid in hotspot then hotspot[m.bssid] else []) + [m.rssi]], ms + [m])
  {
    var next := ms + [m];
    var grouped := hotspot[m.bssid := (if m.bssid in hotspot then hotspot[m.bssid] else []) + [m.rssi]];
    ReadingsAppend(ms, [m], 0, 0);
    assert Bssids([m]) == {m.bssid};
    assert next[..|ms|] == ms;
    forall k | k in grouped
      ensures grouped[k] == ValuesFor(next, k)
    {
      assert ValuesFor(next, k) == ValuesFor(ms, k) + (if m.bssid == k then [m.rssi] else []);
      if k == m.bssid && m.bssid !in hotspot {
        ValuesForFacts(ms, k, 0, 0);
      }
    }
  }

  /** Emitting the mean of the least remaining access point keeps the walk
      on course towards MeanProfile. */
  lemma ProfileStep(meanList: seq<Measure>, rest: set<string>, ssid: string, rssi: int, ms: seq<Measure>)
    requires IsLeast(ssid, rest) && rssi == TruncMean(ValuesFor(ms, ssid))
    requires meanList + MeansOver(SortedKeys(rest), ms) == MeanProfile(ms)
    ensures (meanList + [Measure(ssid, rssi)]) + MeansOver(SortedKeys(rest - {ssid}), ms) == MeanProfile(ms)
  {
    var keys, later := SortedKeys(rest), SortedKeys(rest - {ssid});
    SortedKeysStep(rest, ssid);
    assert keys[0] == ssid && keys[1..] == later;
    Regroup(meanList, Measure(ssid, rssi), MeansOver(later, ms));
  }

  lemma Regroup(xs: seq<Measure>, x: Measure, ys: seq<Measure>)
    ensures xs + ([x] + ys) == (xs + [x]) + ys
  {
  }

  /** The first loop of getMeanMeasure: the strengths of each BSSID
      collected, in list order, in a map. */
  method GroupByBssid(mlist: seq<Measure>) returns (hotspot: map<string, seq<int>>)
    ensures GroupsOf(hotspot, mlist)
  {
    hotspot := map[];
    for i := 0 to |mlist|
      invariant GroupsOf(hotspot, mlist[..i])
    {
      var tmpMeas := mlist[i];
      var s := tmpMeas.bssid;
      var m := tmpMeas.rssi;
      assert mlist[..i + 1] == mlist[..i] + [tmpMeas];
      GroupsOfStep(hotspot, mlist[..i], tmpMeas);
      if s in hotspot {
        var tmp := hotspot[s] + [m];
        hotspot := hotspot[s := tmp];
      } else {
        hotspot := hotspot[s := [m]];
      }
    }
    assert mlist[..|mlist|] == mlist;
  }

  /** getMeanMeasure: groups the strengths per BSSID in a TreeMap, then walks
      it in key order and appends one mean reading per key. */
  method GetMeanMeasure(mlist: seq<Measure>) returns (meanList: seq<Measure>)
    ensures meanList == MeanProfile(mlist)
  {
    var hotspot := GroupByBssid(mlist);
    meanList := [];
    var rest := hotspot.Keys;
    while rest != {}
      invariant rest <= hotspot.Keys
      invariant meanList + MeansOver(SortedKeys(rest), mlist) == MeanProfile(mlist)
      decreases |rest|
    {
      LeastExists(rest);
      var ssid :| IsLeast(ssid, rest);
      var measure := hotspot[ssid];
      var rssi := MeanMeasure(measure);
      ProfileStep(meanList, rest, ssid, rssi, mlist);
      meanList := meanList + [Measure(ssid, rssi)];
      rest := rest - {ssid};
    }
  }

  /** getMeanMeasure's result has exactly the access points of its input,
      each once, in ascending BSSID order, each with the truncated mean of
      its strengths. */
  lemma MeanProfileIsMerge(ms: seq<Measure>)
    ensures var r := MeanProfile(ms);
            && Bssids(r) == Bssids(ms)
            && DistinctBssids(r)
            && (forall i, j :: 0 <= i < j < |r| ==> StrLess(r[i].bssid, r[j].bssid))
            && (forall i :: 0 <= i < |r| ==> r[i].rssi == TruncMean(ValuesFor(ms, r[i].bssid)))
  {
    var keys := SortedKeys(Bssids(ms));
    var r := MeanProfile(ms);
    SortedKeysSpec(Bssids(ms));
    MeansOverAt(keys, ms);
    forall i, j | 0 <= i < j < |r|
      ensures r[i].bssid != r[j].bssid
    {
      StrLessAsymmetric(keys[i], keys[j]);
    }
    assert Bssids(r) == Bssids(ms) by {
      forall k | k in Bssids(ms) ensures k in Bssids(r) {
        var i :| 0 <= i < |keys| && keys[i] == k;
        assert r[i].bssid == k;
      }
    }
  }

  /** Each merged strength lies within the bounds of the strengths merged. */
  lemma MeanProfileWithin(ms: seq<Measure>, lo: int, hi: int)
    requires StrengthsWithin(ms, lo, hi)
    ensures StrengthsWithin(MeanProfile(ms), lo, hi)
  {
    var keys := SortedKeys(Bssids(ms));
    var r := MeanProfile(ms);
    SortedKeysSpec(Bssids(ms));
    MeansOverAt(keys, ms);
    forall i | 0 <= i < |r|
      ensures lo <= r[i].rssi <= hi
    {
      var values := ValuesFor(ms, keys[i]);
      ValuesForFacts(ms, keys[i], lo, hi);
      TruncMeanBounds(values, lo, hi);
    }
  }

  /** Two readings of one access point merge into their mean. */
  lemma MeanProfileExample()
    ensures MeanProfile([Measure("AP1", -40), Measure("AP1", -60)]) == [Measure("AP1", -50)]
  {
    var ms := [Measure("AP1", -40), Measure("AP1", -60)];
    assert ms[..1] == [Measure("AP1", -40)] && ms[..1][..0] == [];
    assert Bssids(ms) == {"AP1"};
    var keys := SortedKeys({"AP1"});
    SortedKeysSpec({"AP1"});
    assert keys == ["AP1"];
    assert ValuesFor(ms, "AP1") == [-40, -60];
    TruncMeanExamples();
  }

  // ---- the interpolated particle ----

  /** The readings one pick contributes to m_list: none for the MAX_VALUE
      marker of an empty quadrant map. */
  function Picked(store: seq<Fingerprint>, i: int): seq<Measure>
  {
    if i != MaxInt && 0 <= i < |store| then store[i].measures else []
  }

  /** The indexes getNearestPoint returned for quadrant maps 1 to 4. */
  datatype Picks = Picks(q1: int, q2: int, q3: int, q4: int)

  /** m_list: the readings of the picks, concatenated in quadrant order. */
  function Gathered(store: seq<Fingerprint>, picks: Picks): seq<Measure>
  {
    Picked(store, picks.q1) + Picked(store, picks.q2) + Picked(store, picks.q3) + Picked(store, picks.q4)
  }

  /** One nearest pick per quadrant map. */
  ghost predicate ValidPicks(store: seq<Fingerprint>, c: Point, picks: Picks)
  {
    && IsNearestPick(c, QuadrantMap(c, store, 1), picks.q1)
    && IsNearestPick(c, QuadrantMap(c, store, 2), picks.q2)
    && IsNearestPick(c, QuadrantMap(c, store, 3), picks.q3)
    && IsNearestPick(c, QuadrantMap(c, store, 4), picks.q4)
  }

  /** `profile` is a result interpolatedParticle may produce at `c`: the merge
      of the readings of some choice of nearest neighbours (the choice is
      open only where several store points are equally near). */
  ghost predicate Interpolates(store: seq<Fingerprint>, c: Point, profile: seq<Measure>)
  {
    exists picks :: ValidPicks(store, c, picks) && profile == MeanProfile(Gathered(store, picks))
  }

  /** Scanning one more store entry adds it to the k-th map exactly when it
      passes the k-th test. */
  lemma QuadrantMapStep(c: Point, store: seq<Fingerprint>, i: int, k: int)
    requires 0 <= i < |store|
    ensures QuadrantMap(c, store[..i + 1], k)
         == if InQuadrant(k, c, store[i].point) then QuadrantMap(c, store[..i], k)[i := store[i].point]
            else QuadrantMap(c, store[..i], k)
  {
    var before := QuadrantMap(c, store[..i], k);
    var after := QuadrantMap(c, store[..i + 1], k);
    if InQuadrant(k, c, store[i].point) {
      assert after.Keys == before.Keys + {i};
    } else {
      assert after.Keys == before.Keys;
    }
  }

  lemma AppendNothing(xs: seq<Measure>, ys: seq<Measure>)
    requires ys == []
    ensures xs + ys == xs
  {
  }

  /** The first loop of interpolatedParticle: every store entry goes into
      each quadrant map whose test it passes, keyed by its index. */
  method SortIntoQuadrants(c: Point, store: seq<Fingerprint>)
    returns (q1: map<nat, Point>, q2: map<nat, Point>, q3: map<nat, Point>, q4: map<nat, Point>)
    ensures q1 == QuadrantMap(c, store, 1) && q2 == QuadrantMap(c, store, 2)
    ensures q3 == QuadrantMap(c, store, 3) && q4 == QuadrantMap(c, store, 4)
  {
    q1, q2, q3, q4 := map[], map[], map[], map[];
    for i := 0 to |store|
      invariant q1 == QuadrantMap(c, store[..i], 1)
      invariant q2 == QuadrantMap(c, store[..i], 2)
      invariant q3 == QuadrantMap(c, store[..i], 3)
      invariant q4 == QuadrantMap(c, store[..i], 4)
    {
      var pTmp := store[i].point;
      QuadrantMapStep(c, store, i, 1);
      QuadrantMapStep(c, store, i, 2);
      QuadrantMapStep(c, store, i, 3);
      QuadrantMapStep(c, store, i, 4);
      if c.Quad1st(pTmp) { q1 := q1[i := pTmp]; }
      if c.Quad2nd(pTmp) { q2 := q2[i := pTmp]; }
      if c.Quad3rd(pTmp) { q3 := q3[i := pTmp]; }
      if c.Quad4th(pTmp) { q4 := q4[i := pTmp]; }
    }
    assert store[..|store|] == store;
  }

  /** The second half of interpolatedParticle: the readings of each pick
      other than the MAX_VALUE marker, appended in quadrant order. */
  method GatherReadings(store: seq<Fingerprint>, idx1: int, idx2: int, idx3: int, idx4: int)
    returns (mList: seq<Measure>)
    requires idx1 != MaxInt ==> 0 <= idx1 < |store|
    requires idx2 != MaxInt ==> 0 <= idx2 < |store|
    requires idx3 != MaxInt ==> 0 <= idx3 < |store|
    requires idx4 != MaxInt ==> 0 <= idx4 < |store|
    ensures mList == Gathered(store, Picks(idx1, idx2, idx3, idx4))
  {
    ghost var g1, g2, g3, g4 := Picked(store, idx1), Picked(store, idx2), Picked(store, idx3), Picked(store, idx4);
    mList := [];
    if idx1 != MaxInt {
      mList := mList + store[idx1].measures;
    }
    assert mList == g1;
    if idx2 != MaxInt {
      mList := mList + store[idx2].measures;
    } else {
      AppendNothing(g1, g2);
    }
    assert mList == g1 + g2;
    if idx3 != MaxInt {
      mList := mList + store[idx3].measures;
    } else {
      AppendNothing(g1 + g2, g3);
    }
    assert mList == g1 + g2 + g3;
    if idx4 != MaxInt {
      mList := mList + store[idx4].measures;
    } else {
      AppendNothing(g1 + g2 + g3, g4);
    }
  }

  /** Every pick other than the MAX_VALUE marker indexes the store. */
  lemma PicksInRange(store: seq<Fingerprint>, c: Point, picks: Picks)
    requires ValidPicks(store, c, picks)
    ensures picks.q1 != MaxInt ==> 0 <= picks.q1 < |store|
    ensures picks.q2 != MaxInt ==> 0 <= picks.q2 < |store|
    ensures picks.q3 != MaxInt ==> 0 <= picks.q3 < |store|
    ensures picks.q4 != MaxInt ==> 0 <= picks.q4 < |store|
  {
  }

  /** interpolatedParticle: a new particle at the same position, default
      weight +infinity, with the merged readings of the nearest store point
      of each quadrant map. The store is passed as the fingerprints its
      particles hold. The last postcondition is stated for every position
      equal to the particle's so that callers unfold Interpolates only where
      they ask about it. */
  method InterpolatedParticle(p: Particle, store: seq<Fingerprint>) returns (r: Particle)
    ensures fresh(r) && r.point == p.point && r.weight == Infinity
    ensures forall c :: c == p.point ==> Interpolates(store, c, r.measure)
  {
    var currentParticle := p.point;
    var q1, q2, q3, q4 := SortIntoQuadrants(currentParticle, store);
    var idx1 := GetNearestPoint(currentParticle, q1);
    var idx2 := GetNearestPoint(currentParticle, q2);
    var idx3 := GetNearestPoint(currentParticle, q3);
    var idx4 := GetNearestPoint(currentParticle, q4);
    ghost var picks := Picks(idx1, idx2, idx3, idx4);
    assert ValidPicks(store, currentParticle, picks);
    PicksInRange(store, currentParticle, picks);
    var mList := GatherReadings(store, idx1, idx2, idx3, idx4);
    var cleanList := GetMeanMeasure(mList);
    r := new Particle(currentParticle, cleanList);
  }

  // ---- properties of the interpolation ----

  /** The access points the store's fingerprints mention. */
  function StoreBssids(store: seq<Fingerprint>): set<string>
  {
    set i, m | 0 <= i < |store| && m in store[i].measures :: m.bssid
  }

  /** Every stored strength lies in `[lo, hi]`. */
  predicate StoreStrengthsWithin(store: seq<Fingerprint>, lo: int, hi: int)
  {
    forall i :: 0 <= i < |store| ==> StrengthsWithin(store[i].measures, lo, hi)
  }

  lemma ReadingsAppend(xs: seq<Measure>, ys: seq<Measure>, lo: int, hi: int)
    ensures Bssids(xs + ys) == Bssids(xs) + Bssids(ys)
    ensures StrengthsWithin(xs, lo, hi) && StrengthsWithin(ys, lo, hi) ==> StrengthsWithin(xs + ys, lo, hi)
  {
    assert forall m :: m in xs + ys <==> m in xs || m in ys;
  }

  lemma PickedFromStore(store: seq<Fingerprint>, i: int, lo: int, hi: int)
    ensures Bssids(Picked(store, i)) <= StoreBssids(store)
    ensures StoreStrengthsWithin(store, lo, hi) ==> StrengthsWithin(Picked(store, i), lo, hi)
  {
    forall m | m in Picked(store, i)
      ensures m.bssid in StoreBssids(store)
    {
      assert m in store[i].measures;
    }
  }

  /** The gathered readings come from the store. */
  lemma GatheredFromStore(store: seq<Fingerprint>, picks: Picks, lo: int, hi: int)
    ensures Bssids(Gathered(store, picks)) <= StoreBssids(store)
    ensures StoreStrengthsWithin(store, lo, hi) ==> StrengthsWithin(Gathered(store, picks), lo, hi)
  {
    var p1, p2, p3, p4 := Picked(store, picks.q1), Picked(store, picks.q2), Picked(store, picks.q3), Picked(store, picks.q4);
    PickedFromStore(store, picks.q1, lo, hi);
    PickedFromStore(store, picks.q2, lo, hi);
    PickedFromStore(store, picks.q3, lo, hi);
    PickedFromStore(store, picks.q4, lo, hi);
    ReadingsAppend(p1, p2, lo, hi);
    ReadingsAppend(p1 + p2, p3, lo, hi);
    ReadingsAppend(p1 + p2 + p3, p4, lo, hi);
  }

  /** An interpolated profile names each access point once, in ascending
      BSSID order, only access points the store knows, and keeps every
      strength within the bounds of the store's strengths. */
  lemma InterpolatedProfileIsClean(store: seq<Fingerprint>, c: Point, profile: seq<Measure>, lo: int, hi: int)
    requires Interpolates(store, c, profile)
    ensures DistinctBssids(profile)
    ensures forall i, j :: 0 <= i < j < |profile| ==> StrLess(profile[i].bssid, profile[j].bssid)
    ensures Bssids(profile) <= StoreBssids(store)
    ensures StoreStrengthsWithin(store, lo, hi) ==> StrengthsWithin(profile, lo, hi)
  {
    var picks :| ValidPicks(store, c, picks) && profile == MeanProfile(Gathered(store, picks));
    GatheredFromStore(store, picks, lo, hi);
    MeanProfileIsMerge(Gathered(store, picks));
    if StoreStrengthsWithin(store, lo, hi) {
      MeanProfileWithin(Gathered(store, picks), lo, hi);
    }
  }

  lemma MeanProfileOfNothing()
    ensures MeanProfile([]) == []
  {
    assert Bssids([]) == {};
  }

  /** An empty store yields an empty profile. */
  lemma EmptyStoreGivesNoReadings(c: Point, profile: seq<Measure>)
    requires Interpolates([], c, profile)
    ensures profile == []
  {
    var picks :| ValidPicks([], c, picks) && profile == MeanProfile(Gathered([], picks));
    assert Gathered([], picks) == [];
    MeanProfileOfNothing();
  }

  /** Maps 2 and 4 are the same map, so when map 2 has a single nearest
      point, map 4 picks it too and its readings are gathered twice. */
  lemma SecondNeighbourCountedTwice(store: seq<Fingerprint>, c: Point, picks: Picks)
    requires ValidPicks(store, c, picks)
    requires var m := QuadrantMap(c, store, 2);
             forall i, j :: i in m && j in m && Dist2(c, m[i]) == Dist2(c, m[j]) ==> i == j
    ensures picks.q2 == picks.q4
    ensures Gathered(store, picks)
         == Picked(store, picks.q1) + Picked(store, picks.q2) + Picked(store, picks.q3) + Picked(store, picks.q2)
  {
    QuadrantMapsOverlap(c, store);
  }

  /** A store point to the lower right of the target is never consulted:
      with a store holding only such a point, the profile is empty. */
  lemma LowerRightPointIgnored(profile: seq<Measure>)
    requires Interpolates([Fingerprint(Point(6, 4), [Measure("AP1", -50)])], Point(5, 5), profile)
    ensures profile == []
  {
    var store := [Fingerprint(Point(6, 4), [Measure("AP1", -50)])];
    var c := Point(5, 5);
    var picks :| ValidPicks(store, c, picks) && profile == MeanProfile(Gathered(store, picks));
    QuadrantMapsOverlap(c, store);
    assert QuadrantMap(c, store, 1) == map[] && QuadrantMap(c, store, 3) == map[];
    assert Gathered(store, picks) == [];
    MeanProfileOfNothing();
  }
}
