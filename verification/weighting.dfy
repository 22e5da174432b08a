/**
 * The arithmetic of the filter's weights: how Filter.calcWeight scores a
 * particle's expected readings against the live scan, how normWeight
 * rescales the weights, and which particles propagate keeps.
 * Weights are exact reals; see README for what that leaves out.
 */
module Weighting {
  import opened Measures

  // ---- scoring one particle (calcWeight) ----

  /** The weight of one matched pair: the ratio of the live strength to the
      particle's, replaced by its reciprocal when it exceeds 1. */
  function Contribution(live: int, expected: int): real
    requires expected != 0
  {
    var w := live as real / expected as real;
    if w > 1.0 then 1.0 / w else w
  }

  /** Two strengths of the same sign contribute a value in (0, 1], the same
      whichever of them is the live one, and exactly 1 when they are equal. */
  lemma ContributionBounds(a: int, b: int)
    requires (a < 0 && b < 0) || (a > 0 && b > 0)
    ensures 0.0 < Contribution(a, b) <= 1.0
    ensures Contribution(a, b) == Contribution(b, a)
    ensures Contribution(a, b) == 1.0 <==> a == b
  {
    var w := a as real / b as real;
    var v := b as real / a as real;
    assert w * v == 1.0;
    assert w > 0.0 && v > 0.0;
    if w > 1.0 {
      assert v < 1.0;
      assert 1.0 / w == v;
    } else if v > 1.0 {
      assert w < 1.0;
      assert 1.0 / v == w;
    } else {
      assert w == 1.0 && v == 1.0;
    }
    assert w == 1.0 <==> a == b;
  }

  lemma ContributionExample()
    ensures Contribution(-40, -80) == 0.5 && Contribution(-80, -40) == 0.5
  {
  }

  /** No reading of the list has strength 0, so every ratio is defined. */
  predicate NonZero(ms: seq<Measure>)
  {
    forall j :: 0 <= j < |ms| ==> ms[j].rssi != 0
  }

  /** The weights the inner loop of calcWeight adds for the live reading `c`:
      one per particle reading with the same BSSID, in list order. */
  function MatchList(c: Measure, ms: seq<Measure>): seq<real>
    requires NonZero(ms)
  {
    if ms == [] then []
    else
      var m := ms[|ms| - 1];
      MatchList(c, ms[..|ms| - 1]) + (if c.bssid == m.bssid then [Contribution(c.rssi, m.rssi)] else [])
  }

  /** The whole weight_list of calcWeight: the matches of each live reading
      in turn. */
  function WeightList(current: seq<Measure>, ms: seq<Measure>): seq<real>
    requires NonZero(ms)
  {
    if current == [] then []
    else WeightList(current[..|current| - 1], ms) + MatchList(current[|current| - 1], ms)
  }

  /** The sum of a list of weights, accumulated left to right. */
  function RealSum(xs: seq<real>): real
  {
    if xs == [] then 0.0 else RealSum(xs[..|xs| - 1]) + xs[|xs| - 1]
  }

  /** The weight calcWeight gives a particle whose expected readings are
      `ms`: the sum of the matched weights divided by the number of live
      readings, not by the number of matches. */
  function Score(current: seq<Measure>, ms: seq<Measure>): real
    requires current != [] && NonZero(ms)
  {
    RealSum(WeightList(current, ms)) / |current| as real
  }

  /** Every strength of the list is negative, as dBm readings are. */
  predicate AllNegative(ms: seq<Measure>)
  {
    forall j :: 0 <= j < |ms| ==> ms[j].rssi < 0
  }

  lemma {:induction false} RealSumBounds(xs: seq<real>, lo: real, hi: real)
    requires forall i :: 0 <= i < |xs| ==> lo <= xs[i] <= hi
    ensures |xs| as real * lo <= RealSum(xs) <= |xs| as real * hi
  {
    if xs != [] {
      RealSumBounds(xs[..|xs| - 1], lo, hi);
    }
  }

  /** The matches of one live reading lie in (0, 1] and, when the particle
      knows each access point once, there is at most one of them. */
  lemma {:induction false} MatchListFacts(c: Measure, ms: seq<Measure>)
    requires NonZero(ms)
    requires c.rssi < 0 && AllNegative(ms)
    ensures forall i :: 0 <= i < |MatchList(c, ms)| ==> 0.0 < MatchList(c, ms)[i] <= 1.0
    ensures |MatchList(c, ms)| <= |ms|
    ensures DistinctBssids(ms) ==> |MatchList(c, ms)| <= 1
    ensures c.bssid !in Bssids(ms) ==> MatchList(c, ms) == []
  {
    if ms != [] {
      var init := ms[..|ms| - 1];
      var m := ms[|ms| - 1];
      MatchListFacts(c, init);
      ContributionBounds(c.rssi, m.rssi);
      assert m in ms;
      if DistinctBssids(ms) && c.bssid == m.bssid {
        assert c.bssid !in Bssids(init) by {
          forall j | 0 <= j < |init|
            ensures init[j].bssid != c.bssid
          {
            assert init[j] == ms[j];
          }
        }
      }
      assert Bssids(init) <= Bssids(ms) by {
        forall k | k in Bssids(init) ensures k in Bssids(ms) {
          var j :| j in init && j.bssid == k;
          assert j in ms;
        }
      }
    }
  }

  /** Each live reading finds at most one partner in a particle that knows
      every access point once, and every matched weight lies in (0, 1]. */
  lemma {:induction false} WeightListFacts(current: seq<Measure>, ms: seq<Measure>)
    requires NonZero(ms)
    requires AllNegative(current) && AllNegative(ms)
    ensures forall i :: 0 <= i < |WeightList(current, ms)| ==> 0.0 < WeightList(current, ms)[i] <= 1.0
    ensures DistinctBssids(ms) ==> |WeightList(current, ms)| <= |current|
  {
    if current != [] {
      var init := current[..|current| - 1];
      var c := current[|current| - 1];
      WeightListFacts(init, ms);
      MatchListFacts(c, ms);
      var a := WeightList(init, ms);
      var b := MatchList(c, ms);
      assert WeightList(current, ms) == a + b;
      forall i | 0 <= i < |a + b|
        ensures 0.0 < (a + b)[i] <= 1.0
      {
        if i >= |a| { assert (a + b)[i] == b[i - |a|]; }
      }
    }
  }

  /** With readings in dBm and a particle that knows each access point once,
      the score lies in [0, 1]. */
  lemma ScoreBounds(current: seq<Measure>, ms: seq<Measure>)
    requires current != [] && NonZero(ms)
    requires AllNegative(current) && AllNegative(ms) && DistinctBssids(ms)
    ensures 0.0 <= Score(current, ms) <= 1.0
  {
    var ws := WeightList(current, ms);
    WeightListFacts(current, ms);
    RealSumBounds(ws, 0.0, 1.0);
    var n := |current| as real;
    assert |ws| as real <= n;
    QuotientAtMostOne(RealSum(ws), n);
  }

  lemma QuotientAtMostOne(a: real, n: real)
    requires 0.0 <= a <= n && n > 0.0
    ensures 0.0 <= a / n <= 1.0
  {
    assert a / n * n == a;
  }

  /** A particle that shares no access point with the live scan scores 0. */
  lemma {:induction false} NoSharedBssidScoresZero(current: seq<Measure>, ms: seq<Measure>)
    requires NonZero(ms)
    requires forall i :: 0 <= i < |current| ==> current[i].bssid !in Bssids(ms)
    ensures WeightList(current, ms) == []
    ensures current != [] ==> Score(current, ms) == 0.0
  {
    if current != [] {
      var init := current[..|current| - 1];
      NoSharedBssidScoresZero(init, ms);
      NoMatch(current[|current| - 1], ms);
    }
  }

  lemma {:induction false} NoMatch(c: Measure, ms: seq<Measure>)
    requires NonZero(ms) && c.bssid !in Bssids(ms)
    ensures MatchList(c, ms) == []
  {
    if ms != [] {
      var init := ms[..|ms| - 1];
      assert ms[|ms| - 1] in ms;
      assert Bssids(init) <= Bssids(ms) by {
        forall k | k in Bssids(init) ensures k in Bssids(ms) {
          var j :| j in init && j.bssid == k;
          assert j in ms;
        }
      }
      NoMatch(c, init);
    }
  }

  /** The weights calcWeight gives to particles with the expected readings
      `profiles`, in list order. */
  function Scores(current: seq<Measure>, profiles: seq<seq<Measure>>): (r: seq<real>)
    requires current != [] && forall i :: 0 <= i < |profiles| ==> NonZero(profiles[i])
    ensures |r| == |profiles|
  {
    seq(|profiles|, i requires 0 <= i < |profiles| => Score(current, profiles[i]))
  }

  // ---- normalisation (sumWeight, normWeight) ----

  /** Each weight divided by `s`, as normWeight sets them. */
  function Scaled(ws: seq<real>, s: real): (r: seq<real>)
    requires s != 0.0
    ensures |r| == |ws|
  {
    seq(|ws|, i requires 0 <= i < |ws| => ws[i] / s)
  }

  lemma {:induction false} RealSumScaled(ws: seq<real>, s: real)
    requires s != 0.0
    ensures RealSum(Scaled(ws, s)) == RealSum(ws) / s
  {
    if ws != [] {
      var init := ws[..|ws| - 1];
      RealSumScaled(init, s);
      assert Scaled(ws, s)[..|ws| - 1] == Scaled(init, s);
      assert RealSum(init) / s + ws[|ws| - 1] / s == (RealSum(init) + ws[|ws| - 1]) / s;
    }
  }

  /** After normalisation the weights sum to 1 and keep their proportions. */
  lemma NormalisedSumsToOne(ws: seq<real>)
    requires RealSum(ws) != 0.0
    ensures RealSum(Scaled(ws, RealSum(ws))) == 1.0
    ensures forall i, j :: 0 <= i < |ws| && 0 <= j < |ws| && ws[i] <= ws[j] && RealSum(ws) > 0.0 ==>
              Scaled(ws, RealSum(ws))[i] <= Scaled(ws, RealSum(ws))[j]
  {
    var s := RealSum(ws);
    RealSumScaled(ws, s);
    assert s / s == 1.0;
    if s > 0.0 {
      forall i, j | 0 <= i < |ws| && 0 <= j < |ws| && ws[i] <= ws[j]
        ensures Scaled(ws, s)[i] <= Scaled(ws, s)[j]
      {
        DivideBoth(ws[i], ws[j], s);
      }
    }
  }

  lemma DivideBoth(a: real, b: real, s: real)
    requires a <= b && s > 0.0
    ensures a / s <= b / s
  {
    assert b / s - a / s == (b - a) / s;
  }

  // ---- the survivor test of propagate ----

  /** The items whose weight is at least `t`, in their original order. */
  function Keep<T>(xs: seq<T>, ws: seq<real>, t: real): seq<T>
    requires |xs| == |ws|
  {
    if xs == [] then []
    else
      var n := |xs| - 1;
      Keep(xs[..n], ws[..n], t) + (if ws[n] >= t then [xs[n]] else [])
  }

  /** The positions of the items Keep retains, ascending. */
  function KeptIndices(ws: seq<real>, t: real): seq<nat>
  {
    if ws == [] then []
    else
      var n := |ws| - 1;
      KeptIndices(ws[..n], t) + (if ws[n] >= t then [n] else [])
  }

  /** Keep retains exactly the items at or above the threshold, in their
      original order: its result is the list at the ascending positions
      KeptIndices names. */
  lemma {:induction false} KeepSpec<T>(xs: seq<T>, ws: seq<real>, t: real)
    requires |xs| == |ws|
    ensures var k := KeptIndices(ws, t);
            |Keep(xs, ws, t)| == |k| &&
            forall m :: 0 <= m < |k| ==> k[m] < |xs| && Keep(xs, ws, t)[m] == xs[k[m]]
  {
    if xs != [] {
      var n := |xs| - 1;
      KeepSpec(xs[..n], ws[..n], t);
      var k0 := KeptIndices(ws[..n], t);
      var r0 := Keep(xs[..n], ws[..n], t);
      var k := KeptIndices(ws, t);
      var r := Keep(xs, ws, t);
      assert k == k0 + (if ws[n] >= t then [n] else []);
      assert r == r0 + (if ws[n] >= t then [xs[n]] else []);
      forall m | 0 <= m < |k|
        ensures k[m] < |xs| && r[m] == xs[k[m]]
      {
        if m < |k0| {
          assert k[m] == k0[m] && r[m] == r0[m];
          assert xs[..n][k0[m]] == xs[k0[m]];
        }
      }
    }
  }

  /** The kept positions ascend and are exactly those whose weight is at
      least `t`. */
  lemma {:induction false} KeptIndicesSpec(ws: seq<real>, t: real)
    ensures var k := KeptIndices(ws, t);
            (forall m :: 0 <= m < |k| ==> k[m] < |ws|) &&
            (forall m, n :: 0 <= m < n < |k| ==> k[m] < k[n]) &&
            (forall i :: 0 <= i < |ws| ==> (i in k <==> ws[i] >= t))
  {
    if ws != [] {
      var n := |ws| - 1;
      KeptIndicesSpec(ws[..n], t);
      var k0 := KeptIndices(ws[..n], t);
      var k := KeptIndices(ws, t);
      assert k == k0 + (if ws[n] >= t then [n] else []);
      forall i | 0 <= i < |ws|
        ensures i in k <==> ws[i] >= t
      {
        if i < n {
          assert ws[..n][i] == ws[i];
          assert i in k <==> i in k0;
        }
      }
    }
  }

  /** Keep draws its items from the list, never more of them than there
      are, and never repeats one the list does not repeat. */
  lemma KeepFromList<T>(xs: seq<T>, ws: seq<real>, t: real)
    requires |xs| == |ws|
    ensures |Keep(xs, ws, t)| <= |xs|
    ensures forall m :: 0 <= m < |Keep(xs, ws, t)| ==> Keep(xs, ws, t)[m] in xs
    ensures (forall i, j :: 0 <= i < j < |xs| ==> xs[i] != xs[j]) ==>
              forall m, n :: 0 <= m < n < |Keep(xs, ws, t)| ==> Keep(xs, ws, t)[m] != Keep(xs, ws, t)[n]
  {
    KeepSpec(xs, ws, t);
    KeptIndicesSpec(ws, t);
    var k := KeptIndices(ws, t);
    KeptIndicesBound(k, |ws|);
  }

  /** A strictly ascending list of positions below `n` has at most `n` entries. */
  lemma {:induction false} KeptIndicesBound(k: seq<nat>, n: nat)
    requires forall m :: 0 <= m < |k| ==> k[m] < n
    requires forall m, m' :: 0 <= m < m' < |k| ==> k[m] < k[m']
    ensures |k| <= n
  {
    if k != [] {
      var last := k[|k| - 1];
      var init := k[..|k| - 1];
      forall m | 0 <= m < |init| ensures init[m] < last {
        assert init[m] == k[m];
      }
      KeptIndicesBound(init, last);
    }
  }

  /** Thresholding at the mean weight keeps at least one item of a
      non-empty list. */
  lemma KeepAtMeanNonEmpty<T>(xs: seq<T>, ws: seq<real>)
    requires |xs| == |ws| && xs != []
    ensures Keep(xs, ws, RealSum(ws) / |ws| as real) != []
  {
    var t := RealSum(ws) / |ws| as real;
    SomeoneReachesMean(ws);
    var i :| 0 <= i < |ws| && ws[i] >= t;
    KeptIndicesSpec(ws, t);
    KeepSpec(xs, ws, t);
    assert i in KeptIndices(ws, t);
  }

  /** Some weight is always at least the mean, so propagate keeps at least
      one particle when the mean is taken over the whole list. */
  lemma SomeoneReachesMean(ws: seq<real>)
    requires ws != []
    ensures exists i :: 0 <= i < |ws| && ws[i] >= RealSum(ws) / |ws| as real
  {
    var t := RealSum(ws) / |ws| as real;
    assert |ws| as real * t == RealSum(ws);
    if forall i :: 0 <= i < |ws| ==> ws[i] < t {
      AllBelow(ws, t);
      assert false;
    }
  }

  lemma {:induction false} AllBelow(ws: seq<real>, t: real)
    requires ws != [] && forall i :: 0 <= i < |ws| ==> ws[i] < t
    ensures RealSum(ws) < |ws| as real * t
  {
    var init := ws[..|ws| - 1];
    if init != [] {
      AllBelow(init, t);
    }
  }
}
