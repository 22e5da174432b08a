/**
 * The two pieces of logic inside the scanning screen that shape what is
 * stored as a fingerprint: the first-occurrence de-duplication of one scan
 * (ScanningActivity.scanAccessPoints) and the per-BSSID mean over several
 * scans (ScanningActivity.calcMean).
 *
 * A scan is a HashMap from BSSID to signal strength, a `map<string, int>`
 * here. HashMap iteration order is unspecified, so the loops over a map's
 * entries pick the next key with `:|`; every contract below holds whatever
 * order the keys are visited in.
 */
module ScanAveraging {
  import opened JavaMath

  /** One averaged or raw scan: BSSID to level (dBm). */
  type Scan = map<string, int>

  /** One android ScanResult, reduced to the two fields the scan reads. */
  datatype ScanResult = ScanResult(bssid: string, level: int)

  // ---------------------------------------------------------------------
  // De-duplication of one scan
  // ---------------------------------------------------------------------

  /** The map scanAccessPoints builds from the results `rs`, visited in list
      order, where a BSSID already present is left alone. */
  function FirstLevels(rs: seq<ScanResult>): Scan
  {
    if rs == [] then map[]
    else
      var m := FirstLevels(rs[..|rs| - 1]);
      var r := rs[|rs| - 1];
      if r.bssid in m then m else m[r.bssid := r.level]
  }

  /** The de-duplicated scan holds exactly the BSSIDs that were seen, and
      each with the level of its FIRST occurrence: later duplicates are
      ignored. */
  lemma {:induction false} FirstLevelsSpec(rs: seq<ScanResult>)
    ensures forall k :: k in FirstLevels(rs) <==> exists i :: 0 <= i < |rs| && rs[i].bssid == k
    ensures forall i :: 0 <= i < |rs| && (forall j :: 0 <= j < i ==> rs[j].bssid != rs[i].bssid) ==>
              rs[i].bssid in FirstLevels(rs) && FirstLevels(rs)[rs[i].bssid] == rs[i].level
  {
    if rs != [] {
      var n := |rs| - 1;
      var init := rs[..n];
      FirstLevelsSpec(init);
      forall i | 0 <= i < n
        ensures init[i] == rs[i]
      {
      }
      forall k
        ensures k in FirstLevels(rs) <==> exists i :: 0 <= i < |rs| && rs[i].bssid == k
      {
        if k in FirstLevels(rs) && k != rs[n].bssid {
          var i :| 0 <= i < n && init[i].bssid == k;
          assert rs[i].bssid == k;
        }
        if exists i :: 0 <= i < |rs| && rs[i].bssid == k {
          var i :| 0 <= i < |rs| && rs[i].bssid == k;
          if i < n {
            assert init[i].bssid == k;
          }
        }
      }
      forall i | 0 <= i < |rs| && (forall j :: 0 <= j < i ==> rs[j].bssid != rs[i].bssid)
        ensures rs[i].bssid in FirstLevels(rs) && FirstLevels(rs)[rs[i].bssid] == rs[i].level
      {
        if i < n {
          assert init[i] == rs[i];
        }
      }
    }
  }

  /** Two readings of "a" keep the first one's level. */
  lemma FirstLevelsExample()
    ensures FirstLevels([ScanResult("a", -40), ScanResult("b", -50), ScanResult("a", -90)])
            == map["a" := -40, "b" := -50]
  {
    var rs := [ScanResult("a", -40), ScanResult("b", -50), ScanResult("a", -90)];
    assert "a" != "b" by {
      assert "a"[0] != "b"[0];
    }
    assert rs[..2] == [ScanResult("a", -40), ScanResult("b", -50)];
    assert rs[..2][..1] == [ScanResult("a", -40)];
    assert [ScanResult("a", -40)][..0] == [];
    var m1 := FirstLevels(rs[..2][..1]);
    assert m1 == map["a" := -40];
    var m2 := FirstLevels(rs[..2]);
    assert m2 == m1["b" := -50];
    assert "a" in m2;
  }

  /** scanAccessPoints: an empty map when the scan could not be started,
      otherwise the results with repeated BSSIDs filtered out. Whether
      startScan succeeds and what getScanResults returns come from the WiFi
      service and are parameters here. */
  method ScanAccessPoints(started: bool, scanResult: seq<ScanResult>) returns (res: Scan)
    ensures !started ==> res == map[]
    ensures started ==> res == FirstLevels(scanResult)
  {
    res := map[];
    if started {
      var i := 0;
      assert scanResult[..0] == [];
      while i < |scanResult|
        invariant 0 <= i <= |scanResult|
        invariant res == FirstLevels(scanResult[..i])
      {
        var scan := scanResult[i];
        if scan.bssid !in res {
          res := res[scan.bssid := scan.level];
        }
        assert scanResult[..i + 1][..i] == scanResult[..i];
        i := i + 1;
      }
      assert scanResult[..|scanResult|] == scanResult;
    }
  }

  // ---------------------------------------------------------------------
  // Mean over several scans
  //
  // calcMean only ever compares BSSIDs for equality, so the mean is stated
  // for scans keyed by any type K; the scanning screen uses strings.
  // ---------------------------------------------------------------------

  /** Every BSSID that appears in some scan. */
  function AllKeys<K>(scans: seq<map<K, int>>): set<K>
  {
    if scans == [] then {} else AllKeys(scans[..|scans| - 1]) + scans[|scans| - 1].Keys
  }

  /** The readings of `key`, one per scan that contains it, in scan order:
      the list calcMean gathers in temp.get(key). */
  function Column<K>(scans: seq<map<K, int>>, key: K): seq<int>
  {
    if scans == [] then []
    else
      var s := scans[|scans| - 1];
      Column(scans[..|scans| - 1], key) + (if key in s then [s[key]] else [])
  }

  /** The positions of the scans that contain `key`. */
  function Holders<K>(scans: seq<map<K, int>>, key: K): seq<nat>
  {
    if scans == [] then []
    else
      var n := |scans| - 1;
      Holders(scans[..n], key) + (if key in scans[n] then [n] else [])
  }

  /** What calcMean returns: for each BSSID seen, the Java int quotient of
      the sum of its readings by their number. */
  function MeanOf<K>(scans: seq<map<K, int>>): map<K, int>
  {
    map k | k in AllKeys(scans) :: TruncMean(Column(scans, k))
  }

  /** A BSSID is in AllKeys exactly when some scan contains it. */
  lemma {:induction false} AllKeysSpec<K>(scans: seq<map<K, int>>)
    ensures forall k :: k in AllKeys(scans) <==> exists i :: 0 <= i < |scans| && k in scans[i]
  {
    if scans != [] {
      var n := |scans| - 1;
      var init := scans[..n];
      AllKeysSpec(init);
      forall k
        ensures k in AllKeys(scans) <==> exists i :: 0 <= i < |scans| && k in scans[i]
      {
        if k in AllKeys(init) {
          var i :| 0 <= i < n && k in init[i];
          assert k in scans[i];
        }
        if exists i :: 0 <= i < |scans| && k in scans[i] {
          var i :| 0 <= i < |scans| && k in scans[i];
          if i < n {
            assert k in init[i];
          }
        }
      }
    }
  }

  /** The holders ascend and are exactly the scans containing `key`; the
      column holds, in that order, each holder's reading of `key`. */
  lemma {:induction false} HoldersSpec<K>(scans: seq<map<K, int>>, key: K)
    ensures var h := Holders(scans, key);
            (forall m :: 0 <= m < |h| ==> h[m] < |scans|) &&
            (forall m, m' :: 0 <= m < m' < |h| ==> h[m] < h[m']) &&
            (forall i :: 0 <= i < |scans| ==> (i in h <==> key in scans[i]))
    ensures var h := Holders(scans, key);
            |Column(scans, key)| == |h| &&
            forall m :: 0 <= m < |h| ==>
              (h[m] < |scans| && key in scans[h[m]] && Column(scans, key)[m] == scans[h[m]][key])
  {
    if scans != [] {
      var n := |scans| - 1;
      var init := scans[..n];
      HoldersSpec(init, key);
      var h0 := Holders(init, key);
      var c0 := Column(init, key);
      var h := Holders(scans, key);
      var c := Column(scans, key);
      assert h == h0 + (if key in scans[n] then [n] else []);
      assert c == c0 + (if key in scans[n] then [scans[n][key]] else []);
      forall i | 0 <= i < |scans|
        ensures i in h <==> key in scans[i]
      {
        if i < n {
          assert init[i] == scans[i];
          assert i in h0 <==> i in h;
        }
      }
      forall m | 0 <= m < |h|
        ensures h[m] < |scans| && key in scans[h[m]] && c[m] == scans[h[m]][key]
      {
        if m < |h0| {
          assert h[m] == h0[m] && c[m] == c0[m];
          assert init[h0[m]] == scans[h0[m]];
        }
      }
    }
  }

  /** A BSSID has readings exactly when some scan contains it. */
  lemma ColumnNonEmpty<K>(scans: seq<map<K, int>>, key: K)
    ensures key in AllKeys(scans) <==> Column(scans, key) != []
  {
    AllKeysSpec(scans);
    HoldersSpec(scans, key);
    var h := Holders(scans, key);
    if key in AllKeys(scans) {
      var i :| 0 <= i < |scans| && key in scans[i];
      assert i in h;
    }
    if Column(scans, key) != [] {
      assert key in scans[h[0]];
    }
  }

  /** The keys of the mean are the union of the keys of all the scans. */
  lemma MeanKeysAreUnion<K>(scans: seq<map<K, int>>)
    ensures forall k :: k in MeanOf(scans) <==> exists i :: 0 <= i < |scans| && k in scans[i]
  {
    AllKeysSpec(scans);
  }

  /** Each value of the mean is the sum of its readings divided, truncating
      toward zero, by the number of scans that contain it; scans without the
      BSSID do not count. */
  lemma MeanValue<K>(scans: seq<map<K, int>>, key: K)
    requires key in MeanOf(scans)
    ensures var c := Column(scans, key);
            |c| == |Holders(scans, key)| > 0 && MeanOf(scans)[key] == TruncDiv(Sum(c), |c|)
  {
    ColumnNonEmpty(scans, key);
    HoldersSpec(scans, key);
  }

  /** No scans give an empty mean. */
  lemma MeanOfNothing<K>()
    ensures MeanOf<K>([]) == map[]
  {
  }

  /** A single scan is its own mean. */
  lemma MeanOfOne<K>(s: map<K, int>)
    ensures MeanOf([s]) == s
  {
    assert [s][..0] == [];
    assert AllKeys([s]) == s.Keys;
    forall k | k in s
      ensures MeanOf([s])[k] == s[k]
    {
      assert Column([s], k) == [s[k]];
      assert [s[k]][..0] == [];
      assert Sum([s[k]]) == s[k];
    }
  }

  /** Each mean lies between the least and the greatest reading of its
      BSSID. */
  lemma MeanWithinReadings<K>(scans: seq<map<K, int>>, key: K, lo: int, hi: int)
    requires key in MeanOf(scans)
    requires forall i :: 0 <= i < |scans| && key in scans[i] ==> lo <= scans[i][key] <= hi
    ensures lo <= MeanOf(scans)[key] <= hi
  {
    ColumnNonEmpty(scans, key);
    HoldersSpec(scans, key);
    var c := Column(scans, key);
    var h := Holders(scans, key);
    forall m | 0 <= m < |c|
      ensures lo <= c[m] <= hi
    {
      assert c[m] == scans[h[m]][key];
    }
    TruncMeanBounds(c, lo, hi);
  }

  /** Two scans with "a" at -40 and -61 and one with "b" at -70: "a"
      averages to -50 (-101 / 2 truncated toward zero, not floored to -51)
      and "b" keeps -70, divided by one scan and not by two. */
  lemma MeanExample()
    ensures MeanOf([map["a" := -40, "b" := -70], map["a" := -61]]) == map["a" := -50, "b" := -70]
  {
    assert "a" != "b" by {
      assert "a"[0] != "b"[0];
    }
    var s0: map<string, int> := map["a" := -40, "b" := -70];
    var s1: map<string, int> := map["a" := -61];
    var scans := [s0, s1];
    assert s0.Keys == {"a", "b"} && s1.Keys == {"a"};
    assert scans[..1] == [s0] && [s0][..0] == [];
    assert AllKeys([s0]) == {"a", "b"};
    assert AllKeys(scans) == {"a", "b"};
    assert Column([s0], "a") == [-40];
    assert Column(scans, "a") == [-40, -61];
    assert [-40, -61][..1] == [-40] && [-40][..0] == [];
    assert Sum([-40, -61]) == -101;
    assert Column([s0], "b") == [-70];
    assert Column(scans, "b") == [-70];
    assert [-70][..0] == [];
  }

  /** The body of the first loop of calcMean for one scan `res`: each of
      its readings appended to the list of its BSSID, a new list being
      started for a BSSID not seen before. */
  method AddScan<K>(temp: map<K, seq<int>>, res: map<K, int>) returns (next: map<K, seq<int>>)
    ensures next.Keys == temp.Keys + res.Keys
    ensures forall k :: k in next && k !in res ==> next[k] == temp[k]
    ensures forall k :: k in res ==> next[k] == (if k in temp then temp[k] else []) + [res[k]]
  {
    next := temp;
    var keys := res.Keys;
    ghost var done: set<K> := {};
    while keys != {}
      invariant keys <= res.Keys && done == res.Keys - keys
      invariant next.Keys == temp.Keys + done
      invariant forall k :: k in next && k !in done ==> next[k] == temp[k]
      invariant forall k :: k in done ==> next[k] == (if k in temp then temp[k] else []) + [res[k]]
      decreases keys
    {
      var key :| key in keys;
      // a BSSID seen for the first time starts an empty list
      var list := if key in next then next[key] else [];
      next := next[key := list + [res[key]]];
      done := done + {key};
      keys := keys - {key};
    }
  }

  /** The first loop of calcMean: every reading of every scan appended to
      the list of its BSSID, scan after scan. */
  method GroupByBssid<K>(meas: seq<map<K, int>>) returns (temp: map<K, seq<int>>)
    ensures temp.Keys == AllKeys(meas)
    ensures forall k :: k in temp ==> temp[k] == Column(meas, k)
  {
    temp := map[];
    var i := 0;
    assert meas[..0] == [];
    while i < |meas|
      invariant 0 <= i <= |meas|
      invariant temp.Keys == AllKeys(meas[..i])
      invariant forall k :: k in temp ==> temp[k] == Column(meas[..i], k)
    {
      ghost var before := temp;
      temp := AddScan(temp, meas[i]);
      assert meas[..i + 1][..i] == meas[..i];
      assert temp.Keys == AllKeys(meas[..i + 1]);
      forall k | k in temp
        ensures temp[k] == Column(meas[..i + 1], k)
      {
        if k !in before {
          assert k !in AllKeys(meas[..i]);
          ColumnNonEmpty(meas[..i], k);
        }
      }
      i := i + 1;
    }
    assert meas[..|meas|] == meas;
  }

  /** calcMean: for each BSSID, the sum of its readings divided by the
      number of scans that hold it. */
  method CalcMean<K>(meas: seq<map<K, int>>) returns (result: map<K, int>)
    ensures result == MeanOf(meas)
  {
    result := map[];
    var temp := GroupByBssid(meas);
    var pending := temp.Keys;
    while pending != {}
      invariant pending <= temp.Keys
      invariant result.Keys == temp.Keys - pending
      invariant forall k :: k in result ==> result[k] == TruncMean(temp[k])
      decreases pending
    {
      var key :| key in pending;
      var values := temp[key];
      var signal := 0;
      var num := |values|;
      var j := 0;
      assert values[..0] == [];
      while j < |values|
        invariant 0 <= j <= |values|
        invariant signal == Sum(values[..j])
      {
        signal := signal + values[j];
        assert values[..j + 1][..j] == values[..j];
        j := j + 1;
      }
      assert values[..|values|] == values;
      ColumnNonEmpty(meas, key);
      signal := TruncDiv(signal, num);
      result := result[key := signal];
      pending := pending - {key};
    }
  }
}
