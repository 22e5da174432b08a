/**
 * Measure.java: one WiFi reading, the access point's BSSID (its MAC
 * address) and the received signal strength (RSSI, in dBm).
 */
module Measures {

  /** A reading. The BSSID is final in the source; getBSSID and getRssi are
      the fields `bssid` and `rssi`. */
  datatype Measure = Measure(bssid: string, rssi: int) {

    /** setRssi: the reading with a new strength and the same access point. */
    function SetRssi(v: int): (m: Measure)
      ensures m.rssi == v && m.bssid == bssid
    {
      this.(rssi := v)
    }
  }

  /** The access points a list of readings mentions. */
  function Bssids(ms: seq<Measure>): set<string>
  {
    set m | m in ms :: m.bssid
  }

  /** The strengths recorded for access point `k`, in list order. */
  function ValuesFor(ms: seq<Measure>, k: string): seq<int>
  {
    if ms == [] then []
    else ValuesFor(ms[..|ms| - 1], k) + (if ms[|ms| - 1].bssid == k then [ms[|ms| - 1].rssi] else [])
  }

  /** Every strength of a list lies in `[lo, hi]`. */
  predicate StrengthsWithin(ms: seq<Measure>, lo: int, hi: int)
  {
    forall i :: 0 <= i < |ms| ==> lo <= ms[i].rssi <= hi
  }

  /** No two readings of the list share an access point. */
  predicate DistinctBssids(ms: seq<Measure>)
  {
    forall i, j :: 0 <= i < j < |ms| ==> ms[i].bssid != ms[j].bssid
  }

  /** The strengths found for `k` are those of readings of `k`, so they share
      any bounds of the whole list; they are absent exactly when `k` is. */
  lemma {:induction false} ValuesForFacts(ms: seq<Measure>, k: string, lo: int, hi: int)
    ensures (ValuesFor(ms, k) == []) <==> k !in Bssids(ms)
    ensures StrengthsWithin(ms, lo, hi) ==>
              forall i :: 0 <= i < |ValuesFor(ms, k)| ==> lo <= ValuesFor(ms, k)[i] <= hi
  {
    if ms != [] {
      var init := ms[..|ms| - 1];
      ValuesForFacts(init, k, lo, hi);
      assert Bssids(ms) == Bssids(init) + {ms[|ms| - 1].bssid} by {
        assert ms == init + [ms[|ms| - 1]];
      }
    }
  }
}
