# WiFi particle filter — a Dafny model

This project models the positioning core of the Android app *WiFi particle
filter* (package `lbs.wifiparticlefilter`). The app locates a phone indoors
from WiFi signal strengths. A store of *fingerprints* (a position plus the
list of BSSID/RSSI readings measured there) describes the room. A particle
filter keeps `numPart` hypothetical positions (*particles*). Each particle
carries readings interpolated from its nearest store neighbours and a weight
that says how well those readings match the live scan.

The modules follow the source's classes:

| module | file | models |
|---|---|---|
| `JavaMath` | java_math.dfy | Java's int division and `(int)` cast (truncation toward zero), `Math.round`, `Math.random` scaled to a range, `%d` formatting, `String.compareTo` order as used by a `TreeMap<String, …>` |
| `Points` | points.dfy | `Point`: coordinates, the four quadrant tests, identity-based `equals` |
| `Measures` | measures.dfy | `Measure`: one BSSID/RSSI reading |
| `Particles` | particles.dfy | `Particle` as a class: position, reading list and weight (`+∞` until weighted) |
| `Interpolation` | interpolation.dfy | `InterpolateParticle`: quadrant split of the store, nearest neighbour per quadrant, per-BSSID mean of the neighbours' readings |
| `Sampling` | sampling.dfy | the store's bounding border, the box around the survivors' mean, the mean position |
| `Weighting` | weighting.dfy | `calcWeight`'s score, normalisation, the survivor selection of `propagate` |
| `FilterEngine` | filter.dfy | `Filter` as a class: `initFilter`, `estimate`, `propagate` and their helpers |
| `ScanAveraging` | scan_averaging.dfy | `ScanningActivity`: the BSSID de-duplication of one scan and `calcMean` over several scans |

Each method is proved against a specification function. `Filter.estimate`
is proved to set each weight to its `calcWeight` score divided by the sum of
all scores. `Filter.propagate` is proved to keep exactly the particles whose
weight is at least `sum / numPart`, in order and untouched. It then appends
new particles, each placed where the source places it, interpolated from
the store and weighted `1/numPart`. The lemmas beside the functions give
what those functions mean: bounds, round trips, order, and the keys and
values of a map.

Behaviour of the code worth knowing, which the model keeps as written:
- `quad4th` tests the same region as `quad2nd`, although its comment
  describes a fourth quadrant (src/lbs/wifiparticlefilter/data/Point.java:87-111).
  Store points to the lower right of a particle therefore belong to no
  quadrant and are never used; the upper-left neighbour is counted twice.
- The border starts at `[MAX_VALUE, 0, MAX_VALUE, 0]`, so both maxima are
  never below 0, even for a store lying entirely at negative coordinates
  (src/lbs/wifiparticlefilter/filter/Filter.java:219-246).
- The half-width of the pseudo-random box is `0.2 * border[1]` on x and
  `0.2 * border[3]` on y, because `(b1 - b0) + b0` is just `b1`
  (src/lbs/wifiparticlefilter/filter/Filter.java:424-427).
- There is no special case for a degenerate filter. With no survivor,
  `Math.round(NaN)` gives the mean position (0, 0), and new particles are
  then drawn uniformly in the border
  (src/lbs/wifiparticlefilter/filter/Filter.java:139-141).
- In `getNearestPoint`, a `TreeMap` keyed by distance keeps, for equal
  distances, the index put last. The nearest neighbour among equally
  distant points therefore depends on `HashMap` iteration order
  (src/lbs/wifiparticlefilter/filter/InterpolateParticle.java:199-214).
- `calcWeight` divides by the number of live readings, not by the number of
  matches; a division by the match count is commented out
  (src/lbs/wifiparticlefilter/filter/Filter.java:361-362).

## Model

| member | source | states |
|---|---|---|
| JavaMath.TruncDiv | src/lbs/wifiparticlefilter/application/ScanningActivity.java:261 | Java's `int /` for a positive divisor truncates toward zero: `b*q <= a < b*q + b` for `a >= 0`, and `b*q - b < a <= b*q` for `a < 0` |
| JavaMath.TruncDivBounds | src/lbs/wifiparticlefilter/application/ScanningActivity.java:256-261 | a truncated quotient of a total lying between `n*lo` and `n*hi` lies between `lo` and `hi` |
| JavaMath.TruncMeanBounds | src/lbs/wifiparticlefilter/filter/InterpolateParticle.java:304-325 | the truncated mean of a non-empty list lies between any lower and upper bound of its elements |
| JavaMath.TruncMeanExamples | src/lbs/wifiparticlefilter/filter/InterpolateParticle.java:304-325 | -40 and -60 average to -50; -40 and -41 to -40, truncated toward zero; the empty list gives 0, as `(int) NaN` does |
| JavaMath.TruncToInt | src/lbs/wifiparticlefilter/filter/InterpolateParticle.java:322 | the `(int)` cast of a double moves toward zero by less than 1 |
| JavaMath.RoundedMeanBounds | src/lbs/wifiparticlefilter/filter/Filter.java:139-142 | `Math.round(total / count)` lies between any bounds of the averaged values |
| JavaMath.Sample | src/lbs/wifiparticlefilter/filter/Filter.java:202-207 | `(int) Math.round(random * (hi - lo) + lo)` always lies between `lo` and `hi`, whichever is smaller |
| JavaMath.SampleReaches | src/lbs/wifiparticlefilter/filter/Filter.java:202-207 | every integer between `lo` and `hi` is reached by some draw in [0, 1) |
| JavaMath.DigitsRoundTrip | src/lbs/wifiparticlefilter/data/Particle.java:168 | the `%d` digits of a natural number are non-empty, start with a digit and read back as that number |
| JavaMath.DecimalRoundTrip | src/lbs/wifiparticlefilter/data/Particle.java:168 | the `%d` text of any int, sign included, parses back to that int |
| JavaMath.StrLessAsymmetric | src/lbs/wifiparticlefilter/filter/InterpolateParticle.java:236 | the string order of the `TreeMap` is asymmetric |
| JavaMath.StrLessTotal | src/lbs/wifiparticlefilter/filter/InterpolateParticle.java:236 | any two distinct strings are ordered one way or the other |
| JavaMath.StrLessTransitive | src/lbs/wifiparticlefilter/filter/InterpolateParticle.java:236 | the string order is transitive |
| JavaMath.LeastExists | src/lbs/wifiparticlefilter/filter/InterpolateParticle.java:279 | a non-empty key set has a least key, the first one a `TreeMap` visits |
| JavaMath.LeastUnique | src/lbs/wifiparticlefilter/filter/InterpolateParticle.java:279 | that least key is unique |
| JavaMath.SortedKeysStep | src/lbs/wifiparticlefilter/filter/InterpolateParticle.java:279 | the `TreeMap` visits the least key first and then the others in order |
| JavaMath.SortedKeysSpec | src/lbs/wifiparticlefilter/filter/InterpolateParticle.java:279-292 | the visiting order lists exactly the keys of the set, strictly ascending |
| Points.Quad4thIsQuad2nd | src/lbs/wifiparticlefilter/data/Point.java:109-111 | `quad4th` accepts exactly the points `quad2nd` accepts |
| Points.UncoveredRegion | src/lbs/wifiparticlefilter/data/Point.java:76-111 | a point passes none of the four tests exactly when it lies strictly right of and strictly below the particle |
| Points.OwnQuadrants | src/lbs/wifiparticlefilter/data/Point.java:76-111 | borders are included: a point lies in all four of its own quadrants |
| Points.Equals | src/lbs/wifiparticlefilter/data/Point.java:55-67 | `equals` holds exactly for a non-null `Point` that is the same object |
| Points.EqualCoordinatesAreNotEnough | src/lbs/wifiparticlefilter/data/Point.java:55-67 | two distinct point objects at the same coordinates are not `equals` in either direction |
| Measures.Measure.SetRssi | src/lbs/wifiparticlefilter/data/Measure.java:46-48 | only the strength changes; the BSSID is kept |
| Measures.ValuesForFacts | src/lbs/wifiparticlefilter/filter/InterpolateParticle.java:239-271 | a BSSID has grouped values exactly when the list reads it, and the grouped values keep the list's bounds |
| Particles.Particle.constructor | src/lbs/wifiparticlefilter/data/Particle.java:33-38 | position and readings as given, weight `+∞` |
| Particles.Particle.WithWeight | src/lbs/wifiparticlefilter/data/Particle.java:48-53 | position, readings and weight as given |
| Particles.Particle.AtPoint | src/lbs/wifiparticlefilter/data/Particle.java:61-67 | position as given, no readings, weight `+∞` |
| Particles.Particle.SetWeight | src/lbs/wifiparticlefilter/data/Particle.java:106-108 | the new weight is set and the readings are left as they were |
| Particles.Particle.AddMeasure | src/lbs/wifiparticlefilter/data/Particle.java:137-141 | the reading is appended at the end, the weight is kept, and the call reports success |
| Particles.Particle.ToString | src/lbs/wifiparticlefilter/data/Particle.java:149-169 | the loop builds the text `Render` specifies from the position and every reading in order |
| Particles.MeasuresTextAppend | src/lbs/wifiparticlefilter/data/Particle.java:156-166 | one more reading appends its own `MAC: … Signal: …` piece to the text |
| Particles.RenderShowsPosition | src/lbs/wifiparticlefilter/data/Particle.java:168 | the text starts with `x: ` followed by the x coordinate, which reads back exactly |
| Sampling.BorderOfSpec | src/lbs/wifiparticlefilter/filter/Filter.java:221-247 | every store position lies inside the border; each bound is its start value or the coordinate of some store point; maxima are never below 0 |
| Sampling.BorderExamples | src/lbs/wifiparticlefilter/filter/Filter.java:223-244 | an empty store keeps `[MAX_VALUE, 0, MAX_VALUE, 0]`; (0,0),(5,2),(3,9) give `[0,5,0,9]`; a single point at (-3,-4) gives `[-3,0,-4,0]` |
| Sampling.BoxAroundMean | src/lbs/wifiparticlefilter/filter/Filter.java:424-427 | the box contains its centre, its bounds do not depend on `border[0]` (or `border[2]`), and for a non-negative upper border bound they lie either side of the centre |
| Sampling.CoordinateSumsAppend | src/lbs/wifiparticlefilter/filter/Filter.java:133-134 | each survivor adds its coordinates to the running sums |
| Sampling.MeanPointWithin | src/lbs/wifiparticlefilter/filter/Filter.java:139-142 | the rounded mean position of points inside a rectangle lies inside it |
| Sampling.MeanPointOfNothing | src/lbs/wifiparticlefilter/filter/Filter.java:139-142 | with no survivor the mean position is (0, 0) |
| Sampling.MeanPointRoundsHalfUp | src/lbs/wifiparticlefilter/filter/Filter.java:139-142 | halves round upward: 1.5 gives 2 and -1.5 gives -1 |
| Weighting.ContributionBounds | src/lbs/wifiparticlefilter/filter/Filter.java:342-349 | two strengths of the same sign contribute a value in (0, 1], the same whichever is live, and 1 exactly when they are equal |
| Weighting.ContributionExample | src/lbs/wifiparticlefilter/filter/Filter.java:342-349 | -40 against -80 contributes 0.5 both ways |
| Weighting.MatchListFacts | src/lbs/wifiparticlefilter/filter/Filter.java:329-351 | every match lies in (0, 1]; at most one match per expected reading, at most one in all when BSSIDs are distinct, none when the BSSID is absent |
| Weighting.WeightListFacts | src/lbs/wifiparticlefilter/filter/Filter.java:324-352 | every listed weight lies in (0, 1]; with distinct expected BSSIDs there are at most as many as live readings |
| Weighting.ScoreBounds | src/lbs/wifiparticlefilter/filter/Filter.java:315-366 | with negative strengths and distinct expected BSSIDs the weight lies in [0, 1] |
| Weighting.NoSharedBssidScoresZero | src/lbs/wifiparticlefilter/filter/Filter.java:315-366 | a particle sharing no BSSID with the live scan has no matches and weight 0 |
| Weighting.NoMatch | src/lbs/wifiparticlefilter/filter/Filter.java:329-351 | a live reading whose BSSID the particle lacks contributes nothing |
| Weighting.RealSumScaled | src/lbs/wifiparticlefilter/filter/Filter.java:395-410 | dividing every weight by `s` divides their sum by `s` |
| Weighting.NormalisedSumsToOne | src/lbs/wifiparticlefilter/filter/Filter.java:395-410 | after normalising by a nonzero sum the weights sum to 1, and with a positive sum their order is kept |
| Weighting.KeepSpec | src/lbs/wifiparticlefilter/filter/Filter.java:120-136 | the survivors are the items at the kept positions, in order |
| Weighting.KeptIndicesSpec | src/lbs/wifiparticlefilter/filter/Filter.java:120-136 | the kept positions ascend and are exactly those with weight `>= mean_weight` |
| Weighting.KeepFromList | src/lbs/wifiparticlefilter/filter/Filter.java:120-136 | there are never more survivors than particles, each is one of them, and distinct particles stay distinct |
| Weighting.KeepAtMeanNonEmpty | src/lbs/wifiparticlefilter/filter/Filter.java:106-136 | thresholding a non-empty list at its own mean weight keeps at least one particle |
| Weighting.SomeoneReachesMean | src/lbs/wifiparticlefilter/filter/Filter.java:112-128 | some weight is at least the mean of the weights |
| Interpolation.RootOrderIsSquareOrder | src/lbs/wifiparticlefilter/filter/InterpolateParticle.java:167-180 | comparing Euclidean distances is the same as comparing squared distances, both for order and for ties |
| Interpolation.QuadrantMap | src/lbs/wifiparticlefilter/filter/InterpolateParticle.java:61-89 | in coordinates: map 1 holds the store points in the closed upper-right quarter plane, maps 2 and 4 both the upper-left one, map 3 the lower-left one; a store point at the target itself is in every map and one strictly to its lower right in none |
| Interpolation.QuadrantMapsOverlap | src/lbs/wifiparticlefilter/filter/InterpolateParticle.java:61-89 | the second and fourth maps are equal, and a store point to the lower right is in none of the four |
| Interpolation.LeastDistanceIsNearest | src/lbs/wifiparticlefilter/filter/InterpolateParticle.java:199-214 | the index stored under the least distance key is that of a point no farther than any other |
| Interpolation.GetNearestPoint | src/lbs/wifiparticlefilter/filter/InterpolateParticle.java:190-223 | `Integer.MAX_VALUE` for an empty map, otherwise a key of the map whose point is nearest |
| Interpolation.MeanMeasure | src/lbs/wifiparticlefilter/filter/InterpolateParticle.java:304-325 | the loop computes the sum divided by the length, truncated toward zero, and 0 for an empty list |
| Interpolation.CastOfQuotient | src/lbs/wifiparticlefilter/filter/InterpolateParticle.java:318-322 | casting the double quotient to int gives the int quotient truncated toward zero |
| Interpolation.MeansOverAt | src/lbs/wifiparticlefilter/filter/InterpolateParticle.java:279-292 | one mean reading per key, in key order, each the truncated mean of that key's values |
| Interpolation.GroupByBssid | src/lbs/wifiparticlefilter/filter/InterpolateParticle.java:236-272 | the map holds, per BSSID read, that BSSID's strengths in list order |
| Interpolation.GetMeanMeasure | src/lbs/wifiparticlefilter/filter/InterpolateParticle.java:233-295 | the result is the mean profile of the readings |
| Interpolation.MeanProfileIsMerge | src/lbs/wifiparticlefilter/filter/InterpolateParticle.java:233-295 | the mean profile reads exactly the BSSIDs of the input, each once, in ascending string order, each with the truncated mean of its strengths |
| Interpolation.MeanProfileWithin | src/lbs/wifiparticlefilter/filter/InterpolateParticle.java:233-295 | strength bounds of the input hold for the mean profile |
| Interpolation.MeanProfileExample | src/lbs/wifiparticlefilter/filter/InterpolateParticle.java:233-295 | two readings of AP1 at -40 and -60 merge into one at -50 |
| Interpolation.MeanProfileOfNothing | src/lbs/wifiparticlefilter/filter/InterpolateParticle.java:233-295 | no readings give an empty profile |
| Interpolation.SortIntoQuadrants | src/lbs/wifiparticlefilter/filter/InterpolateParticle.java:61-89 | the loop fills the four maps as `QuadrantMap` specifies |
| Interpolation.GatherReadings | src/lbs/wifiparticlefilter/filter/InterpolateParticle.java:104-147 | the readings of each found neighbour are appended, quadrant 1 to 4, skipping `MAX_VALUE` |
| Interpolation.PicksInRange | src/lbs/wifiparticlefilter/filter/InterpolateParticle.java:92-99 | every nearest index found is `MAX_VALUE` or a valid store index |
| Interpolation.InterpolatedParticle | src/lbs/wifiparticlefilter/filter/InterpolateParticle.java:49-159 | a fresh particle at the same position, weight `+∞`, whose readings are the mean profile of its quadrant neighbours' readings |
| Interpolation.GatheredFromStore | src/lbs/wifiparticlefilter/filter/InterpolateParticle.java:104-147 | the gathered readings only use BSSIDs of the store and keep its strength bounds |
| Interpolation.InterpolatedProfileIsClean | src/lbs/wifiparticlefilter/filter/InterpolateParticle.java:49-159 | an interpolated profile has distinct BSSIDs in ascending order, all from the store, within the store's strength bounds |
| Interpolation.EmptyStoreGivesNoReadings | src/lbs/wifiparticlefilter/filter/InterpolateParticle.java:49-159 | an empty store gives a particle with no readings |
| Interpolation.SecondNeighbourCountedTwice | src/lbs/wifiparticlefilter/filter/InterpolateParticle.java:118-147 | with distinct distances the second and fourth picks coincide and that neighbour's readings are gathered twice |
| Interpolation.LowerRightPointIgnored | src/lbs/wifiparticlefilter/filter/InterpolateParticle.java:61-89 | a particle at (5,5) with the only store point at (6,4) gets no readings |
| FilterEngine.CalcBorder | src/lbs/wifiparticlefilter/filter/Filter.java:221-247 | a fresh four-cell array holding `BorderOf` of the store's positions |
| FilterEngine.MatchWeights | src/lbs/wifiparticlefilter/filter/Filter.java:329-350 | the inner loop lists the contribution of every expected reading sharing the live BSSID, in order |
| FilterEngine.AddUp | src/lbs/wifiparticlefilter/filter/Filter.java:354-359 | the loop returns the sum of the weight list |
| FilterEngine.Filter.constructor | src/lbs/wifiparticlefilter/filter/Filter.java:41-49 | an empty particle list, no live scan, the given count and store, and the border of the store |
| FilterEngine.Filter.CreateRandomPoint | src/lbs/wifiparticlefilter/filter/Filter.java:199-213 | the drawn point lies inside the border |
| FilterEngine.Filter.CreatePseudoRandomPoint | src/lbs/wifiparticlefilter/filter/Filter.java:421-446 | the drawn point lies inside the box around the given mean |
| FilterEngine.Filter.InitFilter | src/lbs/wifiparticlefilter/filter/Filter.java:55-78 | `numPart` fresh particles are appended after the old ones, each inside the border, interpolated from the store and weighted `1/numPart` |
| FilterEngine.Filter.Interpolate | src/lbs/wifiparticlefilter/filter/Filter.java:288-307 | one fresh interpolated particle per input, in order, at the same position, weight `+∞` |
| FilterEngine.Filter.SetCurrentMeasure | src/lbs/wifiparticlefilter/filter/Filter.java:266-268 | the live scan is replaced and the particles are untouched |
| FilterEngine.Filter.CalcWeight | src/lbs/wifiparticlefilter/filter/Filter.java:315-366 | the particle's weight becomes `Score`: the sum of all matched contributions divided by the number of live readings; its readings are kept |
| FilterEngine.Filter.SumWeight | src/lbs/wifiparticlefilter/filter/Filter.java:375-386 | the loop returns the sum of the particles' weights |
| FilterEngine.Filter.NormWeight | src/lbs/wifiparticlefilter/filter/Filter.java:395-410 | every weight is divided by the old sum of weights and the readings are kept |
| FilterEngine.Filter.WeighParticles | src/lbs/wifiparticlefilter/filter/Filter.java:87-93 | each particle's weight becomes its score against the live scan |
| FilterEngine.Filter.Estimate | src/lbs/wifiparticlefilter/filter/Filter.java:85-97 | the list, positions and readings are unchanged and each weight becomes its score divided by the sum of all scores |
| FilterEngine.Filter.SelectSurvivors | src/lbs/wifiparticlefilter/filter/Filter.java:120-136 | the particles with weight `>= mean_weight`, in order, and the sums of their coordinates |
| FilterEngine.Filter.TopUp | src/lbs/wifiparticlefilter/filter/Filter.java:146-187 | `count` fresh particles are appended, each placed near the centre when both of its coordinates are nonzero and anywhere in the border otherwise, interpolated and weighted `1/numPart` |
| FilterEngine.Filter.Propagate | src/lbs/wifiparticlefilter/filter/Filter.java:106-191 | the new list starts with exactly the survivors, in order and untouched, and has `max(numPart, survivors)` entries; each added particle is placed around the survivors' rounded mean position, interpolated and weighted `1/numPart` |
| FilterEngine.FullListStaysFull | src/lbs/wifiparticlefilter/filter/Filter.java:106-146 | propagating a list of exactly `numPart` particles keeps at least one survivor and ends with `numPart` particles |
| ScanAveraging.FirstLevelsSpec | src/lbs/wifiparticlefilter/application/ScanningActivity.java:224-226 | the de-duplicated scan holds exactly the BSSIDs seen, each with the level of its first occurrence |
| ScanAveraging.FirstLevelsExample | src/lbs/wifiparticlefilter/application/ScanningActivity.java:224-226 | a later reading of the same BSSID is ignored |
| ScanAveraging.ScanAccessPoints | src/lbs/wifiparticlefilter/application/ScanningActivity.java:213-229 | an empty map when the scan does not start, otherwise the first-occurrence map of the results |
| ScanAveraging.AllKeysSpec | src/lbs/wifiparticlefilter/application/ScanningActivity.java:241-252 | a BSSID is gathered exactly when some scan contains it |
| ScanAveraging.HoldersSpec | src/lbs/wifiparticlefilter/application/ScanningActivity.java:241-252 | a BSSID's list holds, in scan order, the reading of every scan that contains it and nothing else |
| ScanAveraging.ColumnNonEmpty | src/lbs/wifiparticlefilter/application/ScanningActivity.java:241-252 | a BSSID has readings exactly when it is one of the gathered keys |
| ScanAveraging.MeanKeysAreUnion | src/lbs/wifiparticlefilter/application/ScanningActivity.java:241-264 | the keys of the result are exactly the union of the keys of the scans |
| ScanAveraging.MeanValue | src/lbs/wifiparticlefilter/application/ScanningActivity.java:254-263 | each value is the sum of the BSSID's readings divided, truncating toward zero, by the number of scans holding it |
| ScanAveraging.MeanOfNothing | src/lbs/wifiparticlefilter/application/ScanningActivity.java:236-266 | no scans give an empty result |
| ScanAveraging.MeanOfOne | src/lbs/wifiparticlefilter/application/ScanningActivity.java:236-266 | a single scan is returned unchanged |
| ScanAveraging.MeanWithinReadings | src/lbs/wifiparticlefilter/application/ScanningActivity.java:256-261 | each mean lies between the least and greatest reading of its BSSID |
| ScanAveraging.MeanExample | src/lbs/wifiparticlefilter/application/ScanningActivity.java:254-263 | -40 and -61 average to -50 (truncated, not floored), and a BSSID read by one scan of two keeps its value |
| ScanAveraging.AddScan | src/lbs/wifiparticlefilter/application/ScanningActivity.java:243-251 | each reading of one scan is appended to its BSSID's list, a new list being started for a new BSSID; other lists are kept |
| ScanAveraging.GroupByBssid | src/lbs/wifiparticlefilter/application/ScanningActivity.java:241-252 | after all scans, each gathered BSSID maps to its readings in scan order |
| ScanAveraging.CalcMean | src/lbs/wifiparticlefilter/application/ScanningActivity.java:236-266 | the loops compute `MeanOf`, whatever order the map entries are visited in |

## Left out

- Floating point: doubles are modelled as exact reals. Rounding error, `NaN` and `±∞` arithmetic are not modelled, except that a weight can be `+∞` before weighting.
- Integer overflow: coordinates, strengths and the sums of `calcMean` are unbounded integers. Java's 32-bit wrap-around is not modelled.
- `getDistance` takes a square root. The model compares squared distances instead, and `RootOrderIsSquareOrder` shows this gives the same order and ties.
- `HashMap` iteration order is not modelled. Each loop over a map picks its next entry nondeterministically, and every contract holds for every order. The resulting choice among equally distant neighbours in `getNearestPoint` is therefore left open.
- `String.compareTo` is modelled as order on `char` values. `char` is a UTF-16 unit in Java and a code point in Dafny; outside the Basic Multilingual Plane the two orders can differ.
- `Math.random` is any value in [0, 1). Its uniform distribution is not modelled, only the range of each draw.
- The Android user interface, `ScanningActivity` apart from `calcMean` and the de-duplication loop, `PositioningActivity`, `MainActivity`, `DrawView` and `DatabaseHandler` are not part of this model. The WiFi service is reduced to the two parameters of `ScanAccessPoints`.
- The `getBorder` and `getParticles` getters and the getters of `Point`, `Measure` and `Particle` are field reads. Their fields are public in the model.
- `Measure.setRssi` is never called by the filter. It is modelled as a value update, so a change to a `Measure` shared between lists is not modelled.
- The `InterpolateParticle` object only holds its two constructor arguments. `InterpolatedParticle` takes the particle and a snapshot of the store as parameters instead.
- Loop extractions, one per loop nest:
  - In `InterpolateParticle`: `SortIntoQuadrants`, `GatherReadings` and `GroupByBssid`.
  - In `Filter`: `MatchWeights`, `AddUp`, `WeighParticles`, `SelectSurvivors` and `TopUp`.
  - In `ScanningActivity`: `AddScan` and `GroupByBssid`.

  Each runs the source's loop on values and is called where the loop stands.
- `calcMean` and `getMeanMeasure` fill maps of lists in place. The model rebuilds the list value instead, so the model does not cover aliasing between those lists.
- FilterEngine.Filter.CalcWeight: requires a live scan with at least one reading and no particle strength of 0. Without them Java divides by zero and the weight becomes `NaN` or `±∞`, which the real-number model does not represent.
- FilterEngine.Filter.WeighParticles: requires the same as `CalcWeight`, for every particle.
- FilterEngine.Filter.Estimate: requires the same as `CalcWeight`, and also that the scores do not sum to 0. For a non-empty particle list a zero sum makes Java divide by zero. For an empty list, where Java's `estimate` does nothing, the model excludes a call the app never makes, since the app runs `initFilter` first.
- FilterEngine.Filter.NormWeight: requires a nonzero sum of weights and distinct particle objects, since a particle listed twice would be divided twice.
- FilterEngine.Filter.constructor: requires at least one particle. With 0, Java runs an empty filter whose `1.0 / num_part` is never stored. The app's only call passes 30, and the model keeps `numPart > 0` so that `sum / numPart` in `propagate` is defined.
- FilterEngine.Filter.InitFilter and FilterEngine.Filter.TopUp: rely on `numPart > 0` through `Valid`, for the same reason.
- Particles.Particle.AddMeasure: the measure list is a value. Java shares it with the constructor's caller and with `getMeasure`, so an added measure is seen by every holder of that list; the model changes only this particle.
- Particles.Particle.ToString: assumes a locale whose digits are ASCII, since `String.format` uses the default locale.
- FilterEngine.Filter.Estimate: states which fields change through its `modifies` clause only. The store snapshot that seeded the particles is not restated afterwards.
- FilterEngine.Filter.Propagate: promises each new particle lies inside the box or the border, not that it is uniformly drawn there.
