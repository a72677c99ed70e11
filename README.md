# Crowd-report clustering and intensity rules, in Dafny

This project models the core of an earthquake "felt-it" reporting app.

- **The clustering engine** (`lib/clustering-service.ts`). It takes user reports, each with an id, coordinates and a self-reported MMI intensity, and groups them around seed reports.
  - It walks the reports in order. Every report whose id is not yet visited seeds a group. The group takes in every still-unvisited report within `radiusKm` of the seed.
  - Groups of three or more become clusters. A cluster carries its centroid, its mean, minimum and maximum intensity, and a "verified" flag that is set from twenty members.
  - Smaller groups are dropped, and their members stay visited.
  - The clusters are then ordered by size, largest first. Ties keep their scan order.
  - Each cluster is classified into a severity, which picks a display colour.
- **The intensity rules** (`lib/intensity-utils.ts`).
  - An intensity estimate on the 1..9 scale is computed from magnitude and depth.
  - Each level has a textual description.
  - Each level maps to a risk level.

Files:

- `levels.dfy`, module `Levels`: the `'low' | 'medium' | 'high' | 'critical'` scale that both classifiers return.
- `aggregates.dfy`, module `Aggregates`: the sums (`reduce`), means and `Math.min` / `Math.max` used for a cluster's statistics.
- `clustering.dfy`, module `ClusteringService`: the data model and the reference definition of the scan.
  - `Gather` describes the inner loop after `j` reports; `Scan` describes the outer loop after `i` seeds.
  - `SortByCountDesc` is a stable sort by descending count.
  - `ClusterReports` is the imperative method. It has the two nested loops, a `visited` set and the final sort, and it is proved equal to `Clusters`. Its loop invariants tie each loop to `Gather` and `Scan`.
  - It also holds `ClusterSeverity` and `ClusterColor`.
- `clustering_properties.dfy`, module `ClusteringProperties`: what the engine guarantees, proved about `Clusters` and `Scan`.
- `intensity.dfy`, module `IntensityUtils`: `EstimateIntensity`, `IntensityDescription`, `RiskLevel`, the `INTENSITY_LEVELS` table lookup, and their properties.

Differences between the design description and the code (the model follows the code):

- The design says a zero radius always yields no clusters. The code compares `distance <= radiusKm` and never compares the seed with itself. So with a zero radius, reports at the seed's exact position (distance 0) are still taken in. `ZeroRadiusCoincidentReports` shows three coincident reports forming a cluster. Only a negative radius guarantees an empty result, when distances are never negative (`NegativeRadiusNoClusters`).
- Reports that share an id are collapsed by the visited set. The first report with a given id that the scan reaches, as a seed or as an in-range candidate of some seed, takes the id. Every other report with that id is skipped afterwards. So a later duplicate can join a group while an earlier one never seeds (`LaterDuplicateJoins`).

## Model

| member | source | states |
|---|---|---|
| `Aggregates.MinOf` | lib/clustering-service.ts:65-66 | `Math.min` of the member intensities is one of them and no larger than any of them |
| `Aggregates.MaxOf` | lib/clustering-service.ts:65-67 | `Math.max` of the member intensities is one of them and no smaller than any of them |
| `Aggregates.SumBounds` | lib/clustering-service.ts:61-64 | the `reduce` sum of values that all lie in [lo, hi] lies between n * lo and n * hi |
| `Aggregates.MeanBounds` | lib/clustering-service.ts:61-64 | a mean computed as sum / length lies between any lower and upper bound of the values |
| `ClusteringService.MakeCluster` | lib/clustering-service.ts:60-79 | the emitted record holds its members, `reportCount` is their number, `isVerified` holds iff there are at least 20, min/max intensity are the true extremes of the members, and min <= average <= max |
| `ClusteringService.ClusterReports` | lib/clustering-service.ts:27-85 | the nested loops over the visited set, followed by the sort, return exactly `Clusters(reports, dist, radiusKm)`; the loop invariants tie each outer step to `Scan` and each inner step to `Gather`; an empty input returns `[]` at once |
| `ClusteringService.ClusterSeverity` | lib/clustering-service.ts:88-94 | critical exactly when verified; otherwise high iff count >= 15, medium iff 10 <= count < 15, low iff count < 10 |
| `ClusteringService.ClusterColor` | lib/clustering-service.ts:97-109 | each of the four fixed colours is returned exactly for its severity, with `#3b82f6` for low |
| `ClusteringProperties.GatherInvariant` | lib/clustering-service.ts:39-57 | the group's first member is its seed; every other member is within the radius of the seed and comes from the input; no id repeats; the newly visited ids are exactly the members' ids; every report scanned was visited before, taken now, or out of range of the seed |
| `ClusteringProperties.SeedGroupFacts` | lib/clustering-service.ts:36-79 | one seed's group marks exactly its members visited, only input ids are visited, and a kept group yields a cluster with correct statistics that is anchored at its seed |
| `ClusteringProperties.GroupStepOk` | lib/clustering-service.ts:59-80 | emitting a group of at least 3, or discarding a smaller one, preserves the outer-loop invariant (correct, anchored, pairwise disjoint clusters whose total size is at most the visited count) |
| `ClusteringProperties.ScanInvariant` | lib/clustering-service.ts:36-81 | after any number of seeds, the emitted clusters are well formed, anchored at their seeds and pairwise disjoint; their total size is at most the number of visited ids; visited ids are input ids and cover every report seeded so far |
| `ClusteringProperties.ScanVisitsEveryReport` | lib/clustering-service.ts:36-58 | at the end of the scan the visited ids are exactly the input's ids, so every report went to exactly one group, emitted or discarded |
| `ClusteringProperties.LaterClustersAvoidEarlierVisited` | lib/clustering-service.ts:37-60 | the scan only appends clusters, and a cluster emitted later shares no id with anything visited earlier, including the members of discarded groups |
| `ClusteringProperties.SortByCountDescCorrect` | lib/clustering-service.ts:84 | the sort returns a permutation of its input ordered by non-increasing `reportCount` |
| `ClusteringProperties.SortByCountDescStable` | lib/clustering-service.ts:84 | the sort is stable: for every count, the clusters with that count keep their relative order |
| `ClusteringProperties.ClustersSortedStable` | lib/clustering-service.ts:84 | the result is a permutation of the clusters built during the scan, non-increasing in `reportCount`, with ties in scan order |
| `ClusteringProperties.ClustersWellFormed` | lib/clustering-service.ts:39-79 | every emitted cluster has `reportCount` equal to its number of members and at least 3, is verified iff it has >= 20 members, has true min/max intensities with min <= average <= max and mean centroid, and has its seed first with every other member within the radius of the seed |
| `ClusteringProperties.ClustersDisjoint` | lib/clustering-service.ts:37-55 | no id is shared by two emitted clusters (nor repeated within one), and the total `reportCount` is at most the number of input reports |
| `ClusteringProperties.FewReportsNoClusters` | lib/clustering-service.ts:60 | fewer than three reports never produce a cluster |
| `ClusteringProperties.EmptyInputNoClusters` | lib/clustering-service.ts:31 | an empty input gives no clusters for any radius |
| `ClusteringProperties.NegativeRadiusNoClusters` | lib/clustering-service.ts:53-60 | when distances are non-negative and the radius is negative, every group is its seed alone and no cluster is emitted |
| `ClusteringProperties.AllNearFirstOneCluster` | lib/clustering-service.ts:36-81 | when ids are distinct, there are at least 3 reports, and all lie within the radius of the first, the result is one cluster holding the whole input in order |
| `ClusteringProperties.LargeGroupIsCritical` | lib/clustering-service.ts:78-101 | such a group of at least 20 reports is one verified cluster, with severity critical and colour `#dc2626` |
| `ClusteringProperties.OrderDependence` | lib/clustering-service.ts:36-60 | the same three reports give no cluster in one order and, in another, exactly one cluster holding all three, two of which are twice the radius apart: grouping is seed-anchored, order-dependent and not transitive |
| `ClusteringProperties.ZeroRadiusCoincidentReports` | lib/clustering-service.ts:44-56 | with a zero radius, three reports at the same point still form exactly one cluster holding all three |
| `ClusteringProperties.LaterDuplicateJoins` | lib/clustering-service.ts:36-55 | an earlier report out of the seed's range does not claim its id, so a later report with the same id joins the seed's group and the earlier one is skipped and never seeds |
| `ClusteringProperties.SeverityMonotone` | lib/clustering-service.ts:88-94 | for clusters whose flag follows the 20-member rule, a larger cluster never has a lower severity |
| `ClusteringProperties.ColorDeterminesSeverity` | lib/clustering-service.ts:97-109 | two clusters get the same colour iff they have the same severity (the four colours are distinct) |
| `IntensityUtils.Ceil` | lib/intensity-utils.ts:13 | `Math.ceil` gives the least integer not below its argument |
| `IntensityUtils.EstimateIntensity` | lib/intensity-utils.ts:11-26 | the estimate is in 1..9; inside the scale the magnitude lies in the unit band (e - adj, e - adj + 1], where e is the estimate and adj the depth correction (+1 under 30 km, -1 over 100 km, else 0); at 1 and at 9 the magnitude lies at or below, resp. beyond, that end's band |
| `IntensityUtils.EstimateIsClampedShift` | lib/intensity-utils.ts:13-25 | the estimate is `ceil(magnitude - 1)` plus 1 when depth < 30, minus 1 when depth > 100, unchanged otherwise, clamped to 1..9 |
| `IntensityUtils.EstimateMonotoneInMagnitude` | lib/intensity-utils.ts:13-25 | at a fixed depth the estimate never decreases as the magnitude grows |
| `IntensityUtils.EstimateAntitoneInDepth` | lib/intensity-utils.ts:16-25 | at a fixed magnitude the estimate never increases as the depth grows |
| `IntensityUtils.IntensityInfo` | components/earthquake-card.tsx:23-24 | `INTENSITY_LEVELS[intensity - 1]` is always in bounds for an estimate, and the row found is the one for the estimated level |
| `IntensityUtils.IntensityDescription` | lib/intensity-utils.ts:31-45 | levels 1..9 get an entry of the description table, and no other level on the scale gets the same one; every other integer, and only those, gets "Tidak diketahui" |
| `IntensityUtils.RiskLevel` | lib/intensity-utils.ts:50-55 | low iff intensity <= 3, medium iff 4..5, high iff 6..7, critical iff >= 8 |
| `IntensityUtils.RiskLevelMonotone` | lib/intensity-utils.ts:50-55 | a higher intensity never has a lower risk level |
| `IntensityUtils.EstimatedRiskMonotone` | lib/intensity-utils.ts:11-55 | the risk level of the estimate never falls as the magnitude grows at a fixed depth |

## Left out

- The great-circle distance is not modelled. `lib/distance-utils.ts` is not part of this model, and Haversine trigonometry is floating point. Callers pass the distance in as the parameter `dist`, and `Near` applies the source's `distance <= radiusKm` test to it.
- Cluster ids are not modelled. The source builds them from `Date.now()` and `Math.random()`, which is nondeterministic, so `Cluster` has no id field.
- Floating-point rounding is not modelled. Coordinates, means and magnitudes are exact `real`s. NaN and infinities are out of scope. Intensities are `int`.
- `Array.prototype.sort` is modelled by its contract, not its engine algorithm. The contract is a stable sort under the comparator `b.reportCount - a.reportCount`, given here by the reference insertion sort `SortByCountDesc`. The in-place update of the `clusters` array is modelled as a reassignment of a sequence.
- `IntensityUtils.IntensityDescription`: takes an `int`. In the source, a non-integer number is not a key of the table and also gets "Tidak diketahui". The model does not cover that case.
- `IntensityUtils.RiskLevel`: takes an `int`. The source accepts any number, and the thresholds work the same way for one.
- The inline copy of the estimate formula in `components/earthquake-card.tsx` is not modelled separately. It is the same rule as `EstimateIntensity`, and only its table lookup is modelled (`IntensityInfo`).
- The API routes, BMKG feed fetching, push and audio notifications, React hooks, UI components and map projection are not modelled. They are I/O, UI and floating-point plumbing around this core.
