/** The crowd-report clustering engine of lib/clustering-service.ts: one pass
    over the reports that anchors a group at every report not yet visited,
    keeps the groups of at least three members as clusters with aggregate
    statistics, and orders the clusters by size, largest first. */
module ClusteringService {
  import opened Aggregates
  import opened Levels

  datatype Option<T> = None | Some(value: T)

  /** A user's "felt it" report. Only `id`, the coordinates and the intensity
      take part in clustering; the other fields are carried through. */
  datatype Report = Report(
    id: string,
    latitude: real,
    longitude: real,
    intensityLevel: int,
    description: Option<string>,
    locationName: string,
    createdAt: string)

  /** An emitted cluster. The time-and-random identifier of the source is not
      part of the model. */
  datatype Cluster = Cluster(
    latitude: real,
    longitude: real,
    reportCount: nat,
    averageIntensity: real,
    minIntensity: int,
    maxIntensity: int,
    reports: seq<Report>,
    isVerified: bool)

  /** Great-circle distance in km between (lat1, lon1) and (lat2, lon2); the
      Haversine computation itself is supplied by the caller. */
  type Distance = (real, real, real, real) -> real

  const MinClusterSize: nat := 3
  const VerifiedThreshold: nat := 20
  const DefaultRadiusKm: real := 50.0

  /** `other` lies within the radius of the seed (the source's `distance <= radiusKm`). */
  predicate Near(dist: Distance, radiusKm: real, seed: Report, other: Report)
  {
    dist(seed.latitude, seed.longitude, other.latitude, other.longitude) <= radiusKm
  }

  function Latitudes(ms: seq<Report>): seq<real>
  {
    seq(|ms|, i requires 0 <= i < |ms| => ms[i].latitude)
  }

  function Longitudes(ms: seq<Report>): seq<real>
  {
    seq(|ms|, i requires 0 <= i < |ms| => ms[i].longitude)
  }

  function Intensities(ms: seq<Report>): seq<int>
  {
    seq(|ms|, i requires 0 <= i < |ms| => ms[i].intensityLevel)
  }

  function IntensityValues(ms: seq<Report>): seq<real>
  {
    seq(|ms|, i requires 0 <= i < |ms| => ms[i].intensityLevel as real)
  }

  /** The identifiers of a list of reports. */
  function IdSet(ms: seq<Report>): set<string>
  {
    set m | m in ms :: m.id
  }

  /** No identifier occurs twice in the list. */
  predicate DistinctIds(ms: seq<Report>)
  {
    forall a, b :: 0 <= a < b < |ms| ==> ms[a].id != ms[b].id
  }

  /** Builds the cluster record for a kept group: centroid, intensity
      statistics, size and verification flag. */
  function MakeCluster(members: seq<Report>): (c: Cluster)
    requires members != []
    ensures c.reports == members && c.reportCount == |members|
    ensures c.isVerified <==> |members| >= VerifiedThreshold
    ensures c.minIntensity in Intensities(members)
    ensures c.maxIntensity in Intensities(members)
    ensures forall k :: 0 <= k < |members| ==>
              c.minIntensity <= members[k].intensityLevel <= c.maxIntensity
    ensures c.minIntensity as real <= c.averageIntensity <= c.maxIntensity as real
  {
    var minIntensity := MinOf(Intensities(members));
    var maxIntensity := MaxOf(Intensities(members));
    assert forall k :: 0 <= k < |members| ==> Intensities(members)[k] == members[k].intensityLevel;
    MeanBounds(IntensityValues(members), minIntensity as real, maxIntensity as real);
    Cluster(
      Mean(Latitudes(members)),
      Mean(Longitudes(members)),
      |members|,
      Mean(IntensityValues(members)),
      minIntensity,
      maxIntensity,
      members,
      |members| >= VerifiedThreshold)
  }

  // ---------------------------------------------------------------------
  // Reference definition of the scan, one function per loop body.
  // ---------------------------------------------------------------------

  /** The state of the inner loop: the group collected so far and the
      visited identifiers. */
  datatype Group = Group(members: seq<Report>, visited: set<string>)

  /** One iteration of the inner loop: skip a visited report, otherwise take
      it in when it is within the radius of the seed. */
  function GatherStep(dist: Distance, radiusKm: real, seed: Report, g: Group, other: Report): Group
  {
    if other.id in g.visited then g
    else if Near(dist, radiusKm, seed, other) then Group(g.members + [other], g.visited + {other.id})
    else g
  }

  /** The inner loop after it has looked at `reports[..j]`. */
  function Gather(reports: seq<Report>, dist: Distance, radiusKm: real, seed: Report, start: Group, j: nat): Group
    requires j <= |reports|
  {
    if j == 0 then start
    else GatherStep(dist, radiusKm, seed, Gather(reports, dist, radiusKm, seed, start, j - 1), reports[j - 1])
  }

  /** The group anchored at `seed` when `visited` holds the identifiers
      already taken: the seed, then every unvisited report within the radius. */
  function SeedGroup(reports: seq<Report>, dist: Distance, radiusKm: real, seed: Report, visited: set<string>): Group
  {
    Gather(reports, dist, radiusKm, seed, Group([seed], visited + {seed.id}), |reports|)
  }

  /** The state of the outer loop: the clusters emitted so far, in scan
      order, and the visited identifiers. */
  datatype ScanState = ScanState(clusters: seq<Cluster>, visited: set<string>)

  /** One iteration of the outer loop. A visited report is skipped; otherwise
      it seeds a group, which is emitted when it has at least three members.
      The group's members stay visited either way. */
  function ScanStep(reports: seq<Report>, dist: Distance, radiusKm: real, st: ScanState, seed: Report): ScanState
  {
    if seed.id in st.visited then st
    else
      var g := SeedGroup(reports, dist, radiusKm, seed, st.visited);
      if |g.members| >= MinClusterSize then ScanState(st.clusters + [MakeCluster(g.members)], g.visited)
      else ScanState(st.clusters, g.visited)
  }

  /** The outer loop after it has seeded from `reports[..i]`. */
  function Scan(reports: seq<Report>, dist: Distance, radiusKm: real, i: nat): ScanState
    requires i <= |reports|
  {
    if i == 0 then ScanState([], {})
    else ScanStep(reports, dist, radiusKm, Scan(reports, dist, radiusKm, i - 1), reports[i - 1])
  }

  // ---------------------------------------------------------------------
  // Ordering: `clusters.sort((a, b) => b.reportCount - a.reportCount)`.
  // ---------------------------------------------------------------------

  /** Inserts `c`, which precedes every element of `sorted` in the input,
      before the first element whose count is not larger than its own. */
  function InsertByCount(c: Cluster, sorted: seq<Cluster>): seq<Cluster>
  {
    if sorted == [] || c.reportCount >= sorted[0].reportCount then [c] + sorted
    else [sorted[0]] + InsertByCount(c, sorted[1..])
  }

  /** Stable sort by descending `reportCount`, the behaviour the comparator
      gives under a stable `Array.prototype.sort`. */
  function SortByCountDesc(cs: seq<Cluster>): seq<Cluster>
  {
    if cs == [] then [] else InsertByCount(cs[0], SortByCountDesc(cs[1..]))
  }

  /** The result `clusterReports` returns. */
  function Clusters(reports: seq<Report>, dist: Distance, radiusKm: real): seq<Cluster>
  {
    if |reports| == 0 then []
    else SortByCountDesc(Scan(reports, dist, radiusKm, |reports|).clusters)
  }

  /** clusterReports: the imperative scan with a visited set, followed by the
      sort of the emitted clusters. */
  method ClusterReports(dist: Distance, reports: seq<Report>, radiusKm: real := DefaultRadiusKm)
    returns (clusters: seq<Cluster>)
    ensures clusters == Clusters(reports, dist, radiusKm)
  {
    if |reports| == 0 {
      return [];
    }
    var built: seq<Cluster> := [];
    var visited: set<string> := {};
    for i := 0 to |reports|
      invariant ScanState(built, visited) == Scan(reports, dist, radiusKm, i)
    {
      var report := reports[i];
      if report.id in visited {
        continue;
      }
      ghost var before := visited;
      var cluster := [report];
      visited := visited + {report.id};
      for j := 0 to |reports|
        invariant Group(cluster, visited)
                  == Gather(reports, dist, radiusKm, report, Group([report], before + {report.id}), j)
      {
        var other := reports[j];
        if other.id in visited {
          continue;
        }
        var distance := dist(report.latitude, report.longitude, other.latitude, other.longitude);
        if distance <= radiusKm {
          cluster := cluster + [other];
          visited := visited + {other.id};
        }
      }
      if |cluster| >= MinClusterSize {
        built := built + [MakeCluster(cluster)];
      }
    }
    clusters := SortByCountDesc(built);
  }

  // ---------------------------------------------------------------------
  // Classification of a cluster.
  // ---------------------------------------------------------------------

  /** getClusterSeverity: critical when verified, otherwise by report count. */
  function ClusterSeverity(c: Cluster): (s: Level)
    ensures s == Critical <==> c.isVerified
    ensures s == High <==> !c.isVerified && c.reportCount >= 15
    ensures s == Medium <==> !c.isVerified && 10 <= c.reportCount < 15
    ensures s == Low <==> !c.isVerified && c.reportCount < 10
  {
    if c.isVerified then Critical
    else if c.reportCount >= 15 then High
    else if c.reportCount >= 10 then Medium
    else Low
  }

  const CriticalColor: string := "#dc2626"
  const HighColor: string := "#ea580c"
  const MediumColor: string := "#eab308"
  const DefaultColor: string := "#3b82f6"

  /** getClusterColor: the fixed palette entry of the cluster's severity. */
  function ClusterColor(c: Cluster): (color: string)
    ensures color == CriticalColor <==> ClusterSeverity(c) == Critical
    ensures color == HighColor <==> ClusterSeverity(c) == High
    ensures color == MediumColor <==> ClusterSeverity(c) == Medium
    ensures color == DefaultColor <==> ClusterSeverity(c) == Low
  {
    match ClusterSeverity(c)
    case Critical => CriticalColor
    case High => HighColor
    case Medium => MediumColor
    case _ => DefaultColor
  }
}
