/** What the clustering engine guarantees, proved about the reference
    definition that `ClusterReports` is verified against. */
module ClusteringProperties {
  import opened Aggregates
  import opened Levels
  import opened ClusteringService

  // ---------------------------------------------------------------------
  // Identifier bookkeeping
  // ---------------------------------------------------------------------

  lemma IdSetAppend(ms: seq<Report>, r: Report)
    ensures IdSet(ms + [r]) == IdSet(ms) + {r.id}
  {
    var lhs := IdSet(ms + [r]);
    forall x | x in IdSet(ms) + {r.id} ensures x in lhs {
      if x == r.id {
        assert r in ms + [r];
      } else {
        var m :| m in ms && m.id == x;
        assert m in ms + [r];
      }
    }
  }

  /** A list without repeated identifiers has as many identifiers as members. */
  lemma {:induction false} DistinctIdsCard(ms: seq<Report>)
    requires DistinctIds(ms)
    ensures |IdSet(ms)| == |ms|
  {
    if ms != [] {
      var init, last := ms[..|ms| - 1], ms[|ms| - 1];
      assert ms == init + [last];
      assert DistinctIds(init);
      DistinctIdsCard(init);
      IdSetAppend(init, last);
      forall m | m in init ensures m.id != last.id {
        var k :| 0 <= k < |init| && init[k] == m;
      }
    }
  }

  /** A list has at most as many distinct identifiers as members. */
  lemma {:induction false} IdSetCard(ms: seq<Report>)
    ensures |IdSet(ms)| <= |ms|
  {
    if ms != [] {
      var init, last := ms[..|ms| - 1], ms[|ms| - 1];
      assert ms == init + [last];
      IdSetCard(init);
      IdSetAppend(init, last);
    }
  }

  lemma CardDiff(a: set<string>, b: set<string>)
    requires b <= a
    ensures |a - b| == |a| - |b|
  {
    assert a == (a - b) + b;
    assert (a - b) * b == {};
  }

  // ---------------------------------------------------------------------
  // The inner loop: one seed-anchored group
  // ---------------------------------------------------------------------

  /** What the inner scan from `seed` guarantees after `reports[..j]`, when
      `visited` held the identifiers taken before the seed: the seed comes
      first, every later member is within the radius of the seed, no
      identifier repeats, the newly visited identifiers are exactly the
      members', and every report looked at was either taken earlier, taken
      now, or out of range. */
  lemma {:induction false} GatherInvariant(reports: seq<Report>, dist: Distance, radiusKm: real,
                                           seed: Report, visited: set<string>, j: nat)
    requires j <= |reports|
    requires seed in reports && seed.id !in visited
    ensures var g := Gather(reports, dist, radiusKm, seed, Group([seed], visited + {seed.id}), j);
      && |g.members| >= 1 && g.members[0] == seed
      && (forall k :: 1 <= k < |g.members| ==> Near(dist, radiusKm, seed, g.members[k]))
      && (forall k :: 0 <= k < |g.members| ==> g.members[k] in reports)
      && DistinctIds(g.members)
      && visited <= g.visited
      && IdSet(g.members) == g.visited - visited
      && (forall k :: 0 <= k < j ==>
            reports[k].id in visited || reports[k].id in IdSet(g.members)
            || !Near(dist, radiusKm, seed, reports[k]))
  {
    var start := Group([seed], visited + {seed.id});
    if j == 0 {
      assert IdSet([seed]) == {seed.id} by {
        IdSetAppend([], seed);
      }
    } else {
      GatherInvariant(reports, dist, radiusKm, seed, visited, j - 1);
      var g0 := Gather(reports, dist, radiusKm, seed, start, j - 1);
      var other := reports[j - 1];
      var g := Gather(reports, dist, radiusKm, seed, start, j);
      assert g == GatherStep(dist, radiusKm, seed, g0, other);
      if other.id in g0.visited {
        assert g == g0;
      } else if Near(dist, radiusKm, seed, other) {
        IdSetAppend(g0.members, other);
        assert g.members == g0.members + [other];
        DistinctIdsAppend(g0.members, other);
      } else {
        assert g == g0;
      }
      assert IdSet(g0.members) <= IdSet(g.members);
      forall k | 0 <= k < j
        ensures reports[k].id in visited || reports[k].id in IdSet(g.members)
                || !Near(dist, radiusKm, seed, reports[k])
      {
        if k < j - 1 {
          assert reports[k].id in visited || reports[k].id in IdSet(g0.members)
                 || !Near(dist, radiusKm, seed, reports[k]);
        }
      }
    }
  }

  /** Appending a report whose identifier is new keeps identifiers distinct. */
  lemma DistinctIdsAppend(ms: seq<Report>, m: Report)
    requires DistinctIds(ms) && m.id !in IdSet(ms)
    ensures DistinctIds(ms + [m])
  {
    var ms' := ms + [m];
    forall a, b | 0 <= a < b < |ms'| ensures ms'[a].id != ms'[b].id {
      if b == |ms| {
        assert ms'[a] in ms;
      } else {
        assert ms'[a] == ms[a] && ms'[b] == ms[b];
      }
    }
  }

  // ---------------------------------------------------------------------
  // The outer loop
  // ---------------------------------------------------------------------

  /** The statistics of a cluster are those of its members. */
  ghost predicate AggregatesCorrect(c: Cluster)
  {
    && c.reportCount == |c.reports| && c.reportCount >= MinClusterSize
    && (c.isVerified <==> c.reportCount >= VerifiedThreshold)
    && c.minIntensity in Intensities(c.reports)
    && c.maxIntensity in Intensities(c.reports)
    && (forall k :: 0 <= k < |c.reports| ==>
          c.minIntensity <= c.reports[k].intensityLevel <= c.maxIntensity)
    && c.minIntensity as real <= c.averageIntensity <= c.maxIntensity as real
    && c.averageIntensity == Mean(IntensityValues(c.reports))
    && c.latitude == Mean(Latitudes(c.reports))
    && c.longitude == Mean(Longitudes(c.reports))
  }

  /** The members of a cluster come from the input, its first member is its
      seed, the others lie within the radius of the seed, and no identifier
      repeats. */
  ghost predicate SeedAnchored(c: Cluster, reports: seq<Report>, dist: Distance, radiusKm: real)
  {
    && c.reports != []
    && (forall k :: 0 <= k < |c.reports| ==> c.reports[k] in reports)
    && (forall k :: 1 <= k < |c.reports| ==> Near(dist, radiusKm, c.reports[0], c.reports[k]))
    && DistinctIds(c.reports)
  }

  ghost predicate Disjoint(a: Cluster, b: Cluster)
  {
    IdSet(a.reports) !! IdSet(b.reports)
  }

  /** No identifier is shared by two clusters at different positions. */
  ghost predicate PairwiseDisjoint(cs: seq<Cluster>)
  {
    forall i, j :: 0 <= i < |cs| && 0 <= j < |cs| && i != j ==> Disjoint(cs[i], cs[j])
  }

  /** Total number of reports held by the clusters. */
  function SumCounts(cs: seq<Cluster>): nat
  {
    if cs == [] then 0 else cs[0].reportCount + SumCounts(cs[1..])
  }

  lemma {:induction false} SumCountsAppend(cs: seq<Cluster>, c: Cluster)
    ensures SumCounts(cs + [c]) == SumCounts(cs) + c.reportCount
  {
    if cs != [] {
      assert (cs + [c])[1..] == cs[1..] + [c];
      SumCountsAppend(cs[1..], c);
    }
  }

  /** The invariant of the outer loop after it has seeded from `reports[..i]`. */
  ghost predicate ScanOk(reports: seq<Report>, dist: Distance, radiusKm: real, st: ScanState, i: nat)
    requires i <= |reports|
  {
    && st.visited <= IdSet(reports)
    && IdSet(reports[..i]) <= st.visited
    && (forall k :: 0 <= k < |st.clusters| ==>
          && AggregatesCorrect(st.clusters[k])
          && SeedAnchored(st.clusters[k], reports, dist, radiusKm)
          && IdSet(st.clusters[k].reports) <= st.visited)
    && PairwiseDisjoint(st.clusters)
    && SumCounts(st.clusters) <= |st.visited|
  }

  /** What one seed contributes to the scan: the group's identifiers are the
      newly visited ones, they come from the input, and a kept group makes a
      well-formed cluster. */
  lemma SeedGroupFacts(reports: seq<Report>, dist: Distance, radiusKm: real, seed: Report, visited: set<string>)
    requires seed in reports && seed.id !in visited
    requires visited <= IdSet(reports)
    ensures var g := SeedGroup(reports, dist, radiusKm, seed, visited);
      && visited + {seed.id} <= g.visited <= IdSet(reports)
      && IdSet(g.members) == g.visited - visited
      && |g.members| == |g.visited| - |visited|
      && (|g.members| >= MinClusterSize ==>
            AggregatesCorrect(MakeCluster(g.members))
            && SeedAnchored(MakeCluster(g.members), reports, dist, radiusKm))
  {
    var g := SeedGroup(reports, dist, radiusKm, seed, visited);
    GatherInvariant(reports, dist, radiusKm, seed, visited, |reports|);
    assert seed.id in IdSet(g.members) by {
      assert g.members[0] == seed;
    }
    assert IdSet(g.members) <= IdSet(reports) by {
      forall x | x in IdSet(g.members) ensures x in IdSet(reports) {
        var m :| m in g.members && m.id == x;
      }
    }
    DistinctIdsCard(g.members);
    CardDiff(g.visited, visited);
  }

  /** Appending a cluster whose identifiers avoid everything visited keeps
      the clusters pairwise disjoint. */
  lemma AppendDisjoint(cs: seq<Cluster>, c: Cluster, visited: set<string>)
    requires PairwiseDisjoint(cs)
    requires forall k :: 0 <= k < |cs| ==> IdSet(cs[k].reports) <= visited
    requires IdSet(c.reports) !! visited
    ensures PairwiseDisjoint(cs + [c])
  {
    var cs' := cs + [c];
    forall a, b | 0 <= a < |cs'| && 0 <= b < |cs'| && a != b ensures Disjoint(cs'[a], cs'[b]) {
      if a < |cs| && b < |cs| {
        assert Disjoint(cs[a], cs[b]);
      } else if a < |cs| {
        assert IdSet(cs[a].reports) <= visited;
      } else {
        assert IdSet(cs[b].reports) <= visited;
      }
    }
  }

  /** Visiting the next seed's identifier extends the covered prefix. */
  lemma PrefixCovered(reports: seq<Report>, i: nat, before: set<string>, after: set<string>)
    requires 0 < i <= |reports|
    requires IdSet(reports[..i - 1]) <= before <= after
    requires reports[i - 1].id in after
    ensures IdSet(reports[..i]) <= after
  {
    assert reports[..i] == reports[..i - 1] + [reports[i - 1]];
    IdSetAppend(reports[..i - 1], reports[i - 1]);
  }

  /** Emitting a kept group whose identifiers are exactly the newly visited
      ones keeps the outer-loop invariant. */
  lemma EmitOk(reports: seq<Report>, dist: Distance, radiusKm: real, st: ScanState, i: nat, g: Group)
    requires 0 < i <= |reports|
    requires ScanOk(reports, dist, radiusKm, st, i - 1)
    requires reports[i - 1].id in g.visited
    requires st.visited <= g.visited <= IdSet(reports)
    requires IdSet(g.members) == g.visited - st.visited
    requires |g.members| == |g.visited| - |st.visited|
    requires |g.members| >= MinClusterSize
    requires AggregatesCorrect(MakeCluster(g.members))
    requires SeedAnchored(MakeCluster(g.members), reports, dist, radiusKm)
    ensures ScanOk(reports, dist, radiusKm, ScanState(st.clusters + [MakeCluster(g.members)], g.visited), i)
  {
    PrefixCovered(reports, i, st.visited, g.visited);
    var c := MakeCluster(g.members);
    SumCountsAppend(st.clusters, c);
    AppendDisjoint(st.clusters, c, st.visited);
    AppendWellFormed(reports, dist, radiusKm, st.clusters, c, g.visited);
  }

  /** Appending a correct, anchored cluster within the visited identifiers
      keeps every cluster correct, anchored and within them. */
  lemma AppendWellFormed(reports: seq<Report>, dist: Distance, radiusKm: real,
                         cs: seq<Cluster>, c: Cluster, visited: set<string>)
    requires forall k :: 0 <= k < |cs| ==>
               && AggregatesCorrect(cs[k])
               && SeedAnchored(cs[k], reports, dist, radiusKm)
               && IdSet(cs[k].reports) <= visited
    requires AggregatesCorrect(c) && SeedAnchored(c, reports, dist, radiusKm)
    requires IdSet(c.reports) <= visited
    ensures forall k :: 0 <= k < |cs + [c]| ==>
              && AggregatesCorrect((cs + [c])[k])
              && SeedAnchored((cs + [c])[k], reports, dist, radiusKm)
              && IdSet((cs + [c])[k].reports) <= visited
  {
    var cs' := cs + [c];
    forall k | 0 <= k < |cs'|
      ensures AggregatesCorrect(cs'[k]) && SeedAnchored(cs'[k], reports, dist, radiusKm)
      ensures IdSet(cs'[k].reports) <= visited
    {
      if k < |cs| {
        assert cs'[k] == cs[k];
      }
    }
  }

  /** Emitting or discarding a group whose identifiers are exactly the
      newly visited ones keeps the outer-loop invariant. */
  lemma GroupStepOk(reports: seq<Report>, dist: Distance, radiusKm: real, st: ScanState, i: nat, g: Group)
    requires 0 < i <= |reports|
    requires ScanOk(reports, dist, radiusKm, st, i - 1)
    requires reports[i - 1].id in g.visited
    requires st.visited <= g.visited <= IdSet(reports)
    requires IdSet(g.members) == g.visited - st.visited
    requires |g.members| == |g.visited| - |st.visited|
    requires |g.members| >= MinClusterSize ==>
               AggregatesCorrect(MakeCluster(g.members))
               && SeedAnchored(MakeCluster(g.members), reports, dist, radiusKm)
    ensures |g.members| >= MinClusterSize ==>
              ScanOk(reports, dist, radiusKm, ScanState(st.clusters + [MakeCluster(g.members)], g.visited), i)
    ensures |g.members| < MinClusterSize ==>
              ScanOk(reports, dist, radiusKm, ScanState(st.clusters, g.visited), i)
  {
    if |g.members| >= MinClusterSize {
      EmitOk(reports, dist, radiusKm, st, i, g);
    } else {
      PrefixCovered(reports, i, st.visited, g.visited);
    }
  }

  lemma ScanStepOk(reports: seq<Report>, dist: Distance, radiusKm: real, i: nat)
    requires 0 < i <= |reports|
    requires ScanOk(reports, dist, radiusKm, Scan(reports, dist, radiusKm, i - 1), i - 1)
    ensures ScanOk(reports, dist, radiusKm, Scan(reports, dist, radiusKm, i), i)
  {
    var st := Scan(reports, dist, radiusKm, i - 1);
    var seed := reports[i - 1];
    if seed.id in st.visited {
      assert reports[..i] == reports[..i - 1] + [seed];
      IdSetAppend(reports[..i - 1], seed);
    } else {
      SeedGroupFacts(reports, dist, radiusKm, seed, st.visited);
      GroupStepOk(reports, dist, radiusKm, st, i, SeedGroup(reports, dist, radiusKm, seed, st.visited));
    }
  }

  lemma {:induction false} ScanInvariant(reports: seq<Report>, dist: Distance, radiusKm: real, i: nat)
    requires i <= |reports|
    ensures ScanOk(reports, dist, radiusKm, Scan(reports, dist, radiusKm, i), i)
  {
    if i > 0 {
      ScanInvariant(reports, dist, radiusKm, i - 1);
      ScanStepOk(reports, dist, radiusKm, i);
    } else {
      assert reports[..0] == [];
    }
  }

  /** Every report ends up in exactly one group, emitted or discarded: after
      the scan the visited identifiers are those of the whole input. */
  lemma ScanVisitsEveryReport(reports: seq<Report>, dist: Distance, radiusKm: real)
    ensures Scan(reports, dist, radiusKm, |reports|).visited == IdSet(reports)
  {
    ScanInvariant(reports, dist, radiusKm, |reports|);
    assert reports[..|reports|] == reports;
  }

  /** One outer step only appends, and what it appends avoids every
      identifier visited before it. */
  lemma ScanStepAppends(reports: seq<Report>, dist: Distance, radiusKm: real, n: nat)
    requires 0 < n <= |reports|
    ensures var sp, sn := Scan(reports, dist, radiusKm, n - 1), Scan(reports, dist, radiusKm, n);
      && sp.visited <= sn.visited
      && |sp.clusters| <= |sn.clusters| && sn.clusters[..|sp.clusters|] == sp.clusters
      && forall k :: |sp.clusters| <= k < |sn.clusters| ==> IdSet(sn.clusters[k].reports) !! sp.visited
  {
    var sp := Scan(reports, dist, radiusKm, n - 1);
    var seed := reports[n - 1];
    if seed.id !in sp.visited {
      var g := SeedGroup(reports, dist, radiusKm, seed, sp.visited);
      SeedGroupClaimsNewIds(reports, dist, radiusKm, seed, sp.visited);
      if |g.members| >= MinClusterSize {
        var c := MakeCluster(g.members);
        assert Scan(reports, dist, radiusKm, n).clusters == sp.clusters + [c];
        assert (sp.clusters + [c])[..|sp.clusters|] == sp.clusters;
        assert IdSet(c.reports) !! sp.visited;
      }
    }
  }

  /** A seed's group takes only identifiers that were not visited before. */
  lemma SeedGroupClaimsNewIds(reports: seq<Report>, dist: Distance, radiusKm: real, seed: Report, visited: set<string>)
    requires seed in reports && seed.id !in visited
    ensures var g := SeedGroup(reports, dist, radiusKm, seed, visited);
      visited <= g.visited && IdSet(g.members) !! visited
  {
    GatherInvariant(reports, dist, radiusKm, seed, visited, |reports|);
  }

  /** The scan only appends clusters, and a cluster emitted after the first
      `i` seeds shares no identifier with anything visited by then, in
      particular with the members of a group discarded by then. */
  lemma {:induction false} LaterClustersAvoidEarlierVisited(reports: seq<Report>, dist: Distance, radiusKm: real,
                                                            i: nat, n: nat)
    requires i <= n <= |reports|
    ensures var si, sn := Scan(reports, dist, radiusKm, i), Scan(reports, dist, radiusKm, n);
      && si.visited <= sn.visited
      && |si.clusters| <= |sn.clusters| && sn.clusters[..|si.clusters|] == si.clusters
      && forall k :: |si.clusters| <= k < |sn.clusters| ==> IdSet(sn.clusters[k].reports) !! si.visited
  {
    if n > i {
      LaterClustersAvoidEarlierVisited(reports, dist, radiusKm, i, n - 1);
      ScanStepAppends(reports, dist, radiusKm, n);
      var si := Scan(reports, dist, radiusKm, i);
      var sp := Scan(reports, dist, radiusKm, n - 1);
      var sn := Scan(reports, dist, radiusKm, n);
      assert sn.clusters[..|si.clusters|] == sp.clusters[..|si.clusters|];
      forall k | |si.clusters| <= k < |sn.clusters|
        ensures IdSet(sn.clusters[k].reports) !! si.visited
      {
        if k < |sp.clusters| {
          assert sn.clusters[k] == sp.clusters[k];
        }
      }
    }
  }

  // ---------------------------------------------------------------------
  // The sort
  // ---------------------------------------------------------------------

  ghost predicate SortedByCountDesc(cs: seq<Cluster>)
  {
    forall i, j :: 0 <= i < j < |cs| ==> cs[i].reportCount >= cs[j].reportCount
  }

  /** The clusters of `cs` whose count is `n`, in their order in `cs`. */
  function WithCount(cs: seq<Cluster>, n: nat): seq<Cluster>
  {
    if cs == [] then []
    else (if cs[0].reportCount == n then [cs[0]] else []) + WithCount(cs[1..], n)
  }

  lemma {:induction false} InsertByCountPermutes(c: Cluster, t: seq<Cluster>)
    ensures multiset(InsertByCount(c, t)) == multiset(t) + multiset{c}
  {
    if !(t == [] || c.reportCount >= t[0].reportCount) {
      InsertByCountPermutes(c, t[1..]);
      assert t == [t[0]] + t[1..];
    }
  }

  /** Insertion adds `c` and nothing else. */
  lemma {:induction false} InsertByCountMembers(c: Cluster, t: seq<Cluster>)
    ensures forall x :: x in InsertByCount(c, t) <==> x == c || x in t
  {
    if !(t == [] || c.reportCount >= t[0].reportCount) {
      InsertByCountMembers(c, t[1..]);
      assert t == [t[0]] + t[1..];
    }
  }

  /** A sorted list stays sorted under a head no smaller than its elements. */
  lemma ConsSorted(h: Cluster, rest: seq<Cluster>)
    requires SortedByCountDesc(rest)
    requires forall x :: x in rest ==> x.reportCount <= h.reportCount
    ensures SortedByCountDesc([h] + rest)
  {
    var r := [h] + rest;
    forall a, b | 0 <= a < b < |r| ensures r[a].reportCount >= r[b].reportCount {
      if a == 0 {
        assert r[b] in rest;
      } else {
        assert r[a] == rest[a - 1] && r[b] == rest[b - 1];
      }
    }
  }

  lemma {:induction false} InsertByCountSorted(c: Cluster, t: seq<Cluster>)
    requires SortedByCountDesc(t)
    ensures SortedByCountDesc(InsertByCount(c, t))
  {
    if t == [] || c.reportCount >= t[0].reportCount {
      ConsSorted(c, t);
    } else {
      var t' := t[1..];
      SortedTail(t);
      InsertByCountSorted(c, t');
      InsertByCountMembers(c, t');
      forall x | x in t' ensures x.reportCount <= t[0].reportCount {
        var k :| 0 <= k < |t'| && t'[k] == x;
        assert t[k + 1] == x;
      }
      ConsSorted(t[0], InsertByCount(c, t'));
    }
  }

  lemma SortedTail(t: seq<Cluster>)
    requires t != [] && SortedByCountDesc(t)
    ensures SortedByCountDesc(t[1..])
    ensures forall k :: 0 <= k < |t| ==> t[k].reportCount <= t[0].reportCount
  {
    var t' := t[1..];
    forall a, b | 0 <= a < b < |t'| ensures t'[a].reportCount >= t'[b].reportCount {
      assert t'[a] == t[a + 1] && t'[b] == t[b + 1];
    }
  }

  lemma WithCountCons(x: Cluster, t: seq<Cluster>, n: nat)
    ensures WithCount([x] + t, n) == (if x.reportCount == n then [x] else []) + WithCount(t, n)
  {
    assert ([x] + t)[0] == x && ([x] + t)[1..] == t;
  }

  lemma {:induction false} InsertByCountWithCount(c: Cluster, t: seq<Cluster>, n: nat)
    requires SortedByCountDesc(t)
    ensures WithCount(InsertByCount(c, t), n) == (if c.reportCount == n then [c] else []) + WithCount(t, n)
  {
    if t == [] || c.reportCount >= t[0].reportCount {
      WithCountCons(c, t, n);
    } else {
      var t' := t[1..];
      SortedTail(t);
      InsertByCountWithCount(c, t', n);
      var rest := InsertByCount(c, t');
      assert InsertByCount(c, t) == [t[0]] + rest;
      WithCountCons(t[0], rest, n);
      assert t == [t[0]] + t';
      WithCountCons(t[0], t', n);
      var head := if t[0].reportCount == n then [t[0]] else [];
      var mid := if c.reportCount == n then [c] else [];
      assert head == [] || mid == [];
      assert head + (mid + WithCount(t', n)) == mid + (head + WithCount(t', n));
    }
  }

  /** Sorting by count yields a permutation in non-increasing count order. */
  lemma {:induction false} SortByCountDescCorrect(cs: seq<Cluster>)
    ensures SortedByCountDesc(SortByCountDesc(cs))
    ensures multiset(SortByCountDesc(cs)) == multiset(cs)
  {
    if cs != [] {
      SortByCountDescCorrect(cs[1..]);
      InsertByCountSorted(cs[0], SortByCountDesc(cs[1..]));
      InsertByCountPermutes(cs[0], SortByCountDesc(cs[1..]));
      assert cs == [cs[0]] + cs[1..];
    }
  }

  /** The sort is stable: the clusters of any one count keep their order. */
  lemma {:induction false} SortByCountDescStable(cs: seq<Cluster>, n: nat)
    ensures WithCount(SortByCountDesc(cs), n) == WithCount(cs, n)
  {
    if cs != [] {
      SortByCountDescStable(cs[1..], n);
      SortByCountDescCorrect(cs[1..]);
      InsertByCountWithCount(cs[0], SortByCountDesc(cs[1..]), n);
    }
  }

  lemma {:induction false} InsertByCountSumCounts(c: Cluster, t: seq<Cluster>)
    ensures SumCounts(InsertByCount(c, t)) == c.reportCount + SumCounts(t)
  {
    if t == [] || c.reportCount >= t[0].reportCount {
      assert ([c] + t)[1..] == t;
    } else {
      InsertByCountSumCounts(c, t[1..]);
      assert ([t[0]] + InsertByCount(c, t[1..]))[1..] == InsertByCount(c, t[1..]);
    }
  }

  lemma {:induction false} SortByCountDescSumCounts(cs: seq<Cluster>)
    ensures SumCounts(SortByCountDesc(cs)) == SumCounts(cs)
  {
    if cs != [] {
      SortByCountDescSumCounts(cs[1..]);
      InsertByCountSumCounts(cs[0], SortByCountDesc(cs[1..]));
    }
  }

  lemma {:induction false} InsertByCountDisjoint(c: Cluster, t: seq<Cluster>)
    requires PairwiseDisjoint(t)
    requires forall k :: 0 <= k < |t| ==> Disjoint(c, t[k])
    ensures PairwiseDisjoint(InsertByCount(c, t))
  {
    var r := InsertByCount(c, t);
    if t == [] || c.reportCount >= t[0].reportCount {
      assert r == [c] + t;
      forall a, b | 0 <= a < |r| && 0 <= b < |r| && a != b ensures Disjoint(r[a], r[b]) {
        if a == 0 {
          assert r[b] == t[b - 1];
        } else if b == 0 {
          assert r[a] == t[a - 1];
        } else {
          assert r[a] == t[a - 1] && r[b] == t[b - 1];
        }
      }
    } else {
      var t' := t[1..];
      assert PairwiseDisjoint(t') by {
        forall a, b | 0 <= a < |t'| && 0 <= b < |t'| && a != b ensures Disjoint(t'[a], t'[b]) {
          assert Disjoint(t[a + 1], t[b + 1]);
        }
      }
      InsertByCountDisjoint(c, t');
      var rest := InsertByCount(c, t');
      InsertByCountMembers(c, t');
      assert r == [t[0]] + rest;
      forall x | x in rest ensures Disjoint(t[0], x) {
        if x == c {
          assert Disjoint(c, t[0]);
        } else {
          var k :| 0 <= k < |t'| && t'[k] == x;
          assert Disjoint(t[0], t[k + 1]);
        }
      }
      forall a, b | 0 <= a < |r| && 0 <= b < |r| && a != b ensures Disjoint(r[a], r[b]) {
        if a == 0 {
          assert r[b] in rest;
        } else if b == 0 {
          assert r[a] in rest;
        } else {
          assert r[a] == rest[a - 1] && r[b] == rest[b - 1];
        }
      }
    }
  }

  lemma {:induction false} SortByCountDescDisjoint(cs: seq<Cluster>)
    requires PairwiseDisjoint(cs)
    ensures PairwiseDisjoint(SortByCountDesc(cs))
  {
    if cs != [] {
      var tail := cs[1..];
      assert PairwiseDisjoint(tail) by {
        forall a, b | 0 <= a < |tail| && 0 <= b < |tail| && a != b ensures Disjoint(tail[a], tail[b]) {
          assert Disjoint(cs[a + 1], cs[b + 1]);
        }
      }
      SortByCountDescDisjoint(tail);
      var sorted := SortByCountDesc(tail);
      SortByCountDescCorrect(tail);
      forall k | 0 <= k < |sorted| ensures Disjoint(cs[0], sorted[k]) {
        assert sorted[k] in multiset(tail);
        var m :| 0 <= m < |tail| && tail[m] == sorted[k];
        assert Disjoint(cs[0], cs[m + 1]);
      }
      InsertByCountDisjoint(cs[0], sorted);
    }
  }

  // ---------------------------------------------------------------------
  // The result of clusterReports
  // ---------------------------------------------------------------------

  /** The result is the scan's clusters, reordered by descending count with
      ties in scan order. */
  lemma ClustersSortedStable(reports: seq<Report>, dist: Distance, radiusKm: real)
    ensures var out, built := Clusters(reports, dist, radiusKm), Scan(reports, dist, radiusKm, |reports|).clusters;
      && SortedByCountDesc(out)
      && multiset(out) == multiset(built)
      && forall n: nat :: WithCount(out, n) == WithCount(built, n)
  {
    var built := Scan(reports, dist, radiusKm, |reports|).clusters;
    if |reports| > 0 {
      SortByCountDescCorrect(built);
      forall n: nat ensures WithCount(Clusters(reports, dist, radiusKm), n) == WithCount(built, n) {
        SortByCountDescStable(built, n);
      }
    }
  }

  /** Every emitted cluster has at least three members, carries its members'
      statistics, is verified exactly when it has at least twenty members,
      and is anchored at its first member. */
  lemma ClustersWellFormed(reports: seq<Report>, dist: Distance, radiusKm: real)
    ensures forall c :: c in Clusters(reports, dist, radiusKm) ==>
              AggregatesCorrect(c) && SeedAnchored(c, reports, dist, radiusKm)
  {
    if |reports| > 0 {
      var st := Scan(reports, dist, radiusKm, |reports|);
      ScanInvariant(reports, dist, radiusKm, |reports|);
      SortByCountDescCorrect(st.clusters);
      forall c | c in Clusters(reports, dist, radiusKm)
        ensures AggregatesCorrect(c) && SeedAnchored(c, reports, dist, radiusKm)
      {
        assert c in multiset(st.clusters);
        var k :| 0 <= k < |st.clusters| && st.clusters[k] == c;
      }
    }
  }

  /** No report identifier appears in two clusters (nor, by SeedAnchored,
      twice in one), so the clusters hold at most as many reports as the
      input has. */
  lemma ClustersDisjoint(reports: seq<Report>, dist: Distance, radiusKm: real)
    ensures PairwiseDisjoint(Clusters(reports, dist, radiusKm))
    ensures SumCounts(Clusters(reports, dist, radiusKm)) <= |reports|
  {
    if |reports| > 0 {
      var st := Scan(reports, dist, radiusKm, |reports|);
      ScanInvariant(reports, dist, radiusKm, |reports|);
      SortByCountDescDisjoint(st.clusters);
      SortByCountDescSumCounts(st.clusters);
      IdSetCard(reports);
      CardDiff(IdSet(reports), st.visited);
    }
  }

  lemma {:induction false} SumCountsLowerBound(cs: seq<Cluster>)
    requires forall k :: 0 <= k < |cs| ==> cs[k].reportCount >= MinClusterSize
    ensures SumCounts(cs) >= MinClusterSize * |cs|
  {
    if cs != [] {
      SumCountsLowerBound(cs[1..]);
    }
  }

  /** With fewer than three reports no group can reach the minimum size. */
  lemma FewReportsNoClusters(reports: seq<Report>, dist: Distance, radiusKm: real)
    requires |reports| < MinClusterSize
    ensures Clusters(reports, dist, radiusKm) == []
  {
    var out := Clusters(reports, dist, radiusKm);
    ClustersDisjoint(reports, dist, radiusKm);
    ClustersWellFormed(reports, dist, radiusKm);
    forall k | 0 <= k < |out| ensures out[k].reportCount >= MinClusterSize {
      assert out[k] in out;
    }
    SumCountsLowerBound(out);
  }

  /** An empty input gives no clusters, whatever the radius. */
  lemma EmptyInputNoClusters(dist: Distance, radiusKm: real)
    ensures Clusters([], dist, radiusKm) == []
  {
  }

  /** With a non-negative distance and a negative radius every group is its
      seed alone and is discarded. */
  lemma NegativeRadiusNoClusters(reports: seq<Report>, dist: Distance, radiusKm: real)
    requires forall a, b, c, d :: dist(a, b, c, d) >= 0.0
    requires radiusKm < 0.0
    ensures Clusters(reports, dist, radiusKm) == []
  {
    NegativeRadiusScan(reports, dist, radiusKm, |reports|);
  }

  lemma {:induction false} NothingNearSeed(reports: seq<Report>, dist: Distance, radiusKm: real,
                                           seed: Report, start: Group, j: nat)
    requires j <= |reports|
    requires forall k :: 0 <= k < |reports| ==> !Near(dist, radiusKm, seed, reports[k])
    ensures Gather(reports, dist, radiusKm, seed, start, j).members == start.members
  {
    if j > 0 {
      NothingNearSeed(reports, dist, radiusKm, seed, start, j - 1);
    }
  }

  lemma {:induction false} NegativeRadiusScan(reports: seq<Report>, dist: Distance, radiusKm: real, i: nat)
    requires i <= |reports|
    requires forall a, b, c, d :: dist(a, b, c, d) >= 0.0
    requires radiusKm < 0.0
    ensures Scan(reports, dist, radiusKm, i).clusters == []
  {
    if i > 0 {
      NegativeRadiusScan(reports, dist, radiusKm, i - 1);
      var st := Scan(reports, dist, radiusKm, i - 1);
      var seed := reports[i - 1];
      NothingNearSeed(reports, dist, radiusKm, seed, Group([seed], st.visited + {seed.id}), |reports|);
    }
  }

  // ---------------------------------------------------------------------
  // One group around the first report
  // ---------------------------------------------------------------------

  lemma {:induction false} GatherAllNear(reports: seq<Report>, dist: Distance, radiusKm: real, j: nat)
    requires 1 <= j <= |reports|
    requires DistinctIds(reports)
    requires forall k :: 0 < k < |reports| ==> Near(dist, radiusKm, reports[0], reports[k])
    ensures Gather(reports, dist, radiusKm, reports[0], Group([reports[0]], {} + {reports[0].id}), j)
            == Group(reports[..j], IdSet(reports[..j]))
  {
    var seed := reports[0];
    var start := Group([seed], {} + {seed.id});
    if j == 1 {
      assert reports[..1] == [seed];
      IdSetAppend([], seed);
      assert Gather(reports, dist, radiusKm, seed, start, 0) == start;
    } else {
      GatherAllNear(reports, dist, radiusKm, j - 1);
      var other := reports[j - 1];
      assert reports[..j] == reports[..j - 1] + [other];
      IdSetAppend(reports[..j - 1], other);
      assert other.id !in IdSet(reports[..j - 1]) by {
        forall m | m in reports[..j - 1] ensures m.id != other.id {
          var k :| 0 <= k < j - 1 && reports[..j - 1][k] == m;
        }
      }
    }
  }

  lemma {:induction false} ScanAfterFirstSeed(reports: seq<Report>, dist: Distance, radiusKm: real, i: nat)
    requires 1 <= i <= |reports|
    requires Scan(reports, dist, radiusKm, 1).visited == IdSet(reports)
    ensures Scan(reports, dist, radiusKm, i) == Scan(reports, dist, radiusKm, 1)
  {
    if i > 1 {
      ScanAfterFirstSeed(reports, dist, radiusKm, i - 1);
      assert reports[i - 1] in reports;
    }
  }

  lemma FirstSeedTakesAll(reports: seq<Report>, dist: Distance, radiusKm: real)
    requires |reports| >= MinClusterSize
    requires DistinctIds(reports)
    requires forall k :: 0 < k < |reports| ==> Near(dist, radiusKm, reports[0], reports[k])
    ensures Scan(reports, dist, radiusKm, 1) == ScanState([MakeCluster(reports)], IdSet(reports))
  {
    GatherAllNear(reports, dist, radiusKm, |reports|);
    assert reports[..|reports|] == reports;
    var g := SeedGroup(reports, dist, radiusKm, reports[0], {});
    assert g == Group(reports, IdSet(reports));
    assert Scan(reports, dist, radiusKm, 0) == ScanState([], {});
  }

  /** When every report lies within the radius of the first one and no
      identifier repeats, the result is a single cluster holding the whole
      input in order. */
  lemma AllNearFirstOneCluster(reports: seq<Report>, dist: Distance, radiusKm: real)
    requires |reports| >= MinClusterSize
    requires DistinctIds(reports)
    requires forall k :: 0 < k < |reports| ==> Near(dist, radiusKm, reports[0], reports[k])
    ensures Clusters(reports, dist, radiusKm) == [MakeCluster(reports)]
  {
    var c := MakeCluster(reports);
    FirstSeedTakesAll(reports, dist, radiusKm);
    ScanAfterFirstSeed(reports, dist, radiusKm, |reports|);
    assert SortByCountDesc([c]) == [c] by {
      assert [c][1..] == [];
    }
  }

  /** Such a group of twenty or more reports is verified, hence critical and
      shown in the critical colour. */
  lemma LargeGroupIsCritical(reports: seq<Report>, dist: Distance, radiusKm: real)
    requires |reports| >= VerifiedThreshold
    requires DistinctIds(reports)
    requires forall k :: 0 < k < |reports| ==> Near(dist, radiusKm, reports[0], reports[k])
    ensures |Clusters(reports, dist, radiusKm)| == 1
    ensures Clusters(reports, dist, radiusKm)[0].isVerified
    ensures ClusterSeverity(Clusters(reports, dist, radiusKm)[0]) == Critical
    ensures ClusterColor(Clusters(reports, dist, radiusKm)[0]) == CriticalColor
  {
    AllNearFirstOneCluster(reports, dist, radiusKm);
  }

  // ---------------------------------------------------------------------
  // Order dependence
  // ---------------------------------------------------------------------

  /** Distance along the latitude axis only, enough for small examples. */
  function LatitudeGap(lat1: real, lon1: real, lat2: real, lon2: real): real
  {
    if lat1 <= lat2 then lat2 - lat1 else lat1 - lat2
  }

  function At(id: string, latitude: real): Report
  {
    Report(id, latitude, 0.0, 3, None, "", "")
  }

  /** The same three reports in two orders: seeded at the end report the
      middle one is taken and the other end is out of range, and both groups
      are discarded; seeded at the middle report all three form a cluster,
      although the two ends are twice the radius apart. */
  lemma OrderDependence()
    ensures Clusters([At("a", 0.0), At("b", 1.0), At("c", 2.0)], LatitudeGap, 1.0) == []
    ensures Clusters([At("b", 1.0), At("a", 0.0), At("c", 2.0)], LatitudeGap, 1.0)
            == [MakeCluster([At("b", 1.0), At("a", 0.0), At("c", 2.0)])]
    ensures LatitudeGap(0.0, 0.0, 2.0, 0.0) == 2.0 * 1.0
  {
    var a, b, c := At("a", 0.0), At("b", 1.0), At("c", 2.0);
    var first := [a, b, c];
    var fromA := Group([a], {"a"});
    assert {} + {a.id} == {"a"};
    assert "b" != "a" && "c" != "a" && "c" != "b";
    var a1 := Gather(first, LatitudeGap, 1.0, a, fromA, 1);
    assert a1 == GatherStep(LatitudeGap, 1.0, a, Gather(first, LatitudeGap, 1.0, a, fromA, 0), a);
    assert a1 == fromA;
    var a2 := Gather(first, LatitudeGap, 1.0, a, fromA, 2);
    assert a2 == GatherStep(LatitudeGap, 1.0, a, a1, b);
    assert Near(LatitudeGap, 1.0, a, b);
    assert a2 == Group([a, b], {"a", "b"});
    var a3 := Gather(first, LatitudeGap, 1.0, a, fromA, 3);
    assert a3 == GatherStep(LatitudeGap, 1.0, a, a2, c);
    assert !Near(LatitudeGap, 1.0, a, c);
    assert a3 == a2;
    assert Scan(first, LatitudeGap, 1.0, 1) == ScanState([], {"a", "b"});
    assert Scan(first, LatitudeGap, 1.0, 2) == ScanState([], {"a", "b"});
    var fromC := Group([c], {"a", "b"} + {"c"});
    var c1 := Gather(first, LatitudeGap, 1.0, c, fromC, 1);
    assert c1 == GatherStep(LatitudeGap, 1.0, c, Gather(first, LatitudeGap, 1.0, c, fromC, 0), a);
    assert c1 == fromC;
    var c2 := Gather(first, LatitudeGap, 1.0, c, fromC, 2);
    assert c2 == GatherStep(LatitudeGap, 1.0, c, c1, b);
    assert c2 == fromC;
    var c3 := Gather(first, LatitudeGap, 1.0, c, fromC, 3);
    assert c3 == GatherStep(LatitudeGap, 1.0, c, c2, c);
    assert c3 == fromC;
    assert Scan(first, LatitudeGap, 1.0, 3).clusters == [];

    var second := [b, a, c];
    assert forall k :: 0 < k < |second| ==> Near(LatitudeGap, 1.0, second[0], second[k]);
    AllNearFirstOneCluster(second, LatitudeGap, 1.0);
  }

  /** The seed is never compared with itself, so with a distance that is zero
      between coincident points and a zero radius, three coincident reports
      still form a cluster. */
  lemma ZeroRadiusCoincidentReports()
    ensures Clusters([At("a", 0.0), At("b", 0.0), At("c", 0.0)], LatitudeGap, 0.0)
            == [MakeCluster([At("a", 0.0), At("b", 0.0), At("c", 0.0)])]
  {
    var rs := [At("a", 0.0), At("b", 0.0), At("c", 0.0)];
    AllNearFirstOneCluster(rs, LatitudeGap, 0.0);
  }

  /** Identifiers are claimed by the first report with that id the scan
      reaches as a seed or as an in-range candidate. Here the earlier "x" is
      out of range of the seed, the later "x" joins the seed's group, and
      the earlier one is then skipped and never seeds a group. */
  lemma LaterDuplicateJoins()
    ensures Clusters([At("s", 0.0), At("x", 5.0), At("x", 0.5), At("t", 0.2)], LatitudeGap, 1.0)
            == [MakeCluster([At("s", 0.0), At("x", 0.5), At("t", 0.2)])]
  {
    var s, xFar, xNear, t := At("s", 0.0), At("x", 5.0), At("x", 0.5), At("t", 0.2);
    var rs := [s, xFar, xNear, t];
    assert "x" != "s" && "t" != "s" && "t" != "x";
    var start := Group([s], {} + {s.id});
    assert start == Group([s], {"s"});
    var g1 := Gather(rs, LatitudeGap, 1.0, s, start, 1);
    assert g1 == GatherStep(LatitudeGap, 1.0, s, Gather(rs, LatitudeGap, 1.0, s, start, 0), s);
    assert g1 == start;
    var g2 := Gather(rs, LatitudeGap, 1.0, s, start, 2);
    assert g2 == GatherStep(LatitudeGap, 1.0, s, g1, xFar);
    assert !Near(LatitudeGap, 1.0, s, xFar);
    assert g2 == start;
    var g3 := Gather(rs, LatitudeGap, 1.0, s, start, 3);
    assert g3 == GatherStep(LatitudeGap, 1.0, s, g2, xNear);
    assert Near(LatitudeGap, 1.0, s, xNear);
    assert g3 == Group([s, xNear], {"s", "x"});
    var g4 := Gather(rs, LatitudeGap, 1.0, s, start, 4);
    assert g4 == GatherStep(LatitudeGap, 1.0, s, g3, t);
    assert Near(LatitudeGap, 1.0, s, t);
    assert g4 == Group([s, xNear, t], {"s", "x", "t"});
    var kept := ScanState([MakeCluster([s, xNear, t])], {"s", "x", "t"});
    assert Scan(rs, LatitudeGap, 1.0, 1) == kept;
    assert Scan(rs, LatitudeGap, 1.0, 2) == kept;
    assert Scan(rs, LatitudeGap, 1.0, 3) == kept;
    assert Scan(rs, LatitudeGap, 1.0, 4) == kept;
    assert SortByCountDesc(kept.clusters) == kept.clusters;
  }

  // ---------------------------------------------------------------------
  // Classification
  // ---------------------------------------------------------------------

  /** For a cluster whose flag follows its size, severity depends on the
      size alone and never decreases as the size grows. */
  lemma SeverityMonotone(c1: Cluster, c2: Cluster)
    requires c1.isVerified <==> c1.reportCount >= VerifiedThreshold
    requires c2.isVerified <==> c2.reportCount >= VerifiedThreshold
    requires c1.reportCount <= c2.reportCount
    ensures Rank(ClusterSeverity(c1)) <= Rank(ClusterSeverity(c2))
  {
  }

  /** Two clusters get the same colour exactly when they have the same
      severity: the four palette entries are distinct. */
  lemma ColorDeterminesSeverity(c1: Cluster, c2: Cluster)
    ensures ClusterColor(c1) == ClusterColor(c2) <==> ClusterSeverity(c1) == ClusterSeverity(c2)
  {
    assert CriticalColor[3] == '2' && HighColor[3] == '5' && MediumColor[3] == 'b' && DefaultColor[3] == '8';
  }
}
