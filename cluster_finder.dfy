/**
 * src/probesUtilities/ClusterFinder.java: k-means clustering of the probes of
 * one class, with the number of clusters chosen by an elbow rule.
 *
 * Centroids are row vectors; a Jama `HashMap` keyed by centroid matrices uses
 * object identity, so the model keeps one group per centroid position, in the
 * order of the centroid list. `Math.sqrt` is the parameter `sqrt`; the
 * random source is a stream of draws, each `nextInt(bound)` taking the next
 * draw modulo `bound`. The inner k-means loop runs on `fuel` rounds.
 */
module Clusters {
  import opened Outcomes
  import opened Matrices
  import opened LinearAlgebra

  /** The inner loop stops once no centroid moved farther than this. */
  const MaximalAcceptableClusterCentroidDislocation: real := 0.000001

  /** The elbow rule asks for an error decrease of more than this fraction. */
  const H: real := 0.1

  /** Every centroid has `attributes` entries. */
  predicate Fits(centroids: seq<Vector>, attributes: nat) {
    forall c | 0 <= c < |centroids| :: |centroids[c]| == attributes
  }

  /**
   * `EuklideanDistance.calculateEuklideanDistanceBetweenMatrixes` on two row
   * vectors: the root of (a - b) * (a - b)^T.
   */
  function Euclidean(sqrt: real -> real, a: Vector, b: Vector): real
    requires |a| == |b|
  {
    var d := Difference(a, b);
    sqrt(Dot(d, d, |d|))
  }

  // ---------------------------------------------------------------------
  // assignSamplesToMods
  // ---------------------------------------------------------------------

  /**
   * The centroid the scan over the first `n` centroids picks for `probe`: a
   * later centroid replaces the current one only when strictly closer; -1
   * before any centroid is seen.
   */
  function Nearest(sqrt: real -> real, probe: Vector, centroids: seq<Vector>, n: nat): (i: int)
    requires n <= |centroids| && Fits(centroids, |probe|)
    ensures -1 <= i < n && (i == -1 <==> n == 0)
  {
    if n == 0 then -1
    else
      var i := Nearest(sqrt, probe, centroids, n - 1);
      if i < 0 || Euclidean(sqrt, probe, centroids[i]) > Euclidean(sqrt, probe, centroids[n - 1]) then n - 1 else i
  }

  /**
   * The chosen centroid is at least as close to the probe as every centroid
   * and strictly closer than every centroid before it: ties go to the first.
   */
  lemma {:induction false} NearestIsFirstClosest(sqrt: real -> real, probe: Vector, centroids: seq<Vector>, n: nat)
    requires 0 < n <= |centroids| && Fits(centroids, |probe|)
    ensures var i := Nearest(sqrt, probe, centroids, n);
      && (forall j | 0 <= j < n :: Euclidean(sqrt, probe, centroids[i]) <= Euclidean(sqrt, probe, centroids[j]))
      && (forall j | 0 <= j < i :: Euclidean(sqrt, probe, centroids[i]) < Euclidean(sqrt, probe, centroids[j]))
  {
    if n > 1 {
      var m := n - 1;
      NearestIsFirstClosest(sqrt, probe, centroids, m);
    }
  }

  /** Centroids for the probes of `probes`: at least one, each with an entry per attribute row. */
  predicate Centroids(probes: Matrix, centroids: seq<Vector>) {
    ProbeMatrix(probes) && |centroids| > 0 && Fits(centroids, |probes|)
  }

  /** The nearest centroid of probe `p`. */
  function NearestOf(sqrt: real -> real, probes: Matrix, centroids: seq<Vector>, p: nat): (i: nat)
    requires Centroids(probes, centroids) && p < ProbeCount(probes)
    ensures i < |centroids|
  {
    Nearest(sqrt, Column(probes, p), centroids, |centroids|)
  }

  /** The probes among the first `n` whose nearest centroid is `c`, in probe order. */
  function Members(sqrt: real -> real, probes: Matrix, centroids: seq<Vector>, c: nat, n: nat): (ms: seq<Vector>)
    requires Centroids(probes, centroids) && n <= ProbeCount(probes)
    ensures |ms| <= n
    ensures forall k | 0 <= k < |ms| :: |ms[k]| == |probes|
  {
    if n == 0 then []
    else
      var probe := Column(probes, n - 1);
      Members(sqrt, probes, centroids, c, n - 1) + (if NearestOf(sqrt, probes, centroids, n - 1) == c then [probe] else [])
  }

  /** Every member of group `c` has centroid `c` as its nearest centroid. */
  lemma {:induction false} MembersAreNearest(sqrt: real -> real, probes: Matrix, centroids: seq<Vector>, c: nat, n: nat)
    requires Centroids(probes, centroids) && n <= ProbeCount(probes)
    ensures var ms := Members(sqrt, probes, centroids, c, n);
      forall k | 0 <= k < |ms| :: Nearest(sqrt, ms[k], centroids, |centroids|) == c
  {
    var ms := Members(sqrt, probes, centroids, c, n);
    forall k | 0 <= k < |ms|
      ensures Nearest(sqrt, ms[k], centroids, |centroids|) == c
    {
      MemberIsNearest(sqrt, probes, centroids, c, n, k);
    }
  }

  lemma {:induction false} MemberIsNearest(sqrt: real -> real, probes: Matrix, centroids: seq<Vector>, c: nat, n: nat, k: nat)
    requires Centroids(probes, centroids) && n <= ProbeCount(probes)
    requires k < |Members(sqrt, probes, centroids, c, n)|
    ensures var m := Members(sqrt, probes, centroids, c, n)[k];
      Nearest(sqrt, m, centroids, |centroids|) == c
  {
    var m := n - 1;
    var front := Members(sqrt, probes, centroids, c, m);
    var ms := Members(sqrt, probes, centroids, c, n);
    var probe := Column(probes, m);
    MembersStep(sqrt, probes, centroids, c, n);
    if k < |front| {
      assert ms[k] == front[k];
      MemberIsNearest(sqrt, probes, centroids, c, m, k);
    } else {
      assert NearestOf(sqrt, probes, centroids, m) == c;
      assert ms[k] == probe;
    }
  }

  lemma MembersStep(sqrt: real -> real, probes: Matrix, centroids: seq<Vector>, c: nat, n: nat)
    requires Centroids(probes, centroids) && 0 < n <= ProbeCount(probes)
    ensures Members(sqrt, probes, centroids, c, n)
      == Members(sqrt, probes, centroids, c, n - 1)
         + (if NearestOf(sqrt, probes, centroids, n - 1) == c then [Column(probes, n - 1)] else [])
  {
  }

  /** The groups of the first `n` probes, one per centroid. */
  function GroupsUpTo(sqrt: real -> real, probes: Matrix, centroids: seq<Vector>, n: nat): (groups: seq<seq<Vector>>)
    requires Centroids(probes, centroids) && n <= ProbeCount(probes)
    ensures |groups| == |centroids|
  {
    seq(|centroids|, c requires 0 <= c < |centroids| => Members(sqrt, probes, centroids, c, n))
  }

  /** `assignSamplesToMods`: every probe in the group of its nearest centroid. */
  function Groups(sqrt: real -> real, probes: Matrix, centroids: seq<Vector>): (groups: seq<seq<Vector>>)
    requires Centroids(probes, centroids)
    ensures |groups| == |centroids|
  {
    GroupsUpTo(sqrt, probes, centroids, ProbeCount(probes))
  }

  /** The number of probes in all groups. */
  function TotalSize(groups: seq<seq<Vector>>): nat {
    if groups == [] then 0 else TotalSize(groups[..|groups| - 1]) + |groups[|groups| - 1]|
  }

  /**
   * The groups partition the probes: every probe lands in exactly one group,
   * so the groups hold as many probes as the matrix has columns.
   */
  lemma {:induction false} GroupsPartitionProbes(sqrt: real -> real, probes: Matrix, centroids: seq<Vector>, n: nat)
    requires Centroids(probes, centroids) && n <= ProbeCount(probes)
    ensures TotalSize(GroupsUpTo(sqrt, probes, centroids, n)) == n
  {
    if n == 0 {
      ZeroSizes(GroupsUpTo(sqrt, probes, centroids, 0));
    } else {
      var m := n - 1;
      GroupsPartitionProbes(sqrt, probes, centroids, m);
      var nearest := NearestOf(sqrt, probes, centroids, m);
      var before := GroupsUpTo(sqrt, probes, centroids, m);
      var after := GroupsUpTo(sqrt, probes, centroids, n);
      forall i | 0 <= i < |before|
        ensures |after[i]| == |before[i]| + (if i == nearest then 1 else 0)
      {
        assert after[i] == Members(sqrt, probes, centroids, i, n);
        assert before[i] == Members(sqrt, probes, centroids, i, m);
        MembersStep(sqrt, probes, centroids, i, n);
      }
      OneGroupGrows(before, after, nearest);
    }
  }

  lemma {:induction false} ZeroSizes(groups: seq<seq<Vector>>)
    requires forall c | 0 <= c < |groups| :: groups[c] == []
    ensures TotalSize(groups) == 0
  {
    if groups != [] {
      ZeroSizes(groups[..|groups| - 1]);
    }
  }

  /** Groups that differ only in group `c`, which holds one more probe, hold one more probe in all. */
  lemma {:induction false} OneGroupGrows(before: seq<seq<Vector>>, after: seq<seq<Vector>>, c: nat)
    requires |before| == |after| && c < |before|
    requires forall i | 0 <= i < |before| && i != c :: |after[i]| == |before[i]|
    requires |after[c]| == |before[c]| + 1
    ensures TotalSize(after) == TotalSize(before) + 1
  {
    var k := |before| - 1;
    if k == c {
      SameSizes(before[..k], after[..k]);
    } else {
      OneGroupGrows(before[..k], after[..k], c);
    }
  }

  lemma {:induction false} SameSizes(before: seq<seq<Vector>>, after: seq<seq<Vector>>)
    requires |before| == |after| && forall i | 0 <= i < |before| :: |after[i]| == |before[i]|
    ensures TotalSize(after) == TotalSize(before)
  {
    if before != [] {
      SameSizes(before[..|before| - 1], after[..|after| - 1]);
    }
  }

  // ---------------------------------------------------------------------
  // convertListOfProbesToMatrix, correctModCenters
  // ---------------------------------------------------------------------

  /** Every probe of the list is at least as long as the first. */
  predicate LongEnough(probesAsList: seq<Vector>)
    requires probesAsList != []
  {
    forall p | 0 <= p < |probesAsList| :: |probesAsList[p]| >= |probesAsList[0]|
  }

  /**
   * `convertListOfProbesToMatrix`: the probes of the list as the columns of a
   * matrix with one row per entry of the first probe. `get(0)` of an empty
   * list, a shorter probe and a matrix without rows are out of bounds.
   */
  function ListToMatrix(probesAsList: seq<Vector>): (r: Result<Matrix>)
    ensures r.Err? <==> probesAsList == [] || |probesAsList[0]| == 0 || !LongEnough(probesAsList)
    ensures r.Err? ==> r.error == IndexOutOfBounds
    ensures r.Ok? ==>
      && IsMatrix(r.value, |probesAsList[0]|, |probesAsList|)
      && forall a, p | 0 <= a < |r.value| && 0 <= p < |probesAsList| :: r.value[a][p] == probesAsList[p][a]
  {
    if probesAsList == [] || |probesAsList[0]| == 0 || !LongEnough(probesAsList) then Err(IndexOutOfBounds)
    else
      var rows := |probesAsList[0]|;
      Ok(seq(rows, a requires 0 <= a < rows =>
        seq(|probesAsList|, p requires 0 <= p < |probesAsList| => probesAsList[p][a])))
  }

  /** Every group member has `attributes` entries. */
  predicate Uniform(groups: seq<seq<Vector>>, attributes: nat) {
    forall c, k | 0 <= c < |groups| && 0 <= k < |groups[c]| :: |groups[c][k]| == attributes
  }

  /**
   * `correctModCenters` over the first `n` groups: the mean of every group in
   * order, or `EmptyClusterException` at the first empty group.
   */
  function Corrected(groups: seq<seq<Vector>>, attributes: nat, n: nat): (r: Result<seq<Vector>>)
    requires n <= |groups| && Uniform(groups, attributes) && attributes > 0
    ensures r.Err? <==> exists c | 0 <= c < n :: groups[c] == []
    ensures r.Err? ==> r.error == EmptyCluster
    ensures r.Ok? ==> |r.value| == n && Fits(r.value, attributes)
  {
    if n == 0 then Ok([])
    else
      var front := Corrected(groups, attributes, n - 1);
      if front.Err? then front
      else if groups[n - 1] == [] then Err(EmptyCluster)
      else
        var probes := ListToMatrix(groups[n - 1]).value;
        Ok(front.value + [MeanVector(probes).value])
  }

  /** Each corrected centroid is the mean of its group, taken as a matrix. */
  lemma {:induction false} CorrectedAreMeans(groups: seq<seq<Vector>>, attributes: nat, n: nat)
    requires n <= |groups| && Uniform(groups, attributes) && attributes > 0
    ensures var r := Corrected(groups, attributes, n);
      r.Ok? ==> forall c | 0 <= c < n ::
        ListToMatrix(groups[c]).Ok? && MeanVector(ListToMatrix(groups[c]).value) == Some(r.value[c])
  {
    if n > 0 {
      var m := n - 1;
      CorrectedAreMeans(groups, attributes, m);
    }
  }

  // ---------------------------------------------------------------------
  // calculateMaximumDislocationOfClustersCentroids
  // ---------------------------------------------------------------------

  /** The old and new centroids pair up, position by position. */
  predicate Paired(current: seq<Vector>, moved: seq<Vector>) {
    |current| == |moved| && forall c | 0 <= c < |current| :: |current[c]| == |moved[c]|
  }

  /** The largest distance between an old centroid and its moved position over the first `n` pairs, `Math.max` folded from 0. */
  function MaxDislocation(sqrt: real -> real, current: seq<Vector>, moved: seq<Vector>, n: nat): real
    requires Paired(current, moved) && n <= |current|
  {
    if n == 0 then 0.0
    else
      var before := MaxDislocation(sqrt, current, moved, n - 1);
      var d := Euclidean(sqrt, current[n - 1], moved[n - 1]);
      if before >= d then before else d
  }

  /**
   * The dislocation is at least 0 and at least every pair's distance, and it
   * is 0 or one of those distances.
   */
  lemma {:induction false} MaxDislocationIsMaximum(sqrt: real -> real, current: seq<Vector>, moved: seq<Vector>, n: nat)
    requires Paired(current, moved) && n <= |current|
    ensures var r := MaxDislocation(sqrt, current, moved, n);
      && r >= 0.0
      && (forall c | 0 <= c < n :: Euclidean(sqrt, current[c], moved[c]) <= r)
      && (r == 0.0 || exists c | 0 <= c < n :: r == Euclidean(sqrt, current[c], moved[c]))
  {
    if n > 0 {
      var m := n - 1;
      MaxDislocationIsMaximum(sqrt, current, moved, m);
    }
  }

  // ---------------------------------------------------------------------
  // findCentroidsForNClusters, randomModCenters
  // ---------------------------------------------------------------------

  /**
   * The fuel left after one round of the inner loop. Kept as a function of
   * its own so that the loop and its specification share the very same term.
   */
  function OneRoundLess(fuel: nat): (left: nat)
    requires fuel > 0
    ensures left < fuel
  {
    fuel - 1
  }

  /** The inner k-means loop: assign, move every centroid to its group's mean, until none moves much. */
  function Lloyd(sqrt: real -> real, probes: Matrix, centroids: seq<Vector>, fuel: nat): (r: Result<seq<Vector>>)
    requires Centroids(probes, centroids) && |probes| > 0
    ensures r.Ok? ==> |r.value| == |centroids| && Fits(r.value, |probes|)
    ensures r.Err? ==> r.error == EmptyCluster || r.error == OutOfFuel
    decreases fuel
  {
    if fuel == 0 then Err(OutOfFuel)
    else
      var groups := Groups(sqrt, probes, centroids);
      var next := Corrected(groups, |probes|, |groups|);
      if next.Err? then Err(next.error)
      else if MaxDislocation(sqrt, centroids, next.value, |centroids|) > MaximalAcceptableClusterCentroidDislocation then
        Lloyd(sqrt, probes, next.value, OneRoundLess(fuel))
      else next
  }

  /** No index occurs twice. */
  predicate Distinct(indexes: seq<nat>) {
    forall i, j | 0 <= i < j < |indexes| :: indexes[i] != indexes[j]
  }

  /** Every index is below `bound`. */
  predicate AllBelow(indexes: seq<nat>, bound: nat) {
    forall i | 0 <= i < |indexes| :: indexes[i] < bound
  }

  /** `rest` is what is left of `draws` after some were taken. */
  predicate Suffix(rest: seq<nat>, draws: seq<nat>) {
    |rest| <= |draws| && rest == draws[|draws| - |rest|..]
  }

  /**
   * The picking loops of `randomModCenters` after `chosen`: draw
   * `nextInt(cols)` until an index not chosen yet comes up, until `m` are
   * chosen; `OutOfFuel` when the draws run out first.
   */
  function PickIndexes(cols: nat, m: nat, chosen: seq<nat>, draws: seq<nat>): (r: Result<(seq<nat>, seq<nat>)>)
    requires 0 < cols && |chosen| <= m && Distinct(chosen) && AllBelow(chosen, cols)
    ensures r.Err? ==> r.error == OutOfFuel
    ensures r.Ok? ==>
      && |r.value.0| == m && Distinct(r.value.0) && AllBelow(r.value.0, cols)
      && Suffix(r.value.1, draws)
    decreases |draws|
  {
    if |chosen| == m then Ok((chosen, draws))
    else if draws == [] then Err(OutOfFuel)
    else
      var probeIndex := draws[0] % cols;
      var picked := if probeIndex in chosen then chosen else chosen + [probeIndex];
      FreshIndex(chosen, probeIndex, cols);
      var r := PickIndexes(cols, m, picked, draws[1..]);
      if r.Ok? then SuffixOfRest(r.value.1, draws); r else r
  }

  /** Adding an index not chosen yet keeps the indexes distinct and in range. */
  lemma FreshIndex(chosen: seq<nat>, probeIndex: nat, cols: nat)
    requires Distinct(chosen) && AllBelow(chosen, cols) && probeIndex < cols
    ensures probeIndex !in chosen ==> Distinct(chosen + [probeIndex]) && AllBelow(chosen + [probeIndex], cols)
  {
    var grown := chosen + [probeIndex];
    assert forall i | 0 <= i < |chosen| :: grown[i] == chosen[i];
  }

  /** What is left after the rest of the draws is left after all of them. */
  lemma SuffixOfRest(rest: seq<nat>, draws: seq<nat>)
    requires draws != [] && Suffix(rest, draws[1..])
    ensures Suffix(rest, draws)
  {
    assert draws[1..][|draws| - 1 - |rest|..] == draws[|draws| - |rest|..];
  }

  /**
   * The probe indexes `randomModCenters` picks: `nextInt(0)` throws when
   * there is no probe, and asking for more distinct indexes than there are
   * probes never ends.
   */
  function RandomPicks(cols: nat, numberOfClusters: nat, draws: seq<nat>): (r: Result<(seq<nat>, seq<nat>)>)
    ensures r.Err? ==>
      || (r.error == IllegalArgument && cols == 0 && numberOfClusters > 0)
      || (r.error == Diverges && 0 < cols < numberOfClusters)
      || r.error == OutOfFuel
    ensures r.Ok? ==>
      && |r.value.0| == numberOfClusters && Distinct(r.value.0) && AllBelow(r.value.0, cols)
      && Suffix(r.value.1, draws)
  {
    if numberOfClusters == 0 then Ok(([], draws))
    else if cols == 0 then Err(IllegalArgument)
    else if numberOfClusters > cols then Err(Diverges)
    else PickIndexes(cols, numberOfClusters, [], draws)
  }

  /** The probes at the picked indexes, as centroids. */
  function CentersAt(probes: Matrix, picked: seq<nat>): (centroids: seq<Vector>)
    requires ProbeMatrix(probes) && AllBelow(picked, ProbeCount(probes))
    ensures |centroids| == |picked| && Fits(centroids, |probes|)
  {
    seq(|picked|, i requires 0 <= i < |picked| => Column(probes, picked[i]))
  }

  /**
   * `findCentroidsForNClusters`: one cluster is the mean of all probes;
   * more start from randomly picked probes and run the inner loop. The
   * result comes with the draws left over.
   */
  function FindCentroids(sqrt: real -> real, probes: Matrix, clusterCount: nat, draws: seq<nat>, fuel: nat)
    : (r: (Result<seq<Vector>>, seq<nat>))
    requires ProbeMatrix(probes) && |probes| > 0 && ProbeCount(probes) > 0 && clusterCount > 0
    ensures r.0.Ok? ==> |r.0.value| == clusterCount && Fits(r.0.value, |probes|)
    ensures r.0.Ok? && clusterCount > 1 ==> clusterCount <= ProbeCount(probes)
    ensures clusterCount == 1 ==> r.0.Ok? && r.1 == draws
    ensures Suffix(r.1, draws)
  {
    if clusterCount > 1 then
      match RandomPicks(ProbeCount(probes), clusterCount, draws)
      case Err(e) => (Err(e), draws)
      case Ok((picked, rest)) => (Lloyd(sqrt, probes, CentersAt(probes, picked), fuel), rest)
    else
      (Ok([MeanVector(probes).value]), draws)
  }

  /** With one cluster the sole centroid is the mean of all probes, and nothing is drawn. */
  lemma SingleClusterIsMean(sqrt: real -> real, probes: Matrix, draws: seq<nat>, fuel: nat)
    requires ProbeMatrix(probes) && |probes| > 0 && ProbeCount(probes) > 0
    ensures var (found, rest) := FindCentroids(sqrt, probes, 1, draws, fuel);
      && found.Ok? && |found.value| == 1 && rest == draws
      && forall a | 0 <= a < |probes| :: found.value[0][a] * (ProbeCount(probes) as real) == Sum(probes[a])
  {
  }

  // ---------------------------------------------------------------------
  // calculateError, errorDecreasedSignificantly, findOptimalClusters
  // ---------------------------------------------------------------------

  /** The distances from a centroid to the members of its group, summed in order. */
  function DistanceSum(sqrt: real -> real, centroid: Vector, members: seq<Vector>): real
    requires forall k | 0 <= k < |members| :: |members[k]| == |centroid|
  {
    if members == [] then 0.0
    else DistanceSum(sqrt, centroid, members[..|members| - 1]) + Euclidean(sqrt, centroid, members[|members| - 1])
  }

  /**
   * The running sum of `calculateError` over the first `n` clusters: each
   * adds its mean member distance, `NaN` (`None`) once a group is empty.
   */
  function ErrorSum(sqrt: real -> real, centroids: seq<Vector>, groups: seq<seq<Vector>>, n: nat): (e: Option<real>)
    requires n <= |centroids| == |groups|
    requires forall c, k | 0 <= c < |groups| && 0 <= k < |groups[c]| :: |groups[c][k]| == |centroids[c]|
    ensures e.None? <==> exists c | 0 <= c < n :: groups[c] == []
  {
    if n == 0 then Some(0.0)
    else
      var front := ErrorSum(sqrt, centroids, groups, n - 1);
      var members := groups[n - 1];
      if front.None? || members == [] then None
      else Some(front.value + DistanceSum(sqrt, centroids[n - 1], members) / (|members| as real))
  }

  /**
   * `calculateError`: the mean over the clusters of the mean distance from a
   * centroid to its members; `NaN` (`None`) iff some centroid gets no probe.
   */
  function ClusterError(sqrt: real -> real, probes: Matrix, centroids: seq<Vector>): (e: Option<real>)
    requires Centroids(probes, centroids)
    ensures e.None? <==> exists c | 0 <= c < |centroids| :: Groups(sqrt, probes, centroids)[c] == []
  {
    var groups := Groups(sqrt, probes, centroids);
    match ErrorSum(sqrt, centroids, groups, |centroids|)
    case None => None
    case Some(sum) => Some(sum / (|centroids| as real))
  }

  /**
   * `errorDecreasedSignificantly` on two successive errors: the later one is
   * more than 10% of the earlier one away from it. Any comparison with `NaN`
   * is false.
   */
  predicate Decreased(previous: Option<real>, current: Option<real>) {
    previous.Some? && current.Some? && Abs(previous.value - current.value) > previous.value * H
  }

  /** `errorDecreasedSignificantly` on the list of errors, for `numberOfMods` clusters. */
  predicate ErrorDecreasedSignificantly(errors: seq<Option<real>>, numberOfMods: nat)
    requires 2 <= numberOfMods <= |errors|
  {
    Decreased(errors[numberOfMods - 2], errors[numberOfMods - 1])
  }

  /** Centroid lists found so far, one per cluster count: none empty, all fitting the probes. */
  predicate Configurations(configs: seq<seq<Vector>>, attributes: nat) {
    forall i | 0 <= i < |configs| :: |configs[i]| > 0 && Fits(configs[i], attributes)
  }

  lemma ConfigurationsGrow(configs: seq<seq<Vector>>, found: seq<Vector>, attributes: nat)
    requires Configurations(configs, attributes) && |found| > 0 && Fits(found, attributes)
    ensures Configurations(configs + [found], attributes)
  {
  }

  /**
   * The number of clusters the next round of `findOptimalClusters` tries.
   * Kept as a function of its own so that the loop and its specification
   * share the very same term.
   */
  function OneMoreCluster(m: nat): (next: nat)
    ensures next > m
  {
    m + 1
  }

  // ---------------------------------------------------------------------
  // assignProbesToClusters
  // ---------------------------------------------------------------------

  /** One sub-cluster: its centroid and its probes as the columns of a matrix. */
  datatype Cluster = Cluster(centroid: Vector, probes: Matrix)

  /** A sub-cluster of probes with `attributes` attributes holding at least one probe. */
  predicate ClusterFits(cluster: Cluster, attributes: nat) {
    && |cluster.centroid| == attributes
    && IsMatrix(cluster.probes, attributes, ProbeCount(cluster.probes))
    && attributes > 0 && ProbeCount(cluster.probes) > 0
  }

  /** The probes in all sub-clusters. */
  function ClusteredProbes(clusters: seq<Cluster>): nat {
    if clusters == [] then 0 else ClusteredProbes(clusters[..|clusters| - 1]) + ProbeCount(clusters[|clusters| - 1].probes)
  }

  /**
   * The first `n` groups as sub-clusters: `convertListOfProbesToMatrix` reads
   * `get(0)` of every group, so an empty group is out of bounds.
   */
  function ToClusters(centroids: seq<Vector>, groups: seq<seq<Vector>>, attributes: nat, n: nat): (r: Result<seq<Cluster>>)
    requires n <= |centroids| == |groups| && Fits(centroids, attributes) && Uniform(groups, attributes) && attributes > 0
    ensures r.Err? <==> exists c | 0 <= c < n :: groups[c] == []
    ensures r.Err? ==> r.error == IndexOutOfBounds
    ensures r.Ok? ==> |r.value| == n
  {
    if n == 0 then Ok([])
    else
      var front := ToClusters(centroids, groups, attributes, n - 1);
      if front.Err? then front
      else if groups[n - 1] == [] then Err(IndexOutOfBounds)
      else Ok(front.value + [Cluster(centroids[n - 1], ListToMatrix(groups[n - 1]).value)])
  }

  /** Together the sub-clusters hold every probe of the groups. */
  lemma {:induction false} ToClustersSize(centroids: seq<Vector>, groups: seq<seq<Vector>>, attributes: nat, n: nat)
    requires n <= |centroids| == |groups| && Fits(centroids, attributes) && Uniform(groups, attributes) && attributes > 0
    ensures var r := ToClusters(centroids, groups, attributes, n);
      r.Ok? ==> TotalSize(groups[..n]) == ClusteredProbes(r.value)
  {
    var r := ToClusters(centroids, groups, attributes, n);
    if n > 0 && r.Ok? {
      var m := n - 1;
      ToClustersSize(centroids, groups, attributes, m);
      var front := ToClusters(centroids, groups, attributes, m).value;
      var last := ListToMatrix(groups[m]);
      assert r.value == front + [Cluster(centroids[m], last.value)];
      assert r.value[..m] == front;
      assert ProbeCount(last.value) == |groups[m]|;
      assert groups[..n][..m] == groups[..m];
    }
  }

  /** Sub-cluster `c` keeps centroid `c` and holds group `c` as a matrix. */
  lemma {:induction false} ToClusterAt(centroids: seq<Vector>, groups: seq<seq<Vector>>, attributes: nat, n: nat, c: nat)
    requires n <= |centroids| == |groups| && Fits(centroids, attributes) && Uniform(groups, attributes) && attributes > 0
    requires c < n
    ensures var r := ToClusters(centroids, groups, attributes, n);
      r.Ok? ==> ListToMatrix(groups[c]).Ok? && r.value[c] == Cluster(centroids[c], ListToMatrix(groups[c]).value)
  {
    var r := ToClusters(centroids, groups, attributes, n);
    var m := n - 1;
    if r.Ok? && c < m {
      ToClusterAt(centroids, groups, attributes, m, c);
      var front := ToClusters(centroids, groups, attributes, m).value;
      assert r.value == front + [Cluster(centroids[m], ListToMatrix(groups[m]).value)];
      assert r.value[c] == front[c];
    }
  }

  /**
   * Each sub-cluster keeps its centroid and holds its group as a matrix with
   * a column per member, so together they hold every probe of the groups.
   */
  lemma ToClustersFit(centroids: seq<Vector>, groups: seq<seq<Vector>>, attributes: nat, n: nat)
    requires n <= |centroids| == |groups| && Fits(centroids, attributes) && Uniform(groups, attributes) && attributes > 0
    ensures var r := ToClusters(centroids, groups, attributes, n);
      r.Ok? ==>
        && TotalSize(groups[..n]) == ClusteredProbes(r.value)
        && forall c | 0 <= c < n ::
             && r.value[c].centroid == centroids[c] && ClusterFits(r.value[c], attributes)
             && Ok(r.value[c].probes) == ListToMatrix(groups[c])
  {
    var r := ToClusters(centroids, groups, attributes, n);
    ToClustersSize(centroids, groups, attributes, n);
    if r.Ok? {
      forall c | 0 <= c < n
        ensures r.value[c].centroid == centroids[c] && ClusterFits(r.value[c], attributes)
        ensures Ok(r.value[c].probes) == ListToMatrix(groups[c])
      {
        ToClusterAt(centroids, groups, attributes, n, c);
        assert |groups[c][0]| == attributes;
      }
    }
  }

  /**
   * The sub-clusters `assignProbesToClusters` makes of given centroids:
   * every probe in the group of its nearest centroid, each group as a
   * matrix, in centroid order.
   */
  function Assign(sqrt: real -> real, probes: Matrix, centroids: seq<Vector>): (r: Result<seq<Cluster>>)
    requires Centroids(probes, centroids) && |probes| > 0
    ensures r.Err? ==> r.error == IndexOutOfBounds
    ensures r.Ok? ==>
      && |r.value| == |centroids| && ClusteredProbes(r.value) == ProbeCount(probes)
      && forall c | 0 <= c < |r.value| :: ClusterFits(r.value[c], |probes|)
  {
    var groups := Groups(sqrt, probes, centroids);
    GroupsPartitionProbes(sqrt, probes, centroids, ProbeCount(probes));
    assert groups[..|centroids|] == groups;
    ToClustersFit(centroids, groups, |probes|, |centroids|);
    ToClusters(centroids, groups, |probes|, |centroids|)
  }

  /**
   * What `findOptimalClusters` settles on: the centroids, the sub-clusters
   * `assignProbesToClusters` makes of them, and the draws left over.
   */
  datatype Optimum = Optimum(centroids: seq<Vector>, clusters: Result<seq<Cluster>>, rest: seq<nat>)

  /** An optimum of centroids for the probes, whose sub-clusters, if any, hold every probe. */
  predicate Settled(optimum: Optimum, probes: Matrix) {
    && |optimum.centroids| > 0 && Fits(optimum.centroids, |probes|)
    && (optimum.clusters.Ok? ==>
          && |optimum.clusters.value| > 0 && ClusteredProbes(optimum.clusters.value) == ProbeCount(probes)
          && forall c | 0 <= c < |optimum.clusters.value| :: ClusterFits(optimum.clusters.value[c], |probes|))
  }

  /**
   * The do-while of `findOptimalClusters` after `m` rounds, `configs` holding
   * the centroids found for 1 .. m clusters: while `m < 2` or the error
   * still decreases significantly it tries `m + 1` clusters; it settles on
   * the centroids for one cluster fewer than the last count tried, whether
   * it stops on the rule or on `EmptyClusterException`. The errors are
   * those of the centroids in `configs`.
   */
  function Search(sqrt: real -> real, probes: Matrix, m: nat, configs: seq<seq<Vector>>, draws: seq<nat>, fuel: nat)
    : (r: Result<Optimum>)
    requires ProbeMatrix(probes) && |probes| > 0 && 0 < ProbeCount(probes) && m <= ProbeCount(probes)
    requires |configs| == m && Configurations(configs, |probes|)
    ensures r.Ok? ==> Settled(r.value, probes)
    decreases ProbeCount(probes) - m
  {
    if m >= 2 && !Decreased(ClusterError(sqrt, probes, configs[m - 2]), ClusterError(sqrt, probes, configs[m - 1])) then
      Ok(Optimum(configs[m - 2], Assign(sqrt, probes, configs[m - 2]), draws))
    else
      var next := OneMoreCluster(m);
      var (found, rest) := FindCentroids(sqrt, probes, next, draws, fuel);
      if found == Err(EmptyCluster) then Ok(Optimum(configs[m - 1], Assign(sqrt, probes, configs[m - 1]), rest))
      else if found.Err? then Err(found.error)
      else
        ConfigurationsGrow(configs, found.value, |probes|);
        Search(sqrt, probes, next, configs + [found.value], rest, fuel)
  }

  /**
   * `findOptimalClusters`, from no round tried. Without probes the mean
   * centroid and its error are `NaN` and the round for two clusters asks
   * `nextInt(0)`, which throws.
   */
  function OptimalCentroids(sqrt: real -> real, probes: Matrix, draws: seq<nat>, fuel: nat): (r: Result<Optimum>)
    requires ProbeMatrix(probes) && |probes| > 0
    ensures r.Ok? ==> Settled(r.value, probes)
  {
    if ProbeCount(probes) == 0 then Err(IllegalArgument) else Search(sqrt, probes, 0, [], draws, fuel)
  }

  /** The sub-clusters of the optimum are those `assignProbesToClusters` makes of its centroids. */
  lemma {:induction false} SettledClustersAreAssigned(sqrt: real -> real, probes: Matrix, m: nat, configs: seq<seq<Vector>>,
                                                      draws: seq<nat>, fuel: nat)
    requires ProbeMatrix(probes) && |probes| > 0 && 0 < ProbeCount(probes) && m <= ProbeCount(probes)
    requires |configs| == m && Configurations(configs, |probes|)
    ensures var r := Search(sqrt, probes, m, configs, draws, fuel);
      r.Ok? ==> r.value.clusters == Assign(sqrt, probes, r.value.centroids)
    decreases ProbeCount(probes) - m
  {
    if !(m >= 2 && !Decreased(ClusterError(sqrt, probes, configs[m - 2]), ClusterError(sqrt, probes, configs[m - 1]))) {
      var next := OneMoreCluster(m);
      var (found, rest) := FindCentroids(sqrt, probes, next, draws, fuel);
      if found.Ok? {
        ConfigurationsGrow(configs, found.value, |probes|);
        SettledClustersAreAssigned(sqrt, probes, next, configs + [found.value], rest, fuel);
      }
    }
  }

  /**
   * One round of `Search` that goes on past the rule: it settles on the last
   * centroids when the round meets an empty cluster, fails with the
   * round's other errors, and otherwise goes on with the round's centroids.
   */
  lemma SearchStep(sqrt: real -> real, probes: Matrix, m: nat, configs: seq<seq<Vector>>, draws: seq<nat>, fuel: nat)
    requires ProbeMatrix(probes) && |probes| > 0 && 0 < ProbeCount(probes) && m <= ProbeCount(probes)
    requires |configs| == m && Configurations(configs, |probes|)
    requires m < 2 || Decreased(ClusterError(sqrt, probes, configs[m - 2]), ClusterError(sqrt, probes, configs[m - 1]))
    ensures var (found, rest) := FindCentroids(sqrt, probes, OneMoreCluster(m), draws, fuel);
      var r := Search(sqrt, probes, m, configs, draws, fuel);
      && (found == Err(EmptyCluster) ==> 1 <= m && CentroidsOf(r) == Ok((configs[m - 1], rest)))
      && (found.Err? && found != Err(EmptyCluster) ==> r == Err(found.error))
      && (found.Ok? ==>
            && OneMoreCluster(m) <= ProbeCount(probes) && Configurations(configs + [found.value], |probes|)
            && r == Search(sqrt, probes, OneMoreCluster(m), configs + [found.value], rest, fuel))
  {
    var (found, rest) := FindCentroids(sqrt, probes, OneMoreCluster(m), draws, fuel);
    if found.Ok? {
      ConfigurationsGrow(configs, found.value, |probes|);
    }
  }

  /** `Search` once the error no longer decreased significantly: the centroids of the round before it. */
  lemma SearchStops(sqrt: real -> real, probes: Matrix, m: nat, configs: seq<seq<Vector>>, draws: seq<nat>, fuel: nat)
    requires ProbeMatrix(probes) && |probes| > 0 && 0 < ProbeCount(probes) && 2 <= m <= ProbeCount(probes)
    requires |configs| == m && Configurations(configs, |probes|)
    requires !Decreased(ClusterError(sqrt, probes, configs[m - 2]), ClusterError(sqrt, probes, configs[m - 1]))
    ensures CentroidsOf(Search(sqrt, probes, m, configs, draws, fuel)) == Ok((configs[m - 2], draws))
  {
  }

  /**
   * The first `k` rounds of `findOptimalClusters`, run whatever the errors:
   * the centroids for 1 .. k clusters, each round drawing from what the
   * round before it left, and the draws left over; the error of the first
   * round that fails, if one does.
   */
  ghost function Rounds(sqrt: real -> real, probes: Matrix, k: nat, draws: seq<nat>, fuel: nat)
    : (r: (Result<seq<seq<Vector>>>, seq<nat>))
    requires ProbeMatrix(probes) && |probes| > 0 && 0 < ProbeCount(probes)
    ensures r.0.Ok? ==> |r.0.value| == k && Configurations(r.0.value, |probes|)
  {
    if k == 0 then (Ok([]), draws)
    else
      var (previous, rest) := Rounds(sqrt, probes, k - 1, draws, fuel);
      if previous.Err? then (previous, rest)
      else
        var (found, left) := FindCentroids(sqrt, probes, k, rest, fuel);
        if found.Err? then (Err(found.error), left)
        else
          ConfigurationsGrow(previous.value, found.value, |probes|);
          (Ok(previous.value + [found.value]), left)
  }

  /** `errorDecreasedSignificantly` held after round `j + 1` of `configs`. */
  ghost predicate Lowered(sqrt: real -> real, probes: Matrix, configs: seq<seq<Vector>>, j: nat)
    requires ProbeMatrix(probes) && Configurations(configs, |probes|) && 1 <= j < |configs|
  {
    Decreased(ClusterError(sqrt, probes, configs[j - 1]), ClusterError(sqrt, probes, configs[j]))
  }

  /**
   * The elbow rule, settling on `k` clusters: rounds 1 .. k succeed, the
   * error decreasing significantly after every round from the second on,
   * and round `k + 1` either meets an empty cluster or no longer decreases
   * the error significantly. The optimum keeps the centroids of round `k`
   * and the draws round `k + 1` left.
   */
  ghost predicate Elbow(sqrt: real -> real, probes: Matrix, draws: seq<nat>, fuel: nat, k: nat, optimum: Optimum)
    requires ProbeMatrix(probes) && |probes| > 0 && 0 < ProbeCount(probes)
  {
    var (found, rest) := Rounds(sqrt, probes, k, draws, fuel);
    && k >= 1 && found.Ok?
    && optimum.centroids == found.value[k - 1]
    && (forall j | 1 <= j < k :: Lowered(sqrt, probes, found.value, j))
    && var (last, left) := FindCentroids(sqrt, probes, k + 1, rest, fuel);
       && optimum.rest == left
       && (|| last == Err(EmptyCluster)
           || (last.Ok? && !Decreased(ClusterError(sqrt, probes, found.value[k - 1]), ClusterError(sqrt, probes, last.value))))
  }

  /** The error no longer decreased significantly after round `m`: the rule settles on `m - 1` clusters. */
  lemma {:induction false} ElbowOnRule(sqrt: real -> real, probes: Matrix, m: nat, configs: seq<seq<Vector>>,
                                       draws0: seq<nat>, draws: seq<nat>, fuel: nat, optimum: Optimum)
    requires ProbeMatrix(probes) && |probes| > 0 && 0 < ProbeCount(probes) && 2 <= m
    requires |configs| == m && Configurations(configs, |probes|)
    requires Rounds(sqrt, probes, m, draws0, fuel) == (Ok(configs), draws)
    requires forall j | 1 <= j < m - 1 :: Lowered(sqrt, probes, configs, j)
    requires !Lowered(sqrt, probes, configs, m - 1)
    requires optimum.centroids == configs[m - 2] && optimum.rest == draws
    ensures Elbow(sqrt, probes, draws0, fuel, m - 1, optimum)
  {
    var k := m - 1;
    var (previous, rest) := Rounds(sqrt, probes, k, draws0, fuel);
    var (found, left) := FindCentroids(sqrt, probes, m, rest, fuel);
    assert previous.Ok? && found.Ok? && previous.value + [found.value] == configs && left == draws;
    assert previous.value == configs[..k];
    forall j | 1 <= j < k
      ensures Lowered(sqrt, probes, previous.value, j)
    {
      assert Lowered(sqrt, probes, configs, j);
    }
  }

  /** Round `m + 1` met an empty cluster: the rule settles on `m` clusters. */
  lemma {:induction false} ElbowOnEmptyCluster(sqrt: real -> real, probes: Matrix, m: nat, configs: seq<seq<Vector>>,
                                               draws0: seq<nat>, draws: seq<nat>, fuel: nat, optimum: Optimum)
    requires ProbeMatrix(probes) && |probes| > 0 && 0 < ProbeCount(probes) && 1 <= m
    requires |configs| == m && Configurations(configs, |probes|)
    requires Rounds(sqrt, probes, m, draws0, fuel) == (Ok(configs), draws)
    requires forall j | 1 <= j < m :: Lowered(sqrt, probes, configs, j)
    requires FindCentroids(sqrt, probes, m + 1, draws, fuel) == (Err(EmptyCluster), optimum.rest)
    requires optimum.centroids == configs[m - 1]
    ensures Elbow(sqrt, probes, draws0, fuel, m, optimum)
  {
  }

  /** Round `m + 1` after `m` rounds that succeeded. */
  lemma RoundsNext(sqrt: real -> real, probes: Matrix, m: nat, draws0: seq<nat>, fuel: nat, configs: seq<seq<Vector>>, draws: seq<nat>)
    requires ProbeMatrix(probes) && |probes| > 0 && 0 < ProbeCount(probes)
    requires Rounds(sqrt, probes, m, draws0, fuel) == (Ok(configs), draws)
    ensures var (found, rest) := FindCentroids(sqrt, probes, OneMoreCluster(m), draws, fuel);
      Rounds(sqrt, probes, OneMoreCluster(m), draws0, fuel)
        == if found.Err? then (Err(found.error), rest) else (Ok(configs + [found.value]), rest)
  {
  }

  /** The error decreased significantly after the rounds before the last, and after the last: after all of them. */
  lemma LoweredUpTo(sqrt: real -> real, probes: Matrix, configs: seq<seq<Vector>>)
    requires ProbeMatrix(probes) && Configurations(configs, |probes|)
    requires forall j | 1 <= j < |configs| - 1 :: Lowered(sqrt, probes, configs, j)
    requires |configs| < 2 || Lowered(sqrt, probes, configs, |configs| - 1)
    ensures forall j | 1 <= j < |configs| :: Lowered(sqrt, probes, configs, j)
  {
    forall j | 1 <= j < |configs|
      ensures Lowered(sqrt, probes, configs, j)
    {
      if j < |configs| - 1 {
        assert Lowered(sqrt, probes, configs, j);
      }
    }
  }

  /** `Lowered` of the rounds so far survives one more round. */
  lemma {:induction false} LoweredGrow(sqrt: real -> real, probes: Matrix, configs: seq<seq<Vector>>, found: seq<Vector>)
    requires ProbeMatrix(probes) && Configurations(configs, |probes|) && Configurations(configs + [found], |probes|)
    requires forall j | 1 <= j < |configs| :: Lowered(sqrt, probes, configs, j)
    ensures forall j | 1 <= j < |configs| :: Lowered(sqrt, probes, configs + [found], j)
  {
    var grown := configs + [found];
    forall j | 1 <= j < |configs|
      ensures Lowered(sqrt, probes, grown, j)
    {
      assert Lowered(sqrt, probes, configs, j);
      assert grown[j - 1] == configs[j - 1] && grown[j] == configs[j];
    }
  }

  /**
   * An outcome the elbow rule allows for rounds run from `draws`: settled on
   * the `k` of some `Elbow`, or failed with the error of some round, never
   * with `EmptyClusterException`.
   */
  ghost predicate FollowsElbow(sqrt: real -> real, probes: Matrix, draws: seq<nat>, fuel: nat, r: Result<Optimum>)
    requires ProbeMatrix(probes) && |probes| > 0 && 0 < ProbeCount(probes)
  {
    && (r.Ok? ==> exists k :: Elbow(sqrt, probes, draws, fuel, k, r.value))
    && (r.Err? ==> r.error != EmptyCluster && exists k :: Rounds(sqrt, probes, k, draws, fuel).0 == Err(r.error))
  }

  /** `Search` after `m` rounds that ran from `draws0` follows the elbow rule. */
  lemma {:induction false} SearchFollowsElbow(sqrt: real -> real, probes: Matrix, m: nat, configs: seq<seq<Vector>>,
                                              draws0: seq<nat>, draws: seq<nat>, fuel: nat)
    requires ProbeMatrix(probes) && |probes| > 0 && 0 < ProbeCount(probes) && m <= ProbeCount(probes)
    requires |configs| == m && Configurations(configs, |probes|)
    requires Rounds(sqrt, probes, m, draws0, fuel) == (Ok(configs), draws)
    requires forall j | 1 <= j < m - 1 :: Lowered(sqrt, probes, configs, j)
    ensures FollowsElbow(sqrt, probes, draws0, fuel, Search(sqrt, probes, m, configs, draws, fuel))
    decreases ProbeCount(probes) - m, 1
  {
    if m >= 2 && !Lowered(sqrt, probes, configs, m - 1) {
      SearchStopsOnRule(sqrt, probes, m, configs, draws0, draws, fuel);
    } else {
      LoweredUpTo(sqrt, probes, configs);
      SearchGoesOn(sqrt, probes, m, configs, draws0, draws, fuel);
    }
  }

  /** `Search` after `m` rounds, after the last of which the error no longer decreased significantly. */
  lemma SearchStopsOnRule(sqrt: real -> real, probes: Matrix, m: nat, configs: seq<seq<Vector>>,
                          draws0: seq<nat>, draws: seq<nat>, fuel: nat)
    requires ProbeMatrix(probes) && |probes| > 0 && 0 < ProbeCount(probes) && 2 <= m <= ProbeCount(probes)
    requires |configs| == m && Configurations(configs, |probes|)
    requires Rounds(sqrt, probes, m, draws0, fuel) == (Ok(configs), draws)
    requires forall j | 1 <= j < m - 1 :: Lowered(sqrt, probes, configs, j)
    requires !Lowered(sqrt, probes, configs, m - 1)
    ensures FollowsElbow(sqrt, probes, draws0, fuel, Search(sqrt, probes, m, configs, draws, fuel))
  {
    var r := Search(sqrt, probes, m, configs, draws, fuel);
    assert r == Ok(Optimum(configs[m - 2], Assign(sqrt, probes, configs[m - 2]), draws));
    ElbowOnRule(sqrt, probes, m, configs, draws0, draws, fuel, r.value);
  }

  /** `Search` past the rule after `m` rounds: the next round settles, fails or goes on. */
  lemma {:induction false} SearchGoesOn(sqrt: real -> real, probes: Matrix, m: nat, configs: seq<seq<Vector>>,
                                        draws0: seq<nat>, draws: seq<nat>, fuel: nat)
    requires ProbeMatrix(probes) && |probes| > 0 && 0 < ProbeCount(probes) && m <= ProbeCount(probes)
    requires |configs| == m && Configurations(configs, |probes|)
    requires Rounds(sqrt, probes, m, draws0, fuel) == (Ok(configs), draws)
    requires forall j | 1 <= j < m :: Lowered(sqrt, probes, configs, j)
    ensures FollowsElbow(sqrt, probes, draws0, fuel, Search(sqrt, probes, m, configs, draws, fuel))
    decreases ProbeCount(probes) - m, 0
  {
    var r := Search(sqrt, probes, m, configs, draws, fuel);
    var next := OneMoreCluster(m);
    var (found, rest) := FindCentroids(sqrt, probes, next, draws, fuel);
    assert m >= 2 ==> Lowered(sqrt, probes, configs, m - 1);
    SearchStep(sqrt, probes, m, configs, draws, fuel);
    RoundsNext(sqrt, probes, m, draws0, fuel, configs, draws);
    if found == Err(EmptyCluster) {
      ElbowOnEmptyCluster(sqrt, probes, m, configs, draws0, draws, fuel, r.value);
    } else if found.Err? {
      assert Rounds(sqrt, probes, next, draws0, fuel).0 == Err(r.error);
    } else {
      var grown := configs + [found.value];
      LoweredGrow(sqrt, probes, configs, found.value);
      SearchFollowsElbow(sqrt, probes, next, grown, draws0, rest, fuel);
    }
  }

  /**
   * `findOptimalClusters` settles on the centroids the elbow rule picks;
   * it fails only without probes or with the error of a round, never with
   * `EmptyClusterException`.
   */
  lemma OptimalCentroidsFollowElbow(sqrt: real -> real, probes: Matrix, draws: seq<nat>, fuel: nat)
    requires ProbeMatrix(probes) && |probes| > 0
    ensures var r := OptimalCentroids(sqrt, probes, draws, fuel);
      || (ProbeCount(probes) == 0 && r == Err(IllegalArgument))
      || (0 < ProbeCount(probes) && FollowsElbow(sqrt, probes, draws, fuel, r))
  {
    if 0 < ProbeCount(probes) {
      SearchFollowsElbow(sqrt, probes, 0, [], draws, draws, fuel);
    }
  }

  /** The centroids of the optimum and the draws left over, as `findOptimalClusters` returns them. */
  function CentroidsOf(r: Result<Optimum>): (c: Result<(seq<Vector>, seq<nat>)>)
    ensures c.Ok? <==> r.Ok?
  {
    match r
    case Err(e) => Err(e)
    case Ok(optimum) => Ok((optimum.centroids, optimum.rest))
  }

  /**
   * `assignProbesToClusters`: the sub-clusters of the optimal centroids, in
   * centroid order, and the draws left over. `new Matrix(probes)` of a set
   * without rows is out of bounds.
   */
  function Clustering(sqrt: real -> real, allProbesInClass: Matrix, draws: seq<nat>, fuel: nat)
    : (r: Result<(seq<Cluster>, seq<nat>)>)
    requires ProbeMatrix(allProbesInClass)
    ensures r.Ok? ==>
      && |r.value.0| > 0 && ClusteredProbes(r.value.0) == ProbeCount(allProbesInClass)
      && forall c | 0 <= c < |r.value.0| :: ClusterFits(r.value.0[c], |allProbesInClass|)
  {
    if allProbesInClass == [] then Err(IndexOutOfBounds)
    else
      match OptimalCentroids(sqrt, allProbesInClass, draws, fuel)
      case Err(e) => Err(e)
      case Ok(optimum) =>
        match optimum.clusters
        case Err(e) => Err(e)
        case Ok(clusters) => Ok((clusters, optimum.rest))
  }

  // ---------------------------------------------------------------------
  // The methods of ClusterFinder
  // ---------------------------------------------------------------------

  /** The scan over the centroids in `assignSamplesToMods` for one probe. */
  method NearestCentroid(sqrt: real -> real, probe: Vector, clustersCentroids: seq<Vector>)
    returns (nearestClusterCentroid: int)
    requires Fits(clustersCentroids, |probe|)
    ensures nearestClusterCentroid == Nearest(sqrt, probe, clustersCentroids, |clustersCentroids|)
  {
    nearestClusterCentroid := -1;
    var minimalDistance := 0.0;
    for c := 0 to |clustersCentroids|
      invariant nearestClusterCentroid == Nearest(sqrt, probe, clustersCentroids, c)
      invariant 0 <= nearestClusterCentroid ==>
        minimalDistance == Euclidean(sqrt, probe, clustersCentroids[nearestClusterCentroid])
    {
      var distance := Euclidean(sqrt, probe, clustersCentroids[c]);
      assert Nearest(sqrt, probe, clustersCentroids, c + 1)
          == if nearestClusterCentroid < 0 || minimalDistance > distance then c else nearestClusterCentroid;
      if nearestClusterCentroid < 0 || minimalDistance > distance {
        minimalDistance := distance;
        nearestClusterCentroid := c;
      }
    }
  }

  /** `assignSamplesToMods`: each probe, in order, joins the group of its nearest centroid. */
  method AssignSamplesToMods(sqrt: real -> real, allProbesInClass: Matrix, clustersCentroids: seq<Vector>)
    returns (probesAssignedToMods: seq<seq<Vector>>)
    requires Centroids(allProbesInClass, clustersCentroids)
    ensures probesAssignedToMods == Groups(sqrt, allProbesInClass, clustersCentroids)
  {
    probesAssignedToMods := seq(|clustersCentroids|, _ => []);
    for i := 0 to ProbeCount(allProbesInClass)
      invariant probesAssignedToMods == GroupsUpTo(sqrt, allProbesInClass, clustersCentroids, i)
    {
      var probe := GetProbe(allProbesInClass, i);
      assert probe == Column(allProbesInClass, i);
      var nearestClusterCentroid := NearestCentroid(sqrt, probe, clustersCentroids);
      probesAssignedToMods := probesAssignedToMods[nearestClusterCentroid :=
        probesAssignedToMods[nearestClusterCentroid] + [probe]];
      ghost var next := GroupsUpTo(sqrt, allProbesInClass, clustersCentroids, i + 1);
      forall c | 0 <= c < |clustersCentroids|
        ensures probesAssignedToMods[c] == next[c]
      {
      }
    }
  }

  /** `convertListOfProbesToMatrix`: the list's probes become the columns of a fresh array. */
  method ConvertListOfProbesToMatrix(probesAsList: seq<Vector>) returns (matrix: Result<Matrix>)
    ensures matrix == ListToMatrix(probesAsList)
  {
    if |probesAsList| == 0 {
      return Err(IndexOutOfBounds);
    }
    var rows, cols := |probesAsList[0]|, |probesAsList|;
    var probes := new real[rows, cols]((_, _) => 0.0);
    for probeIndex := 0 to cols
      invariant forall p | 0 <= p < probeIndex :: |probesAsList[p]| >= rows
      invariant forall a, p | 0 <= a < rows && 0 <= p < probeIndex :: probes[a, p] == probesAsList[p][a]
    {
      if |probesAsList[probeIndex]| < rows {
        assert !LongEnough(probesAsList);
        return Err(IndexOutOfBounds);
      }
      for attributeIndex := 0 to rows
        invariant forall a, p | 0 <= a < rows && 0 <= p < probeIndex :: probes[a, p] == probesAsList[p][a]
        invariant forall a | 0 <= a < attributeIndex :: probes[a, probeIndex] == probesAsList[probeIndex][a]
      {
        probes[attributeIndex, probeIndex] := probesAsList[probeIndex][attributeIndex];
      }
    }
    if rows == 0 {
      return Err(IndexOutOfBounds);
    }
    var value := seq(rows, a requires 0 <= a < rows reads probes =>
      seq(cols, p requires 0 <= p < cols reads probes => probes[a, p]));
    assert LongEnough(probesAsList);
    var expected := ListToMatrix(probesAsList).value;
    forall a | 0 <= a < rows
      ensures value[a] == expected[a]
    {
    }
    assert value == expected;
    matrix := Ok(value);
  }

  /** `correctModCenters`: every centroid moves to the mean of its group. */
  method CorrectModCenters(clustersCentroids: seq<Vector>, samplesGroupedByMods: seq<seq<Vector>>, attributes: nat)
    returns (newClusterCentroids: Result<seq<Vector>>)
    requires |samplesGroupedByMods| == |clustersCentroids|
    requires Uniform(samplesGroupedByMods, attributes) && attributes > 0
    ensures newClusterCentroids == Corrected(samplesGroupedByMods, attributes, |clustersCentroids|)
  {
    var centroids: seq<Vector> := [];
    for c := 0 to |clustersCentroids|
      invariant Corrected(samplesGroupedByMods, attributes, c) == Ok(centroids)
    {
      var probesInCluster := samplesGroupedByMods[c];
      if probesInCluster == [] {
        CorrectedFailsFrom(samplesGroupedByMods, attributes, c, |clustersCentroids|);
        return Err(EmptyCluster);
      }
      var probes := ConvertListOfProbesToMatrix(probesInCluster);
      var newClusterCentroid := MeanOfRows(probes.value);
      centroids := centroids + [newClusterCentroid.value];
    }
    newClusterCentroids := Ok(centroids);
  }

  /** Once group `c` is empty, correcting any later prefix fails as well. */
  lemma CorrectedFailsFrom(groups: seq<seq<Vector>>, attributes: nat, c: nat, n: nat)
    requires c < n <= |groups| && Uniform(groups, attributes) && attributes > 0 && groups[c] == []
    ensures Corrected(groups, attributes, n) == Err(EmptyCluster)
  {
  }

  /** `calculateMaximumDislocationOfClustersCentroids`. */
  method MaximumDislocation(sqrt: real -> real, clustersCentroids: seq<Vector>, newClustersCentroids: seq<Vector>)
    returns (maximumDislocation: real)
    requires Paired(clustersCentroids, newClustersCentroids)
    ensures maximumDislocation == MaxDislocation(sqrt, clustersCentroids, newClustersCentroids, |clustersCentroids|)
  {
    maximumDislocation := 0.0;
    for clusterIndex := 0 to |clustersCentroids|
      invariant maximumDislocation == MaxDislocation(sqrt, clustersCentroids, newClustersCentroids, clusterIndex)
    {
      var distanceBetweenOldAndNewClusterCentroid :=
        Euclidean(sqrt, clustersCentroids[clusterIndex], newClustersCentroids[clusterIndex]);
      assert MaxDislocation(sqrt, clustersCentroids, newClustersCentroids, clusterIndex + 1)
          == if maximumDislocation >= distanceBetweenOldAndNewClusterCentroid then maximumDislocation
             else distanceBetweenOldAndNewClusterCentroid;
      if distanceBetweenOldAndNewClusterCentroid > maximumDislocation {
        maximumDislocation := distanceBetweenOldAndNewClusterCentroid;
      }
    }
  }

  /**
   * `randomModCenters`: for each cluster, draw probe indexes until one not
   * chosen yet comes up; that probe is the cluster's first centroid.
   */
  method RandomModCenters(probes: Matrix, numberOfClusters: nat, draws: seq<nat>)
    returns (clusters: Result<seq<Vector>>, rest: seq<nat>)
    requires ProbeMatrix(probes)
    ensures match RandomPicks(ProbeCount(probes), numberOfClusters, draws)
      case Err(e) => clusters == Err(e) && rest == draws
      case Ok((picked, left)) => clusters == Ok(CentersAt(probes, picked)) && rest == left
  {
    var cols := ProbeCount(probes);
    if numberOfClusters == 0 {
      return Ok([]), draws;
    } else if cols == 0 {
      return Err(IllegalArgument), draws;
    } else if numberOfClusters > cols {
      return Err(Diverges), draws;
    }
    var choosenProbesIndexes: seq<nat> := [];
    var centers: seq<Vector> := [];
    rest := draws;
    while |choosenProbesIndexes| < numberOfClusters
      invariant Distinct(choosenProbesIndexes) && AllBelow(choosenProbesIndexes, cols)
      invariant |choosenProbesIndexes| <= numberOfClusters
      invariant PickIndexes(cols, numberOfClusters, choosenProbesIndexes, rest)
             == PickIndexes(cols, numberOfClusters, [], draws)
      invariant centers == CentersAt(probes, choosenProbesIndexes)
      decreases |rest|
    {
      if rest == [] {
        return Err(OutOfFuel), draws;
      }
      var probeIndex := rest[0] % cols;
      rest := rest[1..];
      if probeIndex !in choosenProbesIndexes {
        var probe := GetProbe(probes, probeIndex);
        CentersGrow(probes, choosenProbesIndexes, probeIndex, probe);
        choosenProbesIndexes := choosenProbesIndexes + [probeIndex];
        centers := centers + [probe];
      }
    }
    assert PickIndexes(cols, numberOfClusters, [], draws) == Ok((choosenProbesIndexes, rest));
    clusters := Ok(centers);
  }

  /** Picking one more fresh index adds its probe to the centres and keeps the indexes distinct. */
  lemma CentersGrow(probes: Matrix, picked: seq<nat>, probeIndex: nat, probe: Vector)
    requires ProbeMatrix(probes) && AllBelow(picked, ProbeCount(probes)) && Distinct(picked)
    requires probeIndex < ProbeCount(probes) && probeIndex !in picked && probe == Column(probes, probeIndex)
    ensures AllBelow(picked + [probeIndex], ProbeCount(probes)) && Distinct(picked + [probeIndex])
    ensures CentersAt(probes, picked + [probeIndex]) == CentersAt(probes, picked) + [probe]
  {
    FreshIndex(picked, probeIndex, ProbeCount(probes));
  }

  /**
   * `findCentroidsForNClusters`: one cluster is the mean of all probes; more
   * start from random probes and repeat assign-and-correct until no
   * centroid moves farther than the threshold.
   */
  method FindCentroidsForNClusters(sqrt: real -> real, allProbesInClass: Matrix, clusterCount: nat, draws: seq<nat>, fuel: nat)
    returns (optimalClusterCentroids: Result<seq<Vector>>, rest: seq<nat>)
    requires ProbeMatrix(allProbesInClass) && |allProbesInClass| > 0 && ProbeCount(allProbesInClass) > 0
    requires clusterCount > 0
    ensures (optimalClusterCentroids, rest) == FindCentroids(sqrt, allProbesInClass, clusterCount, draws, fuel)
  {
    if clusterCount > 1 {
      var clustersCentroids;
      clustersCentroids, rest := RandomModCenters(allProbesInClass, clusterCount, draws);
      if clustersCentroids.Err? {
        return Err(clustersCentroids.error), draws;
      }
      optimalClusterCentroids := MoveCentroids(sqrt, allProbesInClass, clustersCentroids.value, fuel);
    } else {
      var mean := MeanOfRows(allProbesInClass);
      return Ok([mean.value]), draws;
    }
  }

  /** The do-while of `findCentroidsForNClusters`, one `Relocate` per round. */
  method MoveCentroids(sqrt: real -> real, allProbesInClass: Matrix, initial: seq<Vector>, fuel: nat)
    returns (optimalClusterCentroids: Result<seq<Vector>>)
    requires Centroids(allProbesInClass, initial) && |allProbesInClass| > 0
    ensures optimalClusterCentroids == Lloyd(sqrt, allProbesInClass, initial, fuel)
  {
    var clustersCentroids := initial;
    var remaining: nat := fuel;
    while true
      invariant Centroids(allProbesInClass, clustersCentroids)
      invariant Lloyd(sqrt, allProbesInClass, clustersCentroids, remaining) == Lloyd(sqrt, allProbesInClass, initial, fuel)
      decreases remaining
    {
      if remaining == 0 {
        return Err(OutOfFuel);
      }
      var newClustersCentroids, maxCentroidDislocation := Relocate(sqrt, allProbesInClass, clustersCentroids, remaining);
      if newClustersCentroids.Err? {
        return Err(newClustersCentroids.error);
      }
      clustersCentroids := newClustersCentroids.value;
      remaining := OneRoundLess(remaining);
      if maxCentroidDislocation <= MaximalAcceptableClusterCentroidDislocation {
        return Ok(clustersCentroids);
      }
    }
  }

  /**
   * The body of that do-while: group the probes, move every centroid to its
   * group's mean and measure the largest move; with `fuel` rounds left the
   * inner loop then fails, stops, or goes on from the moved centroids.
   */
  method Relocate(sqrt: real -> real, allProbesInClass: Matrix, clustersCentroids: seq<Vector>, ghost fuel: nat)
    returns (newClustersCentroids: Result<seq<Vector>>, maxCentroidDislocation: real)
    requires Centroids(allProbesInClass, clustersCentroids) && |allProbesInClass| > 0 && fuel > 0
    ensures newClustersCentroids.Err? ==> Lloyd(sqrt, allProbesInClass, clustersCentroids, fuel) == Err(newClustersCentroids.error)
    ensures newClustersCentroids.Ok? ==> Centroids(allProbesInClass, newClustersCentroids.value)
    ensures newClustersCentroids.Ok? && maxCentroidDislocation <= MaximalAcceptableClusterCentroidDislocation ==>
      Lloyd(sqrt, allProbesInClass, clustersCentroids, fuel) == newClustersCentroids
    ensures newClustersCentroids.Ok? && maxCentroidDislocation > MaximalAcceptableClusterCentroidDislocation ==>
      Lloyd(sqrt, allProbesInClass, clustersCentroids, fuel) == Lloyd(sqrt, allProbesInClass, newClustersCentroids.value, OneRoundLess(fuel))
  {
    var samplesGroupedByMods := AssignSamplesToMods(sqrt, allProbesInClass, clustersCentroids);
    GroupsAreUniform(sqrt, allProbesInClass, clustersCentroids);
    newClustersCentroids := CorrectModCenters(clustersCentroids, samplesGroupedByMods, |allProbesInClass|);
    LloydRound(sqrt, allProbesInClass, clustersCentroids, fuel, samplesGroupedByMods, newClustersCentroids);
    if newClustersCentroids.Err? {
      return newClustersCentroids, 0.0;
    }
    maxCentroidDislocation := MaximumDislocation(sqrt, clustersCentroids, newClustersCentroids.value);
  }

  /** One round of the inner loop, as `Relocate` takes it. */
  lemma LloydRound(sqrt: real -> real, probes: Matrix, centroids: seq<Vector>, fuel: nat,
                   groups: seq<seq<Vector>>, next: Result<seq<Vector>>)
    requires Centroids(probes, centroids) && |probes| > 0 && fuel > 0
    requires groups == Groups(sqrt, probes, centroids) && Uniform(groups, |probes|)
    requires next == Corrected(groups, |probes|, |centroids|)
    ensures next.Err? ==> Lloyd(sqrt, probes, centroids, fuel) == Err(next.error)
    ensures next.Ok? ==> Paired(centroids, next.value) && Centroids(probes, next.value)
    ensures next.Ok? && MaxDislocation(sqrt, centroids, next.value, |centroids|) <= MaximalAcceptableClusterCentroidDislocation ==>
      Lloyd(sqrt, probes, centroids, fuel) == next
    ensures next.Ok? && MaxDislocation(sqrt, centroids, next.value, |centroids|) > MaximalAcceptableClusterCentroidDislocation ==>
      Lloyd(sqrt, probes, centroids, fuel) == Lloyd(sqrt, probes, next.value, OneRoundLess(fuel))
  {
  }

  /** The members of every group have one entry per attribute row. */
  lemma GroupsAreUniform(sqrt: real -> real, probes: Matrix, centroids: seq<Vector>)
    requires Centroids(probes, centroids)
    ensures Uniform(Groups(sqrt, probes, centroids), |probes|)
  {
  }

  /** The stream of distances summed in `calculateError` for one centroid. */
  method SumOfDistances(sqrt: real -> real, clusterCentroid: Vector, probesInCluster: seq<Vector>) returns (sum: real)
    requires forall k | 0 <= k < |probesInCluster| :: |probesInCluster[k]| == |clusterCentroid|
    ensures sum == DistanceSum(sqrt, clusterCentroid, probesInCluster)
  {
    sum := 0.0;
    for k := 0 to |probesInCluster|
      invariant sum == DistanceSum(sqrt, clusterCentroid, probesInCluster[..k])
    {
      assert probesInCluster[..k + 1][..k] == probesInCluster[..k];
      sum := sum + Euclidean(sqrt, clusterCentroid, probesInCluster[k]);
    }
    assert probesInCluster[..|probesInCluster|] == probesInCluster;
  }

  /** `calculateError`: the mean over the centroids of the mean distance to their members. */
  method CalculateError(sqrt: real -> real, clusterCentroids: seq<Vector>, allProbesInClass: Matrix)
    returns (error: Option<real>)
    requires Centroids(allProbesInClass, clusterCentroids)
    ensures error == ClusterError(sqrt, allProbesInClass, clusterCentroids)
  {
    var probesGroupedToClusters := AssignSamplesToMods(sqrt, allProbesInClass, clusterCentroids);
    GroupsAreUniform(sqrt, allProbesInClass, clusterCentroids);
    var total := SumOfMeanDistances(sqrt, clusterCentroids, probesGroupedToClusters);
    match total
    case None => error := None;
    case Some(sum) => error := Some(sum / (|clusterCentroids| as real));
  }

  /** The loop of `calculateError` over the centroids, adding each group's mean distance. */
  method SumOfMeanDistances(sqrt: real -> real, clusterCentroids: seq<Vector>, probesGroupedToClusters: seq<seq<Vector>>)
    returns (error: Option<real>)
    requires |clusterCentroids| == |probesGroupedToClusters|
    requires forall c, k | 0 <= c < |probesGroupedToClusters| && 0 <= k < |probesGroupedToClusters[c]| ::
      |probesGroupedToClusters[c][k]| == |clusterCentroids[c]|
    ensures error == ErrorSum(sqrt, clusterCentroids, probesGroupedToClusters, |clusterCentroids|)
  {
    error := Some(0.0);
    for c := 0 to |clusterCentroids|
      invariant error == ErrorSum(sqrt, clusterCentroids, probesGroupedToClusters, c)
    {
      var probesInCluster := probesGroupedToClusters[c];
      var sum := SumOfDistances(sqrt, clusterCentroids[c], probesInCluster);
      assert ErrorSum(sqrt, clusterCentroids, probesGroupedToClusters, c + 1)
          == if error.None? || probesInCluster == [] then None else Some(error.value + sum / (|probesInCluster| as real));
      if error.None? || probesInCluster == [] {
        error := None;
      } else {
        error := Some(error.value + sum / (|probesInCluster| as real));
      }
    }
  }

  /** The list of errors stays that of the centroid lists when each gains the next round's entry. */
  lemma ErrorsGrow(sqrt: real -> real, probes: Matrix, errors: seq<Option<real>>, configs: seq<seq<Vector>>,
                   error: Option<real>, found: seq<Vector>)
    requires ProbeMatrix(probes) && Configurations(configs, |probes|) && Centroids(probes, found) && |errors| == |configs|
    requires forall i | 0 <= i < |configs| :: errors[i] == ClusterError(sqrt, probes, configs[i])
    requires error == ClusterError(sqrt, probes, found)
    ensures forall i | 0 <= i < |configs| + 1 :: (errors + [error])[i] == ClusterError(sqrt, probes, (configs + [found])[i])
  {
  }

  /**
   * `findOptimalClusters`: try one, two, three ... clusters while fewer than
   * two were tried or the error still decreases significantly; return the
   * centroids of the count before the last one tried.
   */
  method FindOptimalClusters(sqrt: real -> real, allProbesInClass: Matrix, draws: seq<nat>, fuel: nat)
    returns (clustersCentroids: Result<(seq<Vector>, seq<nat>)>)
    requires ProbeMatrix(allProbesInClass) && |allProbesInClass| > 0
    ensures clustersCentroids == CentroidsOf(OptimalCentroids(sqrt, allProbesInClass, draws, fuel))
  {
    if ProbeCount(allProbesInClass) == 0 {
      return Err(IllegalArgument);
    }
    var errors: seq<Option<real>> := [];
    var modCentersByNumberOfMods: seq<seq<Vector>> := [];
    var modsCount, rest := 0, draws;
    while modsCount < 2 || ErrorDecreasedSignificantly(errors, modsCount)
      invariant modsCount <= ProbeCount(allProbesInClass)
      invariant |errors| == modsCount && |modCentersByNumberOfMods| == modsCount
      invariant Configurations(modCentersByNumberOfMods, |allProbesInClass|)
      invariant forall i | 0 <= i < modsCount :: errors[i] == ClusterError(sqrt, allProbesInClass, modCentersByNumberOfMods[i])
      invariant Search(sqrt, allProbesInClass, modsCount, modCentersByNumberOfMods, rest, fuel)
             == OptimalCentroids(sqrt, allProbesInClass, draws, fuel)
      decreases ProbeCount(allProbesInClass) - modsCount
    {
      assert modsCount >= 2 ==>
        && errors[modsCount - 2] == ClusterError(sqrt, allProbesInClass, modCentersByNumberOfMods[modsCount - 2])
        && errors[modsCount - 1] == ClusterError(sqrt, allProbesInClass, modCentersByNumberOfMods[modsCount - 1]);
      var next := OneMoreCluster(modsCount);
      var found, left := FindCentroidsForNClusters(sqrt, allProbesInClass, next, rest, fuel);
      SearchStep(sqrt, allProbesInClass, modsCount, modCentersByNumberOfMods, rest, fuel);
      if found == Err(EmptyCluster) {
        return Ok((modCentersByNumberOfMods[modsCount - 1], left));
      } else if found.Err? {
        return Err(found.error);
      }
      var error := CalculateError(sqrt, found.value, allProbesInClass);
      ErrorsGrow(sqrt, allProbesInClass, errors, modCentersByNumberOfMods, error, found.value);
      errors, modCentersByNumberOfMods := errors + [error], modCentersByNumberOfMods + [found.value];
      modsCount, rest := next, left;
    }
    assert errors[modsCount - 2] == ClusterError(sqrt, allProbesInClass, modCentersByNumberOfMods[modsCount - 2]);
    assert errors[modsCount - 1] == ClusterError(sqrt, allProbesInClass, modCentersByNumberOfMods[modsCount - 1]);
    SearchStops(sqrt, allProbesInClass, modsCount, modCentersByNumberOfMods, rest, fuel);
    clustersCentroids := Ok((modCentersByNumberOfMods[modsCount - 2], rest));
  }

  /**
   * `assignProbesToClusters`: the optimal centroids, each with its group as a
   * matrix, and the draws left over.
   */
  method AssignProbesToClusters(sqrt: real -> real, allProbesInClass: Matrix, draws: seq<nat>, fuel: nat)
    returns (probesGroupedToClusters: Result<(seq<Cluster>, seq<nat>)>)
    requires ProbeMatrix(allProbesInClass)
    ensures probesGroupedToClusters == Clustering(sqrt, allProbesInClass, draws, fuel)
  {
    if allProbesInClass == [] {
      return Err(IndexOutOfBounds);
    }
    var optimal := FindOptimalClusters(sqrt, allProbesInClass, draws, fuel);
    if optimal.Err? {
      return Err(optimal.error);
    }
    var (clustersCentroids, rest) := optimal.value;
    SettledClustersAreAssigned(sqrt, allProbesInClass, 0, [], draws, fuel);
    var probesAssignedToClusters := AssignSamplesToMods(sqrt, allProbesInClass, clustersCentroids);
    GroupsAreUniform(sqrt, allProbesInClass, clustersCentroids);
    var clusters := GroupsAsMatrices(clustersCentroids, probesAssignedToClusters, |allProbesInClass|);
    if clusters.Err? {
      return Err(clusters.error);
    }
    probesGroupedToClusters := Ok((clusters.value, rest));
  }

  /** The `forEach` of `assignProbesToClusters`: every centroid with its group as a matrix. */
  method GroupsAsMatrices(clustersCentroids: seq<Vector>, probesAssignedToClusters: seq<seq<Vector>>, attributes: nat)
    returns (clusters: Result<seq<Cluster>>)
    requires |clustersCentroids| == |probesAssignedToClusters| && Fits(clustersCentroids, attributes)
    requires Uniform(probesAssignedToClusters, attributes) && attributes > 0
    ensures clusters == ToClusters(clustersCentroids, probesAssignedToClusters, attributes, |clustersCentroids|)
  {
    var probesGroupedToClusters: seq<Cluster> := [];
    for c := 0 to |clustersCentroids|
      invariant ToClusters(clustersCentroids, probesAssignedToClusters, attributes, c) == Ok(probesGroupedToClusters)
    {
      var probes := ConvertListOfProbesToMatrix(probesAssignedToClusters[c]);
      if probes.Err? {
        ToClustersFailFrom(clustersCentroids, probesAssignedToClusters, attributes, c, |clustersCentroids|);
        return Err(probes.error);
      }
      assert ToClusters(clustersCentroids, probesAssignedToClusters, attributes, c + 1)
          == Ok(probesGroupedToClusters + [Cluster(clustersCentroids[c], probes.value)]);
      probesGroupedToClusters := probesGroupedToClusters + [Cluster(clustersCentroids[c], probes.value)];
    }
    clusters := Ok(probesGroupedToClusters);
  }

  /** Once group `c` is empty, building any later prefix of sub-clusters fails as well. */
  lemma ToClustersFailFrom(centroids: seq<Vector>, groups: seq<seq<Vector>>, attributes: nat, c: nat, n: nat)
    requires c < n <= |centroids| == |groups| && Fits(centroids, attributes) && Uniform(groups, attributes)
    requires attributes > 0 && groups[c] == []
    ensures ToClusters(centroids, groups, attributes, n) == Err(IndexOutOfBounds)
  {
  }
}
