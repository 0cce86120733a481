/**
 * src/classifier/KNMClassifier.java: the k-nearest-modes classifier.
 *
 * Every training set is split into clusters ("modes") by the k-means search
 * of `ClusterFinder`; a test probe's distance to a class is the smallest
 * distance (x - centroid) * C^-1 * (x - centroid)^T over the clusters of that
 * class, C being the covariance matrix of the cluster about its centroid;
 * the probe is assigned to the class with the smallest distance.
 *
 * A cluster of one probe has a `NaN` covariance matrix (`None`): its
 * distance is `NaN` and never wins the strict `<`, so the cluster is skipped,
 * as is a cluster whose stored matrix has determinant 0. When neither the
 * inverse nor the pseudoinverse of a covariance matrix exists, `train`
 * catches the exception and retries the very same computation in a
 * `while (true)` loop, which never ends: `Err(RetriesForever)`.
 */
module Knm {
  import opened Outcomes
  import opened Text
  import opened Matrices
  import opened Scoring
  import opened LinearAlgebra
  import opened Clusters
  import Nm

  /** `Double.MAX_VALUE`, (2 - 2^-52) * 2^1023: the start of both running minima. */
  const MaxValue: real := 179769313486231570814527423731704356798070567525844996598917476803157260780028538760589558632766878171540458953514382464234321326889464182768467546703537516986049910576551282076245490090389328944075868508455133942304583236903222948165808559332123348274797826204144723168738177180919299881250404026184124858368.0

  // ---------------------------------------------------------------------
  // Training and test keys
  // ---------------------------------------------------------------------

  /**
   * The entries of `sets` whose key contains `mark`, in order. KNM keeps a
   * set for training iff its key contains "_training" and for testing iff it
   * contains "_test", so a set can be on both sides or on neither.
   */
  function Marked(sets: Table<Matrix>, mark: string): Table<Matrix> {
    if sets == [] then []
    else
      var last := sets[|sets| - 1];
      Marked(sets[..|sets| - 1], mark) + (if Contains(last.0, mark) then [last] else [])
  }

  /** An entry is kept iff it is an entry of `sets` whose key contains `mark`. */
  lemma {:induction false} MarkedMembers(sets: Table<Matrix>, mark: string)
    ensures forall e :: e in Marked(sets, mark) <==> e in sets && Contains(e.0, mark)
  {
    if sets != [] {
      var init := sets[..|sets| - 1];
      MarkedMembers(init, mark);
      assert sets == init + [sets[|sets| - 1]];
    }
  }

  /** The kept sets have the shape of all sets. */
  lemma MarkedKeepsShape(sets: Table<Matrix>, mark: string, attributes: nat)
    requires SameShape(sets, attributes)
    ensures SameShape(Marked(sets, mark), attributes)
  {
    MarkedMembers(sets, mark);
    forall i | 0 <= i < |Marked(sets, mark)|
      ensures |Marked(sets, mark)[i].1| == attributes && ProbeMatrix(Marked(sets, mark)[i].1)
    {
      assert Marked(sets, mark)[i] in sets;
    }
  }

  // ---------------------------------------------------------------------
  // The clusters of every training set
  // ---------------------------------------------------------------------

  /** Every cluster holds probes with `attributes` attributes. */
  predicate AllFit(clusters: seq<Cluster>, attributes: nat) {
    forall k | 0 <= k < |clusters| :: ClusterFits(clusters[k], attributes)
  }

  /** Every class has at least one cluster, each holding probes with `attributes` attributes. */
  predicate ModsFit(mods: Table<seq<Cluster>>, attributes: nat) {
    forall c | 0 <= c < |mods| :: |mods[c].1| > 0 && AllFit(mods[c].1, attributes)
  }

  /**
   * The loop of `train` over the first `n` training keys: the clusters
   * `assignProbesToClusters` finds for each training set, under its key,
   * with the random draws passed on from one set to the next; the first
   * failure stops it.
   */
  function Mods(sqrt: real -> real, training: Table<Matrix>, attributes: nat, draws: seq<nat>, fuel: nat, n: nat)
    : (r: Result<(Table<seq<Cluster>>, seq<nat>)>)
    requires n <= |training| && SameShape(training, attributes)
    ensures r.Ok? ==>
      && |r.value.0| == n && ModsFit(r.value.0, attributes)
      && forall c | 0 <= c < n :: r.value.0[c].0 == training[c].0
  {
    if n == 0 then Ok(([], draws))
    else
      match Mods(sqrt, training, attributes, draws, fuel, n - 1)
      case Err(e) => Err(e)
      case Ok((mods, rest)) =>
        match Clustering(sqrt, training[n - 1].1, rest, fuel)
        case Err(e) => Err(e)
        case Ok((clusters, left)) => Ok((mods + [(training[n - 1].0, clusters)], left))
  }

  /** The clusters of a class hold every probe of its training set, each exactly once. */
  lemma {:induction false} ModsHoldEveryProbe(sqrt: real -> real, training: Table<Matrix>, attributes: nat,
                                               draws: seq<nat>, fuel: nat, n: nat)
    requires n <= |training| && SameShape(training, attributes)
    ensures var r := Mods(sqrt, training, attributes, draws, fuel, n);
      r.Ok? ==> forall c | 0 <= c < n :: ClusteredProbes(r.value.0[c].1) == ProbeCount(training[c].1)
  {
    var r := Mods(sqrt, training, attributes, draws, fuel, n);
    if n > 0 && r.Ok? {
      var m := n - 1;
      ModsHoldEveryProbe(sqrt, training, attributes, draws, fuel, m);
      var (mods, rest) := Mods(sqrt, training, attributes, draws, fuel, m).value;
      var clusters := Clustering(sqrt, training[m].1, rest, fuel).value.0;
      assert r.value.0 == mods + [(training[m].0, clusters)];
    }
  }

  /** Once the clusters of the first `c` training sets fail, those of the first `n` fail alike. */
  lemma {:induction false} ModsFailFrom(sqrt: real -> real, training: Table<Matrix>, attributes: nat,
                                         draws: seq<nat>, fuel: nat, c: nat, n: nat)
    requires c <= n <= |training| && SameShape(training, attributes)
    requires Mods(sqrt, training, attributes, draws, fuel, c).Err?
    ensures Mods(sqrt, training, attributes, draws, fuel, n) == Mods(sqrt, training, attributes, draws, fuel, c)
    decreases n
  {
    if c < n {
      var m := n - 1;
      ModsFailFrom(sqrt, training, attributes, draws, fuel, c, m);
      ModsStop(sqrt, training, attributes, draws, fuel, n);
    }
  }

  /** A failure among the first `n - 1` training sets is the failure of the first `n`. */
  lemma ModsStop(sqrt: real -> real, training: Table<Matrix>, attributes: nat, draws: seq<nat>, fuel: nat, n: nat)
    requires 0 < n <= |training| && SameShape(training, attributes)
    requires Mods(sqrt, training, attributes, draws, fuel, n - 1).Err?
    ensures Mods(sqrt, training, attributes, draws, fuel, n) == Mods(sqrt, training, attributes, draws, fuel, n - 1)
  {
  }

  // ---------------------------------------------------------------------
  // Distances
  // ---------------------------------------------------------------------

  /**
   * `calculateCovarianceMatrix` for one cluster: the covariance matrix of its
   * probes about its centroid, then its inverse or, when Jama finds it
   * singular, its pseudoinverse. A `null` pseudoinverse throws the exception
   * that `train` retries for ever.
   */
  function ClusterInverse(cluster: Cluster, jama: Jama): (r: Result<Option<Matrix>>)
    requires ClusterFits(cluster, |cluster.centroid|) && Sound(jama)
    ensures r.Err? ==> r.error == RetriesForever
    ensures r.Ok? && r.value.Some? ==> IsMatrix(r.value.value, |cluster.centroid|, |cluster.centroid|)
  {
    var n := |cluster.centroid|;
    match Nm.Covariance(cluster.probes, cluster.centroid)
    case None => Ok(None)
    case Some(c) =>
      Nm.InverseShape(jama, c, n);
      if jama.inverse(c).Some? then Ok(jama.inverse(c))
      else
        match Pseudoinverse(c, n, n, jama)
        case None => Err(RetriesForever)
        case Some(p) => Ok(Some(p))
  }

  /**
   * The retry happens exactly for a cluster of at least two probes whose
   * covariance matrix Jama cannot invert and whose decomposition has rank 0.
   */
  lemma RetryIffRankZero(cluster: Cluster, jama: Jama)
    requires ClusterFits(cluster, |cluster.centroid|) && Sound(jama)
    ensures ClusterInverse(cluster, jama).Err? <==>
      && ProbeCount(cluster.probes) >= 2
      && var c := Nm.Covariance(cluster.probes, cluster.centroid).value;
         jama.inverse(c).None? && jama.svd(c).rank < 1
  {
    var n := |cluster.centroid|;
    if ProbeCount(cluster.probes) >= 2 {
      var c := Nm.Covariance(cluster.probes, cluster.centroid).value;
      PseudoinverseNullIffRankZero(c, n, n, jama);
    }
  }

  /**
   * The distance of probe `x` to one cluster,
   * (x - centroid) * matrix * (x - centroid)^T; `None` when the cluster is
   * skipped because its matrix has determinant 0 or is `NaN`.
   */
  function ClusterDistance(x: Vector, cluster: Cluster, jama: Jama): (r: Result<Option<real>>)
    requires ClusterFits(cluster, |x|) && Sound(jama)
    ensures r.Err? <==> ClusterInverse(cluster, jama).Err?
    ensures r.Err? ==> r.error == RetriesForever
  {
    match ClusterInverse(cluster, jama)
    case Err(e) => Err(e)
    case Ok(None) => Ok(None)
    case Ok(Some(inverse)) =>
      if jama.det(inverse) == 0.0 then Ok(None)
      else Ok(Some(QuadraticForm(Difference(x, cluster.centroid), inverse)))
  }

  /** A cluster of a single probe never contributes a distance. */
  lemma SingleProbeClusterIsSkipped(x: Vector, cluster: Cluster, jama: Jama)
    requires ClusterFits(cluster, |x|) && Sound(jama) && ProbeCount(cluster.probes) == 1
    ensures ClusterDistance(x, cluster, jama) == Ok(None)
  {
  }

  /** The cluster distance `r` exists and is below `bound`. */
  predicate Within(r: Result<Option<real>>, bound: real) {
    r.Ok? && Below(r.value, bound)
  }

  /** `d` is no larger than the cluster distance `r`, if there is one. */
  predicate NoFarther(d: real, r: Result<Option<real>>) {
    r.Ok? && r.value.Some? ==> d <= r.value.value
  }

  /**
   * The distance of `x` to a class over its first `n` clusters: a running
   * minimum from `Double.MAX_VALUE`, replaced only on a strict `<`.
   */
  function ClassDistance(x: Vector, clusters: seq<Cluster>, jama: Jama, n: nat): (r: Result<real>)
    requires n <= |clusters| && AllFit(clusters, |x|) && Sound(jama)
    ensures r.Err? ==> r.error == RetriesForever
    ensures r.Ok? ==> r.value <= MaxValue
  {
    if n == 0 then Ok(MaxValue)
    else
      match ClassDistance(x, clusters, jama, n - 1)
      case Err(e) => Err(e)
      case Ok(d) =>
        match ClusterDistance(x, clusters[n - 1], jama)
        case Err(e) => Err(e)
        case Ok(c) => Ok(if Below(c, d) then c.value else d)
  }

  /**
   * The class distance fails iff some cluster fails; otherwise it is no
   * larger than any cluster's distance, and it is `Double.MAX_VALUE` or the
   * distance of one of the clusters.
   */
  lemma {:induction false} ClassDistanceIsMinimum(x: Vector, clusters: seq<Cluster>, jama: Jama, n: nat)
    requires n <= |clusters| && AllFit(clusters, |x|) && Sound(jama)
    ensures var r := ClassDistance(x, clusters, jama, n);
      && (r.Err? <==> exists k | 0 <= k < n :: ClusterDistance(x, clusters[k], jama).Err?)
      && (r.Ok? ==>
            && (forall k | 0 <= k < n :: NoFarther(r.value, ClusterDistance(x, clusters[k], jama)))
            && (r.value == MaxValue || exists k | 0 <= k < n :: ClusterDistance(x, clusters[k], jama) == Ok(Some(r.value))))
  {
    if n > 0 {
      var m := n - 1;
      ClassDistanceIsMinimum(x, clusters, jama, m);
      var previous := ClassDistance(x, clusters, jama, m);
      var here := ClusterDistance(x, clusters[m], jama);
      var r := ClassDistance(x, clusters, jama, n);
      if previous.Err? {
        assert r == previous;
      } else if here.Err? {
        assert r.Err?;
      } else {
        assert r == Ok(if Below(here.value, previous.value) then here.value.value else previous.value);
        if Below(here.value, previous.value) {
          assert ClusterDistance(x, clusters[m], jama) == Ok(Some(r.value));
        }
      }
    }
  }

  /** The class distances of `x` to the first `n` classes, under their keys. */
  function ClassDistances(mods: Table<seq<Cluster>>, x: Vector, jama: Jama, n: nat): (r: Result<Table<Option<real>>>)
    requires n <= |mods| && ModsFit(mods, |x|) && Sound(jama)
    ensures r.Err? ==> r.error == RetriesForever
    ensures r.Ok? ==> |r.value| == n
  {
    if n == 0 then Ok([])
    else
      match ClassDistances(mods, x, jama, n - 1)
      case Err(e) => Err(e)
      case Ok(front) =>
        match ClassDistance(x, mods[n - 1].1, jama, |mods[n - 1].1|)
        case Err(e) => Err(e)
        case Ok(d) => Ok(front + [(mods[n - 1].0, Some(d))])
  }

  /**
   * The distances fail iff the distance to some class fails; otherwise entry
   * `c` is class `c`'s key and distance.
   */
  lemma {:induction false} ClassDistancesAt(mods: Table<seq<Cluster>>, x: Vector, jama: Jama, n: nat)
    requires n <= |mods| && ModsFit(mods, |x|) && Sound(jama)
    ensures var r := ClassDistances(mods, x, jama, n);
      && (r.Err? <==> exists c | 0 <= c < n :: ClassDistance(x, mods[c].1, jama, |mods[c].1|).Err?)
      && (r.Ok? ==> forall c | 0 <= c < n ::
            ClassDistance(x, mods[c].1, jama, |mods[c].1|).Ok?
            && r.value[c] == (mods[c].0, Some(ClassDistance(x, mods[c].1, jama, |mods[c].1|).value)))
  {
    if n > 0 {
      var m := n - 1;
      ClassDistancesAt(mods, x, jama, m);
    }
  }

  /** The class predicted for probe `x`: the closest key below `Double.MAX_VALUE`, "" when none is. */
  function PredictClass(mods: Table<seq<Cluster>>, x: Vector, jama: Jama): (r: Result<string>)
    requires ModsFit(mods, |x|) && Sound(jama)
    ensures r.Err? ==> r.error == RetriesForever
  {
    match ClassDistances(mods, x, jama, |mods|)
    case Err(e) => Err(e)
    case Ok(ds) => Ok(ClosestKey(ds, MaxValue))
  }

  /** Some cluster of some class has a covariance matrix that neither inverts nor pseudo-inverts. */
  predicate CannotInvert(mods: Table<seq<Cluster>>, attributes: nat, jama: Jama)
    requires ModsFit(mods, attributes) && Sound(jama)
  {
    exists c, k | 0 <= c < |mods| && 0 <= k < |mods[c].1| :: ClusterInverse(mods[c].1[k], jama).Err?
  }

  /**
   * Whether a probe retries for ever does not depend on the probe: it does
   * exactly when some cluster cannot be inverted.
   */
  lemma PredictionFailsIffCannotInvert(mods: Table<seq<Cluster>>, x: Vector, jama: Jama)
    requires ModsFit(mods, |x|) && Sound(jama)
    ensures PredictClass(mods, x, jama).Err? <==> CannotInvert(mods, |x|, jama)
  {
    ClassDistancesAt(mods, x, jama, |mods|);
    forall c | 0 <= c < |mods|
      ensures ClassDistance(x, mods[c].1, jama, |mods[c].1|).Err?
          <==> exists k | 0 <= k < |mods[c].1| :: ClusterInverse(mods[c].1[k], jama).Err?
    {
      ClassDistanceIsMinimum(x, mods[c].1, jama, |mods[c].1|);
    }
  }

  /**
   * The nearest-mode rule: when no cluster is closer than
   * `Double.MAX_VALUE` nothing is predicted; otherwise the prediction is the
   * key of a class owning a cluster closer than that, whose distance is no
   * larger than that of any cluster of any class.
   */
  lemma NearestModeRule(mods: Table<seq<Cluster>>, x: Vector, jama: Jama)
    requires ModsFit(mods, |x|) && Sound(jama)
    requires PredictClass(mods, x, jama).Ok?
    ensures (forall c, k | 0 <= c < |mods| && 0 <= k < |mods[c].1| :: !Within(ClusterDistance(x, mods[c].1[k], jama), MaxValue))
        ==> PredictClass(mods, x, jama).value == ""
    ensures (exists c, k | 0 <= c < |mods| && 0 <= k < |mods[c].1| :: Within(ClusterDistance(x, mods[c].1[k], jama), MaxValue))
        ==> exists c, k | 0 <= c < |mods| && 0 <= k < |mods[c].1| ::
              && PredictClass(mods, x, jama).value == mods[c].0
              && Within(ClusterDistance(x, mods[c].1[k], jama), MaxValue)
              && forall c', k' | 0 <= c' < |mods| && 0 <= k' < |mods[c'].1| ::
                   NoFarther(ClusterDistance(x, mods[c].1[k], jama).value.value, ClusterDistance(x, mods[c'].1[k'], jama))
  {
    var ds := ClassDistances(mods, x, jama, |mods|).value;
    assert PredictClass(mods, x, jama) == Ok(ClosestKey(ds, MaxValue));
    ClosestIsFirstStrictMinimum(ds, MaxValue);
    var (i, least) := Closest(ds, MaxValue);
    if i >= 0 {
      ClosestModeWins(mods, x, jama, ds, i, least);
      var k :| 0 <= k < |mods[i].1| && ClusterDistance(x, mods[i].1[k], jama) == Ok(Some(least));
      assert ClosestKey(ds, MaxValue) == mods[i].0;
      assert Within(ClusterDistance(x, mods[i].1[k], jama), MaxValue);
    } else {
      NothingWithin(mods, x, jama, ds);
    }
  }

  /**
   * Entry `c` of the class distances is class `c`'s key with its class
   * distance, which is no larger than any of its clusters' distances and is
   * `Double.MAX_VALUE` or the distance of one of them.
   */
  lemma ClassEntry(mods: Table<seq<Cluster>>, x: Vector, jama: Jama, ds: Table<Option<real>>, c: nat)
    requires ModsFit(mods, |x|) && Sound(jama) && ClassDistances(mods, x, jama, |mods|) == Ok(ds) && c < |mods|
    ensures ds[c].0 == mods[c].0 && ds[c].1.Some?
    ensures forall k | 0 <= k < |mods[c].1| :: NoFarther(ds[c].1.value, ClusterDistance(x, mods[c].1[k], jama))
    ensures ds[c].1.value == MaxValue
         || exists k | 0 <= k < |mods[c].1| :: ClusterDistance(x, mods[c].1[k], jama) == Ok(Some(ds[c].1.value))
  {
    ClassDistancesAt(mods, x, jama, |mods|);
    ClassDistanceIsMinimum(x, mods[c].1, jama, |mods[c].1|);
  }

  /** The class the closest-class loop picks owns a cluster at the least distance, below every cluster's. */
  lemma ClosestModeWins(mods: Table<seq<Cluster>>, x: Vector, jama: Jama, ds: Table<Option<real>>, i: nat, least: real)
    requires ModsFit(mods, |x|) && Sound(jama) && ClassDistances(mods, x, jama, |mods|) == Ok(ds)
    requires i < |ds| && ds[i].1 == Some(least) && least < MaxValue
    requires forall j | 0 <= j < |ds| && ds[j].1.Some? :: least <= ds[j].1.value
    ensures ds[i].0 == mods[i].0
    ensures exists k | 0 <= k < |mods[i].1| :: ClusterDistance(x, mods[i].1[k], jama) == Ok(Some(least))
    ensures forall c', k' | 0 <= c' < |mods| && 0 <= k' < |mods[c'].1| ::
              NoFarther(least, ClusterDistance(x, mods[c'].1[k'], jama))
  {
    ClassEntry(mods, x, jama, ds, i);
    forall c', k' | 0 <= c' < |mods| && 0 <= k' < |mods[c'].1|
      ensures NoFarther(least, ClusterDistance(x, mods[c'].1[k'], jama))
    {
      ClassEntry(mods, x, jama, ds, c');
    }
  }

  /** When no class distance is below `Double.MAX_VALUE`, no cluster's distance is either. */
  lemma NothingWithin(mods: Table<seq<Cluster>>, x: Vector, jama: Jama, ds: Table<Option<real>>)
    requires ModsFit(mods, |x|) && Sound(jama) && ClassDistances(mods, x, jama, |mods|) == Ok(ds)
    requires forall j | 0 <= j < |ds| :: !Below(ds[j].1, MaxValue)
    ensures forall c, k | 0 <= c < |mods| && 0 <= k < |mods[c].1| :: !Within(ClusterDistance(x, mods[c].1[k], jama), MaxValue)
  {
    forall c, k | 0 <= c < |mods| && 0 <= k < |mods[c].1|
      ensures !Within(ClusterDistance(x, mods[c].1[k], jama), MaxValue)
    {
      ClassEntry(mods, x, jama, ds, c);
    }
  }

  // ---------------------------------------------------------------------
  // Scoring
  // ---------------------------------------------------------------------

  /**
   * The classes predicted for the first `n` probes of one test set, in probe
   * order, or the retry that never ends.
   */
  function SetPredictions(testSet: Matrix, mods: Table<seq<Cluster>>, jama: Jama, n: nat): (r: Result<seq<string>>)
    requires ProbeMatrix(testSet) && n <= ProbeCount(testSet) && ModsFit(mods, |testSet|) && Sound(jama)
    ensures r.Err? ==> r.error == RetriesForever
    ensures r.Ok? ==> |r.value| == n
  {
    if n == 0 then Ok([])
    else
      match SetPredictions(testSet, mods, jama, n - 1)
      case Err(e) => Err(e)
      case Ok(predicted) =>
        match PredictClass(mods, Column(testSet, n - 1), jama)
        case Err(e) => Err(e)
        case Ok(c) => Ok(predicted + [c])
  }

  /**
   * The predictions of a test set are those of its probes one by one: they
   * succeed exactly when every probe's prediction does, and then the `i`-th
   * is the class predicted for probe `i`.
   */
  lemma {:induction false} SetPredictionsAreProbePredictions(testSet: Matrix, mods: Table<seq<Cluster>>, jama: Jama, n: nat)
    requires ProbeMatrix(testSet) && n <= ProbeCount(testSet) && ModsFit(mods, |testSet|) && Sound(jama)
    ensures SetPredictions(testSet, mods, jama, n).Ok? <==> forall i | 0 <= i < n :: PredictClass(mods, Column(testSet, i), jama).Ok?
    ensures SetPredictions(testSet, mods, jama, n).Ok? ==>
      forall i | 0 <= i < n :: PredictClass(mods, Column(testSet, i), jama) == Ok(SetPredictions(testSet, mods, jama, n).value[i])
  {
    if n > 0 {
      var m := n - 1;
      SetPredictionsAreProbePredictions(testSet, mods, jama, m);
      var previous := SetPredictions(testSet, mods, jama, m);
      var here := PredictClass(mods, Column(testSet, m), jama);
      var r := SetPredictions(testSet, mods, jama, n);
      if previous.Ok? && here.Ok? {
        assert r == Ok(previous.value + [here.value]);
      } else {
        assert r.Err?;
      }
    }
  }

  /** The successes and failures of one test set, or the retry that never ends. */
  function SetCounts(testKey: string, testSet: Matrix, mods: Table<seq<Cluster>>, jama: Jama): (r: Result<(nat, nat)>)
    requires ProbeMatrix(testSet) && ModsFit(mods, |testSet|) && Sound(jama)
    ensures r.Err? ==> r.error == RetriesForever
    ensures r.Ok? ==> r.value.0 + r.value.1 == ProbeCount(testSet)
  {
    match SetPredictions(testSet, mods, jama, ProbeCount(testSet))
    case Err(e) => Err(e)
    case Ok(predicted) =>
      var successes := Successes(testKey, predicted);
      Ok((successes, |predicted| - successes))
  }

  /** One test set fails iff it has a probe and some cluster cannot be inverted. */
  lemma {:induction false} SetFailsIffCannotInvert(testSet: Matrix, mods: Table<seq<Cluster>>, jama: Jama, n: nat)
    requires ProbeMatrix(testSet) && n <= ProbeCount(testSet) && ModsFit(mods, |testSet|) && Sound(jama)
    ensures SetPredictions(testSet, mods, jama, n).Err? <==> n > 0 && CannotInvert(mods, |testSet|, jama)
  {
    if n > 0 {
      var m := n - 1;
      SetFailsIffCannotInvert(testSet, mods, jama, m);
      PredictionFailsIffCannotInvert(mods, Column(testSet, m), jama);
    }
  }

  /**
   * The counts over the first `t` test sets, in key order; a test set
   * without attribute rows fails on `probesInTestSet[0]`.
   */
  function TestCounts(tests: Table<Matrix>, attributes: nat, mods: Table<seq<Cluster>>, jama: Jama, t: nat): (r: Result<(nat, nat)>)
    requires t <= |tests| && SameShape(tests, attributes) && ModsFit(mods, attributes) && Sound(jama)
    ensures r.Err? ==> r.error == IndexOutOfBounds || r.error == RetriesForever
  {
    if t == 0 then Ok((0, 0))
    else
      match TestCounts(tests, attributes, mods, jama, t - 1)
      case Err(e) => Err(e)
      case Ok((successes, failures)) =>
        var testSet := tests[t - 1];
        if attributes == 0 then Err(IndexOutOfBounds)
        else
          match SetCounts(testSet.0, testSet.1, mods, jama)
          case Err(e) => Err(e)
          case Ok((s, f)) => Ok((successes + s, failures + f))
  }

  /** Every probe of the first `t` test sets is counted once, as a success or as a failure. */
  lemma {:induction false} TestCountsCoverEveryProbe(tests: Table<Matrix>, attributes: nat, mods: Table<seq<Cluster>>, jama: Jama, t: nat)
    requires t <= |tests| && SameShape(tests, attributes) && ModsFit(mods, attributes) && Sound(jama)
    requires TestCounts(tests, attributes, mods, jama, t).Ok?
    ensures var (successes, failures) := TestCounts(tests, attributes, mods, jama, t).value;
      successes + failures == TotalProbes(tests[..t])
  {
    if t > 0 {
      var m := t - 1;
      TestCountsCoverEveryProbe(tests, attributes, mods, jama, m);
      PrefixGrows(tests, m, attributes);
    }
  }

  /**
   * Scoring fails iff a test set has no attribute rows (an index error) or
   * some test probe meets a cluster that cannot be inverted (endless retry).
   */
  lemma {:induction false} TestsFailIff(tests: Table<Matrix>, attributes: nat, mods: Table<seq<Cluster>>, jama: Jama, t: nat)
    requires t <= |tests| && SameShape(tests, attributes) && ModsFit(mods, attributes) && Sound(jama)
    ensures var r := TestCounts(tests, attributes, mods, jama, t);
      && (r.Err? <==> (t > 0 && attributes == 0) || (TotalProbes(tests[..t]) > 0 && CannotInvert(mods, attributes, jama)))
      && (r.Err? && attributes > 0 ==> r.error == RetriesForever)
  {
    if t > 0 {
      var m := t - 1;
      TestsFailIff(tests, attributes, mods, jama, m);
      PrefixGrows(tests, m, attributes);
      if attributes > 0 {
        SetFailsIffCannotInvert(tests[m].1, mods, jama, ProbeCount(tests[m].1));
      }
    }
  }

  /**
   * `train` after the split: cluster every training set, then the
   * percentage of test probes classified correctly.
   */
  function SplitAccuracy(sqrt: real -> real, training: Table<Matrix>, tests: Table<Matrix>, attributes: nat,
                         jama: Jama, draws: seq<nat>, fuel: nat): (r: Result<real>)
    requires SameShape(training, attributes) && SameShape(tests, attributes) && Sound(jama)
    ensures r.Ok? ==> 0.0 <= r.value <= 100.0
  {
    match Mods(sqrt, training, attributes, draws, fuel, |training|)
    case Err(e) => Err(e)
    case Ok((mods, _)) =>
      match TestCounts(tests, attributes, mods, jama, |tests|)
      case Err(e) => Err(e)
      case Ok((successes, failures)) => Accuracy(successes, failures)
  }

  /**
   * `train` on a data set: keep the selected attribute rows, which fails
   * when an index misses the rows, then train on the sets marked
   * "_training" and score the sets marked "_test".
   */
  function KnmAccuracy(sets: Table<Matrix>, indexesOfBestAttributes: seq<int>, sqrt: real -> real,
                       jama: Jama, draws: seq<nat>, fuel: nat): (r: Result<real>)
    requires ProbeSets(sets) && Sound(jama)
    ensures r.Ok? ==> 0.0 <= r.value <= 100.0
  {
    var extracted := Nm.Extracted(sets, indexesOfBestAttributes);
    if extracted.Err? then Err(extracted.error)
    else
      var attributes := |indexesOfBestAttributes|;
      Nm.ExtractionKeepsSets(sets, indexesOfBestAttributes);
      MarkedKeepsShape(extracted.value, TrainingMark, attributes);
      MarkedKeepsShape(extracted.value, TestMark, attributes);
      SplitAccuracy(sqrt, Marked(extracted.value, TrainingMark), Marked(extracted.value, TestMark), attributes, jama, draws, fuel)
  }

  // ---------------------------------------------------------------------
  // The methods of KNMClassifier
  // ---------------------------------------------------------------------

  /** `calculateCovarianceMatrix`: the covariance loop, then `inverse()` or the pseudoinverse. */
  method CalculateCovarianceMatrix(probes: Matrix, clusterCentroid: Vector, jama: Jama)
    returns (matrix: Result<Option<Matrix>>)
    requires ClusterFits(Cluster(clusterCentroid, probes), |clusterCentroid|) && Sound(jama)
    ensures matrix == ClusterInverse(Cluster(clusterCentroid, probes), jama)
  {
    var covarianceMatrix := Nm.CovarianceOf(probes, clusterCentroid);
    if covarianceMatrix.None? {
      return Ok(None);
    }
    var inverse := jama.inverse(covarianceMatrix.value);
    if inverse.Some? {
      return Ok(inverse);
    }
    var n := |clusterCentroid|;
    var pseudoinverse := PseudoinverseMoorePenrose(covarianceMatrix.value, n, n, jama);
    if pseudoinverse.None? {
      return Err(RetriesForever);
    }
    return Ok(pseudoinverse);
  }

  /** The loop of `train` over the training keys: `assignProbesToClusters` on every training set. */
  method ClusterTrainingSets(sqrt: real -> real, trainingSets: Table<Matrix>, attributes: nat, draws: seq<nat>, fuel: nat)
    returns (modsWithAssignedProbesForEachClass: Result<(Table<seq<Cluster>>, seq<nat>)>)
    requires SameShape(trainingSets, attributes)
    ensures modsWithAssignedProbesForEachClass == Mods(sqrt, trainingSets, attributes, draws, fuel, |trainingSets|)
  {
    var mods: Table<seq<Cluster>> := [];
    var rest := draws;
    for t := 0 to |trainingSets|
      invariant Mods(sqrt, trainingSets, attributes, draws, fuel, t) == Ok((mods, rest))
    {
      var probes := trainingSets[t].1;
      var clusters := AssignProbesToClusters(sqrt, probes, rest, fuel);
      if clusters.Err? {
        ModsFailFrom(sqrt, trainingSets, attributes, draws, fuel, t + 1, |trainingSets|);
        return Err(clusters.error);
      }
      mods := mods + [(trainingSets[t].0, clusters.value.0)];
      rest := clusters.value.1;
    }
    return Ok((mods, rest));
  }

  /**
   * The `try` block for one test probe and one training set: the running
   * minimum over the clusters of that set; the exception of a cluster that
   * cannot be inverted leaves the block, to be retried for ever.
   */
  method DistanceToNearestClassCentroid(probeAsMatrix: Vector, clusters: seq<Cluster>, jama: Jama)
    returns (distance: Result<real>)
    requires AllFit(clusters, |probeAsMatrix|) && Sound(jama)
    ensures distance == ClassDistance(probeAsMatrix, clusters, jama, |clusters|)
  {
    var distanceToNearestClassCentroid := MaxValue;
    for k := 0 to |clusters|
      invariant ClassDistance(probeAsMatrix, clusters, jama, k) == Ok(distanceToNearestClassCentroid)
    {
      var entry := clusters[k];
      var covarianceMatrix := CalculateCovarianceMatrix(entry.probes, entry.centroid, jama);
      if covarianceMatrix.Err? {
        ClassDistanceFailsFrom(probeAsMatrix, clusters, jama, k + 1, |clusters|);
        return Err(covarianceMatrix.error);
      }
      if covarianceMatrix.value.Some? && jama.det(covarianceMatrix.value.value) != 0.0 {
        var probeMinusMean := Difference(probeAsMatrix, entry.centroid);
        var distanceToSet := QuadraticForm(probeMinusMean, covarianceMatrix.value.value);
        if distanceToSet < distanceToNearestClassCentroid {
          distanceToNearestClassCentroid := distanceToSet;
        }
      }
    }
    return Ok(distanceToNearestClassCentroid);
  }

  /** Once the first `c` clusters fail, the first `n` fail alike. */
  lemma {:induction false} ClassDistanceFailsFrom(x: Vector, clusters: seq<Cluster>, jama: Jama, c: nat, n: nat)
    requires c <= n <= |clusters| && AllFit(clusters, |x|) && Sound(jama)
    requires ClassDistance(x, clusters, jama, c).Err?
    ensures ClassDistance(x, clusters, jama, n) == ClassDistance(x, clusters, jama, c)
  {
    if c < n {
      var m := n - 1;
      ClassDistanceFailsFrom(x, clusters, jama, c, m);
    }
  }

  /** The loop over the training keys for one test probe: its distance to every class. */
  method DistancesBetweenProbeAndClass(probeAsMatrix: Vector, mods: Table<seq<Cluster>>, jama: Jama)
    returns (distances: Result<Table<Option<real>>>)
    requires ModsFit(mods, |probeAsMatrix|) && Sound(jama)
    ensures distances == ClassDistances(mods, probeAsMatrix, jama, |mods|)
  {
    var distancesBetweenProbeAndClass: Table<Option<real>> := [];
    for c := 0 to |mods|
      invariant ClassDistances(mods, probeAsMatrix, jama, c) == Ok(distancesBetweenProbeAndClass)
    {
      var distanceToNearestClassCentroid := DistanceToNearestClassCentroid(probeAsMatrix, mods[c].1, jama);
      if distanceToNearestClassCentroid.Err? {
        ClassDistancesFailFrom(mods, probeAsMatrix, jama, c + 1, |mods|);
        return Err(distanceToNearestClassCentroid.error);
      }
      distancesBetweenProbeAndClass := distancesBetweenProbeAndClass + [(mods[c].0, Some(distanceToNearestClassCentroid.value))];
    }
    return Ok(distancesBetweenProbeAndClass);
  }

  /** Once the distances to the first `c` classes fail, those to the first `n` fail alike. */
  lemma {:induction false} ClassDistancesFailFrom(mods: Table<seq<Cluster>>, x: Vector, jama: Jama, c: nat, n: nat)
    requires c <= n <= |mods| && ModsFit(mods, |x|) && Sound(jama)
    requires ClassDistances(mods, x, jama, c).Err?
    ensures ClassDistances(mods, x, jama, n) == ClassDistances(mods, x, jama, c)
  {
    if c < n {
      var m := n - 1;
      ClassDistancesFailFrom(mods, x, jama, c, m);
    }
  }

  /**
   * The loop over the probes of one test set: each probe is classified and
   * counted once, as a success or as a failure.
   */
  method ScoreTestSet(testSetKey: string, probesInTestSet: Matrix, mods: Table<seq<Cluster>>, jama: Jama)
    returns (counts: Result<(nat, nat)>)
    requires ProbeMatrix(probesInTestSet) && probesInTestSet != [] && ModsFit(mods, |probesInTestSet|) && Sound(jama)
    ensures counts == SetCounts(testSetKey, probesInTestSet, mods, jama)
  {
    var counted: (nat, nat) := (0, 0);
    ghost var predicted: seq<string> := [];
    for probeIndex := 0 to |probesInTestSet[0]|
      invariant SetPredictions(probesInTestSet, mods, jama, probeIndex) == Ok(predicted)
      invariant counted.0 == Successes(testSetKey, predicted)
      invariant counted.0 + counted.1 == probeIndex
    {
      var probeAsMatrix := GetProbe(probesInTestSet, probeIndex);
      assert probeAsMatrix == Column(probesInTestSet, probeIndex);
      var distancesBetweenProbeAndClass := DistancesBetweenProbeAndClass(probeAsMatrix, mods, jama);
      if distancesBetweenProbeAndClass.Err? {
        FailedPrediction(testSetKey, probesInTestSet, mods, jama, probeIndex, predicted, distancesBetweenProbeAndClass.error);
        return Err(distancesBetweenProbeAndClass.error);
      }
      var closestClass := FindClosestClass(distancesBetweenProbeAndClass.value, MaxValue);
      NextPrediction(testSetKey, probesInTestSet, mods, jama, probeIndex, predicted, distancesBetweenProbeAndClass.value, closestClass);
      predicted := predicted + [closestClass];
      var successes, failures := Record(testSetKey, closestClass, counted.0, counted.1);
      counted := (successes, failures);
    }
    assert SetPredictions(probesInTestSet, mods, jama, ProbeCount(probesInTestSet)) == Ok(predicted);
    counts := Ok(counted);
  }

  /** A probe whose class distances fail makes the whole test set fail with the same exception. */
  lemma FailedPrediction(testSetKey: string, testSet: Matrix, mods: Table<seq<Cluster>>, jama: Jama, i: nat,
                         predicted: seq<string>, e: Failure)
    requires ProbeMatrix(testSet) && i < ProbeCount(testSet) && ModsFit(mods, |testSet|) && Sound(jama)
    requires SetPredictions(testSet, mods, jama, i) == Ok(predicted)
    requires ClassDistances(mods, Column(testSet, i), jama, |mods|) == Err(e)
    ensures SetCounts(testSetKey, testSet, mods, jama) == Err(e)
  {
    assert SetPredictions(testSet, mods, jama, i + 1) == Err(e);
    SetPredictionsFailFrom(testSet, mods, jama, i + 1, ProbeCount(testSet));
  }

  /** The step of the loop over the probes of one test set: one more probe classified. */
  lemma NextPrediction(testSetKey: string, testSet: Matrix, mods: Table<seq<Cluster>>, jama: Jama, i: nat,
                       predicted: seq<string>, distances: Table<Option<real>>, closestClass: string)
    requires ProbeMatrix(testSet) && i < ProbeCount(testSet) && ModsFit(mods, |testSet|) && Sound(jama)
    requires SetPredictions(testSet, mods, jama, i) == Ok(predicted)
    requires ClassDistances(mods, Column(testSet, i), jama, |mods|) == Ok(distances)
    requires closestClass == ClosestKey(distances, MaxValue)
    ensures SetPredictions(testSet, mods, jama, i + 1) == Ok(predicted + [closestClass])
    ensures Successes(testSetKey, predicted + [closestClass])
         == Successes(testSetKey, predicted) + (if IsSuccess(testSetKey, closestClass) then 1 else 0)
  {
    assert PredictClass(mods, Column(testSet, i), jama) == Ok(closestClass);
    assert (predicted + [closestClass])[..|predicted|] == predicted;
  }

  /** Once the predictions for the first `c` probes of a test set fail, those for the first `n` fail alike. */
  lemma {:induction false} SetPredictionsFailFrom(testSet: Matrix, mods: Table<seq<Cluster>>, jama: Jama, c: nat, n: nat)
    requires ProbeMatrix(testSet) && c <= n <= ProbeCount(testSet) && ModsFit(mods, |testSet|) && Sound(jama)
    requires SetPredictions(testSet, mods, jama, c).Err?
    ensures SetPredictions(testSet, mods, jama, n) == SetPredictions(testSet, mods, jama, c)
  {
    if c < n {
      var m := n - 1;
      SetPredictionsFailFrom(testSet, mods, jama, c, m);
    }
  }

  /** The loop of `train` over the test keys: the counts over every test set. */
  method ScoreTestSets(testSets: Table<Matrix>, attributes: nat, mods: Table<seq<Cluster>>, jama: Jama)
    returns (counts: Result<(nat, nat)>)
    requires SameShape(testSets, attributes) && ModsFit(mods, attributes) && Sound(jama)
    ensures counts == TestCounts(testSets, attributes, mods, jama, |testSets|)
  {
    // the successes and failures so far
    var counted: (nat, nat) := (0, 0);
    for t := 0 to |testSets|
      invariant TestCounts(testSets, attributes, mods, jama, t) == Ok(counted)
    {
      var next := ScoreNextTestSet(testSets, attributes, mods, jama, t, counted);
      if next.Err? {
        TestCountsFailFrom(testSets, attributes, mods, jama, t + 1, |testSets|);
        return next;
      }
      counted := next.value;
    }
    counts := Ok(counted);
  }

  /**
   * One round of the loop over the test keys: the probes of test set `t`
   * are scored on top of the counts of the sets before it.
   */
  method ScoreNextTestSet(testSets: Table<Matrix>, attributes: nat, mods: Table<seq<Cluster>>, jama: Jama,
                          t: nat, counted: (nat, nat))
    returns (next: Result<(nat, nat)>)
    requires t < |testSets| && SameShape(testSets, attributes) && ModsFit(mods, attributes) && Sound(jama)
    requires TestCounts(testSets, attributes, mods, jama, t) == Ok(counted)
    ensures next == TestCounts(testSets, attributes, mods, jama, t + 1)
  {
    var probesInTestSet := testSets[t].1;
    assert |probesInTestSet| == attributes && ProbeMatrix(probesInTestSet);
    if |probesInTestSet| == 0 {
      TestCountsStop(testSets, attributes, mods, jama, t, IndexOutOfBounds);
      return Err(IndexOutOfBounds);
    }
    var scored := ScoreTestSet(testSets[t].0, probesInTestSet, mods, jama);
    TestCountsNext(testSets, attributes, mods, jama, t, counted, scored);
    if scored.Err? {
      return Err(scored.error);
    }
    next := Ok((counted.0 + scored.value.0, counted.1 + scored.value.1));
  }

  /** Scoring one more test set adds its counts to those of the sets before it, or fails with its error. */
  lemma TestCountsNext(tests: Table<Matrix>, attributes: nat, mods: Table<seq<Cluster>>, jama: Jama, t: nat,
                       counted: (nat, nat), scored: Result<(nat, nat)>)
    requires t < |tests| && SameShape(tests, attributes) && ModsFit(mods, attributes) && Sound(jama)
    requires TestCounts(tests, attributes, mods, jama, t) == Ok(counted)
    requires attributes > 0 && SetCounts(tests[t].0, tests[t].1, mods, jama) == scored
    ensures TestCounts(tests, attributes, mods, jama, t + 1)
         == if scored.Err? then Err(scored.error) else Ok((counted.0 + scored.value.0, counted.1 + scored.value.1))
  {
  }

  /** A test set without attribute rows fails the counts. */
  lemma TestCountsStop(tests: Table<Matrix>, attributes: nat, mods: Table<seq<Cluster>>, jama: Jama, t: nat, e: Failure)
    requires t < |tests| && SameShape(tests, attributes) && ModsFit(mods, attributes) && Sound(jama)
    requires TestCounts(tests, attributes, mods, jama, t).Ok?
    requires attributes == 0 && e == IndexOutOfBounds
    ensures TestCounts(tests, attributes, mods, jama, t + 1) == Err(e)
  {
  }

  /** Once the first `c` test sets fail, the first `n` fail alike. */
  lemma {:induction false} TestCountsFailFrom(tests: Table<Matrix>, attributes: nat, mods: Table<seq<Cluster>>, jama: Jama, c: nat, n: nat)
    requires c <= n <= |tests| && SameShape(tests, attributes) && ModsFit(mods, attributes) && Sound(jama)
    requires TestCounts(tests, attributes, mods, jama, c).Err?
    ensures TestCounts(tests, attributes, mods, jama, n) == TestCounts(tests, attributes, mods, jama, c)
  {
    if c < n {
      var m := n - 1;
      TestCountsFailFrom(tests, attributes, mods, jama, c, m);
    }
  }

  /** What `train` does after the split: cluster the training sets, then score the test sets. */
  method Classify(sqrt: real -> real, trainingSets: Table<Matrix>, testSets: Table<Matrix>, attributes: nat,
                  jama: Jama, draws: seq<nat>, fuel: nat)
    returns (accuracy: Result<real>)
    requires SameShape(trainingSets, attributes) && SameShape(testSets, attributes) && Sound(jama)
    ensures accuracy == SplitAccuracy(sqrt, trainingSets, testSets, attributes, jama, draws, fuel)
  {
    var modsWithAssignedProbesForEachClass := ClusterTrainingSets(sqrt, trainingSets, attributes, draws, fuel);
    if modsWithAssignedProbesForEachClass.Err? {
      return Err(modsWithAssignedProbesForEachClass.error);
    }
    var mods := modsWithAssignedProbesForEachClass.value.0;
    var counts := ScoreTestSets(testSets, attributes, mods, jama);
    if counts.Err? {
      return Err(counts.error);
    }
    accuracy := Accuracy(counts.value.0, counts.value.1);
  }

  /**
   * The classifier object. `train` sets the two key fields from the
   * extracted sets and leaves them there.
   */
  class KNMClassifier {
    var testSetsKeys: seq<string>
    var trainingSetsKeys: seq<string>

    constructor ()
      ensures testSetsKeys == [] && trainingSetsKeys == []
    {
      testSetsKeys := [];
      trainingSetsKeys := [];
    }

    /**
     * `train`: classifies every test probe by its nearest mode over the
     * selected attributes and returns the percentage classified correctly.
     * The key fields list the keys containing "_training" and "_test"; they
     * are untouched when extraction fails before they are set.
     */
    method Train(sets: Table<Matrix>, indexesOfBestAttributes: seq<int>, sqrt: real -> real,
                 jama: Jama, draws: seq<nat>, fuel: nat)
      returns (accuracy: Result<real>)
      requires ProbeSets(sets) && Sound(jama)
      modifies this
      ensures accuracy == KnmAccuracy(sets, indexesOfBestAttributes, sqrt, jama, draws, fuel)
      ensures Nm.Extracted(sets, indexesOfBestAttributes).Err? ==> unchanged(this)
      ensures Nm.Extracted(sets, indexesOfBestAttributes).Ok? ==>
        var extracted := Nm.Extracted(sets, indexesOfBestAttributes).value;
        trainingSetsKeys == Keys(Marked(extracted, TrainingMark)) && testSetsKeys == Keys(Marked(extracted, TestMark))
    {
      var probesSplitedIntoTrainingAndTestSets := Nm.ExtractSelectedAttributes(sets, indexesOfBestAttributes);
      if probesSplitedIntoTrainingAndTestSets.Err? {
        return Err(probesSplitedIntoTrainingAndTestSets.error);
      }
      var extracted := probesSplitedIntoTrainingAndTestSets.value;
      var attributes := |indexesOfBestAttributes|;
      Nm.ExtractionKeepsSets(sets, indexesOfBestAttributes);
      var trainingSets := Marked(extracted, TrainingMark);
      var testSets := Marked(extracted, TestMark);
      MarkedKeepsShape(extracted, TrainingMark, attributes);
      MarkedKeepsShape(extracted, TestMark, attributes);
      trainingSetsKeys := Keys(trainingSets);
      testSetsKeys := Keys(testSets);
      accuracy := Classify(sqrt, trainingSets, testSets, attributes, jama, draws, fuel);
    }
  }
}
