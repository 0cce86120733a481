/**
 * src/classifier/NNClassifier.java: the nearest-neighbour classifier, which
 * is the k-nearest-neighbours classifier asked for a single neighbour.
 */
module Nn {
  import opened Outcomes
  import opened Matrices
  import opened Sorting
  import opened ProbeDistances
  import opened Scoring
  import opened Knn

  /** The squared distance from `probe` to probe `q` of training set `c`. */
  function DistanceTo(training: Table<Matrix>, probe: Vector, indexesOfBestAttributes: set<int>, c: nat, q: nat): (d: real)
    requires SameShape(training, |probe|) && c < |training| && q < ProbeCount(training[c].1)
    ensures d >= 0.0
  {
    ClassDistances(training[c].1, probe, indexesOfBestAttributes)[q]
  }

  /** Probe `q` of training set `c` is at least as close to `probe` as every training probe. */
  predicate IsNearest(training: Table<Matrix>, probe: Vector, indexesOfBestAttributes: set<int>, c: nat, q: nat)
    requires SameShape(training, |probe|)
  {
    && c < |training| && q < ProbeCount(training[c].1)
    && forall c', q' | 0 <= c' < |training| && 0 <= q' < ProbeCount(training[c'].1) ::
         DistanceTo(training, probe, indexesOfBestAttributes, c, q) <= DistanceTo(training, probe, indexesOfBestAttributes, c', q')
  }

  /**
   * With one neighbour the vote has a single voter: the prediction is the key
   * of a training set holding a training probe nearest to the test probe.
   */
  lemma NearestNeighbourRule(training: Table<Matrix>, probe: Vector, indexesOfBestAttributes: set<int>)
    requires SameShape(training, |probe|) && TotalProbes(training) >= 1
    ensures exists c: nat, q: nat ::
      IsNearest(training, probe, indexesOfBestAttributes, c, q) && Predict(training, probe, indexesOfBestAttributes, 1) == training[c].0
  {
    var pool := Pool(training, probe, indexesOfBestAttributes, 1);
    PoolSize(training, probe, indexesOfBestAttributes, 1);
    var sorted := SortByDistance(pool);
    var first := sorted[0];
    assert Nearest(training, probe, indexesOfBestAttributes, 1) == [first];
    assert CountVotes([first]) == Increment([], first.className);
    assert Predict(training, probe, indexesOfBestAttributes, 1) == first.className;
    assert first in multiset(pool);
    var i :| 0 <= i < |pool| && pool[i] == first;
    PoolOwners(training, probe, indexesOfBestAttributes, 1, i);
    var c :| 0 <= c < |training| && first.className == training[c].0
      && first.distanceToTestProbe in multiset(Retain(ClassDistances(training[c].1, probe, indexesOfBestAttributes), 1));
    var q := RetainedIndex(training, probe, indexesOfBestAttributes, c, first.distanceToTestProbe);
    forall c', q' | 0 <= c' < |training| && 0 <= q' < ProbeCount(training[c'].1)
      ensures DistanceTo(training, probe, indexesOfBestAttributes, c, q) <= DistanceTo(training, probe, indexesOfBestAttributes, c', q')
    {
      var least := LeastOfSet(training, probe, indexesOfBestAttributes, c', q');
      PoolHoldsRetained(training, probe, indexesOfBestAttributes, 1, c', least);
      FirstIsClosest(sorted, ProbeDistance(training[c'].0, least));
    }
    assert IsNearest(training, probe, indexesOfBestAttributes, c, q);
  }

  /** A retained distance is the distance to one of the set's probes. */
  lemma RetainedIndex(training: Table<Matrix>, probe: Vector, indexesOfBestAttributes: set<int>, c: nat, x: real)
    returns (q: nat)
    requires SameShape(training, |probe|) && c < |training|
    requires x in multiset(Retain(ClassDistances(training[c].1, probe, indexesOfBestAttributes), 1))
    ensures q < ProbeCount(training[c].1) && DistanceTo(training, probe, indexesOfBestAttributes, c, q) == x
  {
    var ds := ClassDistances(training[c].1, probe, indexesOfBestAttributes);
    RetainKeepsKSmallest(ds, 1);
    assert x in multiset(ds);
    var j :| 0 <= j < |ds| && ds[j] == x;
    q := j;
  }

  /**
   * With one neighbour, set `c` keeps a single distance, which is no larger
   * than the distance to any of its probes.
   */
  lemma LeastOfSet(training: Table<Matrix>, probe: Vector, indexesOfBestAttributes: set<int>, c: nat, q: nat)
    returns (least: real)
    requires SameShape(training, |probe|) && c < |training| && q < ProbeCount(training[c].1)
    ensures least in multiset(Retain(ClassDistances(training[c].1, probe, indexesOfBestAttributes), 1))
    ensures least <= DistanceTo(training, probe, indexesOfBestAttributes, c, q)
  {
    var ds := ClassDistances(training[c].1, probe, indexesOfBestAttributes);
    var kept := Retain(ds, 1);
    RetainKeepsKSmallest(ds, 1);
    assert |kept| == 1;
    least := kept[0];
    assert least in multiset(kept);
    assert ds[q] in multiset(ds);
    if ds[q] != least {
      assert ds[q] in multiset(ds) - multiset(kept);
    }
  }

  /**
   * `NNClassifier.train`: a fresh KNN classifier trained with one neighbour,
   * so the accuracy is KNN's with `kCount` 1.
   */
  method Train(sets: Table<Matrix>, indexesOfBestAttributes: set<int>) returns (accuracy: Result<real>)
    requires ProbeSets(sets)
    ensures accuracy == KnnAccuracy(sets, indexesOfBestAttributes, 1)
  {
    var iKClassifier := new KNNClassifier();
    accuracy := iKClassifier.Train(sets, indexesOfBestAttributes, 1);
  }
}
