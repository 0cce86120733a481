/**
 * What the four classifiers share: the map from set key to probe matrix, the
 * split of that map by key, the choice of the closest class against a
 * sentinel, the substring-based correctness rule and the accuracy ratio.
 *
 * A Java `Map` is modelled as an association list whose order is the map's
 * iteration order, so that every "first wins" tie-break is explicit.
 */
module Scoring {
  import opened Outcomes
  import opened Text
  import opened Matrices

  /** A Java map from string keys, in iteration order. */
  type Table<V> = seq<(string, V)>

  predicate DistinctKeys<V>(t: Table<V>) {
    forall i, j | 0 <= i < j < |t| :: t[i].0 != t[j].0
  }

  /** The keys of `t`, in iteration order. */
  function Keys<V>(t: Table<V>): (keys: seq<string>)
    ensures |keys| == |t| && forall i | 0 <= i < |t| :: keys[i] == t[i].0
  {
    seq(|t|, i requires 0 <= i < |t| => t[i].0)
  }

  /** Every set of the data set has `attributes` attribute rows of equal length. */
  predicate SameShape(sets: Table<Matrix>, attributes: nat) {
    forall i | 0 <= i < |sets| :: |sets[i].1| == attributes && ProbeMatrix(sets[i].1)
  }

  /**
   * What a classifier's `train` receives: a map (so its keys are distinct)
   * whose probe sets all describe probes by the same attributes.
   */
  predicate ProbeSets(sets: Table<Matrix>) {
    DistinctKeys(sets) && (sets == [] || SameShape(sets, |sets[0].1|))
  }

  /** The number of attribute rows shared by all sets. */
  function Attributes(sets: Table<Matrix>): nat {
    if sets == [] then 0 else |sets[0].1|
  }

  /** The number of probes in all sets of `sets`. */
  function TotalProbes(sets: Table<Matrix>): nat {
    if sets == [] then 0 else TotalProbes(sets[..|sets| - 1]) + ProbeCount(sets[|sets| - 1].1)
  }

  /** A set holds no more probes than all sets together. */
  lemma {:induction false} TotalProbesBound(sets: Table<Matrix>, i: nat)
    requires i < |sets|
    ensures ProbeCount(sets[i].1) <= TotalProbes(sets)
  {
    if i < |sets| - 1 {
      TotalProbesBound(sets[..|sets| - 1], i);
    }
  }

  /** The test sets up to `t + 1`: those up to `t` and then set `t`. */
  lemma PrefixGrows(tests: Table<Matrix>, t: nat, attributes: nat)
    requires t < |tests| && SameShape(tests, attributes)
    ensures SameShape(tests[..t + 1], attributes)
    ensures TotalProbes(tests[..t + 1]) == TotalProbes(tests[..t]) + ProbeCount(tests[t].1)
    ensures Keys(tests[..t + 1]) == Keys(tests[..t]) + [tests[t].0]
  {
    var prefix := tests[..t + 1];
    assert prefix[..t] == tests[..t];
  }

  /** Every set is empty iff all sets together hold no probe. */
  lemma {:induction false} NoProbesAnywhere(sets: Table<Matrix>)
    ensures TotalProbes(sets) == 0 <==> forall i | 0 <= i < |sets| :: ProbeCount(sets[i].1) == 0
  {
    if sets != [] {
      NoProbesAnywhere(sets[..|sets| - 1]);
      assert forall i | 0 <= i < |sets| - 1 :: sets[..|sets| - 1][i] == sets[i];
    }
  }

  const TestMark: string := "_test"
  const TrainingMark: string := "_training"

  /** KNN and NM send a set to the test side iff its key contains "_test". */
  predicate IsTestKey(key: string) {
    Contains(key, TestMark)
  }

  /** The entries of `sets` on the test side (`onTestSide`) or on the training side, in order. */
  function Side(sets: Table<Matrix>, onTestSide: bool): Table<Matrix> {
    if sets == [] then []
    else
      var last := sets[|sets| - 1];
      Side(sets[..|sets| - 1], onTestSide) + (if IsTestKey(last.0) == onTestSide then [last] else [])
  }

  /** The entries of `sets` whose key contains "_test", in order. */
  function TestSets(sets: Table<Matrix>): Table<Matrix> {
    Side(sets, true)
  }

  /** The entries of `sets` whose key does not contain "_test", in order. */
  function TrainingSets(sets: Table<Matrix>): Table<Matrix> {
    Side(sets, false)
  }

  /** An entry is on a side iff it is an entry of `sets` whose key belongs there. */
  lemma {:induction false} SideMembers(sets: Table<Matrix>, onTestSide: bool)
    ensures forall e :: e in Side(sets, onTestSide) <==> e in sets && IsTestKey(e.0) == onTestSide
  {
    if sets != [] {
      var init := sets[..|sets| - 1];
      SideMembers(init, onTestSide);
      assert sets == init + [sets[|sets| - 1]];
    }
  }

  /** The two sides together are as long as the input. */
  lemma {:induction false} SideSizes(sets: Table<Matrix>)
    ensures |Side(sets, true)| + |Side(sets, false)| == |sets|
  {
    if sets != [] {
      SideSizes(sets[..|sets| - 1]);
    }
  }

  /** A side of a table with distinct keys has distinct keys. */
  lemma {:induction false} SideKeepsKeysDistinct(sets: Table<Matrix>, onTestSide: bool)
    requires DistinctKeys(sets)
    ensures DistinctKeys(Side(sets, onTestSide))
  {
    if sets != [] {
      var init, last := sets[..|sets| - 1], sets[|sets| - 1];
      assert DistinctKeys(init);
      SideKeepsKeysDistinct(init, onTestSide);
      SideMembers(init, onTestSide);
      var before, after := Side(init, onTestSide), Side(sets, onTestSide);
      forall i, j | 0 <= i < j < |after|
        ensures after[i].0 != after[j].0
      {
        assert after[i] == before[i];
        if j < |before| {
          assert after[j] == before[j];
        } else {
          assert after[i] in init && after[j] == last;
          var p :| 0 <= p < |init| && init[p] == after[i];
          assert sets[p] == after[i];
        }
      }
    }
  }

  /**
   * `splitPassedSetsIntoTestAndTraining` (KNN and NM): every entry of the
   * input lands, with its value, in exactly one of the two parts, on the test
   * side iff its key contains "_test"; distinct keys stay distinct.
   */
  lemma SplitIsPartition(sets: Table<Matrix>)
    ensures forall e :: e in TestSets(sets) <==> e in sets && IsTestKey(e.0)
    ensures forall e :: e in TrainingSets(sets) <==> e in sets && !IsTestKey(e.0)
    ensures |TestSets(sets)| + |TrainingSets(sets)| == |sets|
    ensures DistinctKeys(sets) ==> DistinctKeys(TestSets(sets)) && DistinctKeys(TrainingSets(sets))
  {
    SideMembers(sets, true);
    SideMembers(sets, false);
    SideSizes(sets);
    if DistinctKeys(sets) {
      SideKeepsKeysDistinct(sets, true);
      SideKeepsKeysDistinct(sets, false);
    }
  }

  /** Both parts of the split describe probes by the same attributes as the input. */
  lemma SplitKeepsShape(sets: Table<Matrix>, attributes: nat)
    requires SameShape(sets, attributes)
    ensures SameShape(TestSets(sets), attributes) && SameShape(TrainingSets(sets), attributes)
  {
    SplitIsPartition(sets);
    forall i | 0 <= i < |TestSets(sets)|
      ensures |TestSets(sets)[i].1| == attributes && ProbeMatrix(TestSets(sets)[i].1)
    {
      assert TestSets(sets)[i] in sets;
    }
    forall i | 0 <= i < |TrainingSets(sets)|
      ensures |TrainingSets(sets)[i].1| == attributes && ProbeMatrix(TrainingSets(sets)[i].1)
    {
      assert TrainingSets(sets)[i] in sets;
    }
  }

  /** A distance that may be NaN (`None`); NaN is never below anything. */
  predicate Below(d: Option<real>, bound: real) {
    d.Some? && d.value < bound
  }

  /**
   * The running minimum of NM's and KNM's closest-class loop: the index of
   * the chosen entry (-1 while none is chosen) and the smallest distance so
   * far, starting from `sentinel`, replaced only on a strict `<`.
   */
  function Closest(ds: Table<Option<real>>, sentinel: real): (r: (int, real))
    ensures -1 <= r.0 < |ds|
  {
    if ds == [] then (-1, sentinel)
    else
      var previous := Closest(ds[..|ds| - 1], sentinel);
      if Below(ds[|ds| - 1].1, previous.1) then (|ds| - 1, ds[|ds| - 1].1.value) else previous
  }

  /** The key the closest-class loop ends with: "" when nothing beat the sentinel. */
  function ClosestKey(ds: Table<Option<real>>, sentinel: real): string {
    var i := Closest(ds, sentinel).0;
    if i < 0 then "" else ds[i].0
  }

  /**
   * The closest-class loop picks nothing iff no distance is below the
   * sentinel; otherwise it picks a distance below the sentinel that is not
   * larger than any other distance and strictly smaller than every distance
   * before it, so ties go to the earliest key.
   */
  lemma {:induction false} ClosestIsFirstStrictMinimum(ds: Table<Option<real>>, sentinel: real)
    ensures var (i, m) := Closest(ds, sentinel);
      && (i == -1 <==> forall j | 0 <= j < |ds| :: !Below(ds[j].1, sentinel))
      && (i == -1 ==> m == sentinel)
      && (i >= 0 ==> ds[i].1 == Some(m) && m < sentinel)
      && (forall j | 0 <= j < |ds| && ds[j].1.Some? :: m <= ds[j].1.value)
      && (i >= 0 ==> forall j | 0 <= j < i && ds[j].1.Some? :: m < ds[j].1.value)
  {
    if ds != [] {
      var init := ds[..|ds| - 1];
      ClosestIsFirstStrictMinimum(init, sentinel);
      assert forall j | 0 <= j < |init| :: init[j] == ds[j];
    }
  }

  /**
   * The loop over the per-class distances of one test probe (NM and KNM
   * `train`): a strict `<` against a running minimum that starts at
   * `sentinel`.
   */
  method FindClosestClass(distances: Table<Option<real>>, sentinel: real) returns (closestClass: string)
    ensures closestClass == ClosestKey(distances, sentinel)
  {
    var smallestDistance := sentinel;
    var chosen := -1;
    closestClass := "";
    for i := 0 to |distances|
      invariant Closest(distances[..i], sentinel) == (chosen, smallestDistance)
      invariant closestClass == if chosen < 0 then "" else distances[chosen].0
    {
      assert distances[..i + 1][..i] == distances[..i];
      if Below(distances[i].1, smallestDistance) {
        smallestDistance := distances[i].1.value;
        chosen := i;
        closestClass := distances[i].0;
      }
    }
    assert distances[..|distances|] == distances;
  }

  /** The class name of a training key: the key without "_training", trimmed. */
  function ClassNameOf(trainingKey: string): string {
    Trim(RemoveAll(trainingKey, TrainingMark))
  }

  /** The correctness rule: the test key contains the predicted class name. */
  predicate IsSuccess(testKey: string, predicted: string) {
    Contains(testKey, ClassNameOf(predicted))
  }

  /** A name that can be recovered from its "_training" key. */
  predicate PlainClassName(c: string) {
    && (c == [] || (!IsBlank(c[0]) && !IsBlank(c[|c| - 1])))
    && forall i | 0 <= i < |c| :: !(TrainingMark <= (c + TrainingMark)[i..])
  }

  /** A test probe of class `c` predicted as class `c` counts as a success. */
  lemma MatchingKeysSucceed(c: string)
    requires PlainClassName(c)
    ensures ClassNameOf(c + TrainingMark) == c
    ensures IsSuccess(c + TestMark, c + TrainingMark)
  {
    var key := c + TrainingMark;
    RemoveAllSuffix(c, TrainingMark);
    assert RemoveAll(key, TrainingMark) == c;
    TrimUnchanged(c);
    assert ClassNameOf(key) == Trim(c) == c;
  }

  /** When no class was chosen the prediction is "", and that counts as a success. */
  lemma EmptyPredictionSucceeds(testKey: string)
    ensures IsSuccess(testKey, "")
  {
  }

  /**
   * The rule compares by substring: a probe of class "AB" predicted as
   * class "A" is counted as correct.
   */
  lemma SubstringClassesAreConfused()
    ensures IsSuccess("AB_test", "A_training")
  {
    var c := "A";
    assert PlainClassName(c) by {
      forall i | 0 <= i < |c|
        ensures !(TrainingMark <= (c + TrainingMark)[i..])
      {
        assert (c + TrainingMark)[0] == 'A' != TrainingMark[0];
      }
    }
    MatchingKeysSucceed(c);
    assert "A" <= "AB_test"[0..];
  }

  /** Counts one classified probe as a success or as a failure. */
  method Record(keyInTestSet: string, closestClass: string, successes: nat, failures: nat)
    returns (successesAfter: nat, failuresAfter: nat)
    ensures successesAfter == successes + (if IsSuccess(keyInTestSet, closestClass) then 1 else 0)
    ensures successesAfter + failuresAfter == successes + failures + 1
  {
    if IsSuccess(keyInTestSet, closestClass) {
      successesAfter, failuresAfter := successes + 1, failures;
    } else {
      successesAfter, failuresAfter := successes, failures + 1;
    }
  }

  /** The number of successes among the predictions for the probes of one test set. */
  function Successes(testKey: string, predicted: seq<string>): (n: nat)
    ensures n <= |predicted|
  {
    if predicted == [] then 0
    else Successes(testKey, predicted[..|predicted| - 1]) + (if IsSuccess(testKey, predicted[|predicted| - 1]) then 1 else 0)
  }

  /** The number of successes over all test sets; `predicted[i]` belongs to `testKeys[i]`. */
  function AllSuccesses(testKeys: seq<string>, predicted: seq<seq<string>>): (n: nat)
    requires |testKeys| == |predicted|
    ensures n <= Count(predicted)
  {
    if predicted == [] then 0
    else
      AllSuccesses(testKeys[..|testKeys| - 1], predicted[..|predicted| - 1])
        + Successes(testKeys[|testKeys| - 1], predicted[|predicted| - 1])
  }

  /** Scoring one more test set adds its successes. */
  lemma AllSuccessesStep(testKeys: seq<string>, predicted: seq<seq<string>>, testKey: string, row: seq<string>)
    requires |testKeys| == |predicted|
    ensures AllSuccesses(testKeys + [testKey], predicted + [row]) == AllSuccesses(testKeys, predicted) + Successes(testKey, row)
  {
    var keys, rows := testKeys + [testKey], predicted + [row];
    assert keys[..|keys| - 1] == testKeys && keys[|keys| - 1] == testKey;
    assert rows[..|rows| - 1] == predicted && rows[|rows| - 1] == row;
  }

  /** Scoring one more test set adds its predictions. */
  lemma CountStep(predicted: seq<seq<string>>, row: seq<string>)
    ensures Count(predicted + [row]) == Count(predicted) + |row|
  {
    assert (predicted + [row])[..|predicted|] == predicted;
  }

  /** The number of predictions, i.e. of test probes. */
  function Count(predicted: seq<seq<string>>): nat {
    if predicted == [] then 0 else Count(predicted[..|predicted| - 1]) + |predicted[|predicted| - 1]|
  }

  /**
   * The accuracy `successes / (successes + failures) * 100`; with no test
   * probe at all Java divides 0 by 0 and returns NaN.
   */
  function Accuracy(successes: nat, failures: nat): (r: Result<real>)
    ensures r.Err? <==> successes + failures == 0
    ensures r.Err? ==> r.error == NoTestProbes
    ensures r.Ok? ==> 0.0 <= r.value <= 100.0
  {
    if successes + failures == 0 then Err(NoTestProbes)
    else Ok((successes as real) / ((failures + successes) as real) * 100.0)
  }

  /**
   * The accuracy is the share of successes among all probes, in percent:
   * it is 100 exactly when nothing failed and 0 exactly when nothing succeeded.
   */
  lemma AccuracyIsShare(successes: nat, failures: nat)
    requires successes + failures > 0
    ensures Accuracy(successes, failures).value * ((successes + failures) as real) == 100.0 * (successes as real)
    ensures Accuracy(successes, failures).value == 100.0 <==> failures == 0
    ensures Accuracy(successes, failures).value == 0.0 <==> successes == 0
  {
  }
}
