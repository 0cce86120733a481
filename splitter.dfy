/**
 * The three ways the toolkit divides probes into training and test sets
 * (src/probesUtilities/ProbesPerTrainingAndTestSetSplitter.java): holdout,
 * k-fold cross-validation and bootstrap, with the class of a probe given by
 * its index and the per-class counts.
 *
 * Every random choice is an input: the values `Random.nextInt(n)` returns
 * are a sequence of draws below `n`, and `Collections.shuffle` is a
 * permutation of the probe indexes.
 */
module Splitter {
  import opened Outcomes
  import opened Matrices
  import opened Scoring

  // ---------------------------------------------------------------------
  // Holdout (`simpleValidationProbeSplitter`)
  // ---------------------------------------------------------------------

  /** `Math.round`: the nearest integer, halves rounded up. */
  function Round(x: real): (r: int)
    ensures (r as real) - 0.5 <= x < (r as real) + 0.5
  {
    (x + 0.5).Floor
  }

  /** How many probes of a class of `probeCount` go to the test set. */
  function TestCount(probeCount: nat, percentageDistribution: real): int {
    Round(probeCount as real * (1.0 - percentageDistribution))
  }

  /** A training share between 0 and 1 asks for between 0 and all of the probes. */
  lemma TestCountInRange(probeCount: nat, percentageDistribution: real)
    requires 0.0 <= percentageDistribution <= 1.0
    ensures 0 <= TestCount(probeCount, percentageDistribution) <= probeCount
  {
    var x := probeCount as real * (1.0 - percentageDistribution);
    assert 0.0 <= x <= probeCount as real;
  }

  /**
   * The `while` loop that adds random indexes to a set until it holds
   * `count` of them; the model runs out of draws instead of looping on.
   */
  function Collect(draws: seq<nat>, count: nat, chosen: set<nat>): (r: Result<set<nat>>)
    ensures r.Err? ==> r.error == OutOfFuel
    decreases |draws|
  {
    if |chosen| >= count then Ok(chosen)
    else if draws == [] then Err(OutOfFuel)
    else Collect(draws[1..], count, chosen + {draws[0]})
  }

  /**
   * The test indexes of one class: none when no probe is wanted, and a loop
   * that never ends when more distinct indexes are wanted than exist.
   */
  function TestIndexes(probeCount: nat, count: int, draws: seq<nat>): Result<set<nat>> {
    if count > probeCount then Err(Diverges)
    else if count <= 0 then Ok({})
    else Collect(draws, count, {})
  }

  lemma {:induction false} CollectChoosesDrawn(draws: seq<nat>, count: nat, chosen: set<nat>)
    requires |chosen| <= count
    ensures var r := Collect(draws, count, chosen);
      r.Ok? ==> |r.value| == count && chosen <= r.value && forall i | i in r.value :: i in chosen || i in draws
  {
    if |chosen| < count && draws != [] {
      var next := chosen + {draws[0]};
      assert |next| <= |chosen| + 1;
      CollectChoosesDrawn(draws[1..], count, next);
      var r := Collect(draws[1..], count, next);
      if r.Ok? {
        forall i | i in r.value
          ensures i in chosen || i in draws
        {
          if i !in next {
            assert i in draws[1..];
          }
        }
      }
    }
  }

  /** The chosen set holds exactly `count` distinct indexes of probes of the class. */
  lemma TestIndexesAreDistinctProbes(probeCount: nat, count: int, draws: seq<nat>)
    requires forall i | 0 <= i < |draws| :: draws[i] < probeCount
    ensures var r := TestIndexes(probeCount, count, draws);
      r.Ok? ==> (|r.value| == if count < 0 then 0 else count) && forall i | i in r.value :: i < probeCount
    ensures TestIndexes(probeCount, count, draws) == Err(Diverges) <==> count > probeCount
  {
    if 0 < count <= probeCount {
      CollectChoosesDrawn(draws, count, {});
    }
  }

  /** The drawing loop of the holdout split, consuming `draws` in order. */
  method ChooseTestIndexes(probeCount: nat, count: int, draws: seq<nat>) returns (chosen: Result<set<nat>>)
    ensures chosen == TestIndexes(probeCount, count, draws)
  {
    if count > probeCount {
      return Err(Diverges);
    }
    var indexesOfTestProbes: set<nat> := {};
    var i := 0;
    while |indexesOfTestProbes| < count
      invariant i <= |draws|
      invariant count <= 0 ==> indexesOfTestProbes == {}
      invariant TestIndexes(probeCount, count, draws) == if count <= 0 then Ok({}) else Collect(draws[i..], count, indexesOfTestProbes)
      decreases |draws| - i
    {
      if i == |draws| {
        return Err(OutOfFuel);
      }
      assert draws[i..][1..] == draws[i + 1..];
      indexesOfTestProbes := indexesOfTestProbes + {draws[i]};
      i := i + 1;
    }
    return Ok(indexesOfTestProbes);
  }

  /** The probe indexes below `n` that are in `chosen` (`inTest`) or not, ascending. */
  function Positions(n: nat, chosen: set<nat>, inTest: bool): (ps: seq<nat>)
    ensures forall j | 0 <= j < |ps| :: ps[j] < n
  {
    if n == 0 then []
    else Positions(n - 1, chosen, inTest) + (if (n - 1 in chosen) == inTest then [n - 1] else [])
  }

  /** The indexes of `chosen` below `n`. */
  function Below(chosen: set<nat>, n: nat): set<nat> {
    set i | i in chosen && i < n
  }

  /** The two sides hold `n` probes together, the test side one per chosen index. */
  lemma {:induction false} PositionsCount(n: nat, chosen: set<nat>)
    ensures |Positions(n, chosen, true)| + |Positions(n, chosen, false)| == n
    ensures |Positions(n, chosen, true)| == |Below(chosen, n)|
  {
    if n > 0 {
      var m := n - 1;
      PositionsCount(m, chosen);
      if m in chosen {
        assert Below(chosen, n) == Below(chosen, m) + {m};
      } else {
        assert Below(chosen, n) == Below(chosen, m);
      }
    }
  }

  /** A probe below `n` is on the test side iff its index was chosen, and on the training side otherwise. */
  lemma {:induction false} PositionsMembers(n: nat, chosen: set<nat>, inTest: bool)
    ensures forall p: nat :: p in Positions(n, chosen, inTest) <==> p < n && (p in chosen) == inTest
  {
    if n > 0 {
      var m := n - 1;
      PositionsMembers(m, chosen, inTest);
    }
  }

  /** Each side keeps the probes in their original order. */
  lemma {:induction false} PositionsAscending(n: nat, chosen: set<nat>, inTest: bool)
    ensures forall j, k | 0 <= j < k < |Positions(n, chosen, inTest)| ::
      Positions(n, chosen, inTest)[j] < Positions(n, chosen, inTest)[k]
  {
    if n > 0 {
      var m := n - 1;
      PositionsAscending(m, chosen, inTest);
    }
  }

  /** A prefix of the probes has no more positions on a side than all of them. */
  lemma {:induction false} PositionsGrow(k: nat, n: nat, chosen: set<nat>, inTest: bool)
    requires k <= n
    ensures |Positions(k, chosen, inTest)| <= |Positions(n, chosen, inTest)|
  {
    if k < n {
      var m := n - 1;
      PositionsGrow(k, m, chosen, inTest);
    }
  }

  /** The columns of `m` at `positions`, in that order. */
  function SelectColumns(m: Matrix, positions: seq<nat>): (s: Matrix)
    ensures IsMatrix(s, |m|, |positions|)
    ensures forall a, j | 0 <= a < |m| && 0 <= j < |positions| && positions[j] < |m[a]| :: s[a][j] == m[a][positions[j]]
  {
    seq(|m|, a requires 0 <= a < |m| =>
      seq(|positions|, j requires 0 <= j < |positions| => if positions[j] < |m[a]| then m[a][positions[j]] else 0.0))
  }

  /** The attribute loop that copies probe `p` of `source` into column `j` of `target`. */
  method CopyProbe(source: Matrix, p: nat, target: array2<real>, j: nat)
    requires target.Length0 == |source| && j < target.Length1
    requires forall a | 0 <= a < |source| :: p < |source[a]|
    modifies target
    ensures forall a, k | 0 <= a < target.Length0 && 0 <= k < target.Length1 ::
      target[a, k] == if k == j then source[a][p] else old(target[a, k])
  {
    for attributeIndex := 0 to |source|
      invariant forall a, k | 0 <= a < target.Length0 && 0 <= k < target.Length1 ::
        target[a, k] == if k == j && a < attributeIndex then source[a][p] else old(target[a, k])
    {
      target[attributeIndex, j] := source[attributeIndex][p];
    }
  }

  /**
   * The copying loop of the holdout split: every probe goes, in order, to
   * the next free column of the test set if its index was chosen and of the
   * training set otherwise.
   */
  method SplitColumns(probes: Matrix, chosen: set<nat>, count: nat) returns (testSet: Matrix, trainingSet: Matrix)
    requires |probes| > 0 && ProbeMatrix(probes)
    requires |chosen| == count && forall i | i in chosen :: i < |probes[0]|
    ensures testSet == SelectColumns(probes, Positions(|probes[0]|, chosen, true))
    ensures trainingSet == SelectColumns(probes, Positions(|probes[0]|, chosen, false))
  {
    var n := |probes[0]|;
    PositionsCount(n, chosen);
    assert Below(chosen, n) == chosen;
    var test := new real[|probes|, count]((_, _) => 0.0);
    var training := new real[|probes|, n - count]((_, _) => 0.0);
    FillSides(probes, chosen, test, training);
    EntriesAreColumns(test, probes, Positions(n, chosen, true));
    EntriesAreColumns(training, probes, Positions(n, chosen, false));
    testSet := Entries(test);
    trainingSet := Entries(training);
  }

  /** The loop over the probes that copies each to the next free column of its side. */
  method FillSides(probes: Matrix, chosen: set<nat>, test: array2<real>, training: array2<real>)
    requires |probes| > 0 && ProbeMatrix(probes) && test != training
    requires test.Length0 == training.Length0 == |probes|
    requires test.Length1 == |Positions(|probes[0]|, chosen, true)| && training.Length1 == |Positions(|probes[0]|, chosen, false)|
    modifies test, training
    ensures forall a, j | 0 <= a < |probes| && 0 <= j < test.Length1 :: test[a, j] == probes[a][Positions(|probes[0]|, chosen, true)[j]]
    ensures forall a, j | 0 <= a < |probes| && 0 <= j < training.Length1 :: training[a, j] == probes[a][Positions(|probes[0]|, chosen, false)[j]]
  {
    var n := |probes[0]|;
    var testSetIndex, trainingSetIndex := 0, 0;
    // the probes copied so far to each side
    ghost var inTestSide: seq<nat>, inTrainingSide: seq<nat> := [], [];
    for probeIndex := 0 to n
      invariant inTestSide == Positions(probeIndex, chosen, true) && inTrainingSide == Positions(probeIndex, chosen, false)
      invariant testSetIndex == |inTestSide| <= test.Length1 && trainingSetIndex == |inTrainingSide| <= training.Length1
      invariant forall a, j | 0 <= a < |probes| && 0 <= j < testSetIndex :: test[a, j] == probes[a][inTestSide[j]]
      invariant forall a, j | 0 <= a < |probes| && 0 <= j < trainingSetIndex :: training[a, j] == probes[a][inTrainingSide[j]]
    {
      PositionsGrow(probeIndex + 1, n, chosen, true);
      PositionsGrow(probeIndex + 1, n, chosen, false);
      if probeIndex in chosen {
        CopyProbe(probes, probeIndex, test, testSetIndex);
        testSetIndex := testSetIndex + 1;
        inTestSide := inTestSide + [probeIndex];
      } else {
        CopyProbe(probes, probeIndex, training, trainingSetIndex);
        trainingSetIndex := trainingSetIndex + 1;
        inTrainingSide := inTrainingSide + [probeIndex];
      }
    }
  }

  /** A buffer whose column `j` is probe `positions[j]` reads as the selected columns. */
  lemma EntriesAreColumns(buffer: array2<real>, probes: Matrix, positions: seq<nat>)
    requires buffer.Length0 == |probes| && buffer.Length1 == |positions|
    requires forall a | 0 <= a < |probes| :: forall j | 0 <= j < |positions| :: positions[j] < |probes[a]|
    requires forall a, j | 0 <= a < |probes| && 0 <= j < |positions| :: buffer[a, j] == probes[a][positions[j]]
    ensures Entries(buffer) == SelectColumns(probes, positions)
  {
    var m, s := Entries(buffer), SelectColumns(probes, positions);
    forall a | 0 <= a < |probes|
      ensures m[a] == s[a]
    {
    }
  }

  /** The draws below `|probes[0]|` that `Random.nextInt` can give for a class. */
  predicate DrawsFit(probes: Matrix, draws: seq<nat>) {
    probes != [] ==> forall i | 0 <= i < |draws| :: draws[i] < |probes[0]|
  }

  /**
   * The holdout split of one class: the test and the training matrix, or
   * why the source gets neither.
   */
  function HoldoutClass(probes: Matrix, percentageDistribution: real, draws: seq<nat>): Result<(Matrix, Matrix)>
    requires ProbeMatrix(probes) && DrawsFit(probes, draws)
  {
    if probes == [] then Err(IndexOutOfBounds)
    else
      var n := |probes[0]|;
      var count := TestCount(n, percentageDistribution);
      var chosen := TestIndexes(n, count, draws);
      if chosen.Err? then Err(chosen.error)
      else if count < 0 then Err(NegativeArraySize)
      else
        TestIndexesAreDistinctProbes(n, count, draws);
        Ok((SelectColumns(probes, Positions(n, chosen.value, true)), SelectColumns(probes, Positions(n, chosen.value, false))))
  }

  /**
   * For a training share between 0 and 1 the split fails only for a class
   * without attribute rows or when the draws run out; otherwise the test
   * matrix holds the `count` drawn probes and the training matrix the other
   * ones (which ones, and in what order, `PositionsMembers` and
   * `PositionsAscending` state).
   */
  lemma HoldoutClassSplitsProbes(probes: Matrix, percentageDistribution: real, draws: seq<nat>)
    requires ProbeMatrix(probes) && DrawsFit(probes, draws)
    requires 0.0 <= percentageDistribution <= 1.0
    ensures probes == [] <==> HoldoutClass(probes, percentageDistribution, draws) == Err(IndexOutOfBounds)
    ensures HoldoutClass(probes, percentageDistribution, draws).Err? ==>
      HoldoutClass(probes, percentageDistribution, draws).error in {IndexOutOfBounds, OutOfFuel}
    ensures HoldoutClass(probes, percentageDistribution, draws).Ok? ==>
      var n := |probes[0]|;
      var count := TestCount(n, percentageDistribution);
      var chosen := TestIndexes(n, count, draws).value;
      var split := HoldoutClass(probes, percentageDistribution, draws).value;
      && |chosen| == count && (forall i | i in chosen :: i < n)
      && split.0 == SelectColumns(probes, Positions(n, chosen, true))
      && split.1 == SelectColumns(probes, Positions(n, chosen, false))
      && IsMatrix(split.0, |probes|, count) && IsMatrix(split.1, |probes|, n - count)
  {
    if probes != [] {
      var n := |probes[0]|;
      var count := TestCount(n, percentageDistribution);
      TestCountInRange(n, percentageDistribution);
      TestIndexesAreDistinctProbes(n, count, draws);
      var chosen := TestIndexes(n, count, draws);
      if chosen.Ok? {
        PositionsCount(n, chosen.value);
        assert Below(chosen.value, n) == chosen.value;
      }
    }
  }

  /** The holdout split of the classes from `c` on, each followed by the rest. */
  function HoldoutFrom(classes: Table<Matrix>, percentageDistribution: real, draws: seq<seq<nat>>, c: nat): Result<Table<Matrix>>
    requires c <= |classes| == |draws|
    requires forall i | 0 <= i < |classes| :: ProbeMatrix(classes[i].1) && DrawsFit(classes[i].1, draws[i])
    decreases |classes| - c
  {
    if c == |classes| then Ok([])
    else
      var split := HoldoutClass(classes[c].1, percentageDistribution, draws[c]);
      var rest := HoldoutFrom(classes, percentageDistribution, draws, c + 1);
      if split.Err? then Err(split.error)
      else if rest.Err? then rest
      else Ok([(classes[c].0 + TestMark, split.value.0), (classes[c].0 + TrainingMark, split.value.1)] + rest.value)
  }

  /**
   * `simpleValidationProbeSplitter`: a list holding one map, with the test
   * and the training set of every class in the classes' order.
   */
  function Holdout(classes: Table<Matrix>, percentageDistribution: real, draws: seq<seq<nat>>): Result<seq<Table<Matrix>>>
    requires |classes| == |draws|
    requires forall i | 0 <= i < |classes| :: ProbeMatrix(classes[i].1) && DrawsFit(classes[i].1, draws[i])
  {
    var split := HoldoutFrom(classes, percentageDistribution, draws, 0);
    if split.Err? then Err(split.error) else Ok([split.value])
  }

  /**
   * Every class K yields exactly the keys K + "_test" and K + "_training",
   * in that order, holding that class's holdout split.
   */
  lemma {:induction false} HoldoutKeys(classes: Table<Matrix>, percentageDistribution: real, draws: seq<seq<nat>>, c: nat)
    requires c <= |classes| == |draws|
    requires forall i | 0 <= i < |classes| :: ProbeMatrix(classes[i].1) && DrawsFit(classes[i].1, draws[i])
    ensures var r := HoldoutFrom(classes, percentageDistribution, draws, c);
      r.Ok? ==> |r.value| == 2 * (|classes| - c) && forall i | c <= i < |classes| ::
        var split := HoldoutClass(classes[i].1, percentageDistribution, draws[i]);
        && split.Ok?
        && r.value[2 * (i - c)] == (classes[i].0 + TestMark, split.value.0)
        && r.value[2 * (i - c) + 1] == (classes[i].0 + TrainingMark, split.value.1)
    decreases |classes| - c
  {
    if c < |classes| {
      HoldoutKeys(classes, percentageDistribution, draws, c + 1);
      var r := HoldoutFrom(classes, percentageDistribution, draws, c);
      var rest := HoldoutFrom(classes, percentageDistribution, draws, c + 1);
      if r.Ok? {
        var split := HoldoutClass(classes[c].1, percentageDistribution, draws[c]);
        var two := [(classes[c].0 + TestMark, split.value.0), (classes[c].0 + TrainingMark, split.value.1)];
        assert r.value == two + rest.value;
        forall j | 2 <= j < |r.value|
          ensures r.value[j] == rest.value[j - 2]
        {
        }
      }
    }
  }

  /** The split fails iff the split of some class fails. */
  lemma {:induction false} HoldoutFails(classes: Table<Matrix>, percentageDistribution: real, draws: seq<seq<nat>>, c: nat)
    requires c <= |classes| == |draws|
    requires forall i | 0 <= i < |classes| :: ProbeMatrix(classes[i].1) && DrawsFit(classes[i].1, draws[i])
    ensures HoldoutFrom(classes, percentageDistribution, draws, c).Err? <==>
      exists i | c <= i < |classes| :: HoldoutClass(classes[i].1, percentageDistribution, draws[i]).Err?
    decreases |classes| - c
  {
    if c < |classes| {
      HoldoutFails(classes, percentageDistribution, draws, c + 1);
      if HoldoutClass(classes[c].1, percentageDistribution, draws[c]).Err? {
        assert HoldoutFrom(classes, percentageDistribution, draws, c).Err?;
      } else {
        assert HoldoutFrom(classes, percentageDistribution, draws, c).Err? == HoldoutFrom(classes, percentageDistribution, draws, c + 1).Err?;
      }
    }
  }

  /** One class of the holdout split: the drawing loop, then the copying loop. */
  method SplitClass(probes: Matrix, percentageDistribution: real, draws: seq<nat>) returns (split: Result<(Matrix, Matrix)>)
    requires ProbeMatrix(probes) && DrawsFit(probes, draws)
    ensures split == HoldoutClass(probes, percentageDistribution, draws)
  {
    if probes == [] {
      return Err(IndexOutOfBounds);
    }
    var n := |probes[0]|;
    var countOfProbesForTestSet := TestCount(n, percentageDistribution);
    var chosen := ChooseTestIndexes(n, countOfProbesForTestSet, draws);
    if chosen.Err? {
      return Err(chosen.error);
    }
    if countOfProbesForTestSet < 0 {
      return Err(NegativeArraySize);
    }
    TestIndexesAreDistinctProbes(n, countOfProbesForTestSet, draws);
    var testSet, trainingSet := SplitColumns(probes, chosen.value, countOfProbesForTestSet);
    return Ok((testSet, trainingSet));
  }

  /** The entries `done` followed by those of `rest`, or the failure of `rest`. */
  function Prepend(done: Table<Matrix>, rest: Result<Table<Matrix>>): Result<Table<Matrix>> {
    if rest.Err? then rest else Ok(done + rest.value)
  }

  /** Putting the sets of class `c` moves them from the outcome still to come to those already put. */
  lemma HoldoutStep(classes: Table<Matrix>, percentageDistribution: real, draws: seq<seq<nat>>, c: nat, done: Table<Matrix>, split: (Matrix, Matrix))
    requires c < |classes| == |draws|
    requires forall i | 0 <= i < |classes| :: ProbeMatrix(classes[i].1) && DrawsFit(classes[i].1, draws[i])
    requires HoldoutFrom(classes, percentageDistribution, draws, 0) == Prepend(done, HoldoutFrom(classes, percentageDistribution, draws, c))
    requires HoldoutClass(classes[c].1, percentageDistribution, draws[c]) == Ok(split)
    ensures HoldoutFrom(classes, percentageDistribution, draws, 0) ==
      Prepend(done + [(classes[c].0 + TestMark, split.0), (classes[c].0 + TrainingMark, split.1)], HoldoutFrom(classes, percentageDistribution, draws, c + 1))
  {
    var rest := HoldoutFrom(classes, percentageDistribution, draws, c + 1);
    if rest.Ok? {
      var two := [(classes[c].0 + TestMark, split.0), (classes[c].0 + TrainingMark, split.1)];
      assert done + (two + rest.value) == (done + two) + rest.value;
    }
  }

  /** `simpleValidationProbeSplitter`: the loop over the classes, putting each class's two sets. */
  method SimpleValidationSplit(classes: Table<Matrix>, percentageDistribution: real, draws: seq<seq<nat>>)
    returns (splits: Result<seq<Table<Matrix>>>)
    requires |classes| == |draws|
    requires forall i | 0 <= i < |classes| :: ProbeMatrix(classes[i].1) && DrawsFit(classes[i].1, draws[i])
    ensures splits == Holdout(classes, percentageDistribution, draws)
  {
    var mapWithSplittedProbes: Table<Matrix> := [];
    ghost var whole := HoldoutFrom(classes, percentageDistribution, draws, 0);
    if whole.Ok? {
      assert [] + whole.value == whole.value;
    }
    for c := 0 to |classes|
      invariant HoldoutFrom(classes, percentageDistribution, draws, 0) == Prepend(mapWithSplittedProbes, HoldoutFrom(classes, percentageDistribution, draws, c))
    {
      var split := SplitClass(classes[c].1, percentageDistribution, draws[c]);
      if split.Err? {
        return Err(split.error);
      }
      HoldoutStep(classes, percentageDistribution, draws, c, mapWithSplittedProbes, split.value);
      mapWithSplittedProbes := mapWithSplittedProbes + [(classes[c].0 + TestMark, split.value.0), (classes[c].0 + TrainingMark, split.value.1)];
    }
    assert mapWithSplittedProbes + [] == mapWithSplittedProbes;
    return Ok([mapWithSplittedProbes]);
  }

  // ---------------------------------------------------------------------
  // Class of a probe and per-class counts
  // ---------------------------------------------------------------------

  /**
   * `getClassIndex`: the data holds the probes of the first class before
   * all others, so a probe is of class 0 iff its index is below the first
   * class's count, and of class 1 otherwise.
   */
  function ClassIndex(probeIndex: int, countOfSamplesPerClass: seq<int>): (r: Result<nat>)
    ensures r.Ok? <==> countOfSamplesPerClass != []
    ensures r.Ok? ==> r.value <= 1 && (r.value == 0 <==> probeIndex < countOfSamplesPerClass[0])
  {
    if countOfSamplesPerClass == [] then Err(IndexOutOfBounds)
    else if probeIndex < countOfSamplesPerClass[0] then Ok(0)
    else Ok(1)
  }

  /** Every index has a class that is below `classCount`. */
  predicate Classifiable(indexes: seq<nat>, countOfSamplesPerClass: seq<int>, classCount: nat) {
    forall i | 0 <= i < |indexes| :: ClassIndex(indexes[i], countOfSamplesPerClass).Ok? && ClassIndex(indexes[i], countOfSamplesPerClass).value < classCount
  }

  /** The entries of `indexes` of class `k`, in order. */
  function OfClass(indexes: seq<nat>, countOfSamplesPerClass: seq<int>, k: nat): seq<nat> {
    if indexes == [] then []
    else
      var last := indexes[|indexes| - 1];
      OfClass(indexes[..|indexes| - 1], countOfSamplesPerClass, k) + (if ClassIndex(last, countOfSamplesPerClass) == Ok(k) then [last] else [])
  }

  /** The sum of per-class counts. */
  function Total(counts: seq<nat>): nat {
    if counts == [] then 0 else counts[0] + Total(counts[1..])
  }

  /**
   * The loop of `getCountOfProbesInSetForClasses` over the indexes read so
   * far: one counter per entry of `countOfSamplesPerClass`, the counter of
   * each index's class incremented.
   */
  function Tally(indexes: seq<nat>, countOfSamplesPerClass: seq<int>): (r: Result<seq<nat>>)
    ensures r.Ok? ==> |r.value| == |countOfSamplesPerClass|
  {
    if indexes == [] then Ok(seq(|countOfSamplesPerClass|, _ => 0))
    else
      var prev := Tally(indexes[..|indexes| - 1], countOfSamplesPerClass);
      var classIndex := ClassIndex(indexes[|indexes| - 1], countOfSamplesPerClass);
      if prev.Err? then prev
      else if classIndex.Err? then Err(classIndex.error)
      else if classIndex.value >= |prev.value| then Err(IndexOutOfBounds)
      else Ok(prev.value[classIndex.value := prev.value[classIndex.value] + 1])
  }

  /**
   * The counting succeeds iff every index has a counter, and then counter
   * `k` is the number of indexes of class `k`.
   */
  lemma {:induction false} TallyCountsClasses(indexes: seq<nat>, countOfSamplesPerClass: seq<int>)
    ensures Tally(indexes, countOfSamplesPerClass).Ok? <==> Classifiable(indexes, countOfSamplesPerClass, |countOfSamplesPerClass|)
    ensures Tally(indexes, countOfSamplesPerClass).Ok? ==> forall k | 0 <= k < |countOfSamplesPerClass| ::
      Tally(indexes, countOfSamplesPerClass).value[k] == |OfClass(indexes, countOfSamplesPerClass, k)|
  {
    if indexes != [] {
      var front := indexes[..|indexes| - 1];
      TallyCountsClasses(front, countOfSamplesPerClass);
      assert forall i | 0 <= i < |front| :: front[i] == indexes[i];
    }
  }

  /** Adding one to one counter adds one to the total. */
  lemma {:induction false} TotalIncrement(counts: seq<nat>, k: nat)
    requires k < |counts|
    ensures Total(counts[k := counts[k] + 1]) == Total(counts) + 1
  {
    if k == 0 {
      assert counts[k := counts[k] + 1][1..] == counts[1..];
    } else {
      TotalIncrement(counts[1..], k - 1);
      assert counts[k := counts[k] + 1][1..] == counts[1..][k - 1 := counts[k] + 1];
    }
  }

  lemma {:induction false} TotalZeros(n: nat)
    ensures Total(seq(n, _ => 0)) == 0
  {
    if n > 0 {
      assert seq(n, _ => 0)[1..] == seq(n - 1, _ => 0);
      TotalZeros(n - 1);
    }
  }

  /** The per-class counts add up to the number of indexes. */
  lemma {:induction false} TallyTotal(indexes: seq<nat>, countOfSamplesPerClass: seq<int>)
    ensures Tally(indexes, countOfSamplesPerClass).Ok? ==> Total(Tally(indexes, countOfSamplesPerClass).value) == |indexes|
  {
    if indexes == [] {
      TotalZeros(|countOfSamplesPerClass|);
    } else {
      var front := indexes[..|indexes| - 1];
      TallyTotal(front, countOfSamplesPerClass);
      var prev := Tally(front, countOfSamplesPerClass);
      var classIndex := ClassIndex(indexes[|indexes| - 1], countOfSamplesPerClass);
      if prev.Ok? && classIndex.Ok? && classIndex.value < |prev.value| {
        TotalIncrement(prev.value, classIndex.value);
      }
    }
  }

  /** A failure while counting a prefix is the failure of the whole count. */
  lemma {:induction false} TallyFailsFrom(indexes: seq<nat>, countOfSamplesPerClass: seq<int>, i: nat)
    requires i <= |indexes| && Tally(indexes[..i], countOfSamplesPerClass).Err?
    ensures Tally(indexes, countOfSamplesPerClass) == Tally(indexes[..i], countOfSamplesPerClass)
    decreases |indexes| - i
  {
    if i < |indexes| {
      var j := i + 1;
      assert indexes[..j][..i] == indexes[..i];
      TallyFailsFrom(indexes, countOfSamplesPerClass, j);
    } else {
      assert indexes[..i] == indexes;
    }
  }

  /** `getCountOfProbesInSetForClasses`: the counting loop over an array of counters. */
  method CountOfProbesInSetForClasses(probesIndexes: seq<nat>, countOfSamplesPerClass: seq<int>) returns (counts: Result<seq<nat>>)
    ensures counts == Tally(probesIndexes, countOfSamplesPerClass)
  {
    var countOfTestProbesInEachClass := new nat[|countOfSamplesPerClass|](_ => 0);
    assert probesIndexes[..0] == [];
    assert countOfTestProbesInEachClass[..] == seq(|countOfSamplesPerClass|, _ => 0);
    for i := 0 to |probesIndexes|
      invariant Tally(probesIndexes[..i], countOfSamplesPerClass) == Ok(countOfTestProbesInEachClass[..])
    {
      var prefix := probesIndexes[..i + 1];
      assert prefix[..i] == probesIndexes[..i];
      var classIndex := ClassIndex(probesIndexes[i], countOfSamplesPerClass);
      if classIndex.Err? || classIndex.value >= countOfTestProbesInEachClass.Length {
        TallyFailsFrom(probesIndexes, countOfSamplesPerClass, i + 1);
        return Tally(prefix, countOfSamplesPerClass);
      }
      countOfTestProbesInEachClass[classIndex.value] := countOfTestProbesInEachClass[classIndex.value] + 1;
    }
    assert probesIndexes[..|probesIndexes|] == probesIndexes;
    return Ok(countOfTestProbesInEachClass[..]);
  }

  // ---------------------------------------------------------------------
  // Distributing probes to the per-class sets (cross-validation, bootstrap)
  // ---------------------------------------------------------------------

  /**
   * The probe indexes the distributing loop puts into class `k`'s test set
   * (`toTest`) or training set, in the order it visits the pairs `placed`
   * of probe index and "goes to a test set".
   */
  function SlotIndexes(placed: seq<(nat, bool)>, countOfSamplesPerClass: seq<int>, k: nat, toTest: bool): seq<nat> {
    if placed == [] then []
    else
      var last := placed[|placed| - 1];
      SlotIndexes(placed[..|placed| - 1], countOfSamplesPerClass, k, toTest)
        + (if last.1 == toTest && ClassIndex(last.0, countOfSamplesPerClass) == Ok(k) then [last.0] else [])
  }

  /** The probe indexes the loop visits, in order. */
  function Visited(placed: seq<(nat, bool)>): (v: seq<nat>)
    ensures |v| == |placed| && forall i | 0 <= i < |placed| :: v[i] == placed[i].0
  {
    seq(|placed|, i requires 0 <= i < |placed| => placed[i].0)
  }

  /** The loop visits `indexes` in order, sending all of them to the same side. */
  function Uniform(indexes: seq<nat>, toTest: bool): (placed: seq<(nat, bool)>)
    ensures |placed| == |indexes| && forall j | 0 <= j < |indexes| :: placed[j] == (indexes[j], toTest)
  {
    seq(|indexes|, j requires 0 <= j < |indexes| => (indexes[j], toTest))
  }

  /**
   * A set allocated with `rows` probes after the loop put the probes `slot`
   * into its first rows and Jama transposed it: the remaining columns stay
   * zero. Too small an array, and Jama's `Matrix` of an array without rows,
   * throw an index error.
   */
  function Padded(probes: Matrix, slot: seq<nat>, rows: nat): (r: Result<Matrix>)
    ensures r.Ok? <==> |slot| <= rows && rows > 0
    ensures r.Ok? ==> IsMatrix(r.value, |probes|, rows) && forall a | 0 <= a < |probes| ::
      r.value[a][..|slot|] == SelectColumns(probes, slot)[a] && forall j | |slot| <= j < rows :: r.value[a][j] == 0.0
  {
    if rows < |slot| || rows == 0 then Err(IndexOutOfBounds)
    else
      var selected := SelectColumns(probes, slot);
      Ok(seq(|probes|, a requires 0 <= a < |probes| => Pad(selected[a], rows)))
  }

  /** `v` lengthened with zeros to `n` entries. */
  function Pad(v: Vector, n: nat): (r: Vector)
    requires |v| <= n
    ensures |r| == n && r[..|v|] == v && forall j | |v| <= j < n :: r[j] == 0.0
  {
    v + Zeros(n - |v|)
  }

  /**
   * The sets of the classes from `k` on, each class's training set before
   * its test set; `allocation[k]` holds the two sizes the source allocated.
   */
  function SlotsFrom(probes: Matrix, placed: seq<(nat, bool)>, classNames: seq<string>, countOfSamplesPerClass: seq<int>,
                     allocation: seq<(nat, nat)>, k: nat): Result<Table<Matrix>>
    requires ProbeMatrix(probes)
    requires |allocation| == |classNames| && k <= |classNames|
    decreases |classNames| - k
  {
    if k == |classNames| then Ok([])
    else
      var training := Padded(probes, SlotIndexes(placed, countOfSamplesPerClass, k, false), allocation[k].0);
      var test := Padded(probes, SlotIndexes(placed, countOfSamplesPerClass, k, true), allocation[k].1);
      var rest := SlotsFrom(probes, placed, classNames, countOfSamplesPerClass, allocation, k + 1);
      if training.Err? then Err(training.error)
      else if test.Err? then Err(test.error)
      else if rest.Err? then rest
      else Ok([(classNames[k] + TrainingMark, training.value), (classNames[k] + TestMark, test.value)] + rest.value)
  }

  /**
   * The loop that puts every visited probe into the next free row of its
   * class's set, then the transposition of every set. A probe whose class
   * has no name throws.
   */
  function Distribute(probes: Matrix, placed: seq<(nat, bool)>, classNames: seq<string>, countOfSamplesPerClass: seq<int>,
                      allocation: seq<(nat, nat)>): Result<Table<Matrix>>
    requires ProbeMatrix(probes) && |allocation| == |classNames|
  {
    if !Classifiable(Visited(placed), countOfSamplesPerClass, |classNames|) then Err(IndexOutOfBounds)
    else SlotsFrom(probes, placed, classNames, countOfSamplesPerClass, allocation, 0)
  }

  // ---------------------------------------------------------------------
  // Cross-validation (`crossValidationProbeSplitter`)
  // ---------------------------------------------------------------------

  /** The list 0, 1, ..., n - 1 that `IntStream.rangeClosed(0, n - 1)` collects. */
  function Iota(n: nat): (r: seq<nat>)
    ensures |r| == n && forall j | 0 <= j < n :: r[j] == j
  {
    if n == 0 then [] else Iota(n - 1) + [n - 1]
  }

  /** What `Collections.shuffle` makes of `Iota(n)`: the same indexes, in some order. */
  predicate IsPermutation(perm: seq<nat>, n: nat) {
    multiset(perm) == multiset(Iota(n))
  }

  lemma {:induction false} IotaOnce(n: nat, x: nat)
    ensures multiset(Iota(n))[x] == if x < n then 1 else 0
  {
    if n > 0 {
      var m := n - 1;
      IotaOnce(m, x);
      assert Iota(n) == Iota(m) + [m];
    }
  }

  /** A permutation of `Iota(n)` lists every index below `n` exactly once. */
  lemma PermutationFacts(perm: seq<nat>, n: nat)
    requires IsPermutation(perm, n)
    ensures |perm| == n
    ensures forall j | 0 <= j < |perm| :: perm[j] < n
    ensures forall x | 0 <= x < n :: x in perm
    ensures Distinct(perm)
  {
    assert |perm| == |multiset(perm)| == |multiset(Iota(n))| == n;
    forall j | 0 <= j < |perm|
      ensures perm[j] < n
    {
      var x := perm[j];
      assert x in multiset(perm);
      IotaOnce(n, x);
    }
    forall x | 0 <= x < n
      ensures x in perm
    {
      assert Iota(n)[x] == x;
      assert x in multiset(Iota(n));
    }
    forall i, j | 0 <= i < j < |perm|
      ensures perm[i] != perm[j]
    {
      if perm[i] == perm[j] {
        var x := perm[i];
        assert perm == perm[..j] + perm[j..];
        assert perm[..j][i] == x && perm[j..][0] == x;
        assert multiset(perm) == multiset(perm[..j]) + multiset(perm[j..]);
        IotaOnce(n, x);
        assert false;
      }
    }
  }

  /** The positions `[lo, hi)` of `n` shuffled ones that fold `s` tests: `skip(s * c)`, then `limit(c)`. */
  function FoldBounds(n: nat, c: nat, s: nat): (b: (nat, nat))
    ensures b.0 <= b.1 <= n
  {
    (Min(s * c, n), Min(s * c + c, n))
  }

  /** The shuffled indexes fold `s` tests. */
  function FoldTestIndexes(perm: seq<nat>, c: nat, s: nat): seq<nat> {
    var b := FoldBounds(|perm|, c, s);
    perm[b.0..b.1]
  }

  /** The loop of a fold visits every shuffled index and sends it to a test set iff the fold tests it. */
  function FoldPlaced(perm: seq<nat>, test: seq<nat>): (placed: seq<(nat, bool)>)
    ensures |placed| == |perm| && forall j | 0 <= j < |perm| :: placed[j] == (perm[j], perm[j] in test)
  {
    seq(|perm|, j requires 0 <= j < |perm| => (perm[j], perm[j] in test))
  }

  /**
   * The training size allocated for class `k`: as written, every probe outside
   * the fold's test part; as evidently intended, the class's probes outside it.
   */
  function TrainingRows(overallProbeCount: nat, countOfSamplesPerClass: seq<int>, testCounts: seq<nat>, k: nat, asWritten: bool): int
    requires k < |testCounts| == |countOfSamplesPerClass|
  {
    if asWritten then overallProbeCount - testCounts[k] else countOfSamplesPerClass[k] - testCounts[k]
  }

  /** The loop over the class names that allocates each class's training and test arrays. */
  function FoldAllocation(classCount: nat, overallProbeCount: nat, countOfSamplesPerClass: seq<int>, testCounts: seq<nat>, asWritten: bool)
    : (r: Result<seq<(nat, nat)>>)
    requires |testCounts| == |countOfSamplesPerClass|
    ensures r.Ok? ==> |r.value| == classCount
  {
    if classCount == 0 then Ok([])
    else
      var prev := FoldAllocation(classCount - 1, overallProbeCount, countOfSamplesPerClass, testCounts, asWritten);
      var k := classCount - 1;
      if prev.Err? then prev
      else if k >= |testCounts| then Err(IndexOutOfBounds)
      else
        var rows := TrainingRows(overallProbeCount, countOfSamplesPerClass, testCounts, k, asWritten);
        if rows < 0 then Err(NegativeArraySize) else Ok(prev.value + [(rows as nat, testCounts[k])])
  }

  /** Fold `s`: count the test-side probes per class, allocate, distribute. */
  function Fold(probes: Matrix, c: nat, classNames: seq<string>, countOfSamplesPerClass: seq<int>, perm: seq<nat>, s: nat, asWritten: bool)
    : Result<Table<Matrix>>
    requires ProbeMatrix(probes) && probes != [] && IsPermutation(perm, |probes[0]|)
  {
    var test := FoldTestIndexes(perm, c, s);
    var testCounts := Tally(test, countOfSamplesPerClass);
    if testCounts.Err? then Err(testCounts.error)
    else
      var allocation := FoldAllocation(|classNames|, |probes[0]|, countOfSamplesPerClass, testCounts.value, asWritten);
      if allocation.Err? then Err(allocation.error)
      else Distribute(probes, FoldPlaced(perm, test), classNames, countOfSamplesPerClass, allocation.value)
  }

  /** The cross-validation split with either training size. */
  function CrossValidationWith(probes: Matrix, setsCount: int, classNames: seq<string>, countOfSamplesPerClass: seq<int>,
                               perm: seq<nat>, asWritten: bool): Result<seq<Table<Matrix>>>
    requires ProbeMatrix(probes) && (probes != [] ==> IsPermutation(perm, |probes[0]|))
  {
    if probes == [] then Err(IndexOutOfBounds)
    else if setsCount == 0 then Err(DivisionByZero)
    else if setsCount < 0 then Ok([])
    else
      var c := |probes[0]| / setsCount;
      AllOk(seq(setsCount, s requires 0 <= s < setsCount => Fold(probes, c, classNames, countOfSamplesPerClass, perm, s, asWritten)))
  }

  /**
   * `crossValidationProbeSplitter` as written: a class's training array has
   * one row per probe of the whole data set outside the fold's test side.
   */
  function CrossValidationAsWritten(probes: Matrix, setsCount: int, classNames: seq<string>, countOfSamplesPerClass: seq<int>,
                                    perm: seq<nat>): Result<seq<Table<Matrix>>>
    requires ProbeMatrix(probes) && (probes != [] ==> IsPermutation(perm, |probes[0]|))
  {
    CrossValidationWith(probes, setsCount, classNames, countOfSamplesPerClass, perm, true)
  }

  /**
   * `crossValidationProbeSplitter` with the training array sized by the
   * class's own count, as the bootstrap split sizes it.
   */
  function CrossValidation(probes: Matrix, setsCount: int, classNames: seq<string>, countOfSamplesPerClass: seq<int>,
                           perm: seq<nat>): Result<seq<Table<Matrix>>>
    requires ProbeMatrix(probes) && (probes != [] ==> IsPermutation(perm, |probes[0]|))
  {
    CrossValidationWith(probes, setsCount, classNames, countOfSamplesPerClass, perm, false)
  }

  // ---------------------------------------------------------------------
  // Bootstrap (`bootstrapValidationProbeSplitter`)
  // ---------------------------------------------------------------------

  const MaximumBootstrapTrials: nat := 20

  /** The indexes drawn for a trial's training sets. */
  function DrawnSet(drawn: seq<nat>): set<nat> {
    set x | x in drawn
  }

  /** The trial's test indexes: those never drawn, ascending. */
  function NotDrawn(overallProbeCount: nat, drawn: seq<nat>): seq<nat> {
    Positions(overallProbeCount, DrawnSet(drawn), false)
  }

  /** The loop that lists the indexes below `overallProbeCount` missing from the draws. */
  method TestProbeIndexes(overallProbeCount: nat, trainingProbeIndexes: seq<nat>) returns (testProbeIndexes: seq<nat>)
    ensures testProbeIndexes == NotDrawn(overallProbeCount, trainingProbeIndexes)
  {
    testProbeIndexes := [];
    for testProbeIndex := 0 to overallProbeCount
      invariant testProbeIndexes == Positions(testProbeIndex, DrawnSet(trainingProbeIndexes), false)
    {
      if testProbeIndex !in trainingProbeIndexes {
        testProbeIndexes := testProbeIndexes + [testProbeIndex];
      }
    }
  }

  /** The loops of a trial visit the drawn indexes (training) and then the test indexes. */
  function BootstrapPlaced(drawn: seq<nat>, test: seq<nat>): (placed: seq<(nat, bool)>)
    ensures |placed| == |drawn| + |test|
  {
    Uniform(drawn, false) + Uniform(test, true)
  }

  /** Every class's arrays sized by its own counts; a class without counters throws. */
  function ExactAllocation(classCount: nat, trainingCounts: seq<nat>, testCounts: seq<nat>): (r: Result<seq<(nat, nat)>>)
    requires |trainingCounts| == |testCounts|
    ensures r.Ok? ==> |r.value| == classCount
  {
    if classCount > |trainingCounts| then Err(IndexOutOfBounds)
    else Ok(seq(classCount, k requires 0 <= k < classCount => (trainingCounts[k], testCounts[k])))
  }

  /** One trial, given its `overallProbeCount` draws with replacement. */
  function BootstrapTrial(probes: Matrix, classNames: seq<string>, countOfSamplesPerClass: seq<int>, drawn: seq<nat>): Result<Table<Matrix>>
    requires ProbeMatrix(probes) && probes != [] && forall j | 0 <= j < |drawn| :: drawn[j] < |probes[0]|
  {
    var test := NotDrawn(|probes[0]|, drawn);
    var trainingCounts := Tally(drawn, countOfSamplesPerClass);
    var testCounts := Tally(test, countOfSamplesPerClass);
    if trainingCounts.Err? then Err(trainingCounts.error)
    else if testCounts.Err? then Err(testCounts.error)
    else
      var allocation := ExactAllocation(|classNames|, trainingCounts.value, testCounts.value);
      if allocation.Err? then Err(allocation.error)
      else Distribute(probes, BootstrapPlaced(drawn, test), classNames, countOfSamplesPerClass, allocation.value)
  }

  /** The draws `Random.nextInt(overallProbeCount)` gives: `overallProbeCount` per trial. */
  predicate TrialDraws(probes: Matrix, draws: seq<seq<nat>>) {
    probes != [] ==> forall t | 0 <= t < |draws| :: |draws[t]| == |probes[0]| && forall j | 0 <= j < |draws[t]| :: draws[t][j] < |probes[0]|
  }

  /** `bootstrapValidationProbeSplitter`: twenty trials; its `setsCount` argument is unused. */
  function Bootstrap(probes: Matrix, classNames: seq<string>, countOfSamplesPerClass: seq<int>, draws: seq<seq<nat>>)
    : Result<seq<Table<Matrix>>>
    requires ProbeMatrix(probes) && |draws| == MaximumBootstrapTrials && TrialDraws(probes, draws)
  {
    if probes == [] then Err(IndexOutOfBounds)
    else AllOk(seq(|draws|, t requires 0 <= t < |draws| => BootstrapTrial(probes, classNames, countOfSamplesPerClass, draws[t])))
  }

  // ---------------------------------------------------------------------
  // What the distributing loop puts where
  // ---------------------------------------------------------------------

  lemma {:induction false} OfClassAppend(xs: seq<nat>, ys: seq<nat>, countOfSamplesPerClass: seq<int>, k: nat)
    ensures OfClass(xs + ys, countOfSamplesPerClass, k) == OfClass(xs, countOfSamplesPerClass, k) + OfClass(ys, countOfSamplesPerClass, k)
  {
    if ys == [] {
      assert xs + ys == xs;
    } else {
      var front := ys[..|ys| - 1];
      OfClassAppend(xs, front, countOfSamplesPerClass, k);
      assert (xs + ys)[..|xs + ys| - 1] == xs + front;
    }
  }

  lemma {:induction false} SlotsOfAppend(first: seq<(nat, bool)>, second: seq<(nat, bool)>, countOfSamplesPerClass: seq<int>, k: nat, toTest: bool)
    ensures SlotIndexes(first + second, countOfSamplesPerClass, k, toTest)
      == SlotIndexes(first, countOfSamplesPerClass, k, toTest) + SlotIndexes(second, countOfSamplesPerClass, k, toTest)
  {
    if second == [] {
      assert first + second == first;
    } else {
      var front := second[..|second| - 1];
      SlotsOfAppend(first, front, countOfSamplesPerClass, k, toTest);
      assert (first + second)[..|first + second| - 1] == first + front;
    }
  }

  /** Indexes all sent to one side land, per class, in that side's sets only. */
  lemma {:induction false} SlotsOfUniform(indexes: seq<nat>, toTest: bool, countOfSamplesPerClass: seq<int>, k: nat, side: bool)
    ensures SlotIndexes(Uniform(indexes, toTest), countOfSamplesPerClass, k, side)
      == if toTest == side then OfClass(indexes, countOfSamplesPerClass, k) else []
  {
    if indexes != [] {
      var front := indexes[..|indexes| - 1];
      SlotsOfUniform(front, toTest, countOfSamplesPerClass, k, side);
      assert Uniform(indexes, toTest)[..|indexes| - 1] == Uniform(front, toTest);
    }
  }

  /** A set allocated with exactly as many rows as probes put into it is those probes, unpadded. */
  lemma PaddedExact(probes: Matrix, slot: seq<nat>)
    requires |slot| > 0
    ensures Padded(probes, slot, |slot|) == Ok(SelectColumns(probes, slot))
  {
    var padded, selected := Padded(probes, slot, |slot|).value, SelectColumns(probes, slot);
    forall a | 0 <= a < |probes|
      ensures padded[a] == selected[a]
    {
      assert padded[a][..|slot|] == selected[a];
    }
    assert padded == selected;
  }

  /** The sets of the classes from `k` on, each as `Padded` builds it from the class's slots. */
  lemma {:induction false} SlotsFromEntries(probes: Matrix, placed: seq<(nat, bool)>, classNames: seq<string>, countOfSamplesPerClass: seq<int>,
                                            allocation: seq<(nat, nat)>, k: nat)
    requires ProbeMatrix(probes)
    requires |allocation| == |classNames| && k <= |classNames|
    ensures var r := SlotsFrom(probes, placed, classNames, countOfSamplesPerClass, allocation, k);
      r.Ok? ==> |r.value| == 2 * (|classNames| - k) && forall i | k <= i < |classNames| ::
        var training := Padded(probes, SlotIndexes(placed, countOfSamplesPerClass, i, false), allocation[i].0);
        var test := Padded(probes, SlotIndexes(placed, countOfSamplesPerClass, i, true), allocation[i].1);
        && training.Ok? && test.Ok?
        && r.value[2 * (i - k)] == (classNames[i] + TrainingMark, training.value)
        && r.value[2 * (i - k) + 1] == (classNames[i] + TestMark, test.value)
    decreases |classNames| - k
  {
    if k < |classNames| {
      SlotsFromEntries(probes, placed, classNames, countOfSamplesPerClass, allocation, k + 1);
      var r := SlotsFrom(probes, placed, classNames, countOfSamplesPerClass, allocation, k);
      var rest := SlotsFrom(probes, placed, classNames, countOfSamplesPerClass, allocation, k + 1);
      if r.Ok? {
        assert r.value == r.value[..2] + rest.value;
        forall j | 2 <= j < |r.value|
          ensures r.value[j] == rest.value[j - 2]
        {
        }
      }
    }
  }

  /** The allocation loop gives class `k` the training size `TrainingRows` and its test count. */
  lemma {:induction false} FoldAllocationRows(classCount: nat, overallProbeCount: nat, countOfSamplesPerClass: seq<int>, testCounts: seq<nat>, asWritten: bool)
    requires |testCounts| == |countOfSamplesPerClass|
    ensures var r := FoldAllocation(classCount, overallProbeCount, countOfSamplesPerClass, testCounts, asWritten);
      r.Ok? ==> classCount <= |testCounts| && forall k | 0 <= k < classCount ::
        r.value[k].0 as int == TrainingRows(overallProbeCount, countOfSamplesPerClass, testCounts, k, asWritten) && r.value[k].1 == testCounts[k]
  {
    if classCount > 0 {
      FoldAllocationRows(classCount - 1, overallProbeCount, countOfSamplesPerClass, testCounts, asWritten);
    }
  }

  /** A shuffled index is on the test side of a fold iff its position lies in the fold's range. */
  lemma FoldPlacedSplit(perm: seq<nat>, n: nat, c: nat, s: nat)
    requires IsPermutation(perm, n)
    ensures var lo, hi := FoldBounds(|perm|, c, s).0, FoldBounds(|perm|, c, s).1;
      FoldPlaced(perm, FoldTestIndexes(perm, c, s)) == Uniform(perm[..lo], false) + Uniform(perm[lo..hi], true) + Uniform(perm[hi..], false)
  {
    var lo, hi := FoldBounds(|perm|, c, s).0, FoldBounds(|perm|, c, s).1;
    assert FoldTestIndexes(perm, c, s) == perm[lo..hi];
    var placed := FoldPlaced(perm, perm[lo..hi]);
    var parts := Uniform(perm[..lo], false) + Uniform(perm[lo..hi], true) + Uniform(perm[hi..], false);
    PermutationFacts(perm, n);
    assert |placed| == |parts|;
    forall j | 0 <= j < |perm|
      ensures placed[j] == parts[j]
    {
      InRangeIffInside(perm, lo, hi, j);
      PartsEntry(perm, lo, hi, j);
    }
    assert placed == parts;
  }

  /** In a sequence without repetitions, an entry lies in a slice iff its position does. */
  lemma InRangeIffInside(perm: seq<nat>, lo: nat, hi: nat, j: nat)
    requires Distinct(perm) && lo <= hi <= |perm| && j < |perm|
    ensures perm[j] in perm[lo..hi] <==> lo <= j < hi
  {
    if perm[j] in perm[lo..hi] {
      var i :| 0 <= i < hi - lo && perm[lo..hi][i] == perm[j];
      assert perm[lo + i] == perm[j];
    }
    if lo <= j < hi {
      assert perm[lo..hi][j - lo] == perm[j];
    }
  }

  /** Entry `j` of the three runs, the middle one sent to the test sets. */
  lemma PartsEntry(perm: seq<nat>, lo: nat, hi: nat, j: nat)
    requires lo <= hi <= |perm| && j < |perm|
    ensures (Uniform(perm[..lo], false) + Uniform(perm[lo..hi], true) + Uniform(perm[hi..], false))[j] == (perm[j], lo <= j < hi)
  {
    if j < lo {
      assert Uniform(perm[..lo], false)[j] == (perm[j], false);
    } else if j < hi {
      assert Uniform(perm[lo..hi], true)[j - lo] == (perm[j], true);
    } else {
      assert Uniform(perm[hi..], false)[j - hi] == (perm[j], false);
    }
  }

  lemma SlotsOfThree(first: seq<(nat, bool)>, second: seq<(nat, bool)>, third: seq<(nat, bool)>, countOfSamplesPerClass: seq<int>, k: nat, side: bool)
    ensures SlotIndexes(first + second + third, countOfSamplesPerClass, k, side)
      == SlotIndexes(first, countOfSamplesPerClass, k, side) + SlotIndexes(second, countOfSamplesPerClass, k, side)
         + SlotIndexes(third, countOfSamplesPerClass, k, side)
  {
    SlotsOfAppend(first + second, third, countOfSamplesPerClass, k, side);
    SlotsOfAppend(first, second, countOfSamplesPerClass, k, side);
  }

  /** Indexes visited in three runs, the middle one sent to the test sets: the test slots. */
  lemma TestSlotsOfParts(before: seq<nat>, inside: seq<nat>, after: seq<nat>, countOfSamplesPerClass: seq<int>, k: nat)
    ensures SlotIndexes(Uniform(before, false) + Uniform(inside, true) + Uniform(after, false), countOfSamplesPerClass, k, true)
      == OfClass(inside, countOfSamplesPerClass, k)
  {
    SlotsOfThree(Uniform(before, false), Uniform(inside, true), Uniform(after, false), countOfSamplesPerClass, k, true);
    SlotsOfUniform(before, false, countOfSamplesPerClass, k, true);
    SlotsOfUniform(inside, true, countOfSamplesPerClass, k, true);
    SlotsOfUniform(after, false, countOfSamplesPerClass, k, true);
    var i := OfClass(inside, countOfSamplesPerClass, k);
    assert [] + i + [] == i;
  }

  /** Indexes visited in three runs, the middle one sent to the test sets: the training slots. */
  lemma TrainingSlotsOfParts(before: seq<nat>, inside: seq<nat>, after: seq<nat>, countOfSamplesPerClass: seq<int>, k: nat)
    ensures SlotIndexes(Uniform(before, false) + Uniform(inside, true) + Uniform(after, false), countOfSamplesPerClass, k, false)
      == OfClass(before, countOfSamplesPerClass, k) + OfClass(after, countOfSamplesPerClass, k)
  {
    SlotsOfThree(Uniform(before, false), Uniform(inside, true), Uniform(after, false), countOfSamplesPerClass, k, false);
    SlotsOfUniform(before, false, countOfSamplesPerClass, k, false);
    SlotsOfUniform(inside, true, countOfSamplesPerClass, k, false);
    SlotsOfUniform(after, false, countOfSamplesPerClass, k, false);
    var b := OfClass(before, countOfSamplesPerClass, k);
    assert b + [] == b;
  }

  /** The slots of a fold: class `k`'s probes on the fold's test side, and its others in shuffled order. */
  lemma FoldSlots(perm: seq<nat>, n: nat, c: nat, s: nat, countOfSamplesPerClass: seq<int>, k: nat)
    requires IsPermutation(perm, n)
    ensures var lo, hi := FoldBounds(|perm|, c, s).0, FoldBounds(|perm|, c, s).1;
      var placed := FoldPlaced(perm, FoldTestIndexes(perm, c, s));
      && SlotIndexes(placed, countOfSamplesPerClass, k, true) == OfClass(perm[lo..hi], countOfSamplesPerClass, k)
      && SlotIndexes(placed, countOfSamplesPerClass, k, false)
         == OfClass(perm[..lo], countOfSamplesPerClass, k) + OfClass(perm[hi..], countOfSamplesPerClass, k)
  {
    var lo, hi := FoldBounds(|perm|, c, s).0, FoldBounds(|perm|, c, s).1;
    FoldPlacedSplit(perm, n, c, s);
    TestSlotsOfParts(perm[..lo], perm[lo..hi], perm[hi..], countOfSamplesPerClass, k);
    TrainingSlotsOfParts(perm[..lo], perm[lo..hi], perm[hi..], countOfSamplesPerClass, k);
  }


  /**
   * Fold `s`, class `k`: the test set holds the class's probes on the test side of the
   * fold, in shuffled order; the training set holds the class's other probes,
   * in shuffled order, then zero probes up to `TrainingRows`.
   */
  lemma FoldSets(probes: Matrix, c: nat, classNames: seq<string>, countOfSamplesPerClass: seq<int>, perm: seq<nat>, s: nat,
                 asWritten: bool, k: nat)
    requires ProbeMatrix(probes) && probes != [] && IsPermutation(perm, |probes[0]|)
    requires Fold(probes, c, classNames, countOfSamplesPerClass, perm, s, asWritten).Ok? && k < |classNames|
    ensures var n := |probes[0]|;
      var lo, hi := FoldBounds(|perm|, c, s).0, FoldBounds(|perm|, c, s).1;
      var table := Fold(probes, c, classNames, countOfSamplesPerClass, perm, s, asWritten).value;
      var inTestSide := OfClass(perm[lo..hi], countOfSamplesPerClass, k);
      var others := OfClass(perm[..lo], countOfSamplesPerClass, k) + OfClass(perm[hi..], countOfSamplesPerClass, k);
      && |table| == 2 * |classNames|
      && Tally(perm[lo..hi], countOfSamplesPerClass).Ok? && k < |countOfSamplesPerClass|
      && var rows := TrainingRows(n, countOfSamplesPerClass, Tally(perm[lo..hi], countOfSamplesPerClass).value, k, asWritten);
      && 0 < rows && |others| <= rows
      && table[2 * k] == (classNames[k] + TrainingMark, Padded(probes, others, rows as nat).value)
      && table[2 * k + 1] == (classNames[k] + TestMark, SelectColumns(probes, inTestSide))
  {
    var n := |probes[0]|;
    var test := FoldTestIndexes(perm, c, s);
    var counts := Tally(test, countOfSamplesPerClass);
    var allocation := FoldAllocation(|classNames|, n, countOfSamplesPerClass, counts.value, asWritten);
    var placed := FoldPlaced(perm, test);
    assert Fold(probes, c, classNames, countOfSamplesPerClass, perm, s, asWritten)
      == SlotsFrom(probes, placed, classNames, countOfSamplesPerClass, allocation.value, 0);
    FoldAllocationRows(|classNames|, n, countOfSamplesPerClass, counts.value, asWritten);
    TallyCountsClasses(test, countOfSamplesPerClass);
    FoldSlots(perm, n, c, s, countOfSamplesPerClass, k);
    assert k < |counts.value| && allocation.value[k].1 == counts.value[k];
    assert allocation.value[k].1 == |SlotIndexes(placed, countOfSamplesPerClass, k, true)|;
    SlotsEntry(probes, placed, classNames, countOfSamplesPerClass, allocation.value, k);
  }

  /** Class `k`'s two sets in the table, the test set allocated with exactly as many rows as it receives. */
  lemma SlotsEntry(probes: Matrix, placed: seq<(nat, bool)>, classNames: seq<string>, countOfSamplesPerClass: seq<int>,
                   allocation: seq<(nat, nat)>, k: nat)
    requires ProbeMatrix(probes)
    requires |allocation| == |classNames| && k < |classNames|
    requires SlotsFrom(probes, placed, classNames, countOfSamplesPerClass, allocation, 0).Ok?
    requires allocation[k].1 == |SlotIndexes(placed, countOfSamplesPerClass, k, true)|
    ensures var table := SlotsFrom(probes, placed, classNames, countOfSamplesPerClass, allocation, 0).value;
      var others := SlotIndexes(placed, countOfSamplesPerClass, k, false);
      && |table| == 2 * |classNames|
      && 0 < allocation[k].0 && |others| <= allocation[k].0
      && table[2 * k] == (classNames[k] + TrainingMark, Padded(probes, others, allocation[k].0).value)
      && table[2 * k + 1] == (classNames[k] + TestMark, SelectColumns(probes, SlotIndexes(placed, countOfSamplesPerClass, k, true)))
  {
    SlotsFromEntries(probes, placed, classNames, countOfSamplesPerClass, allocation, 0);
    PaddedExact(probes, SlotIndexes(placed, countOfSamplesPerClass, k, true));
  }

  /** A shuffled permutation cut at `lo` and `hi`: the class's probes in the three parts. */
  lemma ClassInParts(perm: seq<nat>, lo: nat, hi: nat, countOfSamplesPerClass: seq<int>, k: nat)
    requires lo <= hi <= |perm|
    ensures |OfClass(perm, countOfSamplesPerClass, k)| == |OfClass(perm[..lo], countOfSamplesPerClass, k)|
      + |OfClass(perm[lo..hi], countOfSamplesPerClass, k)| + |OfClass(perm[hi..], countOfSamplesPerClass, k)|
  {
    assert perm == perm[..lo] + perm[lo..hi] + perm[hi..];
    OfClassAppend(perm[..lo] + perm[lo..hi], perm[hi..], countOfSamplesPerClass, k);
    OfClassAppend(perm[..lo], perm[lo..hi], countOfSamplesPerClass, k);
  }

  /**
   * As written, a fold's training set of class `k` ends in one all-zero
   * probe per probe of the other classes: its probe count exceeds the
   * class's training-side probes by `n - |OfClass(perm, countOfSamplesPerClass, k)|`.
   */
  lemma CrossValidationAsWrittenPadsTraining(probes: Matrix, c: nat, classNames: seq<string>, countOfSamplesPerClass: seq<int>,
                                             perm: seq<nat>, s: nat, k: nat)
    requires ProbeMatrix(probes) && probes != [] && IsPermutation(perm, |probes[0]|)
    requires Fold(probes, c, classNames, countOfSamplesPerClass, perm, s, true).Ok? && k < |classNames|
    ensures var n := |probes[0]|;
      var lo, hi := FoldBounds(|perm|, c, s).0, FoldBounds(|perm|, c, s).1;
      var table := Fold(probes, c, classNames, countOfSamplesPerClass, perm, s, true).value;
      var others := OfClass(perm[..lo], countOfSamplesPerClass, k) + OfClass(perm[hi..], countOfSamplesPerClass, k);
      && 2 * k < |table|
      && var training := table[2 * k].1;
      && |training| == |probes|
      && (forall a | 0 <= a < |probes| :: |training[a]| + |OfClass(perm, countOfSamplesPerClass, k)| == |others| + n)
      && forall a, j | 0 <= a < |probes| && |others| <= j < |training[a]| :: training[a][j] == 0.0
  {
    var n := |probes[0]|;
    var lo, hi := FoldBounds(|perm|, c, s).0, FoldBounds(|perm|, c, s).1;
    FoldSets(probes, c, classNames, countOfSamplesPerClass, perm, s, true, k);
    TallyCountsClasses(perm[lo..hi], countOfSamplesPerClass);
    ClassInParts(perm, lo, hi, countOfSamplesPerClass, k);
  }

  /**
   * Sized by the class's own count, and with counts that match the data (two
   * classes, class 0 first), a fold's training set of class `k` is exactly
   * the class's training-side probes, in shuffled order.
   */
  lemma CrossValidationTrainingIsRestOfClass(probes: Matrix, c: nat, classNames: seq<string>, countOfSamplesPerClass: seq<int>,
                                             perm: seq<nat>, s: nat, k: nat)
    requires ProbeMatrix(probes) && probes != [] && IsPermutation(perm, |probes[0]|)
    requires |countOfSamplesPerClass| == 2 && 0 <= countOfSamplesPerClass[0] && 0 <= countOfSamplesPerClass[1]
    requires countOfSamplesPerClass[0] + countOfSamplesPerClass[1] == |probes[0]|
    requires Fold(probes, c, classNames, countOfSamplesPerClass, perm, s, false).Ok? && k < |classNames|
    ensures var n := |probes[0]|;
      var lo, hi := FoldBounds(|perm|, c, s).0, FoldBounds(|perm|, c, s).1;
      var table := Fold(probes, c, classNames, countOfSamplesPerClass, perm, s, false).value;
      var others := OfClass(perm[..lo], countOfSamplesPerClass, k) + OfClass(perm[hi..], countOfSamplesPerClass, k);
      && 2 * k < |table|
      && table[2 * k] == (classNames[k] + TrainingMark, SelectColumns(probes, others))
  {
    var n := |probes[0]|;
    var lo, hi := FoldBounds(|perm|, c, s).0, FoldBounds(|perm|, c, s).1;
    var others := OfClass(perm[..lo], countOfSamplesPerClass, k) + OfClass(perm[hi..], countOfSamplesPerClass, k);
    var table := Fold(probes, c, classNames, countOfSamplesPerClass, perm, s, false).value;
    var counts := Tally(perm[lo..hi], countOfSamplesPerClass).value;
    FoldSets(probes, c, classNames, countOfSamplesPerClass, perm, s, false, k);
    var rows := countOfSamplesPerClass[k] - counts[k];
    assert table[2 * k] == (classNames[k] + TrainingMark, Padded(probes, others, rows as nat).value);
    TallyCountsClasses(perm[lo..hi], countOfSamplesPerClass);
    TrainingSideOfClass(perm, n, lo, hi, countOfSamplesPerClass, k);
    assert rows == |others|;
    PaddedExact(probes, others);
  }

  /** With counts that match the data, a class's count less its test-side probes is its training-side probes. */
  lemma TrainingSideOfClass(perm: seq<nat>, n: nat, lo: nat, hi: nat, countOfSamplesPerClass: seq<int>, k: nat)
    requires IsPermutation(perm, n) && lo <= hi <= |perm| && k < 2
    requires |countOfSamplesPerClass| == 2 && 0 <= countOfSamplesPerClass[0] && 0 <= countOfSamplesPerClass[1]
    requires countOfSamplesPerClass[0] + countOfSamplesPerClass[1] == n
    ensures countOfSamplesPerClass[k] - |OfClass(perm[lo..hi], countOfSamplesPerClass, k)|
      == |OfClass(perm[..lo], countOfSamplesPerClass, k)| + |OfClass(perm[hi..], countOfSamplesPerClass, k)|
  {
    ClassInParts(perm, lo, hi, countOfSamplesPerClass, k);
    PermutationClassSizes(perm, n, countOfSamplesPerClass);
  }

  /**
   * The cross-validation split: `setsCount` folds of `n / setsCount` test-side
   * probes each; no probes throw, a zero count divides by zero, a negative
   * count gives no folds.
   */
  lemma CrossValidationFolds(probes: Matrix, setsCount: int, classNames: seq<string>, countOfSamplesPerClass: seq<int>,
                             perm: seq<nat>, asWritten: bool)
    requires ProbeMatrix(probes) && (probes != [] ==> IsPermutation(perm, |probes[0]|))
    ensures var r := CrossValidationWith(probes, setsCount, classNames, countOfSamplesPerClass, perm, asWritten);
      && (probes == [] ==> r == Err(IndexOutOfBounds))
      && (probes != [] && setsCount == 0 ==> r == Err(DivisionByZero))
      && (probes != [] && setsCount < 0 ==> r == Ok([]))
      && (probes != [] && setsCount > 0 ==>
            var c := |probes[0]| / setsCount;
            && (r.Ok? <==> forall i | 0 <= i < setsCount :: Fold(probes, c, classNames, countOfSamplesPerClass, perm, i, asWritten).Ok?)
            && (r.Ok? ==> |r.value| == setsCount && forall i | 0 <= i < setsCount ::
                  r.value[i] == Fold(probes, c, classNames, countOfSamplesPerClass, perm, i, asWritten).value))
  {
    if probes != [] && setsCount > 0 {
      var c := |probes[0]| / setsCount;
      var folds := seq(setsCount, s requires 0 <= s < setsCount => Fold(probes, c, classNames, countOfSamplesPerClass, perm, s, asWritten));
      AllOkEntries(folds);
      forall i | 0 <= i < setsCount
        ensures folds[i] == Fold(probes, c, classNames, countOfSamplesPerClass, perm, i, asWritten)
      {
      }
    }
  }

  /** The indexes a trial tests are exactly those below `n` never drawn. */
  lemma NotDrawnMembers(n: nat, drawn: seq<nat>)
    ensures forall p: nat :: p in NotDrawn(n, drawn) <==> p < n && p !in drawn
  {
    PositionsMembers(n, DrawnSet(drawn), false);
  }

  /**
   * One bootstrap trial, class `k`: the training set holds the class's drawn
   * probes in draw order, repetitions included; the test set its probes never
   * drawn, ascending.
   */
  lemma BootstrapTrialSets(probes: Matrix, classNames: seq<string>, countOfSamplesPerClass: seq<int>, drawn: seq<nat>, k: nat)
    requires ProbeMatrix(probes) && probes != [] && forall j | 0 <= j < |drawn| :: drawn[j] < |probes[0]|
    requires BootstrapTrial(probes, classNames, countOfSamplesPerClass, drawn).Ok? && k < |classNames|
    ensures var table := BootstrapTrial(probes, classNames, countOfSamplesPerClass, drawn).value;
      var test := NotDrawn(|probes[0]|, drawn);
      && |table| == 2 * |classNames|
      && table[2 * k] == (classNames[k] + TrainingMark, SelectColumns(probes, OfClass(drawn, countOfSamplesPerClass, k)))
      && table[2 * k + 1] == (classNames[k] + TestMark, SelectColumns(probes, OfClass(test, countOfSamplesPerClass, k)))
  {
    var test := NotDrawn(|probes[0]|, drawn);
    var trainingCounts := Tally(drawn, countOfSamplesPerClass).value;
    var testCounts := Tally(test, countOfSamplesPerClass).value;
    var allocation := ExactAllocation(|classNames|, trainingCounts, testCounts).value;
    TallyCountsClasses(drawn, countOfSamplesPerClass);
    TallyCountsClasses(test, countOfSamplesPerClass);
    BootstrapSlots(drawn, test, countOfSamplesPerClass, k);
    SlotsFromEntries(probes, BootstrapPlaced(drawn, test), classNames, countOfSamplesPerClass, allocation, 0);
    PaddedExact(probes, OfClass(drawn, countOfSamplesPerClass, k));
    PaddedExact(probes, OfClass(test, countOfSamplesPerClass, k));
  }

  /** The slots of a trial: class `k`'s drawn indexes train, its untouched ones test. */
  lemma BootstrapSlots(drawn: seq<nat>, test: seq<nat>, countOfSamplesPerClass: seq<int>, k: nat)
    ensures SlotIndexes(BootstrapPlaced(drawn, test), countOfSamplesPerClass, k, false) == OfClass(drawn, countOfSamplesPerClass, k)
    ensures SlotIndexes(BootstrapPlaced(drawn, test), countOfSamplesPerClass, k, true) == OfClass(test, countOfSamplesPerClass, k)
  {
    SlotsOfAppend(Uniform(drawn, false), Uniform(test, true), countOfSamplesPerClass, k, false);
    SlotsOfAppend(Uniform(drawn, false), Uniform(test, true), countOfSamplesPerClass, k, true);
    SlotsOfUniform(drawn, false, countOfSamplesPerClass, k, false);
    SlotsOfUniform(test, true, countOfSamplesPerClass, k, false);
    SlotsOfUniform(drawn, false, countOfSamplesPerClass, k, true);
    SlotsOfUniform(test, true, countOfSamplesPerClass, k, true);
    var d, t := OfClass(drawn, countOfSamplesPerClass, k), OfClass(test, countOfSamplesPerClass, k);
    assert d + [] == d;
    assert [] + t == t;
  }

  /** The bootstrap split: no probes throw; otherwise twenty trials, trial `t` from draw sequence `t`. */
  lemma BootstrapTrials(probes: Matrix, classNames: seq<string>, countOfSamplesPerClass: seq<int>, draws: seq<seq<nat>>)
    requires ProbeMatrix(probes) && |draws| == MaximumBootstrapTrials && TrialDraws(probes, draws)
    ensures var r := Bootstrap(probes, classNames, countOfSamplesPerClass, draws);
      && (probes == [] ==> r == Err(IndexOutOfBounds))
      && (probes != [] ==>
            && (r.Ok? <==> forall i | 0 <= i < |draws| :: BootstrapTrial(probes, classNames, countOfSamplesPerClass, draws[i]).Ok?)
            && (r.Ok? ==> |r.value| == 20 && forall i | 0 <= i < |draws| ::
                  r.value[i] == BootstrapTrial(probes, classNames, countOfSamplesPerClass, draws[i]).value))
  {
    if probes != [] {
      var trials := seq(|draws|, t requires 0 <= t < |draws| => BootstrapTrial(probes, classNames, countOfSamplesPerClass, draws[t]));
      AllOkEntries(trials);
      forall i | 0 <= i < |draws|
        ensures trials[i] == BootstrapTrial(probes, classNames, countOfSamplesPerClass, draws[i])
      {
      }
    }
  }

  // ---------------------------------------------------------------------
  // Class sizes of a permutation
  // ---------------------------------------------------------------------

  /** Every index is of class 0 or of class 1. */
  lemma {:induction false} OfClassSplit(indexes: seq<nat>, countOfSamplesPerClass: seq<int>)
    requires countOfSamplesPerClass != []
    ensures |OfClass(indexes, countOfSamplesPerClass, 0)| + |OfClass(indexes, countOfSamplesPerClass, 1)| == |indexes|
  {
    if indexes != [] {
      OfClassSplit(indexes[..|indexes| - 1], countOfSamplesPerClass);
    }
  }

  /** No index occurs twice. */
  predicate Distinct(indexes: seq<nat>) {
    forall i, j | 0 <= i < j < |indexes| :: indexes[i] != indexes[j]
  }

  /** Without repetitions, the indexes of class 0 are the distinct values below the first count. */
  lemma {:induction false} DistinctOfFirstClass(indexes: seq<nat>, countOfSamplesPerClass: seq<int>)
    requires countOfSamplesPerClass != [] && Distinct(indexes)
    ensures |OfClass(indexes, countOfSamplesPerClass, 0)| == |set x | x in indexes && x < countOfSamplesPerClass[0]|
  {
    var bound := countOfSamplesPerClass[0];
    if indexes != [] {
      var front, last := indexes[..|indexes| - 1], indexes[|indexes| - 1];
      DistinctOfFirstClass(front, countOfSamplesPerClass);
      var before := set x | x in front && x < bound;
      assert last !in front;
      if last < bound {
        assert (set x | x in indexes && x < bound) == before + {last};
      } else {
        assert (set x | x in indexes && x < bound) == before;
      }
    }
  }

  /** The indexes below `b`. */
  function Range(b: nat): (r: set<nat>)
    ensures forall x: nat :: x in r <==> x < b
  {
    if b == 0 then {} else Range(b - 1) + {b - 1}
  }

  lemma {:induction false} RangeSize(b: nat)
    ensures |Range(b)| == b
  {
    if b > 0 {
      var m := b - 1;
      RangeSize(m);
      assert m !in Range(m);
      assert Range(b) == Range(m) + {m};
    }
  }

  /**
   * Shuffled or not, the probe indexes hold `countOfSamplesPerClass[0]`
   * probes of class 0 and the rest of class 1.
   */
  lemma PermutationClassSizes(perm: seq<nat>, n: nat, countOfSamplesPerClass: seq<int>)
    requires IsPermutation(perm, n) && countOfSamplesPerClass != [] && 0 <= countOfSamplesPerClass[0] <= n
    ensures |OfClass(perm, countOfSamplesPerClass, 0)| == countOfSamplesPerClass[0]
    ensures |OfClass(perm, countOfSamplesPerClass, 1)| == n - countOfSamplesPerClass[0]
  {
    var bound: nat := countOfSamplesPerClass[0];
    PermutationFacts(perm, n);
    DistinctOfFirstClass(perm, countOfSamplesPerClass);
    assert (set x | x in perm && x < bound) == Range(bound);
    RangeSize(bound);
    OfClassSplit(perm, countOfSamplesPerClass);
  }
}
