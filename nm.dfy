/**
 * src/classifier/NMClassifier.java: the nearest-mean classifier.
 *
 * Every set keeps only the selected attribute rows; every training set is
 * summarised by its mean probe and by the inverse of its covariance matrix;
 * a test probe is assigned to the training key with the smallest distance
 * (x - mean) * inverse * (x - mean)^T below 1000000, and the result is the
 * percentage of test probes whose test key contains the predicted class name.
 *
 * A `NaN` statistic is `None`: the mean of a set without probes (0/0), the
 * covariance matrix of a set with one probe (every entry 0/0) and therefore
 * its inverse, which Jama computes from a `NaN` matrix without complaint. A
 * distance involving `NaN` is `NaN`, and `NaN` never wins a `<` comparison.
 */
module Nm {
  import opened Outcomes
  import opened Matrices
  import opened Scoring
  import opened LinearAlgebra

  // ---------------------------------------------------------------------
  // Attribute extraction (also KNMClassifier.extractSelectedAttributes)
  // ---------------------------------------------------------------------

  /** Every index names one of `rows` attribute rows. */
  predicate IndexesInRange(indexes: seq<int>, rows: nat) {
    forall r | 0 <= r < |indexes| :: 0 <= indexes[r] < rows
  }

  /**
   * One set with only the selected rows, row `r` being row `indexes[r]`;
   * reading `probesInSet[0]` of a set without rows, or a row past its last
   * one, is out of bounds.
   */
  function ExtractRows(m: Matrix, indexes: seq<int>): (r: Result<Matrix>)
    ensures r.Err? ==> r.error == IndexOutOfBounds
  {
    if m == [] || !IndexesInRange(indexes, |m|) then Err(IndexOutOfBounds) else Ok(SelectRows(m, indexes))
  }

  /** Every set with only the selected rows, under its own key and in the same order. */
  function Extracted(sets: Table<Matrix>, indexes: seq<int>): (r: Result<Table<Matrix>>)
    ensures r.Err? ==> r.error == IndexOutOfBounds
  {
    if sets == [] then Ok([])
    else
      var front := Extracted(sets[..|sets| - 1], indexes);
      var last := ExtractRows(sets[|sets| - 1].1, indexes);
      if front.Err? then front
      else if last.Err? then Err(last.error)
      else Ok(front.value + [(sets[|sets| - 1].0, last.value)])
  }

  /**
   * Extraction succeeds iff it succeeds on every set; it then keeps every
   * key in order, and entry `i` holds the selected rows of set `i`.
   */
  lemma {:induction false} ExtractionIsPerSet(sets: Table<Matrix>, indexes: seq<int>)
    ensures Extracted(sets, indexes).Ok? <==> forall i | 0 <= i < |sets| :: ExtractRows(sets[i].1, indexes).Ok?
    ensures Extracted(sets, indexes).Ok? ==>
      var r := Extracted(sets, indexes).value;
      && |r| == |sets|
      && forall i | 0 <= i < |sets| :: r[i].0 == sets[i].0 && r[i].1 == SelectRows(sets[i].1, indexes)
  {
    if sets != [] {
      var init := sets[..|sets| - 1];
      ExtractionIsPerSet(init, indexes);
      assert forall i | 0 <= i < |init| :: init[i] == sets[i];
    }
  }

  /**
   * On a data set whose sets share their attribute rows, extraction fails
   * iff there is a set and either it has no rows or an index misses them;
   * otherwise the keys are kept, every set has one row per index and as many
   * probes as before, and the result is again such a data set.
   */
  lemma ExtractionKeepsSets(sets: Table<Matrix>, indexes: seq<int>)
    requires ProbeSets(sets)
    ensures Extracted(sets, indexes).Err?
        <==> sets != [] && (Attributes(sets) == 0 || !IndexesInRange(indexes, Attributes(sets)))
    ensures Extracted(sets, indexes).Ok? ==>
      var r := Extracted(sets, indexes).value;
      && Keys(r) == Keys(sets) && ProbeSets(r) && SameShape(r, |indexes|)
      && (|indexes| > 0 ==> forall i | 0 <= i < |sets| :: ProbeCount(r[i].1) == ProbeCount(sets[i].1))
  {
    ExtractionIsPerSet(sets, indexes);
    if sets != [] && Attributes(sets) > 0 && IndexesInRange(indexes, Attributes(sets)) {
      assert forall i | 0 <= i < |sets| :: ExtractRows(sets[i].1, indexes).Ok?;
    }
    if Extracted(sets, indexes).Ok? {
      var r := Extracted(sets, indexes).value;
      assert Keys(r) == Keys(sets);
      forall i | 0 <= i < |r|
        ensures |r[i].1| == |indexes| && ProbeMatrix(r[i].1)
        ensures |indexes| > 0 ==> ProbeCount(r[i].1) == ProbeCount(sets[i].1)
      {
        assert ExtractRows(sets[i].1, indexes).Ok?;
      }
    }
  }

  /** The loop of `extractSelectedAttributes` over the indexes, for one set. */
  method ExtractFrom(probesInSet: Matrix, indexesOfBestAttributes: seq<int>) returns (extracted: Result<Matrix>)
    ensures extracted == ExtractRows(probesInSet, indexesOfBestAttributes)
  {
    if |probesInSet| == 0 {
      return Err(IndexOutOfBounds);
    }
    var rows := new seq<real>[|indexesOfBestAttributes|](_ => Zeros(|probesInSet[0]|));
    for index := 0 to |indexesOfBestAttributes|
      invariant forall r | 0 <= r < index :: 0 <= indexesOfBestAttributes[r] < |probesInSet|
      invariant forall r | 0 <= r < index :: rows[r] == probesInSet[indexesOfBestAttributes[r]]
    {
      var indexOfBestAttribute := indexesOfBestAttributes[index];
      if indexOfBestAttribute < 0 || indexOfBestAttribute >= |probesInSet| {
        return Err(IndexOutOfBounds);
      }
      rows[index] := probesInSet[indexOfBestAttribute];
    }
    assert rows[..] == SelectRows(probesInSet, indexesOfBestAttributes);
    return Ok(rows[..]);
  }

  /** `extractSelectedAttributes`: every set with only the selected rows, or the first failure. */
  method ExtractSelectedAttributes(probesWithAllAttributes: Table<Matrix>, indexesOfBestAttributes: seq<int>)
    returns (extracted: Result<Table<Matrix>>)
    ensures extracted == Extracted(probesWithAllAttributes, indexesOfBestAttributes)
  {
    var probesWithExtractedAttributes: Table<Matrix> := [];
    for s := 0 to |probesWithAllAttributes|
      invariant Extracted(probesWithAllAttributes[..s], indexesOfBestAttributes) == Ok(probesWithExtractedAttributes)
    {
      assert probesWithAllAttributes[..s + 1][..s] == probesWithAllAttributes[..s];
      var className := probesWithAllAttributes[s].0;
      var probesInSet := ExtractFrom(probesWithAllAttributes[s].1, indexesOfBestAttributes);
      if probesInSet.Err? {
        ExtractionIsPerSet(probesWithAllAttributes, indexesOfBestAttributes);
        return Err(probesInSet.error);
      }
      probesWithExtractedAttributes := probesWithExtractedAttributes + [(className, probesInSet.value)];
    }
    assert probesWithAllAttributes[..|probesWithAllAttributes|] == probesWithAllAttributes;
    return Ok(probesWithExtractedAttributes);
  }

  // ---------------------------------------------------------------------
  // Means
  // ---------------------------------------------------------------------

  /** The mean probe of every training set, under its key. */
  function MeanTable(trainingSets: Table<Matrix>): (means: Table<Option<Vector>>)
    ensures Keys(means) == Keys(trainingSets)
  {
    seq(|trainingSets|, i requires 0 <= i < |trainingSets| => (trainingSets[i].0, MeanVector(trainingSets[i].1)))
  }

  /** `calculateMeanValues`: the mean probe of every training set. */
  method CalculateMeanValues(trainingSets: Table<Matrix>) returns (meanAttributesPerClass: Table<Option<Vector>>)
    ensures meanAttributesPerClass == MeanTable(trainingSets)
  {
    meanAttributesPerClass := [];
    for i := 0 to |trainingSets|
      invariant meanAttributesPerClass == MeanTable(trainingSets[..i])
    {
      var means := MeanOfRows(trainingSets[i].1);
      meanAttributesPerClass := meanAttributesPerClass + [(trainingSets[i].0, means)];
    }
    assert trainingSets[..|trainingSets|] == trainingSets;
  }

  // ---------------------------------------------------------------------
  // Covariance and its inverse
  // ---------------------------------------------------------------------

  /** The sum over the first `n` probes of (m[i][p] - mu[i]) * (m[j][p] - mu[j]). */
  function Scatter(m: Matrix, mu: Vector, i: nat, j: nat, n: nat): real
    requires i < |m| && j < |m| && i < |mu| && j < |mu| && n <= |m[i]| && n <= |m[j]|
  {
    if n == 0 then 0.0 else Scatter(m, mu, i, j, n - 1) + (m[i][n - 1] - mu[i]) * (m[j][n - 1] - mu[j])
  }

  /**
   * The covariance matrix of the probes of `m` about `mu`, with divisor
   * n - 1 for n probes. With one probe every entry divides by zero and the
   * matrix is `NaN`; without probes every entry is 0 / -1.
   */
  function Covariance(m: Matrix, mu: Vector): (r: Option<Matrix>)
    requires ProbeMatrix(m) && m != [] && |mu| == |m|
    ensures r.None? <==> ProbeCount(m) == 1
    ensures r.Some? ==> IsMatrix(r.value, |m|, |m|)
  {
    var n := ProbeCount(m);
    if n == 1 then None
    else
      Some(seq(|m|, i requires 0 <= i < |m| =>
        seq(|m|, j requires 0 <= j < |m| => Scatter(m, mu, i, j, n) / ((n - 1) as real))))
  }

  lemma {:induction false} ScatterSymmetric(m: Matrix, mu: Vector, i: nat, j: nat, n: nat)
    requires i < |m| && j < |m| && i < |mu| && j < |mu| && n <= |m[i]| && n <= |m[j]|
    ensures Scatter(m, mu, i, j, n) == Scatter(m, mu, j, i, n)
  {
    if n > 0 {
      ScatterSymmetric(m, mu, i, j, n - 1);
    }
  }

  lemma {:induction false} ScatterOfSquares(m: Matrix, mu: Vector, i: nat, n: nat)
    requires i < |m| && i < |mu| && n <= |m[i]|
    ensures Scatter(m, mu, i, i, n) >= 0.0
  {
    if n > 0 {
      ScatterOfSquares(m, mu, i, n - 1);
      assert (m[i][n - 1] - mu[i]) * (m[i][n - 1] - mu[i]) == Square(m[i][n - 1] - mu[i]);
    }
  }

  /**
   * The covariance matrix is symmetric, and with at least two probes its
   * diagonal (a sum of squares over n - 1) is non-negative.
   */
  lemma CovarianceSymmetric(m: Matrix, mu: Vector)
    requires ProbeMatrix(m) && m != [] && |mu| == |m| && ProbeCount(m) != 1
    ensures var c := Covariance(m, mu).value;
      && (forall i, j | 0 <= i < |m| && 0 <= j < |m| :: c[i][j] == c[j][i])
      && (ProbeCount(m) >= 2 ==> forall i | 0 <= i < |m| :: c[i][i] >= 0.0)
  {
    var c := Covariance(m, mu).value;
    var n := ProbeCount(m);
    forall i, j | 0 <= i < |m| && 0 <= j < |m|
      ensures c[i][j] == c[j][i]
    {
      ScatterSymmetric(m, mu, i, j, n);
    }
    if n >= 2 {
      forall i | 0 <= i < |m|
        ensures c[i][i] >= 0.0
      {
        ScatterOfSquares(m, mu, i, n);
        DivideNonNegative(Scatter(m, mu, i, i, n), (n - 1) as real);
      }
    }
  }

  lemma DivideNonNegative(x: real, y: real)
    requires x >= 0.0 && y > 0.0
    ensures x / y >= 0.0
  {
  }

  /**
   * The matrix stored for one training set: the inverse of its covariance
   * matrix, or, when Jama finds it singular, its pseudoinverse, whose `null`
   * makes `getArray` throw. A set without rows fails on `probesInClass[0]`.
   * A `NaN` covariance matrix inverts to a `NaN` matrix.
   */
  function ClassInverse(m: Matrix, mu: Vector, jama: Jama): (r: Result<Option<Matrix>>)
    requires ProbeMatrix(m) && |mu| == |m| && Sound(jama)
    ensures r.Ok? && r.value.Some? ==> IsMatrix(r.value.value, |m|, |m|)
  {
    if m == [] then Err(IndexOutOfBounds)
    else
      match Covariance(m, mu)
      case None => Ok(None)
      case Some(c) =>
        InverseShape(jama, c, |m|);
        if jama.inverse(c).Some? then Ok(jama.inverse(c))
        else
          match Pseudoinverse(c, |m|, |m|, jama)
          case None => Err(NullPointer)
          case Some(p) => Ok(Some(p))
  }

  lemma InverseShape(jama: Jama, c: Matrix, n: nat)
    requires Sound(jama) && IsMatrix(c, n, n)
    ensures jama.inverse(c).Some? ==> IsMatrix(jama.inverse(c).value, n, n)
  {
  }

  /** The mean the covariance loop reads; a set without probes never reads it. */
  function MeanOrZeros(mean: Option<Vector>, n: nat): Vector {
    if mean.Some? then mean.value else Zeros(n)
  }

  /** Entry `c` of `means` belongs to training set `c` and has one entry per attribute row. */
  predicate MeansFit(means: Table<Option<Vector>>, trainingSets: Table<Matrix>) {
    && |means| == |trainingSets|
    && forall c | 0 <= c < |trainingSets| ::
         ProbeMatrix(trainingSets[c].1) && (means[c].1.Some? ==> |means[c].1.value| == |trainingSets[c].1|)
  }

  /** Entry `c` of `inverses` belongs to training set `c` and is square over its attribute rows. */
  predicate InversesFit(inverses: Table<Option<Matrix>>, trainingSets: Table<Matrix>, n: nat)
    requires n <= |trainingSets|
  {
    && |inverses| == n
    && forall c | 0 <= c < n ::
         inverses[c].0 == trainingSets[c].0
         && (inverses[c].1.Some? ==> IsMatrix(inverses[c].1.value, |trainingSets[c].1|, |trainingSets[c].1|))
  }

  /** The matrices of the first `n` training sets under their keys, or the first failure in key order. */
  function Inverses(trainingSets: Table<Matrix>, means: Table<Option<Vector>>, jama: Jama, n: nat): (r: Result<Table<Option<Matrix>>>)
    requires MeansFit(means, trainingSets) && Sound(jama) && n <= |trainingSets|
    ensures r.Ok? ==> InversesFit(r.value, trainingSets, n)
  {
    if n == 0 then Ok([])
    else
      var front := Inverses(trainingSets, means, jama, n - 1);
      var probes := trainingSets[n - 1].1;
      var last := ClassInverse(probes, MeanOrZeros(means[n - 1].1, |probes|), jama);
      if front.Err? then front
      else if last.Err? then Err(last.error)
      else Ok(front.value + [(trainingSets[n - 1].0, last.value)])
  }

  /** The triple loop of `calculateCovarianceMatrix` for one training set. */
  method CovarianceOf(probesInClass: Matrix, meanValuesForEachAttribute: Vector) returns (covariance: Option<Matrix>)
    requires ProbeMatrix(probesInClass) && probesInClass != [] && |meanValuesForEachAttribute| == |probesInClass|
    ensures covariance == Covariance(probesInClass, meanValuesForEachAttribute)
  {
    var countOfAttributes := |probesInClass|;
    var countOfProbes := |probesInClass[0]|;
    var covarianceMatrix := new real[countOfAttributes, countOfAttributes]((_, _) => 0.0);
    for firstAttributeIterator := 0 to countOfAttributes
      invariant firstAttributeIterator > 0 ==> countOfProbes != 1
      invariant forall i, j | 0 <= i < firstAttributeIterator && 0 <= j < countOfAttributes ::
        covarianceMatrix[i, j] == Covariance(probesInClass, meanValuesForEachAttribute).value[i][j]
    {
      for secondAttributeIterator := 0 to countOfAttributes
        invariant firstAttributeIterator > 0 || secondAttributeIterator > 0 ==> countOfProbes != 1
        invariant forall i, j | 0 <= i < countOfAttributes && 0 <= j < countOfAttributes
                                && (i < firstAttributeIterator || (i == firstAttributeIterator && j < secondAttributeIterator)) ::
          covarianceMatrix[i, j] == Covariance(probesInClass, meanValuesForEachAttribute).value[i][j]
      {
        var covarianceValue := ScatterOf(probesInClass, meanValuesForEachAttribute, firstAttributeIterator, secondAttributeIterator);
        if countOfProbes - 1 == 0 {
          assert Covariance(probesInClass, meanValuesForEachAttribute) == None;
          return None;
        }
        covarianceValue := covarianceValue / ((countOfProbes - 1) as real);
        covarianceMatrix[firstAttributeIterator, secondAttributeIterator] := covarianceValue;
      }
    }
    if countOfAttributes == 0 || countOfProbes == 1 {
      return None;
    }
    covariance := Some(seq(countOfAttributes, i requires 0 <= i < countOfAttributes reads covarianceMatrix =>
      seq(countOfAttributes, j requires 0 <= j < countOfAttributes reads covarianceMatrix => covarianceMatrix[i, j])));
    forall i | 0 <= i < countOfAttributes
      ensures covariance.value[i] == Covariance(probesInClass, meanValuesForEachAttribute).value[i]
    {
      assert forall j | 0 <= j < countOfAttributes ::
        covariance.value[i][j] == Covariance(probesInClass, meanValuesForEachAttribute).value[i][j];
    }
    assert covariance.value == Covariance(probesInClass, meanValuesForEachAttribute).value;
  }

  /** The innermost loop of `calculateCovarianceMatrix`: one entry's sum over the probes. */
  method ScatterOf(probesInClass: Matrix, mu: Vector, i: nat, j: nat) returns (covarianceValue: real)
    requires ProbeMatrix(probesInClass) && i < |probesInClass| && j < |probesInClass| && |mu| == |probesInClass|
    ensures covarianceValue == Scatter(probesInClass, mu, i, j, ProbeCount(probesInClass))
  {
    covarianceValue := 0.0;
    for probeIndex := 0 to |probesInClass[0]|
      invariant covarianceValue == Scatter(probesInClass, mu, i, j, probeIndex)
    {
      covarianceValue := covarianceValue + (probesInClass[i][probeIndex] - mu[i]) * (probesInClass[j][probeIndex] - mu[j]);
    }
  }

  /**
   * The body of `calculateCovarianceMatrix` for one training set: the
   * covariance matrix, then `inverse()`, falling back on the pseudoinverse.
   */
  method InverseOf(probesInClass: Matrix, meanValuesForEachAttribute: Vector, jama: Jama) returns (matrix: Result<Option<Matrix>>)
    requires ProbeMatrix(probesInClass) && |meanValuesForEachAttribute| == |probesInClass| && Sound(jama)
    ensures matrix == ClassInverse(probesInClass, meanValuesForEachAttribute, jama)
  {
    if |probesInClass| == 0 {
      return Err(IndexOutOfBounds);
    }
    var covarianceMatrix := CovarianceOf(probesInClass, meanValuesForEachAttribute);
    if covarianceMatrix.None? {
      return Ok(None);
    }
    var inverse := jama.inverse(covarianceMatrix.value);
    if inverse.Some? {
      return Ok(inverse);
    }
    var pseudoinverse := PseudoinverseMoorePenrose(covarianceMatrix.value, |probesInClass|, |probesInClass|, jama);
    if pseudoinverse.None? {
      return Err(NullPointer);
    }
    return Ok(pseudoinverse);
  }

  /** `calculateCovarianceMatrix`: the stored matrix of every training set, in key order. */
  method CalculateCovarianceMatrix(trainingSets: Table<Matrix>, meanValuesForEachClass: Table<Option<Vector>>, jama: Jama)
    returns (covarianceMatrixesForEachClass: Result<Table<Option<Matrix>>>)
    requires MeansFit(meanValuesForEachClass, trainingSets) && Sound(jama)
    ensures covarianceMatrixesForEachClass == Inverses(trainingSets, meanValuesForEachClass, jama, |trainingSets|)
  {
    var matrixes: Table<Option<Matrix>> := [];
    for c := 0 to |trainingSets|
      invariant Inverses(trainingSets, meanValuesForEachClass, jama, c) == Ok(matrixes)
    {
      var probesInClass := trainingSets[c].1;
      var mu := MeanOrZeros(meanValuesForEachClass[c].1, |probesInClass|);
      var matrix := InverseOf(probesInClass, mu, jama);
      if matrix.Err? {
        FailureSticks(trainingSets, meanValuesForEachClass, jama, c + 1, |trainingSets|);
        return Err(matrix.error);
      }
      matrixes := matrixes + [(trainingSets[c].0, matrix.value)];
    }
    return Ok(matrixes);
  }

  /** A failure on the first `c` training sets is the failure on the first `n`. */
  lemma {:induction false} FailureSticks(trainingSets: Table<Matrix>, means: Table<Option<Vector>>, jama: Jama, c: nat, n: nat)
    requires MeansFit(means, trainingSets) && Sound(jama) && c <= n <= |trainingSets|
    requires Inverses(trainingSets, means, jama, c).Err?
    ensures Inverses(trainingSets, means, jama, n) == Inverses(trainingSets, means, jama, c)
  {
    if c < n {
      FailureSticks(trainingSets, means, jama, c, n - 1);
    }
  }

  // ---------------------------------------------------------------------
  // Classification and scoring
  // ---------------------------------------------------------------------

  /**
   * The distance of probe `x` to a training set:
   * (x - mean) * inverse * (x - mean)^T, `NaN` when the mean or the matrix is.
   */
  function MeanDistance(x: Vector, mean: Option<Vector>, inverse: Option<Matrix>): (d: Option<real>)
    requires mean.Some? ==> |mean.value| == |x|
    requires inverse.Some? ==> IsMatrix(inverse.value, |x|, |x|)
    ensures d.Some? <==> mean.Some? && inverse.Some?
  {
    if mean.None? || inverse.None? then None
    else Some(QuadraticForm(Difference(x, mean.value), inverse.value))
  }

  /**
   * The summaries of the training sets for probes with `attributes`
   * attributes: entry `c` of both tables belongs to the same key.
   */
  predicate Summaries(means: Table<Option<Vector>>, inverses: Table<Option<Matrix>>, attributes: nat) {
    && |means| == |inverses|
    && forall c | 0 <= c < |means| ::
         && means[c].0 == inverses[c].0
         && (means[c].1.Some? ==> |means[c].1.value| == attributes)
         && (inverses[c].1.Some? ==> IsMatrix(inverses[c].1.value, attributes, attributes))
  }

  /** The distance of probe `x` to every training set, under the training keys in key order. */
  function Distances(means: Table<Option<Vector>>, inverses: Table<Option<Matrix>>, x: Vector): (ds: Table<Option<real>>)
    requires Summaries(means, inverses, |x|)
    ensures Keys(ds) == Keys(means)
    ensures forall c | 0 <= c < |ds| :: ds[c].1 == MeanDistance(x, means[c].1, inverses[c].1)
  {
    seq(|means|, c requires 0 <= c < |means| => (means[c].0, MeanDistance(x, means[c].1, inverses[c].1)))
  }

  /** The starting value of the closest-class loop; no class farther than this is chosen. */
  const SmallestDistance: real := 1000000.0

  /** The class predicted for probe `x`: the closest training key, "" when none is below 1000000. */
  function Predict(means: Table<Option<Vector>>, inverses: Table<Option<Matrix>>, x: Vector): string
    requires Summaries(means, inverses, |x|)
  {
    ClosestKey(Distances(means, inverses, x), SmallestDistance)
  }

  /**
   * The nearest-mean rule: no class is predicted iff no training set is
   * within distance 1000000 of the probe; otherwise the predicted key is that
   * of a set within it whose distance is no larger than any other set's and
   * strictly smaller than that of every set before it.
   */
  lemma {:induction false} NearestMeanRule(means: Table<Option<Vector>>, inverses: Table<Option<Matrix>>, x: Vector)
    requires Summaries(means, inverses, |x|)
    ensures (forall c | 0 <= c < |means| :: !Below(MeanDistance(x, means[c].1, inverses[c].1), SmallestDistance))
        ==> Predict(means, inverses, x) == ""
    ensures (exists c | 0 <= c < |means| :: Below(MeanDistance(x, means[c].1, inverses[c].1), SmallestDistance))
        ==> exists c | 0 <= c < |means| ::
              && Predict(means, inverses, x) == means[c].0
              && Below(MeanDistance(x, means[c].1, inverses[c].1), SmallestDistance)
              && (forall c' | 0 <= c' < |means| && MeanDistance(x, means[c'].1, inverses[c'].1).Some? ::
                    MeanDistance(x, means[c].1, inverses[c].1).value <= MeanDistance(x, means[c'].1, inverses[c'].1).value)
              && (forall c' | 0 <= c' < c && MeanDistance(x, means[c'].1, inverses[c'].1).Some? ::
                    MeanDistance(x, means[c].1, inverses[c].1).value < MeanDistance(x, means[c'].1, inverses[c'].1).value)
  {
    var ds := Distances(means, inverses, x);
    ClosestIsFirstStrictMinimum(ds, SmallestDistance);
    var i := Closest(ds, SmallestDistance).0;
    if i >= 0 {
      assert Predict(means, inverses, x) == means[i].0;
    }
  }

  /** The number of probes among the first `n` of one test set whose prediction counts as a success. */
  function SetSuccesses(keyInTestSet: string, testSet: Matrix, n: nat,
                        means: Table<Option<Vector>>, inverses: Table<Option<Matrix>>): (s: nat)
    requires ProbeMatrix(testSet) && n <= ProbeCount(testSet) && Summaries(means, inverses, |testSet|)
    ensures s <= n
  {
    if n == 0 then 0
    else
      SetSuccesses(keyInTestSet, testSet, n - 1, means, inverses)
      + (if IsSuccess(keyInTestSet, Predict(means, inverses, Column(testSet, n - 1))) then 1 else 0)
  }

  /** The number of successes over every probe of every test set, the sets in key order. */
  function TestSuccesses(tests: Table<Matrix>, attributes: nat,
                         means: Table<Option<Vector>>, inverses: Table<Option<Matrix>>): (s: nat)
    requires SameShape(tests, attributes) && Summaries(means, inverses, attributes)
    ensures s <= TotalProbes(tests)
  {
    if tests == [] then 0
    else
      var last := tests[|tests| - 1];
      assert SameShape(tests[..|tests| - 1], attributes);
      TestSuccesses(tests[..|tests| - 1], attributes, means, inverses)
      + SetSuccesses(last.0, last.1, ProbeCount(last.1), means, inverses)
  }

  /** The summaries `train` computes from training sets with `attributes` rows fit together. */
  lemma {:induction false} TrainingSummaries(trainingSets: Table<Matrix>, attributes: nat, jama: Jama)
    requires SameShape(trainingSets, attributes) && Sound(jama)
    ensures MeansFit(MeanTable(trainingSets), trainingSets)
    ensures var inverses := Inverses(trainingSets, MeanTable(trainingSets), jama, |trainingSets|);
      inverses.Ok? ==> Summaries(MeanTable(trainingSets), inverses.value, attributes)
  {
  }

  /**
   * `train` after the split: the percentage of test probes classified
   * correctly against the training sets. A failed covariance step and a test
   * set without attribute rows (`probesInTestSet[0]`) are exceptions; no
   * test probe at all is 0/0.
   */
  function SplitAccuracy(training: Table<Matrix>, tests: Table<Matrix>, attributes: nat, jama: Jama): (r: Result<real>)
    requires SameShape(training, attributes) && SameShape(tests, attributes) && Sound(jama)
    ensures r.Ok? ==> 0.0 <= r.value <= 100.0
  {
    var means := MeanTable(training);
    TrainingSummaries(training, attributes, jama);
    var inverses := Inverses(training, means, jama, |training|);
    if inverses.Err? then Err(inverses.error) else ScoredAccuracy(tests, attributes, means, inverses.value)
  }

  /**
   * The percentage of the probes of `tests` classified correctly by the
   * summaries; a test set without attribute rows fails on `probesInTestSet[0]`.
   */
  function ScoredAccuracy(tests: Table<Matrix>, attributes: nat,
                          means: Table<Option<Vector>>, inverses: Table<Option<Matrix>>): (r: Result<real>)
    requires SameShape(tests, attributes) && Summaries(means, inverses, attributes)
    ensures r.Ok? ==> 0.0 <= r.value <= 100.0
  {
    if tests != [] && attributes == 0 then Err(IndexOutOfBounds)
    else
      var successes := TestSuccesses(tests, attributes, means, inverses);
      Accuracy(successes, TotalProbes(tests) - successes)
  }

  /**
   * `train` on a data set: the sets keep only the selected attributes, which
   * fails when an index misses the rows, and are then split and scored.
   */
  function NmAccuracy(sets: Table<Matrix>, indexesOfBestAttributes: seq<int>, jama: Jama): (r: Result<real>)
    requires ProbeSets(sets) && Sound(jama)
    ensures r.Ok? ==> 0.0 <= r.value <= 100.0
  {
    var extracted := Extracted(sets, indexesOfBestAttributes);
    if extracted.Err? then Err(extracted.error)
    else
      ExtractionKeepsSets(sets, indexesOfBestAttributes);
      SplitKeepsShape(extracted.value, |indexesOfBestAttributes|);
      SplitAccuracy(TrainingSets(extracted.value), TestSets(extracted.value), |indexesOfBestAttributes|, jama)
  }

  /** What `train` does after the split: means, matrices, then the loop over the test sets. */
  method Classify(trainingSets: Table<Matrix>, testSets: Table<Matrix>, keysInTestSets: seq<string>, attributes: nat, jama: Jama)
    returns (accuracy: Result<real>)
    requires SameShape(trainingSets, attributes) && SameShape(testSets, attributes) && Sound(jama)
    requires keysInTestSets == Keys(testSets)
    ensures accuracy == SplitAccuracy(trainingSets, testSets, attributes, jama)
  {
    TrainingSummaries(trainingSets, attributes, jama);
    var meanAttributesPerClass := CalculateMeanValues(trainingSets);
    var covarianceMatrixes := CalculateCovarianceMatrix(trainingSets, meanAttributesPerClass, jama);
    if covarianceMatrixes.Err? {
      return Err(covarianceMatrixes.error);
    }
    var counts := ScoreTestSets(testSets, keysInTestSets, attributes, meanAttributesPerClass, covarianceMatrixes.value);
    if counts.Err? {
      return Err(counts.error);
    }
    SplitAccuracyFromCounts(trainingSets, testSets, attributes, jama, meanAttributesPerClass, covarianceMatrixes.value,
                            counts.value.0, counts.value.1);
    accuracy := Accuracy(counts.value.0, counts.value.1);
  }

  /** Once every test set is scored, the counts give `SplitAccuracy`. */
  lemma SplitAccuracyFromCounts(training: Table<Matrix>, tests: Table<Matrix>, attributes: nat, jama: Jama,
                                means: Table<Option<Vector>>, inverses: Table<Option<Matrix>>,
                                successes: nat, failures: nat)
    requires SameShape(training, attributes) && SameShape(tests, attributes) && Sound(jama)
    requires means == MeanTable(training) && Inverses(training, means, jama, |training|) == Ok(inverses)
    requires Summaries(means, inverses, attributes) && (tests == [] || attributes > 0)
    requires successes == TestSuccesses(tests, attributes, means, inverses)
    requires successes + failures == TotalProbes(tests)
    ensures SplitAccuracy(training, tests, attributes, jama) == Accuracy(successes, failures)
  {
    assert SplitAccuracy(training, tests, attributes, jama) == ScoredAccuracy(tests, attributes, means, inverses);
    ScoredAccuracyFromCounts(tests, attributes, means, inverses, successes, failures);
  }

  /** The counts of the loop over the test sets give `ScoredAccuracy`. */
  lemma ScoredAccuracyFromCounts(tests: Table<Matrix>, attributes: nat,
                                 means: Table<Option<Vector>>, inverses: Table<Option<Matrix>>,
                                 successes: nat, failures: nat)
    requires SameShape(tests, attributes) && Summaries(means, inverses, attributes) && (tests == [] || attributes > 0)
    requires successes == TestSuccesses(tests, attributes, means, inverses)
    requires successes + failures == TotalProbes(tests)
    ensures ScoredAccuracy(tests, attributes, means, inverses) == Accuracy(successes, failures)
  {
    assert failures == TotalProbes(tests) - successes;
  }

  /** The loop over the training keys for one test probe: its distance to every training set. */
  method ProbeDistances(probe: Vector, means: Table<Option<Vector>>, covarianceMatrixes: Table<Option<Matrix>>)
    returns (distanceBetweenProbeAndClassCentroid: Table<Option<real>>)
    requires Summaries(means, covarianceMatrixes, |probe|)
    ensures distanceBetweenProbeAndClassCentroid == Distances(means, covarianceMatrixes, probe)
  {
    distanceBetweenProbeAndClassCentroid := [];
    for c := 0 to |means|
      invariant distanceBetweenProbeAndClassCentroid == Distances(means, covarianceMatrixes, probe)[..c]
    {
      var distanceToSet := MeanDistance(probe, means[c].1, covarianceMatrixes[c].1);
      distanceBetweenProbeAndClassCentroid := distanceBetweenProbeAndClassCentroid + [(means[c].0, distanceToSet)];
    }
  }

  /**
   * The loop over the probes of one test set: each probe is classified and
   * counted once, as a success or as a failure, on top of the counts so far.
   */
  method ScoreTestSet(keyInTestSet: string, probesInTestSet: Matrix,
                      means: Table<Option<Vector>>, covarianceMatrixes: Table<Option<Matrix>>,
                      successesBefore: nat, failuresBefore: nat)
    returns (successes: nat, failures: nat)
    requires ProbeMatrix(probesInTestSet) && probesInTestSet != []
    requires Summaries(means, covarianceMatrixes, |probesInTestSet|)
    ensures successes
         == successesBefore + SetSuccesses(keyInTestSet, probesInTestSet, ProbeCount(probesInTestSet), means, covarianceMatrixes)
    ensures successes + failures == successesBefore + failuresBefore + ProbeCount(probesInTestSet)
  {
    successes, failures := successesBefore, failuresBefore;
    for probeIndexInTestSet := 0 to |probesInTestSet[0]|
      invariant successes
             == successesBefore + SetSuccesses(keyInTestSet, probesInTestSet, probeIndexInTestSet, means, covarianceMatrixes)
      invariant successes + failures == successesBefore + failuresBefore + probeIndexInTestSet
    {
      var probe := GetProbe(probesInTestSet, probeIndexInTestSet);
      assert probe == Column(probesInTestSet, probeIndexInTestSet);
      var distances := ProbeDistances(probe, means, covarianceMatrixes);
      var closestClass := FindClosestClass(distances, SmallestDistance);
      successes, failures := Record(keyInTestSet, closestClass, successes, failures);
    }
  }

  /**
   * The loop of `train` over the test sets, in key order: the success and
   * failure counts over all of them, or the exception of a test set without
   * attribute rows.
   */
  method ScoreTestSets(testSets: Table<Matrix>, keysInTestSets: seq<string>, attributes: nat,
                       means: Table<Option<Vector>>, covarianceMatrixes: Table<Option<Matrix>>)
    returns (counts: Result<(nat, nat)>)
    requires SameShape(testSets, attributes) && Summaries(means, covarianceMatrixes, attributes)
    requires keysInTestSets == Keys(testSets)
    ensures counts.Err? <==> testSets != [] && attributes == 0
    ensures counts.Err? ==> counts.error == IndexOutOfBounds
    ensures counts.Ok? ==>
      var successes := TestSuccesses(testSets, attributes, means, covarianceMatrixes);
      counts.value == (successes, TotalProbes(testSets) - successes)
  {
    var countOfSuccessClassifications: nat := 0;
    var countOfFailedClassifications: nat := 0;
    for t := 0 to |keysInTestSets|
      invariant t > 0 ==> attributes > 0
      invariant SameShape(testSets[..t], attributes)
      invariant countOfSuccessClassifications == TestSuccesses(testSets[..t], attributes, means, covarianceMatrixes)
      invariant countOfSuccessClassifications + countOfFailedClassifications == TotalProbes(testSets[..t])
    {
      TestSetsGrow(testSets, t, attributes, means, covarianceMatrixes);
      var probesInTestSet := testSets[t].1;
      if |probesInTestSet| == 0 {
        return Err(IndexOutOfBounds);
      }
      countOfSuccessClassifications, countOfFailedClassifications :=
        ScoreTestSet(keysInTestSets[t], probesInTestSet, means, covarianceMatrixes,
                     countOfSuccessClassifications, countOfFailedClassifications);
    }
    assert testSets[..|testSets|] == testSets;
    return Ok((countOfSuccessClassifications, countOfFailedClassifications));
  }

  /** The counts over the test sets up to `t + 1`: those up to `t`, then those of set `t`. */
  lemma TestSetsGrow(tests: Table<Matrix>, t: nat, attributes: nat,
                     means: Table<Option<Vector>>, inverses: Table<Option<Matrix>>)
    requires t < |tests| && SameShape(tests, attributes) && Summaries(means, inverses, attributes)
    ensures SameShape(tests[..t], attributes) && SameShape(tests[..t + 1], attributes)
    ensures TotalProbes(tests[..t + 1]) == TotalProbes(tests[..t]) + ProbeCount(tests[t].1)
    ensures TestSuccesses(tests[..t + 1], attributes, means, inverses)
         == TestSuccesses(tests[..t], attributes, means, inverses)
            + SetSuccesses(tests[t].0, tests[t].1, ProbeCount(tests[t].1), means, inverses)
  {
    PrefixGrows(tests, t, attributes);
    assert tests[..t + 1][..t] == tests[..t];
  }

  /**
   * The classifier object. `train` assigns the four fields in its split and
   * leaves them there.
   */
  class NMClassifier {
    var trainingSets: Table<Matrix>
    var testSets: Table<Matrix>
    var keysInTrainingSets: seq<string>
    var keysInTestSets: seq<string>

    constructor ()
      ensures trainingSets == [] && testSets == [] && keysInTrainingSets == [] && keysInTestSets == []
    {
      trainingSets := [];
      testSets := [];
      keysInTrainingSets := [];
      keysInTestSets := [];
    }

    /** `getNamesOfTrainingAndTestSets`: the key fields list the keys of the two maps. */
    method GetNamesOfTrainingAndTestSets()
      modifies this
      ensures trainingSets == old(trainingSets) && testSets == old(testSets)
      ensures keysInTrainingSets == Keys(trainingSets) && keysInTestSets == Keys(testSets)
    {
      keysInTestSets := Keys(testSets);
      keysInTrainingSets := Keys(trainingSets);
    }

    /**
     * `splitPassedSetsIntoTestAndTraining`: a set goes to `testSets` iff its
     * key contains "_test", with its matrix unchanged.
     */
    method SplitPassedSetsIntoTestAndTraining(sets: Table<Matrix>)
      modifies this
      ensures trainingSets == TrainingSets(sets) && testSets == TestSets(sets)
      ensures keysInTrainingSets == Keys(trainingSets) && keysInTestSets == Keys(testSets)
    {
      trainingSets := [];
      testSets := [];
      for i := 0 to |sets|
        invariant trainingSets == TrainingSets(sets[..i]) && testSets == TestSets(sets[..i])
      {
        assert sets[..i + 1][..i] == sets[..i];
        var className := sets[i].0;
        if IsTestKey(className) {
          testSets := testSets + [(className, sets[i].1)];
        } else {
          trainingSets := trainingSets + [(className, sets[i].1)];
        }
      }
      assert sets[..|sets|] == sets;
      GetNamesOfTrainingAndTestSets();
    }

    /**
     * `train`: classifies every test probe by its nearest training mean over
     * the selected attributes and returns the percentage classified
     * correctly. The fields hold the split of the extracted sets, and are
     * untouched when extraction fails before the split.
     */
    method Train(sets: Table<Matrix>, indexesOfBestAttributes: seq<int>, jama: Jama) returns (accuracy: Result<real>)
      requires ProbeSets(sets) && Sound(jama)
      modifies this
      ensures accuracy == NmAccuracy(sets, indexesOfBestAttributes, jama)
      ensures Extracted(sets, indexesOfBestAttributes).Err? ==> unchanged(this)
      ensures Extracted(sets, indexesOfBestAttributes).Ok? ==>
        var extracted := Extracted(sets, indexesOfBestAttributes).value;
        && trainingSets == TrainingSets(extracted) && testSets == TestSets(extracted)
        && keysInTrainingSets == Keys(trainingSets) && keysInTestSets == Keys(testSets)
    {
      var extracted := ExtractSelectedAttributes(sets, indexesOfBestAttributes);
      if extracted.Err? {
        return Err(extracted.error);
      }
      var attributes := |indexesOfBestAttributes|;
      ExtractionKeepsSets(sets, indexesOfBestAttributes);
      SplitKeepsShape(extracted.value, attributes);
      SplitPassedSetsIntoTestAndTraining(extracted.value);
      accuracy := Classify(trainingSets, testSets, keysInTestSets, attributes, jama);
    }
  }
}
