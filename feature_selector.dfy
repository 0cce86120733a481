/**
 * `FeatureSelector`: sequential forward selection (SFS) of features and the
 * exhaustive search over feature combinations, both driven by a Fisher
 * score, together with the matrix helpers they use.
 *
 * The Fisher scores themselves (determinants, square roots) are parameters:
 * `rowScore` stands for the one-dimensional score of one attribute row of the
 * combined probes, `setScore` for the score of a list of feature indexes.
 * What the model keeps is everything around them: which candidates are
 * scored and in which order, which one wins, and which inputs make the code
 * throw before a score is produced (Jama's `new Matrix(double[][])` reads
 * `A[0].length` and rejects rows of different lengths).
 */
module FeatureSelection {
  import opened Outcomes
  import opened Matrices
  import opened Scoring

  function Pow2(n: nat): (r: nat)
    ensures r > 0
  {
    if n == 0 then 1 else 2 * Pow2(n - 1)
  }

  /** `Double.MIN_VALUE`, the smallest positive double: 2^-1074. */
  const DoubleMinValue: real := 1.0 / (Pow2(1074) as real)

  /** Feature `f` is among the picks in `list`. */
  predicate Picked(list: seq<int>, f: int) {
    f in list
  }

  /** The elements of a list, collected into a set. */
  function Collected(list: seq<int>): set<int> {
    set x | x in list
  }

  // ---------------------------------------------------------------- means

  /** The mean of one attribute row; `NaN` (`None`) for a row without probes, where Java divides 0 by 0. */
  function AttributeMean(row: seq<real>): (mean: Option<real>)
    ensures mean.None? <==> row == []
    ensures mean.Some? ==> mean.value * (|row| as real) == Sum(row)
  {
    if row == [] then None else Some(Sum(row) / (|row| as real))
  }

  /** The mean of every attribute row of one class. */
  function MeanValues(probesInClass: Matrix): seq<Option<real>> {
    seq(|probesInClass|, a requires 0 <= a < |probesInClass| => AttributeMean(probesInClass[a]))
  }

  /** The per-class mean vectors, under the class keys, in the keys' order. */
  function MeanTable(probesGroupedByClass: Table<Matrix>): Table<seq<Option<real>>> {
    seq(|probesGroupedByClass|, i requires 0 <= i < |probesGroupedByClass| =>
      (probesGroupedByClass[i].0, MeanValues(probesGroupedByClass[i].1)))
  }

  /** `calculateMeanValues`: one mean per attribute row, the row's sum over its length. */
  method CalculateMeanValues(probesInClass: Matrix) returns (meanAttributeValues: seq<Option<real>>)
    ensures |meanAttributeValues| == |probesInClass|
    ensures forall a | 0 <= a < |probesInClass| :: meanAttributeValues[a] == AttributeMean(probesInClass[a])
  {
    var means := new Option<real>[|probesInClass|](_ => None);
    for attributeIndex := 0 to |probesInClass|
      invariant forall a | 0 <= a < attributeIndex :: means[a] == AttributeMean(probesInClass[a])
    {
      var sum := RowSum(probesInClass[attributeIndex]);
      if |probesInClass[attributeIndex]| == 0 {
        means[attributeIndex] := None;
      } else {
        means[attributeIndex] := Some(sum / (|probesInClass[attributeIndex]| as real));
      }
    }
    meanAttributeValues := means[..];
  }

  /** `calculateMeanValuesForEachClass`: the mean vector of every class, under its key. */
  method CalculateMeanValuesForEachClass(probesGroupedByClass: Table<Matrix>) returns (meanValuesPerClass: Table<seq<Option<real>>>)
    ensures meanValuesPerClass == MeanTable(probesGroupedByClass)
  {
    meanValuesPerClass := [];
    for i := 0 to |probesGroupedByClass|
      invariant |meanValuesPerClass| == i
      invariant forall c | 0 <= c < i :: meanValuesPerClass[c] == MeanTable(probesGroupedByClass)[c]
    {
      var means := CalculateMeanValues(probesGroupedByClass[i].1);
      assert means == MeanValues(probesGroupedByClass[i].1);
      meanValuesPerClass := meanValuesPerClass + [(probesGroupedByClass[i].0, means)];
    }
  }

  // --------------------------------------------------- Jama construction

  /**
   * Why Jama's `new Matrix(double[][] A)` throws for `m`, if it does: it
   * reads `A[0].length`, and it rejects rows of different lengths.
   */
  function JamaFailure(m: Matrix): (failure: Option<Failure>)
    ensures failure.None? <==> Rectangular(m)
  {
    if m == [] then Some(IndexOutOfBounds)
    else if !IsMatrix(m, |m|, |m[0]|) then Some(IllegalArgument)
    else None
  }

  /**
   * Why `calculateCovarianceMatrix` throws for the probes of one class, if it
   * does: Jama rejects the probe matrix, or the class has no probes, so that
   * `convertVectorToMatrix` asks Jama for a matrix of zero rows.
   */
  function CovarianceFailure(probesInClass: Matrix): (failure: Option<Failure>)
    ensures failure.None? <==> Rectangular(probesInClass) && |probesInClass[0]| > 0
  {
    if JamaFailure(probesInClass).Some? then JamaFailure(probesInClass)
    else if |probesInClass[0]| == 0 then Some(IndexOutOfBounds)
    else None
  }

  /** `calculateCovarianceMatrixForEachClass`: the failure of the first class, in key order, that throws. */
  function FirstCovarianceFailure(probesGroupedByClass: Table<Matrix>): (failure: Option<Failure>)
    ensures failure.None? <==> forall i | 0 <= i < |probesGroupedByClass| :: CovarianceFailure(probesGroupedByClass[i].1).None?
    ensures failure.Some? ==> exists i | 0 <= i < |probesGroupedByClass| :: CovarianceFailure(probesGroupedByClass[i].1) == failure
  {
    if probesGroupedByClass == [] then None
    else if CovarianceFailure(probesGroupedByClass[0].1).Some? then CovarianceFailure(probesGroupedByClass[0].1)
    else
      var rest := FirstCovarianceFailure(probesGroupedByClass[1..]);
      assert forall i | 1 <= i < |probesGroupedByClass| :: probesGroupedByClass[i] == probesGroupedByClass[1..][i - 1];
      rest
  }

  // ------------------------------------------------------------- helpers

  /**
   * `convertVectorToMatrix`: a matrix whose `requiredSize` columns are all
   * `vector`. A negative size cannot be allocated; a zero size leaves Jama
   * without a first row.
   */
  function VectorAsColumns(requiredSize: int, vector: Vector): (r: Result<Matrix>)
    ensures requiredSize < 0 ==> r == Err(NegativeArraySize)
    ensures requiredSize == 0 ==> r == Err(IndexOutOfBounds)
    ensures r.Ok? ==> IsMatrix(r.value, |vector|, requiredSize)
    ensures r.Ok? ==> forall p | 0 <= p < requiredSize :: Column(r.value, p) == vector
  {
    if requiredSize < 0 then Err(NegativeArraySize)
    else if requiredSize == 0 then Err(IndexOutOfBounds)
    else Ok(seq(|vector|, a requires 0 <= a < |vector| => seq(requiredSize, _ => vector[a])))
  }

  method ConvertVectorToMatrix(requiredSize: int, vectorMatrix: Vector) returns (r: Result<Matrix>)
    ensures r == VectorAsColumns(requiredSize, vectorMatrix)
  {
    if requiredSize < 0 {
      return Err(NegativeArraySize);
    }
    var vectorAsMatrix := new Vector[requiredSize](_ => Zeros(|vectorMatrix|));
    for index := 0 to requiredSize
      invariant forall i | 0 <= i < index :: vectorAsMatrix[i] == vectorMatrix
    {
      vectorAsMatrix[index] := vectorMatrix;
    }
    var rows := vectorAsMatrix[..];
    var failure := JamaFailure(rows);
    if failure.Some? {
      return Err(failure.value);
    }
    var t := Transpose(rows, |vectorMatrix|);
    ghost var expected := VectorAsColumns(requiredSize, vectorMatrix).value;
    forall a | 0 <= a < |vectorMatrix|
      ensures t[a] == expected[a]
    {
      assert forall p | 0 <= p < requiredSize :: t[a][p] == rows[p][a] == vectorMatrix[a];
    }
    assert t == expected;
    return Ok(t);
  }

  /** Every index of `required` names one of `n` entries. */
  predicate InRange(required: seq<int>, n: nat) {
    forall i | 0 <= i < |required| :: 0 <= required[i] < n
  }

  /**
   * `extractRequiredFeatures(double[], int[])`: the chosen entries, in the
   * order of `required`, as a one-row matrix.
   */
  function ExtractedEntries<T>(vector: seq<T>, required: seq<int>): (r: Result<seq<seq<T>>>)
    ensures r.Ok? <==> InRange(required, |vector|)
    ensures r.Err? ==> r.error == IndexOutOfBounds
    ensures r.Ok? ==> |r.value| == 1 && |r.value[0]| == |required|
    ensures r.Ok? ==> forall i | 0 <= i < |required| :: r.value[0][i] == vector[required[i]]
  {
    if InRange(required, |vector|) then
      Ok([seq(|required|, i requires 0 <= i < |required| => vector[required[i]])])
    else
      Err(IndexOutOfBounds)
  }

  method ExtractRequiredFeaturesOfVector(matrix: Vector, requiredFeatures: seq<int>) returns (r: Result<Matrix>)
    ensures r == ExtractedEntries(matrix, requiredFeatures)
  {
    var matrixWithOnlyRequiredFeatures := new real[|requiredFeatures|];
    for featureIndex := 0 to |requiredFeatures|
      invariant InRange(requiredFeatures[..featureIndex], |matrix|)
      invariant forall i | 0 <= i < featureIndex :: matrixWithOnlyRequiredFeatures[i] == matrix[requiredFeatures[i]]
    {
      var requiredFeature := requiredFeatures[featureIndex];
      if requiredFeature < 0 || requiredFeature >= |matrix| {
        assert !InRange(requiredFeatures, |matrix|);
        return Err(IndexOutOfBounds);
      }
      matrixWithOnlyRequiredFeatures[featureIndex] := matrix[requiredFeature];
      assert requiredFeatures[..featureIndex + 1] == requiredFeatures[..featureIndex] + [requiredFeature];
    }
    assert requiredFeatures[..|requiredFeatures|] == requiredFeatures;
    r := Ok([matrixWithOnlyRequiredFeatures[..]]);
    assert r.value[0] == ExtractedEntries(matrix, requiredFeatures).value[0];
  }

  /**
   * `extractRequiredFeatures(Matrix, int[])`: the chosen attribute rows of a
   * Jama matrix, in the order of `required`. With no row chosen Jama has no
   * first row to read.
   */
  function ExtractedRows(matrix: Matrix, required: seq<int>): (r: Result<Matrix>)
    requires ProbeMatrix(matrix)
    ensures r.Ok? <==> required != [] && InRange(required, |matrix|)
    ensures r.Err? ==> r.error == IndexOutOfBounds
    ensures r.Ok? ==> |r.value| == |required| && forall i | 0 <= i < |required| :: r.value[i] == matrix[required[i]]
    ensures r.Ok? ==> ProbeMatrix(r.value) && ProbeCount(r.value) == ProbeCount(matrix)
  {
    if required != [] && InRange(required, |matrix|) then Ok(SelectRows(matrix, required)) else Err(IndexOutOfBounds)
  }

  method ExtractRequiredFeatures(matrix: Matrix, requiredFeatures: seq<int>) returns (r: Result<Matrix>)
    requires ProbeMatrix(matrix)
    ensures r == ExtractedRows(matrix, requiredFeatures)
  {
    var matrixWithOnlyRequiredFeatures := new Vector[|requiredFeatures|](_ => Zeros(ProbeCount(matrix)));
    for featureIndex := 0 to |requiredFeatures|
      invariant InRange(requiredFeatures[..featureIndex], |matrix|)
      invariant forall i | 0 <= i < featureIndex :: matrixWithOnlyRequiredFeatures[i] == matrix[requiredFeatures[i]]
    {
      var requiredFeature := requiredFeatures[featureIndex];
      if requiredFeature < 0 || requiredFeature >= |matrix| {
        assert !InRange(requiredFeatures, |matrix|);
        return Err(IndexOutOfBounds);
      }
      matrixWithOnlyRequiredFeatures[featureIndex] := matrix[requiredFeature];
      assert requiredFeatures[..featureIndex + 1] == requiredFeatures[..featureIndex] + [requiredFeature];
    }
    assert requiredFeatures[..|requiredFeatures|] == requiredFeatures;
    var rows := matrixWithOnlyRequiredFeatures[..];
    var failure := JamaFailure(rows);
    if failure.Some? {
      return Err(failure.value);
    }
    r := Ok(rows);
    assert rows == SelectRows(matrix, requiredFeatures);
  }

  /**
   * The two extractions of `computeFisherLD` agree: the chosen entries of a
   * class's mean vector are the means of the class's chosen rows.
   */
  lemma ExtractedMeansAreMeansOfExtractedRows(probesInClass: Matrix, required: seq<int>)
    requires ProbeMatrix(probesInClass)
    requires ExtractedRows(probesInClass, required).Ok?
    ensures ExtractedEntries(MeanValues(probesInClass), required)
      == Ok([MeanValues(ExtractedRows(probesInClass, required).value)])
  {
    var rows := ExtractedRows(probesInClass, required).value;
    var entries := ExtractedEntries(MeanValues(probesInClass), required);
    assert entries.Ok?;
    assert entries.value[0] == MeanValues(rows);
  }

  /**
   * `combineProbesToOneMatrix` on the matrices of the first two classes:
   * both transposed (probes become rows), stacked, and transposed back.
   */
  function CombinedProbes(first: Matrix, second: Matrix): (r: Result<Matrix>)
    ensures r.Ok? <==> Rectangular(first) && Rectangular(second) && |first[0]| > 0 && (|second[0]| == 0 || |second| == |first|)
    ensures r.Ok? ==> IsMatrix(r.value, |first|, |first[0]| + |second[0]|)
    ensures r.Ok? ==> forall a, p | 0 <= a < |first| && 0 <= p < |first[0]| :: r.value[a][p] == first[a][p]
    ensures r.Ok? ==> forall a, q | 0 <= a < |first| && 0 <= q < |second[0]| :: r.value[a][|first[0]| + q] == second[a][q]
  {
    if JamaFailure(first).Some? then Err(JamaFailure(first).value)
    else if JamaFailure(second).Some? then Err(JamaFailure(second).value)
    else if |first[0]| == 0 then Err(IndexOutOfBounds)
    else if |second[0]| > 0 && |second| != |first| then Err(IllegalArgument)
    else if |second[0]| == 0 then Ok(first)
    else Ok(seq(|first|, a requires 0 <= a < |first| => first[a] + second[a]))
  }

  /** Probe `p` of the combined matrix is probe `p` of the first class, then of the second. */
  lemma CombinedColumns(first: Matrix, second: Matrix)
    requires CombinedProbes(first, second).Ok?
    ensures forall p | 0 <= p < |first[0]| :: Column(CombinedProbes(first, second).value, p) == Column(first, p)
    ensures forall q | 0 <= q < |second[0]| :: Column(CombinedProbes(first, second).value, |first[0]| + q) == Column(second, q)
  {
    var c := CombinedProbes(first, second).value;
    forall p | 0 <= p < |first[0]|
      ensures Column(c, p) == Column(first, p)
    {
    }
    forall q | 0 <= q < |second[0]|
      ensures Column(c, |first[0]| + q) == Column(second, q)
    {
    }
  }

  method CombineProbesToOneMatrix(first: Matrix, second: Matrix) returns (combined: Result<Matrix>)
    ensures combined == CombinedProbes(first, second)
  {
    var firstFailure := JamaFailure(first);
    if firstFailure.Some? {
      return Err(firstFailure.value);
    }
    var secondFailure := JamaFailure(second);
    if secondFailure.Some? {
      return Err(secondFailure.value);
    }
    var firstMatrix := Transpose(first, |first[0]|);
    var secondMatrix := Transpose(second, |second[0]|);
    if |firstMatrix| == 0 {
      return Err(IndexOutOfBounds);
    }
    var result := new Vector[|firstMatrix| + |secondMatrix|](_ => Zeros(|firstMatrix[0]|));
    for i := 0 to |firstMatrix|
      invariant forall r | 0 <= r < i :: result[r] == firstMatrix[r]
    {
      result[i] := firstMatrix[i];
    }
    for i := 0 to |secondMatrix|
      invariant forall r | 0 <= r < |firstMatrix| :: result[r] == firstMatrix[r]
      invariant forall r | 0 <= r < i :: result[|firstMatrix| + r] == secondMatrix[r]
    {
      result[|firstMatrix| + i] := secondMatrix[i];
    }
    var rows := result[..];
    assert rows == firstMatrix + secondMatrix;
    var failure := JamaFailure(rows);
    if failure.Some? {
      assert |secondMatrix| > 0 && |secondMatrix[0]| != |firstMatrix[0]|;
      return Err(failure.value);
    }
    assert |secondMatrix| == 0 || |second| == |first|;
    combined := Ok(Transpose(rows, |first|));
    StackedTranspose(first, second, rows);
  }

  lemma StackedTranspose(first: Matrix, second: Matrix, rows: Matrix)
    requires Rectangular(first) && Rectangular(second) && |first[0]| > 0
    requires |second[0]| == 0 || |second| == |first|
    requires rows == Transpose(first, |first[0]|) + Transpose(second, |second[0]|)
    ensures IsMatrix(rows, |rows|, |first|)
    ensures CombinedProbes(first, second) == Ok(Transpose(rows, |first|))
  {
    var n := |first[0]|;
    StackedRows(first, second, rows);
    var t := Transpose(rows, |first|);
    var c := CombinedProbes(first, second).value;
    assert |t| == |c|;
    forall a | 0 <= a < |first|
      ensures t[a] == c[a]
    {
      assert |t[a]| == |c[a]|;
      forall p | 0 <= p < |rows|
        ensures t[a][p] == c[a][p]
      {
        if p >= n {
          assert c[a][n + (p - n)] == second[a][p - n];
        }
      }
    }
    assert t == c;
  }

  /** The stacked rows: the probes of the first class, then those of the second. */
  lemma StackedRows(first: Matrix, second: Matrix, rows: Matrix)
    requires Rectangular(first) && Rectangular(second) && |first[0]| > 0
    requires |second[0]| == 0 || |second| == |first|
    requires rows == Transpose(first, |first[0]|) + Transpose(second, |second[0]|)
    ensures |rows| == |first[0]| + |second[0]|
    ensures IsMatrix(rows, |rows|, |first|)
    ensures forall p, a | 0 <= p < |first[0]| && 0 <= a < |first| :: rows[p][a] == first[a][p]
    ensures forall p, a | |first[0]| <= p < |rows| && 0 <= a < |first| :: rows[p][a] == second[a][p - |first[0]|]
  {
    var n := |first[0]|;
    var f := Transpose(first, n);
    var g := Transpose(second, |second[0]|);
    assert forall p | 0 <= p < n :: rows[p] == f[p];
    assert forall p | n <= p < |rows| :: rows[p] == g[p - n];
  }

  // ------------------------------------------------------------ searches

  /**
   * The running best of a scan over candidates `0..k` that replaces its best
   * only on a strictly greater score: the index and score of the best
   * candidate so far, `(-1, threshold)` while none beats the threshold. A
   * `None` score is a candidate the scan skips.
   */
  function Leader(scores: seq<Option<real>>, threshold: real, k: nat): (best: (int, real))
    requires k <= |scores|
    ensures best.0 == -1 || 0 <= best.0 < k
  {
    if k == 0 then (-1, threshold)
    else
      var m := k - 1;
      var previous := Leader(scores, threshold, m);
      if scores[m].Some? && scores[m].value > previous.1 then (m, scores[m].value) else previous
  }

  /**
   * The scan finds the earliest candidate with the greatest score, provided
   * that score beats the threshold; otherwise it keeps -1.
   */
  lemma {:induction false} LeaderIsFirstStrictMaximum(scores: seq<Option<real>>, threshold: real, k: nat)
    requires k <= |scores|
    ensures var (i, s) := Leader(scores, threshold, k);
      && (i == -1 <==> forall r | 0 <= r < k :: scores[r].None? || scores[r].value <= threshold)
      && (i == -1 ==> s == threshold)
      && (i != -1 ==> scores[i] == Some(s) && s > threshold)
      && (forall r | 0 <= r < k && scores[r].Some? :: scores[r].value <= s)
      && (forall r | 0 <= r < i && scores[r].Some? :: scores[r].value < s)
  {
    if k > 0 {
      var m := k - 1;
      LeaderIsFirstStrictMaximum(scores, threshold, m);
    }
  }

  /** Why `computeFisherLD(double[], int[], int[])` throws for one attribute row. */
  predicate RowScoreFails(row: Vector, classLabels: seq<int>, sampleCount: seq<int>) {
    |classLabels| < |row| || |sampleCount| < 2
  }

  /** The scores of the first SFS round: every attribute row of the combined probes on its own. */
  function FirstScores(combined: Matrix, rowScore: Vector -> real): seq<Option<real>> {
    seq(|combined|, i requires 0 <= i < |combined| => Some(rowScore(combined[i])))
  }

  /** The first SFS pick: the scan over the attribute rows, from index -1 and a score of 0. */
  function FirstPick(combined: Matrix, classLabels: seq<int>, sampleCount: seq<int>, rowScore: Vector -> real): Result<int> {
    if exists i | 0 <= i < |combined| :: RowScoreFails(combined[i], classLabels, sampleCount) then Err(IndexOutOfBounds)
    else Ok(Leader(FirstScores(combined, rowScore), 0.0, |combined|).0)
  }

  /**
   * The first pick is the earliest attribute with the strictly greatest
   * positive score, and -1 when no score is positive.
   */
  lemma FirstPickIsEarliestBest(combined: Matrix, classLabels: seq<int>, sampleCount: seq<int>, rowScore: Vector -> real)
    ensures var pick := FirstPick(combined, classLabels, sampleCount, rowScore);
      && (pick.Err? <==> |combined| > 0 && (|sampleCount| < 2 || exists i | 0 <= i < |combined| :: |classLabels| < |combined[i]|))
      && (pick.Ok? ==> (pick.value == -1 <==> forall i | 0 <= i < |combined| :: rowScore(combined[i]) <= 0.0))
      && (pick.Ok? && pick.value != -1 ==>
            && 0 <= pick.value < |combined|
            && rowScore(combined[pick.value]) > 0.0
            && (forall i | 0 <= i < |combined| :: rowScore(combined[i]) <= rowScore(combined[pick.value]))
            && (forall i | 0 <= i < pick.value :: rowScore(combined[i]) < rowScore(combined[pick.value])))
  {
    var scores := FirstScores(combined, rowScore);
    LeaderIsFirstStrictMaximum(scores, 0.0, |combined|);
    assert forall i | 0 <= i < |combined| :: scores[i] == Some(rowScore(combined[i]));
    if |combined| > 0 && |sampleCount| < 2 {
      assert RowScoreFails(combined[0], classLabels, sampleCount);
    }
  }

  /**
   * The feature indexes that `computeFisherLD(int[], Map)` can extract from
   * every class: without any, Jama gets no first row; an index outside a
   * class's attribute rows is out of bounds.
   */
  predicate Extractable(featureIndexes: seq<int>, probesGroupedByClass: Table<Matrix>) {
    featureIndexes != [] && forall c | 0 <= c < |probesGroupedByClass| :: InRange(featureIndexes, |probesGroupedByClass[c].1|)
  }

  /** The scores of a later SFS round: each feature not yet picked, appended to the picks. */
  function RoundScores(featureCount: nat, setScore: seq<int> -> real, picks: seq<int>): seq<Option<real>> {
    seq(featureCount, j requires 0 <= j < featureCount => if j in picks then None else Some(setScore(picks + [j])))
  }

  /** One later SFS round: the scan over the features not yet picked, from -1 and `Double.MIN_VALUE`. */
  function NextPick(probesGroupedByClass: Table<Matrix>, featureCount: nat, setScore: seq<int> -> real, picks: seq<int>): Result<int> {
    if exists j | 0 <= j < featureCount :: j !in picks && !Extractable(picks + [j], probesGroupedByClass) then Err(IndexOutOfBounds)
    else Ok(Leader(RoundScores(featureCount, setScore, picks), DoubleMinValue, featureCount).0)
  }

  /**
   * A later pick is a feature not picked before whose score beats
   * `Double.MIN_VALUE`, the earliest with the greatest score; it stays -1
   * when no new feature scores above `Double.MIN_VALUE`.
   */
  lemma NextPickIsBestNewFeature(probesGroupedByClass: Table<Matrix>, featureCount: nat, setScore: seq<int> -> real, picks: seq<int>)
    ensures var pick := NextPick(probesGroupedByClass, featureCount, setScore, picks);
      && (pick.Ok? ==> (pick.value == -1 <==>
            forall j | 0 <= j < featureCount && j !in picks :: setScore(picks + [j]) <= DoubleMinValue))
      && (pick.Ok? && pick.value != -1 ==>
            && 0 <= pick.value < featureCount && pick.value !in picks
            && setScore(picks + [pick.value]) > DoubleMinValue
            && (forall j | 0 <= j < featureCount && j !in picks :: setScore(picks + [j]) <= setScore(picks + [pick.value]))
            && (forall j | 0 <= j < pick.value && j !in picks :: setScore(picks + [j]) < setScore(picks + [pick.value])))
  {
    var scores := RoundScores(featureCount, setScore, picks);
    LeaderIsFirstStrictMaximum(scores, DoubleMinValue, featureCount);
    assert forall j | 0 <= j < featureCount :: scores[j] == if j in picks then None else Some(setScore(picks + [j]));
  }

  /**
   * Once a -1 placeholder is among the picks, the next round throws as soon
   * as a feature is left to try: the placeholder becomes an index into the
   * class matrices.
   */
  lemma PlaceholderBreaksNextRound(probesGroupedByClass: Table<Matrix>, featureCount: nat, setScore: seq<int> -> real, picks: seq<int>, j: nat)
    requires |probesGroupedByClass| > 0
    requires -1 in picks
    requires j < featureCount && j !in picks
    ensures NextPick(probesGroupedByClass, featureCount, setScore, picks) == Err(IndexOutOfBounds)
  {
    var i :| 0 <= i < |picks| && picks[i] == -1;
    assert (picks + [j])[i] == -1;
    assert !InRange(picks + [j], |probesGroupedByClass[0].1|);
  }

  /** The SFS list after `count` rounds: the first pick, then one pick per later round. */
  function Picks(probesGroupedByClass: Table<Matrix>, featureCount: nat, setScore: seq<int> -> real, first: int, count: nat)
    : Result<seq<int>>
    requires count >= 1
    decreases count
  {
    if count == 1 then Ok([first])
    else
      var m := count - 1;
      var previous := Picks(probesGroupedByClass, featureCount, setScore, first, m);
      if previous.Err? then previous
      else
        var next := NextPick(probesGroupedByClass, featureCount, setScore, previous.value);
        if next.Err? then Err(next.error) else Ok(previous.value + [next.value])
  }

  /** One more round appends its pick, or ends the selection with its exception. */
  lemma PicksStep(probesGroupedByClass: Table<Matrix>, featureCount: nat, setScore: seq<int> -> real, first: int, count: nat, list: seq<int>)
    requires count >= 1
    requires Picks(probesGroupedByClass, featureCount, setScore, first, count) == Ok(list)
    ensures var next := NextPick(probesGroupedByClass, featureCount, setScore, list);
      Picks(probesGroupedByClass, featureCount, setScore, first, count + 1)
        == if next.Err? then Err(next.error) else Ok(list + [next.value])
  {
  }

  /** A round that throws ends the selection: later rounds are never run. */
  lemma {:induction false} PicksFailureStays(probesGroupedByClass: Table<Matrix>, featureCount: nat, setScore: seq<int> -> real, first: int,
                                             failed: nat, count: nat)
    requires 1 <= failed <= count
    requires Picks(probesGroupedByClass, featureCount, setScore, first, failed).Err?
    ensures Picks(probesGroupedByClass, featureCount, setScore, first, count) == Picks(probesGroupedByClass, featureCount, setScore, first, failed)
    decreases count
  {
    if count > failed {
      var m := count - 1;
      PicksFailureStays(probesGroupedByClass, featureCount, setScore, first, failed, m);
    }
  }

  /** Entry `i` of the list is the pick of round `i`, made against the entries before it. */
  lemma {:induction false} PicksAreRounds(probesGroupedByClass: Table<Matrix>, featureCount: nat, setScore: seq<int> -> real, first: int, count: nat)
    requires count >= 1
    ensures var picks := Picks(probesGroupedByClass, featureCount, setScore, first, count);
      picks.Ok? ==>
        && |picks.value| == count
        && picks.value[0] == first
        && forall i | 1 <= i < count :: NextPick(probesGroupedByClass, featureCount, setScore, picks.value[..i]) == Ok(picks.value[i])
  {
    if count > 1 {
      var m := count - 1;
      PicksAreRounds(probesGroupedByClass, featureCount, setScore, first, m);
      var previous := Picks(probesGroupedByClass, featureCount, setScore, first, m);
      if previous.Ok? {
        var next := NextPick(probesGroupedByClass, featureCount, setScore, previous.value);
        if next.Ok? {
          var list := previous.value + [next.value];
          assert list[..m] == previous.value;
          forall i | 1 <= i < count
            ensures NextPick(probesGroupedByClass, featureCount, setScore, list[..i]) == Ok(list[i])
          {
            if i < m {
              assert list[..i] == previous.value[..i];
            }
          }
        }
      }
    }
  }

  /**
   * `selectBestFeatureIndexesUsingSFS` up to the set conversion: the list of
   * picks, one per round, or the exception that ends the selection. A
   * negative count is a negative list capacity; an empty map has no first key
   * to read the feature count from; a single class has no second class to
   * combine with.
   */
  function SfsList(probesGroupedByClass: Table<Matrix>, numberOfFeaturesToSelect: int, classLabels: seq<int>, sampleCount: seq<int>,
                   rowScore: Vector -> real, setScore: seq<int> -> real): Result<seq<int>>
  {
    if numberOfFeaturesToSelect < 0 then Err(IllegalArgument)
    else if FirstCovarianceFailure(probesGroupedByClass).Some? then Err(FirstCovarianceFailure(probesGroupedByClass).value)
    else if probesGroupedByClass == [] then Err(NoSuchElement)
    else if |probesGroupedByClass| < 2 then Err(IndexOutOfBounds)
    else
      var combined := CombinedProbes(probesGroupedByClass[0].1, probesGroupedByClass[1].1);
      if combined.Err? then Err(combined.error)
      else
        var first := FirstPick(combined.value, classLabels, sampleCount, rowScore);
        if first.Err? then Err(first.error)
        else
          var rounds := if numberOfFeaturesToSelect < 1 then 1 else numberOfFeaturesToSelect;
          Picks(probesGroupedByClass, |combined.value|, setScore, first.value, rounds)
  }

  /**
   * The SFS list has one entry per requested feature (one when none is
   * requested, since the first pick is always added); every entry is a
   * feature index or the -1 placeholder; no feature is picked twice; and a
   * placeholder is followed by further rounds only when every feature had
   * already been picked.
   */
  lemma SfsListPicksDistinctFeatures(probesGroupedByClass: Table<Matrix>, numberOfFeaturesToSelect: int, classLabels: seq<int>,
                                     sampleCount: seq<int>, rowScore: Vector -> real, setScore: seq<int> -> real)
    ensures var list := SfsList(probesGroupedByClass, numberOfFeaturesToSelect, classLabels, sampleCount, rowScore, setScore);
      list.Ok? ==>
        && |probesGroupedByClass| >= 2
        && |list.value| == (if numberOfFeaturesToSelect < 1 then 1 else numberOfFeaturesToSelect)
        && (forall i | 0 <= i < |list.value| :: -1 <= list.value[i] < |probesGroupedByClass[0].1|)
        && (forall i, j | 0 <= i < j < |list.value| && list.value[j] != -1 :: list.value[i] != list.value[j])
        && (forall j, f | 1 <= j < |list.value| && list.value[j - 1] == -1 && 0 <= f < |probesGroupedByClass[0].1| ::
              Picked(list.value[..j], f))
  {
    var list := SfsList(probesGroupedByClass, numberOfFeaturesToSelect, classLabels, sampleCount, rowScore, setScore);
    if list.Ok? {
      var combined := CombinedProbes(probesGroupedByClass[0].1, probesGroupedByClass[1].1).value;
      var featureCount := |combined|;
      var first := FirstPick(combined, classLabels, sampleCount, rowScore).value;
      var rounds := if numberOfFeaturesToSelect < 1 then 1 else numberOfFeaturesToSelect;
      FirstPickIsEarliestBest(combined, classLabels, sampleCount, rowScore);
      PicksAreRounds(probesGroupedByClass, featureCount, setScore, first, rounds);
      var picks := list.value;
      forall j | 1 <= j < |picks|
        ensures -1 <= picks[j] < featureCount
        ensures picks[j] != -1 ==> picks[j] !in picks[..j]
      {
        NextPickIsBestNewFeature(probesGroupedByClass, featureCount, setScore, picks[..j]);
      }
      forall i, j | 0 <= i < j < |picks| && picks[j] != -1
        ensures picks[i] != picks[j]
      {
        assert picks[i] == picks[..j][i];
      }
      forall j, f | 1 <= j < |picks| && picks[j - 1] == -1 && 0 <= f < featureCount
        ensures Picked(picks[..j], f)
      {
        assert picks[..j][j - 1] == -1;
        if f !in picks[..j] {
          PlaceholderBreaksNextRound(probesGroupedByClass, featureCount, setScore, picks[..j], f);
        }
      }
    }
  }

  /** `selectBestFeatureIndexesUsingSFS`: the SFS list, collected into a set. */
  function SfsSelection(probesGroupedByClass: Table<Matrix>, numberOfFeaturesToSelect: int, classLabels: seq<int>, sampleCount: seq<int>,
                        rowScore: Vector -> real, setScore: seq<int> -> real): Result<set<int>>
  {
    var list := SfsList(probesGroupedByClass, numberOfFeaturesToSelect, classLabels, sampleCount, rowScore, setScore);
    if list.Err? then Err(list.error) else Ok(Collected(list.value))
  }

  /** The scores of the exhaustive search: one per combination, in the iterator's order. */
  function CombinationScores(combinations: seq<seq<int>>, setScore: seq<int> -> real): seq<Option<real>> {
    seq(|combinations|, c requires 0 <= c < |combinations| => Some(setScore(combinations[c])))
  }

  /**
   * `findBestAttributes`: the first combination with the strictly greatest
   * score above `Double.MIN_VALUE`, as a set. `Combinations(n, k)` rejects a
   * `k` outside `0..n`; when no combination beats `Double.MIN_VALUE` the best
   * array stays `null`, which `IntStream.of` dereferences.
   */
  function BestCombination(probesGroupedByClass: Table<Matrix>, numberOfAttributes: int, combinations: seq<seq<int>>,
                           setScore: seq<int> -> real): Result<set<int>>
  {
    if |probesGroupedByClass| < 2 then Err(IndexOutOfBounds)
    else
      var combined := CombinedProbes(probesGroupedByClass[0].1, probesGroupedByClass[1].1);
      if combined.Err? then Err(combined.error)
      else if numberOfAttributes < 0 || numberOfAttributes > |combined.value| then Err(IllegalArgument)
      else if exists c | 0 <= c < |combinations| :: !Extractable(combinations[c], probesGroupedByClass) then Err(IndexOutOfBounds)
      else
        var best := Leader(CombinationScores(combinations, setScore), DoubleMinValue, |combinations|).0;
        if best == -1 then Err(NullPointer) else Ok(Collected(combinations[best]))
  }

  /**
   * The search returns the features of the earliest combination with the
   * greatest score, which beats `Double.MIN_VALUE`; it fails on the `null`
   * array exactly when no combination does.
   */
  lemma BestCombinationIsFirstMaximum(probesGroupedByClass: Table<Matrix>, numberOfAttributes: int, combinations: seq<seq<int>>,
                                      setScore: seq<int> -> real)
    ensures var best := BestCombination(probesGroupedByClass, numberOfAttributes, combinations, setScore);
      && (best == Err(NullPointer) <==>
            && |probesGroupedByClass| >= 2
            && CombinedProbes(probesGroupedByClass[0].1, probesGroupedByClass[1].1).Ok?
            && 0 <= numberOfAttributes <= |CombinedProbes(probesGroupedByClass[0].1, probesGroupedByClass[1].1).value|
            && (forall c | 0 <= c < |combinations| :: Extractable(combinations[c], probesGroupedByClass))
            && (forall c | 0 <= c < |combinations| :: setScore(combinations[c]) <= DoubleMinValue))
      && (best.Ok? ==> exists c | 0 <= c < |combinations| ::
            && best.value == Collected(combinations[c])
            && setScore(combinations[c]) > DoubleMinValue
            && (forall d | 0 <= d < |combinations| :: setScore(combinations[d]) <= setScore(combinations[c]))
            && (forall d | 0 <= d < c :: setScore(combinations[d]) < setScore(combinations[c])))
  {
    var scores := CombinationScores(combinations, setScore);
    LeaderIsFirstStrictMaximum(scores, DoubleMinValue, |combinations|);
    assert forall c | 0 <= c < |combinations| :: scores[c] == Some(setScore(combinations[c]));
    var best := BestCombination(probesGroupedByClass, numberOfAttributes, combinations, setScore);
    if best.Ok? {
      var c := Leader(scores, DoubleMinValue, |combinations|).0;
      assert best.value == Collected(combinations[c]);
    }
  }

  /** `getBestAttribtesUsingFisher` up to its field updates: the covariance step first, then the search. */
  function FisherSelection(probesGroupedByClass: Table<Matrix>, numberOfAttributes: int, combinations: seq<seq<int>>,
                           setScore: seq<int> -> real): Result<set<int>>
  {
    if FirstCovarianceFailure(probesGroupedByClass).Some? then Err(FirstCovarianceFailure(probesGroupedByClass).value)
    else BestCombination(probesGroupedByClass, numberOfAttributes, combinations, setScore)
  }

  // ------------------------------------------------------------- loops

  /** The first SFS loop (one score per attribute row of the combined probes). */
  method FindFirstPick(combinedProbes: Matrix, classLabels: seq<int>, sampleCount: seq<int>, rowScore: Vector -> real)
    returns (bestFeatureIndex: Result<int>)
    ensures bestFeatureIndex == FirstPick(combinedProbes, classLabels, sampleCount, rowScore)
  {
    var best := (-1, 0.0);
    for i := 0 to |combinedProbes|
      invariant best == Leader(FirstScores(combinedProbes, rowScore), 0.0, i)
      invariant forall r | 0 <= r < i :: !RowScoreFails(combinedProbes[r], classLabels, sampleCount)
    {
      if RowScoreFails(combinedProbes[i], classLabels, sampleCount) {
        return Err(IndexOutOfBounds);
      }
      var tmp := rowScore(combinedProbes[i]);
      assert FirstScores(combinedProbes, rowScore)[i] == Some(tmp);
      if tmp > best.1 {
        best := (i, tmp);
      }
    }
    return Ok(best.0);
  }

  /**
   * One later SFS round: a -1 placeholder is appended and overwritten by
   * every candidate that beats the best score so far; a feature already in
   * the list is skipped.
   */
  method FindNextPick(probesGroupedByClass: Table<Matrix>, featureCount: nat, setScore: seq<int> -> real, picks: seq<int>)
    returns (pick: Result<int>)
    ensures pick == NextPick(probesGroupedByClass, featureCount, setScore, picks)
  {
    var i := |picks|;
    var bestFeatureIndexes := picks + [-1];
    var best := (-1, DoubleMinValue);
    for j := 0 to featureCount
      invariant best == Leader(RoundScores(featureCount, setScore, picks), DoubleMinValue, j)
      invariant bestFeatureIndexes == picks + [best.0]
      invariant forall c | 0 <= c < j && c !in picks :: Extractable(picks + [c], probesGroupedByClass)
    {
      assert RoundScores(featureCount, setScore, picks)[j] == if j in picks then None else Some(setScore(picks + [j]));
      if j !in bestFeatureIndexes {
        var featureIndexes := bestFeatureIndexes[..i] + [j];
        assert featureIndexes == picks + [j];
        if !Extractable(featureIndexes, probesGroupedByClass) {
          return Err(IndexOutOfBounds);
        }
        var tmp := setScore(featureIndexes);
        if tmp > best.1 {
          best := (j, tmp);
          bestFeatureIndexes := bestFeatureIndexes[i := j];
        }
      } else {
        assert j in picks;
      }
    }
    return Ok(best.0);
  }

  /** The loop of `findBestAttributes` over the combinations, from a `null` best and `Double.MIN_VALUE`. */
  method FindBestAttributes(probesGroupedByClass: Table<Matrix>, numberOfAttributes: int, combinations: seq<seq<int>>,
                            setScore: seq<int> -> real)
    returns (bestAttributes: Result<set<int>>)
    ensures bestAttributes == BestCombination(probesGroupedByClass, numberOfAttributes, combinations, setScore)
  {
    if |probesGroupedByClass| < 2 {
      return Err(IndexOutOfBounds);
    }
    var combinedProbes := CombineProbesToOneMatrix(probesGroupedByClass[0].1, probesGroupedByClass[1].1);
    if combinedProbes.Err? {
      return Err(combinedProbes.error);
    }
    if numberOfAttributes < 0 || numberOfAttributes > |combinedProbes.value| {
      return Err(IllegalArgument);
    }
    var bestFeatureIndexes: Option<seq<int>> := None;
    var best := (-1, DoubleMinValue);
    for c := 0 to |combinations|
      invariant best == Leader(CombinationScores(combinations, setScore), DoubleMinValue, c)
      invariant bestFeatureIndexes == if best.0 == -1 then None else Some(combinations[best.0])
      invariant forall d | 0 <= d < c :: Extractable(combinations[d], probesGroupedByClass)
    {
      if !Extractable(combinations[c], probesGroupedByClass) {
        return Err(IndexOutOfBounds);
      }
      var tmp := setScore(combinations[c]);
      assert CombinationScores(combinations, setScore)[c] == Some(tmp);
      if tmp > best.1 {
        best := (c, tmp);
        bestFeatureIndexes := Some(combinations[c]);
      }
    }
    if bestFeatureIndexes.None? {
      return Err(NullPointer);
    }
    return Ok(Collected(bestFeatureIndexes.value));
  }

  /**
   * The selector. `classNames` and `meanValuesPerClass` are the fields the
   * two selections assign (both are `null` before the first selection, here
   * empty); the covariance matrices of the classes are left out, only the
   * exceptions their computation throws are kept.
   */
  class FeatureSelector {
    var classNames: seq<string>
    var meanValuesPerClass: Table<seq<Option<real>>>

    constructor()
      ensures classNames == [] && meanValuesPerClass == []
    {
      classNames := [];
      meanValuesPerClass := [];
    }

    /** `getBestAttribtesUsingFisher`. */
    method GetBestAttributesUsingFisher(probesGroupedByClass: Table<Matrix>, numberOfAttributes: int, combinations: seq<seq<int>>,
                                        setScore: seq<int> -> real)
      returns (bestAttributeIndexes: Result<set<int>>)
      modifies this
      ensures classNames == Keys(probesGroupedByClass)
      ensures meanValuesPerClass == MeanTable(probesGroupedByClass)
      ensures bestAttributeIndexes == FisherSelection(probesGroupedByClass, numberOfAttributes, combinations, setScore)
    {
      classNames := Keys(probesGroupedByClass);
      meanValuesPerClass := CalculateMeanValuesForEachClass(probesGroupedByClass);
      var covarianceFailure := FirstCovarianceFailure(probesGroupedByClass);
      if covarianceFailure.Some? {
        return Err(covarianceFailure.value);
      }
      bestAttributeIndexes := FindBestAttributes(probesGroupedByClass, numberOfAttributes, combinations, setScore);
    }

    /**
     * `selectBestFeatureIndexesUsingSFS`: the first pick, then one round per
     * further feature, each appending its pick (or -1) to the list; the list
     * is returned as a set.
     */
    method SelectBestFeatureIndexesUsingSFS(probesGroupedByClass: Table<Matrix>, numberOfFeaturesToSelect: int,
                                            classLabels: seq<int>, sampleCount: seq<int>,
                                            rowScore: Vector -> real, setScore: seq<int> -> real)
      returns (bestFeatures: Result<set<int>>)
      modifies this
      ensures numberOfFeaturesToSelect < 0 ==> classNames == old(classNames) && meanValuesPerClass == old(meanValuesPerClass)
      ensures numberOfFeaturesToSelect >= 0 ==> classNames == Keys(probesGroupedByClass)
      ensures numberOfFeaturesToSelect >= 0 ==> meanValuesPerClass == MeanTable(probesGroupedByClass)
      ensures bestFeatures == SfsSelection(probesGroupedByClass, numberOfFeaturesToSelect, classLabels, sampleCount, rowScore, setScore)
    {
      if numberOfFeaturesToSelect < 0 {
        return Err(IllegalArgument);
      }
      classNames := Keys(probesGroupedByClass);
      meanValuesPerClass := CalculateMeanValuesForEachClass(probesGroupedByClass);
      var covarianceFailure := FirstCovarianceFailure(probesGroupedByClass);
      if covarianceFailure.Some? {
        return Err(covarianceFailure.value);
      }
      if probesGroupedByClass == [] {
        return Err(NoSuchElement);
      }
      if |classNames| < 2 {
        return Err(IndexOutOfBounds);
      }
      var combinedProbes := CombineProbesToOneMatrix(probesGroupedByClass[0].1, probesGroupedByClass[1].1);
      if combinedProbes.Err? {
        return Err(combinedProbes.error);
      }
      var first := FindFirstPick(combinedProbes.value, classLabels, sampleCount, rowScore);
      if first.Err? {
        return Err(first.error);
      }
      bestFeatures := SelectFurtherFeatures(probesGroupedByClass, numberOfFeaturesToSelect, |combinedProbes.value|, setScore, first.value);
    }
  }

  /** The rounds of SFS after the first pick, and the conversion of the list into a set. */
  method SelectFurtherFeatures(probesGroupedByClass: Table<Matrix>, numberOfFeaturesToSelect: int, featureCount: nat,
                               setScore: seq<int> -> real, first: int)
    returns (bestFeatures: Result<set<int>>)
    ensures var rounds := if numberOfFeaturesToSelect < 1 then 1 else numberOfFeaturesToSelect;
      var list := Picks(probesGroupedByClass, featureCount, setScore, first, rounds);
      bestFeatures == if list.Err? then Err(list.error) else Ok(Collected(list.value))
  {
    var bestFeatureIndexes := [first];
    var i := 1;
    while i < numberOfFeaturesToSelect
      invariant 1 <= i && (i <= numberOfFeaturesToSelect || i == 1)
      invariant Picks(probesGroupedByClass, featureCount, setScore, first, i) == Ok(bestFeatureIndexes)
    {
      var next := FindNextPick(probesGroupedByClass, featureCount, setScore, bestFeatureIndexes);
      PicksStep(probesGroupedByClass, featureCount, setScore, first, i, bestFeatureIndexes);
      if next.Err? {
        PicksFailureStays(probesGroupedByClass, featureCount, setScore, first, i + 1, numberOfFeaturesToSelect);
        return Err(next.error);
      }
      bestFeatureIndexes := bestFeatureIndexes + [next.value];
      i := i + 1;
    }
    return Ok(Collected(bestFeatureIndexes));
  }
}
