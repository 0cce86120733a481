/**
 * Probe matrices and the column and row helpers shared by the classifiers
 * (src/probesUtilities/MatrixUtilities.java `getProbe`, and the per-row means,
 * row selection and transposition that several classes repeat).
 *
 * A matrix is stored as in the source: rows are attributes, columns are
 * probes, so `m[a][p]` is attribute `a` of probe `p`.
 */
module Matrices {
  import opened Outcomes

  type Vector = seq<real>
  type Matrix = seq<seq<real>>

  /** `m` has `rows` rows of `cols` entries each. */
  predicate IsMatrix(m: Matrix, rows: nat, cols: nat) {
    |m| == rows && forall a | 0 <= a < |m| :: |m[a]| == cols
  }

  /** A `double[][]` that the source may ask for `m[0].length`. */
  predicate Rectangular(m: Matrix) {
    |m| > 0 && IsMatrix(m, |m|, |m[0]|)
  }

  /**
   * A probe matrix as the source builds it: every attribute row has the same
   * length. The source reads the probe count as `m[0].length`.
   */
  predicate ProbeMatrix(m: Matrix) {
    m == [] || IsMatrix(m, |m|, |m[0]|)
  }

  /** The number of probes (columns); a matrix without rows has none. */
  function ProbeCount(m: Matrix): nat {
    if m == [] then 0 else |m[0]|
  }

  /** Probe `p` of `m`: entry `a` is `m[a][p]`. */
  function Column(m: Matrix, p: nat): (v: Vector)
    requires forall a | 0 <= a < |m| :: p < |m[a]|
    ensures |v| == |m| && forall a | 0 <= a < |m| :: v[a] == m[a][p]
  {
    seq(|m|, a requires 0 <= a < |m| => m[a][p])
  }

  /** The `cols` x `|m|` transpose of a `|m|` x `cols` matrix. */
  function Transpose(m: Matrix, cols: nat): (t: Matrix)
    requires IsMatrix(m, |m|, cols)
    ensures IsMatrix(t, cols, |m|)
    ensures forall c, a | 0 <= c < cols && 0 <= a < |m| :: t[c][a] == m[a][c]
  {
    seq(cols, c requires 0 <= c < cols => seq(|m|, a requires 0 <= a < |m| => m[a][c]))
  }

  lemma TransposeTwice(m: Matrix, cols: nat)
    requires IsMatrix(m, |m|, cols)
    ensures Transpose(Transpose(m, cols), |m|) == m
  {
    var t := Transpose(Transpose(m, cols), |m|);
    assert |t| == |m|;
    forall a | 0 <= a < |m|
      ensures t[a] == m[a]
    {
    }
  }

  function Min(a: int, b: int): int {
    if a < b then a else b
  }

  function Max(a: int, b: int): int {
    if a < b then b else a
  }

  function Square(x: real): (r: real)
    ensures r >= 0.0
  {
    x * x
  }

  /** An all-zero vector, the initial content of a fresh `double[n]`. */
  function Zeros(n: nat): (v: Vector)
    ensures |v| == n && forall i | 0 <= i < n :: v[i] == 0.0
  {
    seq(n, _ => 0.0)
  }

  /** The sum of `xs`, accumulated from the left as the source's loops do. */
  function Sum(xs: seq<real>): real {
    if xs == [] then 0.0 else Sum(xs[..|xs| - 1]) + xs[|xs| - 1]
  }

  lemma {:induction false} SumAppend(xs: seq<real>, x: real)
    ensures Sum(xs + [x]) == Sum(xs) + x
  {
    assert (xs + [x])[..|xs|] == xs;
  }

  /** The arithmetic mean of a non-empty row. */
  function Mean(xs: seq<real>): (r: real)
    requires |xs| > 0
    ensures r * (|xs| as real) == Sum(xs)
  {
    Sum(xs) / (|xs| as real)
  }

  /** Every row of `m` is non-empty, so its mean is a number and not NaN. */
  predicate NonEmptyRows(m: Matrix) {
    forall a | 0 <= a < |m| :: |m[a]| > 0
  }

  /** Entry `a` is the mean of row `a`: the mean probe of a probe matrix. */
  function Means(m: Matrix): (v: Vector)
    requires NonEmptyRows(m)
    ensures |v| == |m|
    ensures forall a | 0 <= a < |m| :: v[a] * (|m[a]| as real) == Sum(m[a])
  {
    seq(|m|, a requires 0 <= a < |m| => Mean(m[a]))
  }

  /** The mean probe of a set: `NaN` (`None`) when a row has no probes to divide by. */
  function MeanVector(m: Matrix): (r: Option<Vector>)
    ensures r.None? <==> exists a | 0 <= a < |m| :: |m[a]| == 0
    ensures r.Some? ==> |r.value| == |m| && forall a | 0 <= a < |m| :: r.value[a] * (|m[a]| as real) == Sum(m[a])
  {
    if NonEmptyRows(m) then Some(Means(m)) else None
  }

  /** Row `r` of the result is row `indexes[r]` of `m`. */
  function SelectRows(m: Matrix, indexes: seq<int>): (s: Matrix)
    requires forall r | 0 <= r < |indexes| :: 0 <= indexes[r] < |m|
    ensures |s| == |indexes| && forall r | 0 <= r < |indexes| :: s[r] == m[indexes[r]]
  {
    seq(|indexes|, r requires 0 <= r < |indexes| => m[indexes[r]])
  }

  /**
   * `MatrixUtilities.getProbe`: copies probe `probeIndex` into a fresh array
   * with one entry per attribute row. The matrix itself is a value and cannot
   * change.
   */
  method GetProbe(matrix: Matrix, probeIndex: nat) returns (probe: Vector)
    requires forall a | 0 <= a < |matrix| :: probeIndex < |matrix[a]|
    ensures |probe| == |matrix|
    ensures forall a | 0 <= a < |matrix| :: probe[a] == matrix[a][probeIndex]
  {
    var buffer := new real[|matrix|];
    for attributeIndex := 0 to |matrix|
      invariant forall a | 0 <= a < attributeIndex :: buffer[a] == matrix[a][probeIndex]
    {
      buffer[attributeIndex] := matrix[attributeIndex][probeIndex];
    }
    probe := buffer[..];
  }

  /** The summing loop over one attribute row. */
  method RowSum(row: seq<real>) returns (sum: real)
    ensures sum == Sum(row)
  {
    sum := 0.0;
    for probeIndex := 0 to |row|
      invariant sum == Sum(row[..probeIndex])
    {
      assert row[..probeIndex + 1][..probeIndex] == row[..probeIndex];
      sum := sum + row[probeIndex];
    }
    assert row[..|row|] == row;
  }

  /**
   * The loop over the attribute rows of a probe matrix that divides each
   * row's sum by its length (NMClassifier `calculateMeanValues` for one set,
   * ClusterFinder `calculateMeanValueForMatrix`); `NaN` when a row is empty.
   */
  method MeanOfRows(probes: Matrix) returns (mean: Option<Vector>)
    ensures mean == MeanVector(probes)
  {
    var means := new real[|probes|](_ => 0.0);
    for attributeIndex := 0 to |probes|
      invariant forall a | 0 <= a < attributeIndex :: |probes[a]| > 0 && means[a] == Sum(probes[a]) / (|probes[a]| as real)
    {
      var sum := RowSum(probes[attributeIndex]);
      if |probes[attributeIndex]| == 0 {
        return None;
      }
      means[attributeIndex] := sum / (|probes[attributeIndex]| as real);
    }
    assert means[..] == Means(probes);
    return Some(means[..]);
  }

  /** The entries of a two-dimensional array as a matrix. */
  function Entries(buffer: array2<real>): (m: Matrix)
    reads buffer
    ensures IsMatrix(m, buffer.Length0, buffer.Length1)
    ensures forall a, j | 0 <= a < buffer.Length0 && 0 <= j < buffer.Length1 :: m[a][j] == buffer[a, j]
  {
    seq(buffer.Length0, a requires 0 <= a < buffer.Length0 reads buffer =>
      seq(buffer.Length1, j requires 0 <= j < buffer.Length1 reads buffer => buffer[a, j]))
  }
}
