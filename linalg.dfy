/**
 * The Jama operations the classifiers rely on, and
 * src/probesUtilities/MatrixUtilities.java `pseudoinverseMoorePenrose`.
 *
 * Jama's inverse, determinant and singular value decomposition are numerical
 * procedures this model does not re-derive: they are given as a `Jama`
 * record of functions. Matrix products, transposition and the
 * pseudoinverse's own arithmetic are defined exactly.
 */
module LinearAlgebra {
  import opened Outcomes
  import opened Matrices

  /** What Jama's `SingularValueDecomposition` reports: U, the singular values, V and the rank. */
  datatype Svd = Svd(u: Matrix, s: seq<real>, v: Matrix, rank: int)

  /**
   * The decomposition of a `rows` x `cols` matrix with rows >= cols, shaped
   * as Jama shapes it: U is rows x cols, V is cols x cols, there is one
   * singular value per column, they are non-negative with the largest first,
   * and the largest is positive when the rank is at least 1.
   */
  predicate ValidSvd(d: Svd, rows: nat, cols: nat) {
    && IsMatrix(d.u, rows, cols) && IsMatrix(d.v, cols, cols) && |d.s| == cols
    && 0 <= d.rank <= cols
    && (forall k | 0 <= k < cols :: 0.0 <= d.s[k] <= d.s[0])
    && (d.rank >= 1 ==> d.s[0] > 0.0)
  }

  /**
   * Jama's `Matrix.inverse()` (`None` when it throws because the matrix is
   * singular), `SingularValueDecomposition` and `Matrix.det()`.
   */
  datatype Jama = Jama(inverse: Matrix -> Option<Matrix>, svd: Matrix -> Svd, det: Matrix -> real)

  /** The inverse of a square matrix is square of the same size; decompositions are shaped as Jama's. */
  ghost predicate Sound(jama: Jama) {
    && (forall m: Matrix, n: nat {:trigger jama.inverse(m), IsMatrix(m, n, n)} | IsMatrix(m, n, n) && jama.inverse(m).Some? ::
          IsMatrix(jama.inverse(m).value, n, n))
    && (forall m: Matrix, r: nat, c: nat {:trigger jama.svd(m), IsMatrix(m, r, c)} | IsMatrix(m, r, c) && 1 <= c <= r ::
          ValidSvd(jama.svd(m), r, c))
  }

  function Abs(x: real): real {
    if x < 0.0 then -x else x
  }

  /** The sum of `a[l] * b[l]` over `l < n`, accumulated from the left as Jama's loops do. */
  function Dot(a: seq<real>, b: seq<real>, n: nat): real
    requires n <= |a| && n <= |b|
  {
    if n == 0 then 0.0 else Dot(a, b, n - 1) + a[n - 1] * b[n - 1]
  }

  /** Jama `minus` on two row vectors of the same length. */
  function Difference(x: Vector, y: Vector): (d: Vector)
    requires |x| == |y|
    ensures |d| == |x| && forall a | 0 <= a < |x| :: d[a] + y[a] == x[a]
  {
    seq(|x|, a requires 0 <= a < |x| => x[a] - y[a])
  }

  /** Jama `a.times(b)` for an `n` x `m` matrix `a` and an `m` x `p` matrix `b`. */
  function Times(a: Matrix, b: Matrix, n: nat, m: nat, p: nat): (r: Matrix)
    requires IsMatrix(a, n, m) && IsMatrix(b, m, p)
    ensures IsMatrix(r, n, p)
  {
    seq(n, i requires 0 <= i < n => seq(p, j requires 0 <= j < p => Dot(a[i], Column(b, j), m)))
  }

  /** The square matrix with `c` on its diagonal and zeros elsewhere. */
  function Diagonal(c: seq<real>): (r: Matrix)
    ensures IsMatrix(r, |c|, |c|)
  {
    seq(|c|, l requires 0 <= l < |c| => seq(|c|, k requires 0 <= k < |c| => if l == k then c[k] else 0.0))
  }

  /** Multiplying by a diagonal matrix scales column `k` by `c[k]`. */
  lemma {:induction false} DotDiagonalColumn(a: seq<real>, c: seq<real>, k: nat, n: nat)
    requires k < |c| && n <= |a| && n <= |c|
    ensures Dot(a, Column(Diagonal(c), k), n) == if k < n then a[k] * c[k] else 0.0
  {
    if n > 0 {
      DotDiagonalColumn(a, c, k, n - 1);
    }
  }

  /**
   * The distance NM and KNM compute with Jama:
   * `d.times(m).times(d.transpose()).get(0, 0)` for the row vector `d`.
   */
  function QuadraticForm(d: Vector, m: Matrix): real
    requires IsMatrix(m, |d|, |d|)
  {
    Dot(Times([d], m, 1, |d|, |d|)[0], d, |d|)
  }

  /** With the identity matrix the quadratic form is the squared Euclidean length of `d`. */
  lemma QuadraticFormOfIdentity(d: Vector)
    ensures QuadraticForm(d, Diagonal(seq(|d|, _ => 1.0))) == Dot(d, d, |d|)
  {
    var ones := seq(|d|, _ => 1.0);
    var row := Times([d], Diagonal(ones), 1, |d|, |d|)[0];
    forall j | 0 <= j < |d|
      ensures row[j] == d[j]
    {
      DotDiagonalColumn(d, ones, j, |d|);
    }
    assert row == d;
  }

  /** A singular value is kept when its magnitude reaches this tolerance. */
  const MACHEPS: real := 0.0000000000000002

  function Tolerance(rows: nat, cols: nat, s: seq<real>): (tol: real)
    requires |s| > 0
    ensures s[0] > 0.0 && Max(rows, cols) >= 1 ==> tol > 0.0
  {
    (Max(rows, cols) as real) * s[0] * MACHEPS
  }

  /**
   * The reciprocals of the singular values: `1 / s[k]` where `|s[k]|`
   * reaches the tolerance, 0 where it does not.
   */
  function Reciprocals(s: seq<real>, tol: real): (r: seq<real>)
    requires tol > 0.0
    ensures |r| == |s|
    ensures forall k | 0 <= k < |s| :: if Abs(s[k]) >= tol then r[k] * s[k] == 1.0 else r[k] == 0.0
  {
    seq(|s|, k requires 0 <= k < |s| => if Abs(s[k]) >= tol then 1.0 / s[k] else 0.0)
  }

  /** The sum of `v[i][k] * recip[k] * u[j][k]` over `k < n`, in order of `k`. */
  function Entry(v: Matrix, recip: seq<real>, u: Matrix, i: nat, j: nat, n: nat): real
    requires i < |v| && j < |u| && n <= |recip| && n <= |v[i]| && n <= |u[j]|
  {
    if n == 0 then 0.0 else Entry(v, recip, u, i, j, n - 1) + v[i][n - 1] * recip[n - 1] * u[j][n - 1]
  }

  /** The `cols` x `rows` matrix the reconstruction loop fills. */
  function Reconstruction(u: Matrix, recip: seq<real>, v: Matrix, rows: nat, cols: nat): (r: Matrix)
    requires IsMatrix(u, rows, cols) && IsMatrix(v, cols, cols) && |recip| == cols
    ensures IsMatrix(r, cols, rows)
  {
    seq(cols, i requires 0 <= i < cols => seq(rows, j requires 0 <= j < rows => Entry(v, recip, u, i, j, cols)))
  }

  /**
   * The Moore-Penrose pseudoinverse of the `rows` x `cols` matrix `x`
   * computed from Jama's decomposition, or `None` where the source returns
   * `null`. A wide matrix is handled through its transpose; a decomposition
   * of rank 0 gives `null`.
   */
  function Pseudoinverse(x: Matrix, rows: nat, cols: nat, jama: Jama): (r: Option<Matrix>)
    requires IsMatrix(x, rows, cols) && rows >= 1 && cols >= 1 && Sound(jama)
    ensures r.Some? ==> IsMatrix(r.value, cols, rows)
    decreases if rows < cols then 1 else 0
  {
    if rows < cols then
      match Pseudoinverse(Transpose(x, cols), cols, rows, jama)
      case None => None
      case Some(p) => Some(Transpose(p, cols))
    else
      DecompositionShape(jama, x, rows, cols);
      FromDecomposition(jama.svd(x), rows, cols)
  }

  /** The decomposition of a tall matrix is shaped as Jama's. */
  lemma DecompositionShape(jama: Jama, x: Matrix, rows: nat, cols: nat)
    requires Sound(jama) && IsMatrix(x, rows, cols) && 1 <= cols <= rows
    ensures ValidSvd(jama.svd(x), rows, cols)
  {
  }

  /**
   * The pseudoinverse of a tall `rows` x `cols` matrix from its
   * decomposition `d`: `null` for rank 0, otherwise the reconstruction from
   * the thresholded reciprocals.
   */
  function FromDecomposition(d: Svd, rows: nat, cols: nat): (r: Option<Matrix>)
    requires ValidSvd(d, rows, cols) && 1 <= cols <= rows
    ensures r.Some? ==> IsMatrix(r.value, cols, rows)
  {
    if d.rank < 1 then None
    else Some(Reconstruction(d.u, Reciprocals(d.s, Tolerance(rows, cols, d.s)), d.v, rows, cols))
  }

  /** The matrix whose decomposition is taken: `x` itself, or its transpose when `x` is wide. */
  function Oriented(x: Matrix, rows: nat, cols: nat): Matrix
    requires IsMatrix(x, rows, cols)
  {
    if rows < cols then Transpose(x, cols) else x
  }

  /** The pseudoinverse is `null` exactly when the decomposition it takes has rank 0. */
  lemma PseudoinverseNullIffRankZero(x: Matrix, rows: nat, cols: nat, jama: Jama)
    requires IsMatrix(x, rows, cols) && rows >= 1 && cols >= 1 && Sound(jama)
    ensures Pseudoinverse(x, rows, cols, jama).None? <==> jama.svd(Oriented(x, rows, cols)).rank < 1
  {
  }

  /**
   * The pseudoinverse of a wide matrix is the transpose of the pseudoinverse
   * of its transpose, null when that one is.
   */
  lemma WideMatrixThroughTranspose(x: Matrix, rows: nat, cols: nat, jama: Jama)
    requires IsMatrix(x, rows, cols) && 1 <= rows < cols && Sound(jama)
    ensures var p := Pseudoinverse(Transpose(x, cols), cols, rows, jama);
      Pseudoinverse(x, rows, cols, jama) == if p.None? then None else Some(Transpose(p.value, cols))
  {
  }

  /**
   * The reconstruction is the product V * diag(recip) * U^T, the
   * pseudoinverse's closed form from the decomposition.
   */
  lemma ReconstructionIsProduct(u: Matrix, recip: seq<real>, v: Matrix, rows: nat, cols: nat)
    requires IsMatrix(u, rows, cols) && IsMatrix(v, cols, cols) && |recip| == cols
    ensures Reconstruction(u, recip, v, rows, cols)
         == Times(Times(v, Diagonal(recip), cols, cols, cols), Transpose(u, cols), cols, cols, rows)
  {
    var scaled := Times(v, Diagonal(recip), cols, cols, cols);
    var ut := Transpose(u, cols);
    var product := Times(scaled, ut, cols, cols, rows);
    var r := Reconstruction(u, recip, v, rows, cols);
    forall i | 0 <= i < cols
      ensures r[i] == product[i]
    {
      forall k | 0 <= k < cols
        ensures scaled[i][k] == v[i][k] * recip[k]
      {
        DotDiagonalColumn(v[i], recip, k, cols);
      }
      forall j | 0 <= j < rows
        ensures r[i][j] == product[i][j]
      {
        EntryIsDot(u, recip, v, scaled[i], Column(ut, j), i, j, cols);
      }
    }
  }

  /** `Entry` as a dot product of row `i` of V * diag(recip) with row `j` of U. */
  lemma {:induction false} EntryIsDot(u: Matrix, recip: seq<real>, v: Matrix, scaledRow: seq<real>, uRow: seq<real>,
                                      i: nat, j: nat, n: nat)
    requires i < |v| && j < |u| && n <= |recip| && n <= |v[i]| && n <= |u[j]| && n <= |scaledRow| && n <= |uRow|
    requires forall k | 0 <= k < n :: scaledRow[k] == v[i][k] * recip[k] && uRow[k] == u[j][k]
    ensures Entry(v, recip, u, i, j, n) == Dot(scaledRow, uRow, n)
  {
    if n > 0 {
      EntryIsDot(u, recip, v, scaledRow, uRow, i, j, n - 1);
    }
  }

  /**
   * `pseudoinverseMoorePenrose`: transposes a wide matrix and recurses;
   * otherwise decomposes, returns `null` for rank 0, thresholds the
   * reciprocals of the singular values and accumulates each entry of the
   * `cols` x `rows` result in a triple loop.
   */
  method PseudoinverseMoorePenrose(x: Matrix, rows: nat, cols: nat, jama: Jama) returns (result: Option<Matrix>)
    requires IsMatrix(x, rows, cols) && rows >= 1 && cols >= 1 && Sound(jama)
    ensures result == Pseudoinverse(x, rows, cols, jama)
    decreases if rows < cols then 1 else 0
  {
    if rows < cols {
      result := PseudoinverseMoorePenrose(Transpose(x, cols), cols, rows, jama);
      if result.Some? {
        result := Some(Transpose(result.value, cols));
      }
      return;
    }
    var svdX := jama.svd(x);
    DecompositionShape(jama, x, rows, cols);
    result := FromSingularValues(svdX, rows, cols);
  }

  /** The part of `pseudoinverseMoorePenrose` after the decomposition of a tall matrix. */
  method FromSingularValues(svdX: Svd, rows: nat, cols: nat) returns (result: Option<Matrix>)
    requires ValidSvd(svdX, rows, cols) && 1 <= cols <= rows
    ensures result == FromDecomposition(svdX, rows, cols)
  {
    if svdX.rank < 1 {
      return None;
    }
    var singularValues := svdX.s;
    var tol := (Max(rows, cols) as real) * singularValues[0] * MACHEPS;
    assert tol == Tolerance(rows, cols, singularValues);
    var singularValueReciprocals := ReciprocalsOf(singularValues, tol);
    var u, v := svdX.u, svdX.v;
    var min := Min(cols, |u[0]|);
    var inverse := Accumulate(u, singularValueReciprocals, v, rows, cols, min);
    return Some(inverse);
  }

  /** The loop filling a fresh, zeroed `double[]` with the thresholded reciprocals. */
  method ReciprocalsOf(singularValues: seq<real>, tol: real) returns (r: seq<real>)
    requires tol > 0.0
    ensures r == Reciprocals(singularValues, tol)
  {
    var singularValueReciprocals := new real[|singularValues|](_ => 0.0);
    for i := 0 to |singularValues|
      invariant forall k | 0 <= k < |singularValues| ::
        singularValueReciprocals[k] == if k < i then Reciprocals(singularValues, tol)[k] else 0.0
    {
      if Abs(singularValues[i]) >= tol {
        singularValueReciprocals[i] := 1.0 / singularValues[i];
      }
    }
    r := singularValueReciprocals[..];
  }

  /**
   * The triple loop: `inverse[i][j] += v[i][k] * recip[k] * u[j][k]` into a
   * fresh, zeroed `cols` x `rows` array.
   */
  method Accumulate(u: Matrix, recip: seq<real>, v: Matrix, rows: nat, cols: nat, min: nat) returns (r: Matrix)
    requires IsMatrix(u, rows, cols) && IsMatrix(v, cols, cols) && |recip| == cols && min == cols
    ensures r == Reconstruction(u, recip, v, rows, cols)
  {
    var inverse := new real[cols, rows]((_, _) => 0.0);
    for i := 0 to cols
      invariant forall i', j' | 0 <= i' < cols && 0 <= j' < rows ::
        inverse[i', j'] == if i' < i then Entry(v, recip, u, i', j', min) else 0.0
    {
      for j := 0 to |u|
        invariant forall i', j' | 0 <= i' < cols && 0 <= j' < rows ::
          inverse[i', j'] == if i' < i || (i' == i && j' < j) then Entry(v, recip, u, i', j', min) else 0.0
      {
        for k := 0 to min
          invariant forall i', j' | 0 <= i' < cols && 0 <= j' < rows && (i' != i || j' != j) ::
            inverse[i', j'] == if i' < i || (i' == i && j' < j) then Entry(v, recip, u, i', j', min) else 0.0
          invariant inverse[i, j] == Entry(v, recip, u, i, j, k)
        {
          inverse[i, j] := inverse[i, j] + v[i][k] * recip[k] * u[j][k];
        }
      }
    }
    r := seq(cols, i requires 0 <= i < cols reads inverse => seq(rows, j requires 0 <= j < rows reads inverse => inverse[i, j]));
    forall i | 0 <= i < cols
      ensures r[i] == Reconstruction(u, recip, v, rows, cols)[i]
    {
    }
  }
}
