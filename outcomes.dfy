/**
 * Optional values and results for the toolkit's operations.
 *
 * A Java method of the toolkit either returns a value, returns `null`, returns
 * `NaN`, throws, or never returns. `Option` stands for a value that may be
 * absent (a `null` pseudoinverse, a `NaN` statistic); `Result` carries either
 * the value or the reason the Java code would not produce one.
 */
module Outcomes {

  datatype Option<+T> = None | Some(value: T)

  /** Why an operation of the source yields no value. */
  datatype Failure =
    | IndexOutOfBounds      // an array or list index past the end
    | NullPointer           // a method called on a `null` result
    | IllegalArgument       // `Random.nextInt(0)`, a negative list capacity, a ragged Jama matrix
    | NoSuchElement         // `next()` of an iterator that has no further element
    | NegativeArraySize     // an array allocated with a negative length
    | DivisionByZero        // integer division by zero (ArithmeticException)
    | NoTestProbes          // the accuracy ratio 0/0 (Java returns NaN)
    | EmptyCluster          // EmptyClusterException, thrown by the centroid update
    | RetriesForever        // KNM's `while (true)` retry after a failed inversion
    | Diverges              // a random re-pick loop that can never succeed
    | OutOfFuel             // the model's bound on an iteration the source runs until convergence

  datatype Result<+T> = Ok(value: T) | Err(error: Failure)

  /**
   * The values of `rs` in order, or the first failure among them: a loop that
   * builds one value per round and ends at the first exception.
   */
  function AllOk<T>(rs: seq<Result<T>>): Result<seq<T>> {
    if rs == [] then Ok([])
    else if rs[0].Err? then Err(rs[0].error)
    else
      var rest := AllOk(rs[1..]);
      if rest.Err? then rest else Ok([rs[0].value] + rest.value)
  }

  lemma {:induction false} AllOkEntries<T>(rs: seq<Result<T>>)
    ensures AllOk(rs).Ok? <==> forall i | 0 <= i < |rs| :: rs[i].Ok?
    ensures AllOk(rs).Ok? ==> |AllOk(rs).value| == |rs| && forall i | 0 <= i < |rs| :: AllOk(rs).value[i] == rs[i].value
    ensures AllOk(rs).Err? ==> exists i | 0 <= i < |rs| :: rs[i] == Err(AllOk(rs).error) && forall j | 0 <= j < i :: rs[j].Ok?
  {
    if rs != [] {
      var rest := rs[1..];
      AllOkEntries(rest);
      assert forall i | 1 <= i < |rs| :: rs[i] == rest[i - 1];
      if AllOk(rs).Err? && rs[0].Ok? {
        var i :| 0 <= i < |rest| && rest[i] == Err(AllOk(rest).error) && forall j | 0 <= j < i :: rest[j].Ok?;
        assert rs[i + 1] == rest[i];
      }
    }
  }
}
