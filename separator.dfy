/**
 * `ProbePerClassSeparator.separateProbesPerClass`: cuts a matrix of mixed
 * probes (rows = attributes, columns = probes, the classes one after the
 * other) into one matrix per class, and keeps the result in a field.
 *
 * The copy loop of every class runs the shared `indexOfProbe`, which is never
 * reset, up to the class's own count. The first class receives its probes; a
 * later class receives only the probes between the running index and its own
 * count, and stays all zeros when its count does not exceed the running
 * index. `SeparatedCorrected` runs each class's loop over its own count of
 * probes instead, which hands every class its own block of columns.
 */
module Separator {
  import opened Outcomes
  import opened Matrices
  import opened Scoring

  /**
   * The state after some rounds of the class loop: the map built so far, the
   * shared `indexOfProbe`, and the exception that ended the loop, if any.
   */
  datatype Progress = Progress(groups: Table<Matrix>, indexOfProbe: nat, failure: Option<Failure>)

  /** Every attribute row below `featureCount` exists and holds the probes before `end`. */
  predicate Readable(mixed: Matrix, featureCount: nat, end: nat) {
    featureCount <= |mixed| && forall a | 0 <= a < featureCount :: end <= |mixed[a]|
  }

  /**
   * A class matrix of `count` zero-initialised columns whose first columns
   * received the mixed probes `start` up to `end`.
   */
  function ClassBlock(mixed: Matrix, featureCount: nat, count: nat, start: nat, end: nat): (block: Matrix)
    ensures IsMatrix(block, featureCount, count)
  {
    seq(featureCount, a requires 0 <= a < featureCount =>
      seq(count, j requires 0 <= j < count =>
        if start + j < end && a < |mixed| && start + j < |mixed[a]| then mixed[a][start + j] else 0.0))
  }

  /**
   * Where a class's copy loop leaves the shared index: as written, at the
   * class's own count (or where it already was); corrected, `count` probes on.
   */
  function CopyEnd(start: nat, count: nat, asWritten: bool): (end: nat)
    ensures start <= end <= start + count
  {
    if !asWritten then start + count
    else if start < count then count
    else start
  }

  /**
   * One round of the class loop, for class `i`: a missing count or a
   * negative dimension throws before the copy, a probe or attribute missing
   * from `mixed` throws during it.
   */
  function ClassRound(p: Progress, className: string, featureCount: int, counts: seq<int>, mixed: Matrix, i: nat, asWritten: bool)
    : Progress
  {
    if i >= |counts| then p.(failure := Some(IndexOutOfBounds))
    else if featureCount < 0 || counts[i] < 0 then p.(failure := Some(NegativeArraySize))
    else
      var start := p.indexOfProbe;
      var end := CopyEnd(start, counts[i], asWritten);
      if start < end && !Readable(mixed, featureCount, end) then p.(failure := Some(IndexOutOfBounds))
      else Progress(p.groups + [(className, ClassBlock(mixed, featureCount, counts[i], start, end))], end, None)
  }

  /** The state after the first `k` rounds; rounds after an exception do not run. */
  function Separation(classNames: seq<string>, featureCount: int, counts: seq<int>, mixed: Matrix, k: nat, asWritten: bool)
    : Progress
    requires k <= |classNames|
  {
    if k == 0 then Progress([], 0, None)
    else
      var prev := Separation(classNames, featureCount, counts, mixed, k - 1, asWritten);
      if prev.failure.Some? then prev
      else ClassRound(prev, classNames[k - 1], featureCount, counts, mixed, k - 1, asWritten)
  }

  function Outcome(p: Progress): Result<Table<Matrix>> {
    if p.failure.Some? then Err(p.failure.value) else Ok(p.groups)
  }

  /** `separateProbesPerClass` as written. */
  function Separated(classNames: seq<string>, featureCount: int, counts: seq<int>, mixed: Matrix): Result<Table<Matrix>> {
    Outcome(Separation(classNames, featureCount, counts, mixed, |classNames|, true))
  }

  /** `separateProbesPerClass` with each class's copy loop running over its own count of probes. */
  function SeparatedCorrected(classNames: seq<string>, featureCount: int, counts: seq<int>, mixed: Matrix): Result<Table<Matrix>> {
    Outcome(Separation(classNames, featureCount, counts, mixed, |classNames|, false))
  }

  class ProbePerClassSeparator {
    /** `null` (`None`) before the first call; afterwards the map of the last call, as far as it got. */
    var probesGroupedByClass: Option<Table<Matrix>>

    constructor ()
      ensures probesGroupedByClass == None
    {
      probesGroupedByClass := None;
    }

    /**
     * The class loop. The field holds the map from the start, so an exception
     * leaves in it the classes completed before it.
     */
    method SeparateProbesPerClass(classNames: seq<string>, featureCount: int, countOfSamplesPerClass: seq<int>, mixedProbes: Matrix)
      returns (result: Result<Table<Matrix>>)
      modifies this
      ensures probesGroupedByClass == Some(Separation(classNames, featureCount, countOfSamplesPerClass, mixedProbes, |classNames|, true).groups)
      ensures result == Separated(classNames, featureCount, countOfSamplesPerClass, mixedProbes)
    {
      probesGroupedByClass := Some([]);
      var indexOfProbe: nat := 0;
      for i := 0 to |classNames|
        invariant probesGroupedByClass.Some?
        invariant Separation(classNames, featureCount, countOfSamplesPerClass, mixedProbes, i, true)
          == Progress(probesGroupedByClass.value, indexOfProbe, None)
      {
        if i >= |countOfSamplesPerClass| || featureCount < 0 || countOfSamplesPerClass[i] < 0 {
          FailureStays(classNames, featureCount, countOfSamplesPerClass, mixedProbes, i + 1, |classNames|, true);
          return Separated(classNames, featureCount, countOfSamplesPerClass, mixedProbes);
        }
        var block, next := CopyClass(mixedProbes, featureCount, countOfSamplesPerClass[i], indexOfProbe);
        if block.Err? {
          FailureStays(classNames, featureCount, countOfSamplesPerClass, mixedProbes, i + 1, |classNames|, true);
          return Err(block.error);
        }
        probesGroupedByClass := Some(probesGroupedByClass.value + [(classNames[i], block.value)]);
        indexOfProbe := next;
      }
      result := Ok(probesGroupedByClass.value);
    }
  }

  /** The copy loop of one class: `count` zeroed columns, filled from the shared index on. */
  method CopyClass(mixedProbes: Matrix, featureCount: nat, count: nat, start: nat) returns (block: Result<Matrix>, indexOfProbe: nat)
    ensures indexOfProbe == CopyEnd(start, count, true)
    ensures block == if start < indexOfProbe && !Readable(mixedProbes, featureCount, indexOfProbe) then Err(IndexOutOfBounds)
      else Ok(ClassBlock(mixedProbes, featureCount, count, start, indexOfProbe))
  {
    var temporaryArray := new real[featureCount, count]((_, _) => 0.0);
    indexOfProbe := start;
    var probeIndexInClassMatrix := 0;
    while indexOfProbe < count
      invariant start <= indexOfProbe <= CopyEnd(start, count, true) && probeIndexInClassMatrix == indexOfProbe - start
      invariant start < indexOfProbe ==> Readable(mixedProbes, featureCount, indexOfProbe)
      invariant forall a, j | 0 <= a < featureCount && 0 <= j < count ::
        temporaryArray[a, j] == if start + j < indexOfProbe then mixedProbes[a][start + j] else 0.0
      decreases count - indexOfProbe
    {
      var copied := CopyColumn(mixedProbes, featureCount, indexOfProbe, temporaryArray, probeIndexInClassMatrix);
      if !copied {
        indexOfProbe := count;
        return Err(IndexOutOfBounds), indexOfProbe;
      }
      indexOfProbe := indexOfProbe + 1;
      probeIndexInClassMatrix := probeIndexInClassMatrix + 1;
    }
    var entries, expected := Entries(temporaryArray), ClassBlock(mixedProbes, featureCount, count, start, indexOfProbe);
    forall a | 0 <= a < featureCount
      ensures entries[a] == expected[a]
    {
      assert forall j | 0 <= j < count :: entries[a][j] == expected[a][j];
    }
    assert entries == expected;
    block := Ok(entries);
  }

  /**
   * The attribute loop for one probe: copies mixed probe `p` into column `j`
   * of `target`, and reports whether every attribute row had it.
   */
  method CopyColumn(mixedProbes: Matrix, featureCount: nat, p: nat, target: array2<real>, j: nat) returns (copied: bool)
    requires target.Length0 == featureCount && j < target.Length1
    modifies target
    ensures copied <==> featureCount <= |mixedProbes| && forall a | 0 <= a < featureCount :: p < |mixedProbes[a]|
    ensures copied ==> forall a, k | 0 <= a < featureCount && 0 <= k < target.Length1 ::
      target[a, k] == if k == j then mixedProbes[a][p] else old(target[a, k])
  {
    for attribute := 0 to featureCount
      invariant attribute <= |mixedProbes|
      invariant forall a | 0 <= a < attribute :: p < |mixedProbes[a]|
      invariant forall a, k | 0 <= a < featureCount && 0 <= k < target.Length1 ::
        target[a, k] == if k == j && a < attribute then mixedProbes[a][p] else old(target[a, k])
    {
      if attribute >= |mixedProbes| || p >= |mixedProbes[attribute]| {
        return false;
      }
      target[attribute, j] := mixedProbes[attribute][p];
    }
    return true;
  }

  // ---------------------------------------------------------------------
  // What the loop builds
  // ---------------------------------------------------------------------

  /** Once a round has thrown, the later rounds change nothing. */
  lemma {:induction false} FailureStays(classNames: seq<string>, featureCount: int, counts: seq<int>, mixed: Matrix, i: nat, k: nat,
                                        asWritten: bool)
    requires i <= k <= |classNames|
    requires Separation(classNames, featureCount, counts, mixed, i, asWritten).failure.Some?
    ensures Separation(classNames, featureCount, counts, mixed, k, asWritten) == Separation(classNames, featureCount, counts, mixed, i, asWritten)
    decreases k - i
  {
    if i < k {
      var m := k - 1;
      FailureStays(classNames, featureCount, counts, mixed, i, m, asWritten);
    }
  }

  /** The shared index after `k` rounds that did not throw. */
  function Reach(counts: seq<int>, k: nat, asWritten: bool): nat
    requires k <= |counts| && forall i | 0 <= i < k :: counts[i] >= 0
  {
    if k == 0 then 0 else CopyEnd(Reach(counts, k - 1, asWritten), counts[k - 1] as nat, asWritten)
  }

  /**
   * After `k` rounds without an exception the map holds one entry per class
   * name, in order, class `i` a `featureCount` x `counts[i]` matrix filled
   * from the shared index `Reach(counts, i)` on.
   */
  lemma {:induction false} SeparationEntries(classNames: seq<string>, featureCount: int, counts: seq<int>, mixed: Matrix, k: nat, asWritten: bool)
    requires k <= |classNames|
    ensures var p := Separation(classNames, featureCount, counts, mixed, k, asWritten);
      p.failure.None? ==>
        && k <= |counts| && (k > 0 ==> featureCount >= 0) && (forall i | 0 <= i < k :: counts[i] >= 0)
        && p.indexOfProbe == Reach(counts, k, asWritten)
        && |p.groups| == k
        && forall i | 0 <= i < k ::
             p.groups[i] == (classNames[i], ClassBlock(mixed, featureCount, counts[i], Reach(counts, i, asWritten), Reach(counts, i + 1, asWritten)))
  {
    if k > 0 {
      var m := k - 1;
      SeparationEntries(classNames, featureCount, counts, mixed, m, asWritten);
    }
  }

  /**
   * The loop throws exactly when a class has no count, a dimension is
   * negative, or a probe the copying reaches is missing from an attribute row.
   */
  lemma {:induction false} SeparationFails(classNames: seq<string>, featureCount: int, counts: seq<int>, mixed: Matrix, k: nat, asWritten: bool)
    requires k <= |classNames|
    ensures Separation(classNames, featureCount, counts, mixed, k, asWritten).failure.None?
      <==> && k <= |counts| && (k > 0 ==> featureCount >= 0) && (forall i | 0 <= i < k :: counts[i] >= 0)
           && (Reach(counts, k, asWritten) == 0 || Readable(mixed, featureCount, Reach(counts, k, asWritten)))
  {
    if k > 0 {
      var m := k - 1;
      SeparationFails(classNames, featureCount, counts, mixed, m, asWritten);
      SeparationEntries(classNames, featureCount, counts, mixed, m, asWritten);
      if m <= |counts| && (forall i | 0 <= i < m :: counts[i] >= 0) && m < |counts| && counts[m] >= 0 {
        assert Reach(counts, m, asWritten) <= Reach(counts, k, asWritten);
      }
    }
  }

  /** As written, the shared index after `k` rounds is the largest count among the first `k` (or 0). */
  lemma {:induction false} ReachIsRunningMaximum(counts: seq<int>, k: nat)
    requires k <= |counts| && forall i | 0 <= i < k :: counts[i] >= 0
    ensures forall i | 0 <= i < k :: counts[i] <= Reach(counts, k, true)
    ensures Reach(counts, k, true) == 0 || exists i | 0 <= i < k :: counts[i] == Reach(counts, k, true)
  {
    if k > 0 {
      var m := k - 1;
      ReachIsRunningMaximum(counts, m);
    }
  }

  /** Corrected, the shared index after `k` rounds is the number of probes of the first `k` classes. */
  lemma {:induction false} ReachIsPrefixSum(counts: seq<int>, k: nat)
    requires k <= |counts| && forall i | 0 <= i < k :: counts[i] >= 0
    ensures Reach(counts, k, false) == Total(counts[..k])
  {
    if k > 0 {
      var m := k - 1;
      ReachIsPrefixSum(counts, m);
      TotalAppend(counts[..m], counts[m]);
      assert counts[..k] == counts[..m] + [counts[m]];
    }
  }

  /** The sum of the counts, from the left. */
  function Total(counts: seq<int>): int {
    if counts == [] then 0 else Total(counts[..|counts| - 1]) + counts[|counts| - 1]
  }

  lemma TotalAppend(counts: seq<int>, c: int)
    ensures Total(counts + [c]) == Total(counts) + c
  {
    assert (counts + [c])[..|counts|] == counts;
  }

  /** As written, the first class receives exactly the mixed probes below its count. */
  lemma FirstClassCopiesItsProbes(classNames: seq<string>, featureCount: int, counts: seq<int>, mixed: Matrix)
    requires Separated(classNames, featureCount, counts, mixed).Ok? && classNames != []
    ensures var groups := Separated(classNames, featureCount, counts, mixed).value;
      && counts[0] >= 0 && featureCount >= 0
      && groups[0].0 == classNames[0]
      && IsMatrix(groups[0].1, featureCount, counts[0])
      && forall a, p | 0 <= a < featureCount && 0 <= p < counts[0] ::
           a < |mixed| && p < |mixed[a]| && groups[0].1[a][p] == mixed[a][p]
  {
    var k := |classNames|;
    SeparationEntries(classNames, featureCount, counts, mixed, k, true);
    SeparationFails(classNames, featureCount, counts, mixed, k, true);
    ReachIsRunningMaximum(counts, k);
    var p := Separation(classNames, featureCount, counts, mixed, 1, true);
    SeparationFails(classNames, featureCount, counts, mixed, 1, true);
    if counts[0] > 0 {
      assert Readable(mixed, featureCount, Reach(counts, k, true));
    }
  }

  /**
   * As written, a class whose count does not exceed the largest count before
   * it receives no probe at all: its matrix stays all zeros.
   */
  lemma LaterClassStaysZero(classNames: seq<string>, featureCount: int, counts: seq<int>, mixed: Matrix, i: nat)
    requires Separated(classNames, featureCount, counts, mixed).Ok? && 0 < i < |classNames|
    requires exists h | 0 <= h < i :: counts[i] <= counts[h]
    ensures var groups := Separated(classNames, featureCount, counts, mixed).value;
      && featureCount >= 0 && counts[i] >= 0 && |groups| == |classNames|
      && groups[i] == (classNames[i], seq(featureCount, _ => Zeros(counts[i])))
  {
    var k := |classNames|;
    SeparationEntries(classNames, featureCount, counts, mixed, k, true);
    SeparationFails(classNames, featureCount, counts, mixed, k, true);
    ReachIsRunningMaximum(counts, i);
    var block := Separated(classNames, featureCount, counts, mixed).value[i].1;
    var zeros := seq(featureCount, _ => Zeros(counts[i]));
    assert Reach(counts, i + 1, true) == Reach(counts, i, true);
    forall a | 0 <= a < featureCount
      ensures block[a] == zeros[a]
    {
      assert forall j | 0 <= j < counts[i] :: block[a][j] == 0.0;
    }
    assert block == zeros;
  }

  /** The counts of two classes of two probes each, the first class's probes first. */
  lemma SeparatedExample()
    ensures Separated(["a", "b"], 1, [2, 2], [[1.0, 2.0, 3.0, 4.0]]) == Ok([("a", [[1.0, 2.0]]), ("b", [[0.0, 0.0]])])
    ensures SeparatedCorrected(["a", "b"], 1, [2, 2], [[1.0, 2.0, 3.0, 4.0]]) == Ok([("a", [[1.0, 2.0]]), ("b", [[3.0, 4.0]])])
  {
    var mixed: Matrix := [[1.0, 2.0, 3.0, 4.0]];
    var first, none, second := ClassBlock(mixed, 1, 2, 0, 2), ClassBlock(mixed, 1, 2, 2, 2), ClassBlock(mixed, 1, 2, 2, 4);
    assert first[0] == [1.0, 2.0] && none[0] == [0.0, 0.0] && second[0] == [3.0, 4.0];
    assert first == [[1.0, 2.0]] && none == [[0.0, 0.0]] && second == [[3.0, 4.0]];
    var names, counts := ["a", "b"], [2, 2];
    assert Readable(mixed, 1, 2) && Readable(mixed, 1, 4);
    assert Separation(names, 1, counts, mixed, 1, true) == Progress([("a", first)], 2, None);
    assert Separation(names, 1, counts, mixed, 2, true) == Progress([("a", first), ("b", none)], 2, None);
    assert Separation(names, 1, counts, mixed, 1, false) == Progress([("a", first)], 2, None);
    assert Separation(names, 1, counts, mixed, 2, false) == Progress([("a", first), ("b", second)], 4, None);
  }

  /**
   * Corrected, class `i` receives the mixed probes after those of the
   * classes before it: column `j` is mixed probe `Total(counts[..i]) + j`.
   */
  lemma CorrectedClassIsItsBlock(classNames: seq<string>, featureCount: int, counts: seq<int>, mixed: Matrix, i: nat)
    requires SeparatedCorrected(classNames, featureCount, counts, mixed).Ok? && i < |classNames|
    ensures var groups := SeparatedCorrected(classNames, featureCount, counts, mixed).value;
      && featureCount >= 0 && counts[i] >= 0 && Total(counts[..i]) >= 0
      && |groups| == |classNames| && groups[i].0 == classNames[i]
      && IsMatrix(groups[i].1, featureCount, counts[i])
      && forall a, j | 0 <= a < featureCount && 0 <= j < counts[i] ::
           a < |mixed| && Total(counts[..i]) + j < |mixed[a]| && groups[i].1[a][j] == mixed[a][Total(counts[..i]) + j]
  {
    var k := |classNames|;
    SeparationEntries(classNames, featureCount, counts, mixed, k, false);
    SeparationFails(classNames, featureCount, counts, mixed, k, false);
    ReachIsPrefixSum(counts, i);
    ReachGrows(counts, i + 1, k);
    if counts[i] > 0 {
      assert Readable(mixed, featureCount, Reach(counts, k, false));
    }
  }

  /** Corrected, the shared index only grows. */
  lemma {:induction false} ReachGrows(counts: seq<int>, i: nat, k: nat)
    requires i <= k <= |counts| && forall h | 0 <= h < k :: counts[h] >= 0
    ensures Reach(counts, i, false) <= Reach(counts, k, false)
    decreases k - i
  {
    if i < k {
      var m := k - 1;
      ReachGrows(counts, i, m);
    }
  }
}
