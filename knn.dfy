/**
 * src/classifier/KNNClassifier.java: the k-nearest-neighbours classifier.
 *
 * For every probe of every test set the classifier keeps, per training set,
 * the k smallest distances to the training probes, pools them tagged with the
 * training key, sorts the pool, lets its first k entries vote and predicts the
 * class with most votes. The result is the percentage of test probes whose
 * test key contains the predicted class name.
 *
 * Distances are compared squared: `Math.sqrt` is strictly increasing on the
 * non-negative reals, so every comparison and every sort order is the same.
 */
module Knn {
  import opened Outcomes
  import opened Matrices
  import opened Sorting
  import opened ProbeDistances
  import opened Scoring

  /** An attribute takes part in a distance iff no attribute was selected or it was. */
  predicate Selected(indexesOfBestAttributes: set<int>, a: int) {
    indexesOfBestAttributes == {} || a in indexesOfBestAttributes
  }

  /** The squared Euclidean distance of two probes over the selected attributes. */
  function SquaredDistance(x: Vector, y: Vector, indexesOfBestAttributes: set<int>): (d: real)
    requires |x| == |y|
    ensures d >= 0.0
  {
    if x == [] then 0.0
    else
      SquaredDistance(x[..|x| - 1], y[..|y| - 1], indexesOfBestAttributes)
        + (if Selected(indexesOfBestAttributes, |x| - 1) then Square(x[|x| - 1] - y[|y| - 1]) else 0.0)
  }

  /** Attributes that are not selected do not change a distance. */
  lemma {:induction false} DistanceIgnoresUnselected(x: Vector, x': Vector, y: Vector, indexesOfBestAttributes: set<int>)
    requires |x| == |x'| == |y|
    requires forall a | 0 <= a < |x| && Selected(indexesOfBestAttributes, a) :: x[a] == x'[a]
    ensures SquaredDistance(x, y, indexesOfBestAttributes) == SquaredDistance(x', y, indexesOfBestAttributes)
  {
    if x != [] {
      DistanceIgnoresUnselected(x[..|x| - 1], x'[..|x'| - 1], y[..|y| - 1], indexesOfBestAttributes);
    }
  }

  /**
   * Attribute `a` adds the square of the probes' difference on it when it is
   * selected and nothing otherwise: setting it equal in both probes takes
   * exactly that amount off the distance.
   */
  lemma {:induction false} AttributeContribution(x: Vector, y: Vector, indexesOfBestAttributes: set<int>, a: nat)
    requires |x| == |y| && a < |x|
    ensures SquaredDistance(x, y, indexesOfBestAttributes)
         == SquaredDistance(x[a := y[a]], y, indexesOfBestAttributes)
            + (if Selected(indexesOfBestAttributes, a) then Square(x[a] - y[a]) else 0.0)
  {
    var x' := x[a := y[a]];
    if a < |x| - 1 {
      assert x'[..|x'| - 1] == x[..|x| - 1][a := y[a]];
      AttributeContribution(x[..|x| - 1], y[..|y| - 1], indexesOfBestAttributes, a);
    } else {
      assert x'[..|x'| - 1] == x[..|x| - 1];
      assert Square(x'[a] - y[a]) == 0.0;
    }
  }

  /** The distances of `probe` to the training probes of one set, in column order. */
  function ClassDistances(training: Matrix, probe: Vector, indexesOfBestAttributes: set<int>): (ds: seq<real>)
    requires ProbeMatrix(training) && |training| == |probe|
    ensures |ds| == ProbeCount(training)
  {
    seq(ProbeCount(training), q requires 0 <= q < ProbeCount(training) =>
      SquaredDistance(probe, Column(training, q), indexesOfBestAttributes))
  }

  /**
   * One training probe at distance `d` reaches the bounded list: it is
   * appended while fewer than k are kept; otherwise the list is sorted and
   * its last (largest) entry is overwritten when `d` is strictly smaller.
   */
  function Step(kept: seq<real>, d: real, k: int): seq<real>
    requires k >= 1
  {
    if |kept| < k then kept + [d]
    else
      var sorted := Sort(kept);
      if d < sorted[|sorted| - 1] then sorted[..|sorted| - 1] + [d] else sorted
  }

  /** The bounded list after all distances `ds` of one training set. */
  function Retain(ds: seq<real>, k: int): seq<real>
    requires k >= 1
  {
    if ds == [] then [] else Step(Retain(ds[..|ds| - 1], k), ds[|ds| - 1], k)
  }

  /** The bounded list after the first `i + 1` distances: one more step. */
  lemma RetainStep(ds: seq<real>, i: nat, k: int)
    requires k >= 1 && i < |ds|
    ensures Retain(ds[..i + 1], k) == Step(Retain(ds[..i], k), ds[i], k)
  {
    assert ds[..i + 1][..i] == ds[..i];
  }

  /** `kept` holds the k smallest values of `ds`, counted with multiplicity. */
  predicate KSmallest(kept: seq<real>, ds: seq<real>, k: int) {
    && |kept| == Min(k, |ds|)
    && multiset(kept) <= multiset(ds)
    && forall x, y | x in multiset(kept) && y in multiset(ds) - multiset(kept) :: x <= y
  }

  /** With no more than k distances, all of them are kept, in order. */
  lemma {:induction false} RetainAll(ds: seq<real>, k: int)
    requires k >= 1 && |ds| <= k
    ensures Retain(ds, k) == ds
  {
    if ds != [] {
      RetainAll(ds[..|ds| - 1], k);
      assert ds == ds[..|ds| - 1] + [ds[|ds| - 1]];
    }
  }

  /**
   * The bounded list holds min(k, n) entries, drawn from the distances, and
   * none of them is larger than any distance it left out.
   */
  lemma {:induction false} RetainKeepsKSmallest(ds: seq<real>, k: int)
    requires k >= 1
    ensures KSmallest(Retain(ds, k), ds, k)
  {
    if ds != [] {
      var init, d := ds[..|ds| - 1], ds[|ds| - 1];
      assert ds == init + [d];
      RetainKeepsKSmallest(init, k);
      var kept := Retain(init, k);
      assert Retain(ds, k) == Step(kept, d, k);
      if |kept| < k {
        RetainAll(init, k);
      }
      StepKeepsKSmallest(init, kept, d, k);
    }
  }

  /** One step of the bounded list keeps it the k smallest of the distances seen. */
  lemma StepKeepsKSmallest(init: seq<real>, kept: seq<real>, d: real, k: int)
    requires k >= 1 && KSmallest(kept, init, k)
    requires |kept| < k ==> kept == init
    ensures KSmallest(Step(kept, d, k), init + [d], k)
  {
    if |kept| < k {
      assert Step(kept, d, k) == init + [d];
      KeepEverything(init + [d], k);
    } else {
      StepAtCapacity(init, kept, d, k);
    }
  }

  /** A step on a full list: the new distance replaces the largest kept one or is dropped. */
  lemma StepAtCapacity(init: seq<real>, kept: seq<real>, d: real, k: int)
    requires k >= 1 && KSmallest(kept, init, k) && |kept| >= k
    ensures KSmallest(Step(kept, d, k), init + [d], k)
  {
    var sorted := Sort(kept);
    assert |sorted| == |kept|;
    var rest, largest := sorted[..|sorted| - 1], sorted[|sorted| - 1];
    SortedSplitsOffLargest(kept, sorted);
    if d < largest {
      assert Step(kept, d, k) == rest + [d];
      ReplaceLargest(init, kept, rest, largest, d, k);
    } else {
      assert Step(kept, d, k) == sorted;
      KeepSorted(init, kept, sorted, largest, d, k);
    }
  }

  /** Up to k distances are the k smallest of themselves. */
  lemma KeepEverything(all: seq<real>, k: int)
    requires |all| <= k
    ensures KSmallest(all, all, k)
  {
    assert multiset(all) - multiset(all) == multiset{};
  }

  /** The last entry of the sorted list is the largest kept distance, and the rest hold the others. */
  lemma SortedSplitsOffLargest(kept: seq<real>, sorted: seq<real>)
    requires |sorted| > 0 && Ascending(sorted) && multiset(sorted) == multiset(kept)
    ensures multiset(sorted[..|sorted| - 1] + [sorted[|sorted| - 1]]) == multiset(kept)
    ensures forall x | x in multiset(kept) :: x <= sorted[|sorted| - 1]
  {
    assert sorted == sorted[..|sorted| - 1] + [sorted[|sorted| - 1]];
    forall x | x in multiset(kept)
      ensures x <= sorted[|sorted| - 1]
    {
      LastIsGreatest(sorted, x);
    }
  }

  /** The full list after a distance below its largest entry replaced that entry. */
  lemma ReplaceLargest(init: seq<real>, kept: seq<real>, rest: seq<real>, largest: real, d: real, k: int)
    requires k >= 1 && KSmallest(kept, init, k) && |kept| >= k
    requires multiset(rest + [largest]) == multiset(kept)
    requires forall x | x in multiset(kept) :: x <= largest
    requires d < largest
    ensures KSmallest(rest + [d], init + [d], k)
  {
    var r := rest + [d];
    var all := init + [d];
    assert multiset(all) == multiset(init) + multiset{d};
    assert multiset(r) == multiset(rest) + multiset{d};
    assert multiset(kept) == multiset(rest) + multiset{largest};
    assert multiset(all) - multiset(r) == (multiset(init) - multiset(kept)) + multiset{largest};
    forall x, y | x in multiset(r) && y in multiset(all) - multiset(r)
      ensures x <= y
    {
      if y == largest {
        assert x == d || x in multiset(kept);
      } else {
        assert y in multiset(init) - multiset(kept);
        assert largest <= y;
      }
    }
  }

  /** The full list after a distance not below its largest entry: the sorted list itself. */
  lemma KeepSorted(init: seq<real>, kept: seq<real>, sorted: seq<real>, largest: real, d: real, k: int)
    requires k >= 1 && KSmallest(kept, init, k) && |kept| >= k
    requires multiset(sorted) == multiset(kept) && |sorted| == |kept|
    requires forall x | x in multiset(kept) :: x <= largest
    requires largest <= d
    ensures KSmallest(sorted, init + [d], k)
  {
    var all := init + [d];
    assert multiset(all) == multiset(init) + multiset{d};
    assert multiset(all) - multiset(sorted) == (multiset(init) - multiset(kept)) + multiset{d};
  }

  /** Each retained distance of one training set, tagged with its key (`new ProbeDistance`). */
  function Tag(key: string, kept: seq<real>): (tagged: seq<ProbeDistance>)
    ensures |tagged| == |kept| && forall i | 0 <= i < |kept| :: tagged[i] == ProbeDistance(key, kept[i])
  {
    seq(|kept|, i requires 0 <= i < |kept| => ProbeDistance(key, kept[i]))
  }

  /**
   * The pooled list for one test probe: the retained distances of every
   * training set, tagged, in the order of the training sets.
   */
  function Pool(training: Table<Matrix>, probe: Vector, indexesOfBestAttributes: set<int>, k: int): seq<ProbeDistance>
    requires k >= 1 && SameShape(training, |probe|)
  {
    if training == [] then []
    else
      var last := training[|training| - 1];
      Pool(training[..|training| - 1], probe, indexesOfBestAttributes, k)
        + Tag(last.0, Retain(ClassDistances(last.1, probe, indexesOfBestAttributes), k))
  }

  /**
   * The pool holds min(k, n) entries per training set of n probes, so it has
   * at least k entries iff the training sets hold at least k probes together.
   */
  lemma {:induction false} PoolSize(training: Table<Matrix>, probe: Vector, indexesOfBestAttributes: set<int>, k: int)
    requires k >= 1 && SameShape(training, |probe|)
    ensures |Pool(training, probe, indexesOfBestAttributes, k)| <= TotalProbes(training)
    ensures TotalProbes(training) < k ==> |Pool(training, probe, indexesOfBestAttributes, k)| == TotalProbes(training)
    ensures |Pool(training, probe, indexesOfBestAttributes, k)| >= k <==> TotalProbes(training) >= k
  {
    if training != [] {
      var last := training[|training| - 1];
      PoolSize(training[..|training| - 1], probe, indexesOfBestAttributes, k);
      RetainKeepsKSmallest(ClassDistances(last.1, probe, indexesOfBestAttributes), k);
    }
  }

  /** The entries of `pool` tagged with `key`, in order. */
  function WithClass(pool: seq<ProbeDistance>, key: string): seq<ProbeDistance> {
    if pool == [] then []
    else WithClass(pool[..|pool| - 1], key) + (if pool[|pool| - 1].className == key then [pool[|pool| - 1]] else [])
  }

  lemma {:induction false} WithClassAppend(a: seq<ProbeDistance>, b: seq<ProbeDistance>, key: string)
    ensures WithClass(a + b, key) == WithClass(a, key) + WithClass(b, key)
    decreases |b|
  {
    if b != [] {
      assert (a + b)[..|a + b| - 1] == a + b[..|b| - 1];
      WithClassAppend(a, b[..|b| - 1], key);
    } else {
      assert a + b == a;
    }
  }

  lemma {:induction false} WithClassOfTag(owner: string, kept: seq<real>, key: string)
    ensures WithClass(Tag(owner, kept), key) == if owner == key then Tag(owner, kept) else []
  {
    if kept != [] {
      var init := kept[..|kept| - 1];
      var tagged, taggedInit := Tag(owner, kept), Tag(owner, init);
      var last := ProbeDistance(owner, kept[|kept| - 1]);
      assert tagged[..|tagged| - 1] == taggedInit;
      assert tagged[|tagged| - 1] == last;
      assert WithClass(tagged, key) == WithClass(taggedInit, key) + (if owner == key then [last] else []);
      WithClassOfTag(owner, init, key);
      if owner == key {
        assert tagged == taggedInit + [last];
      }
    }
  }

  /**
   * The pooled entries tagged with training key `training[c].0` are exactly
   * the distances retained for that training set, in order.
   */
  lemma {:induction false} PoolPerClass(training: Table<Matrix>, probe: Vector, indexesOfBestAttributes: set<int>, k: int, c: nat)
    requires k >= 1 && SameShape(training, |probe|) && DistinctKeys(training) && c < |training|
    ensures WithClass(Pool(training, probe, indexesOfBestAttributes, k), training[c].0)
         == Tag(training[c].0, Retain(ClassDistances(training[c].1, probe, indexesOfBestAttributes), k))
  {
    var init, last := training[..|training| - 1], training[|training| - 1];
    var key := training[c].0;
    var kept := Retain(ClassDistances(last.1, probe, indexesOfBestAttributes), k);
    WithClassAppend(Pool(init, probe, indexesOfBestAttributes, k), Tag(last.0, kept), key);
    WithClassOfTag(last.0, kept, key);
    if c < |training| - 1 {
      assert init[c] == training[c];
      PoolPerClass(init, probe, indexesOfBestAttributes, k, c);
    } else {
      NoOwnerNoEntries(init, probe, indexesOfBestAttributes, k, key);
    }
  }

  /** A key that is no training key tags no pooled entry. */
  lemma {:induction false} NoOwnerNoEntries(training: Table<Matrix>, probe: Vector, indexesOfBestAttributes: set<int>, k: int, key: string)
    requires k >= 1 && SameShape(training, |probe|)
    requires forall c | 0 <= c < |training| :: training[c].0 != key
    ensures WithClass(Pool(training, probe, indexesOfBestAttributes, k), key) == []
  {
    if training != [] {
      var init, last := training[..|training| - 1], training[|training| - 1];
      var kept := Retain(ClassDistances(last.1, probe, indexesOfBestAttributes), k);
      WithClassAppend(Pool(init, probe, indexesOfBestAttributes, k), Tag(last.0, kept), key);
      WithClassOfTag(last.0, kept, key);
      NoOwnerNoEntries(init, probe, indexesOfBestAttributes, k, key);
    }
  }

  /** Every pooled entry is a retained distance of the training set whose key it carries. */
  lemma {:induction false} PoolOwners(training: Table<Matrix>, probe: Vector, indexesOfBestAttributes: set<int>, k: int, i: nat)
    requires k >= 1 && SameShape(training, |probe|)
    requires i < |Pool(training, probe, indexesOfBestAttributes, k)|
    ensures exists c | 0 <= c < |training| ::
      var pd := Pool(training, probe, indexesOfBestAttributes, k)[i];
      pd.className == training[c].0
      && pd.distanceToTestProbe in multiset(Retain(ClassDistances(training[c].1, probe, indexesOfBestAttributes), k))
  {
    var init, last := training[..|training| - 1], training[|training| - 1];
    var front := Pool(init, probe, indexesOfBestAttributes, k);
    var kept := Retain(ClassDistances(last.1, probe, indexesOfBestAttributes), k);
    var pd := Pool(training, probe, indexesOfBestAttributes, k)[i];
    if i < |front| {
      PoolOwners(init, probe, indexesOfBestAttributes, k, i);
      var c :| 0 <= c < |init| && pd.className == init[c].0
        && pd.distanceToTestProbe in multiset(Retain(ClassDistances(init[c].1, probe, indexesOfBestAttributes), k));
      assert init[c] == training[c];
    } else {
      assert pd == ProbeDistance(last.0, kept[i - |front|]);
      assert pd.distanceToTestProbe in multiset(kept);
      assert training[|training| - 1] == last;
    }
  }

  /** Every retained distance of every training set is in the pool, tagged with that set's key. */
  lemma {:induction false} PoolHoldsRetained(training: Table<Matrix>, probe: Vector, indexesOfBestAttributes: set<int>, k: int,
                                             c: nat, x: real)
    requires k >= 1 && SameShape(training, |probe|) && c < |training|
    requires x in multiset(Retain(ClassDistances(training[c].1, probe, indexesOfBestAttributes), k))
    ensures ProbeDistance(training[c].0, x) in multiset(Pool(training, probe, indexesOfBestAttributes, k))
  {
    var init, last := training[..|training| - 1], training[|training| - 1];
    var front := Pool(init, probe, indexesOfBestAttributes, k);
    var kept := Retain(ClassDistances(last.1, probe, indexesOfBestAttributes), k);
    assert Pool(training, probe, indexesOfBestAttributes, k) == front + Tag(last.0, kept);
    if c < |training| - 1 {
      assert init[c] == training[c];
      PoolHoldsRetained(init, probe, indexesOfBestAttributes, k, c, x);
    } else {
      var j :| 0 <= j < |kept| && kept[j] == x;
      assert Tag(last.0, kept)[j] == ProbeDistance(training[c].0, x);
    }
  }

  /** The vote table after one more vote for `key`: a count goes up or a new key is appended with 1. */
  function Increment(votes: Table<nat>, key: string): Table<nat> {
    if votes == [] then [(key, 1)]
    else if votes[0].0 == key then [(key, votes[0].1 + 1)] + votes[1..]
    else [votes[0]] + Increment(votes[1..], key)
  }

  /** The vote table of the loop over the nearest entries (`countOfClosestNegihboursPerClass`). */
  function CountVotes(nearest: seq<ProbeDistance>): Table<nat> {
    if nearest == [] then []
    else Increment(CountVotes(nearest[..|nearest| - 1]), nearest[|nearest| - 1].className)
  }

  /** The votes recorded for `key`; 0 for a key the table does not hold. */
  function VotesOf(votes: Table<nat>, key: string): nat {
    if votes == [] then 0 else if votes[0].0 == key then votes[0].1 else VotesOf(votes[1..], key)
  }

  /** The sum of all recorded votes. */
  function TotalVotes(votes: Table<nat>): nat {
    if votes == [] then 0 else votes[0].1 + TotalVotes(votes[1..])
  }

  /** How many entries of `nearest` are tagged with `key`. */
  function Occurrences(nearest: seq<ProbeDistance>, key: string): nat {
    if nearest == [] then 0
    else Occurrences(nearest[..|nearest| - 1], key) + (if nearest[|nearest| - 1].className == key then 1 else 0)
  }

  /** Every key of the table was voted for. */
  predicate Voted(votes: Table<nat>) {
    forall i | 0 <= i < |votes| :: votes[i].1 >= 1
  }

  /** A vote appends `key` to the keys when the table did not hold it and leaves them alone otherwise. */
  lemma {:induction false} IncrementKeys(votes: Table<nat>, key: string)
    ensures Keys(Increment(votes, key)) == if key in Keys(votes) then Keys(votes) else Keys(votes) + [key]
  {
    if votes == [] {
      assert Increment(votes, key) == [(key, 1)];
      KeysCons((key, 1), []);
    } else {
      var tail := votes[1..];
      assert votes == [votes[0]] + tail;
      KeysCons(votes[0], tail);
      var r := Increment(votes, key);
      if votes[0].0 != key {
        IncrementKeys(tail, key);
        assert r == [votes[0]] + Increment(tail, key);
        KeysCons(votes[0], Increment(tail, key));
        assert key in Keys(votes) <==> key in Keys(tail);
        if key !in Keys(tail) {
          assert [votes[0].0] + (Keys(tail) + [key]) == ([votes[0].0] + Keys(tail)) + [key];
        }
      } else {
        assert r == [(key, votes[0].1 + 1)] + tail;
        KeysCons((key, votes[0].1 + 1), tail);
      }
    }
  }

  lemma KeysCons<V>(head: (string, V), rest: Table<V>)
    ensures Keys([head] + rest) == [head.0] + Keys(rest)
  {
    var t := [head] + rest;
    assert forall i | 1 <= i < |t| :: t[i] == rest[i - 1];
  }

  /** A vote keeps the keys of the table distinct. */
  lemma IncrementKeepsKeysDistinct(votes: Table<nat>, key: string)
    requires DistinctKeys(votes)
    ensures DistinctKeys(Increment(votes, key))
  {
    IncrementKeys(votes, key);
    var r := Increment(votes, key);
    var before, after := Keys(votes), Keys(r);
    forall i, j | 0 <= i < j < |r|
      ensures r[i].0 != r[j].0
    {
      assert after[i] == r[i].0 && after[j] == r[j].0;
      assert i < |votes| && after[i] == before[i] == votes[i].0;
      if j < |votes| {
        assert after[j] == before[j] == votes[j].0;
      } else {
        assert key !in before && after[j] == key;
      }
    }
  }

  /** A vote for `key` adds one to its count and to the total and leaves every other count alone. */
  lemma {:induction false} IncrementTally(votes: Table<nat>, key: string)
    requires Voted(votes)
    ensures Voted(Increment(votes, key))
    ensures VotesOf(Increment(votes, key), key) == VotesOf(votes, key) + 1
    ensures forall other | other != key :: VotesOf(Increment(votes, key), other) == VotesOf(votes, other)
    ensures TotalVotes(Increment(votes, key)) == TotalVotes(votes) + 1
  {
    if votes != [] && votes[0].0 != key {
      IncrementTally(votes[1..], key);
      assert Increment(votes, key) == [votes[0]] + Increment(votes[1..], key);
    } else if votes != [] {
      var r := Increment(votes, key);
      assert forall other | other != key :: VotesOf(r, other) == VotesOf(votes[1..], other);
    }
  }

  /**
   * The vote table lists each voted key once, with as many votes as entries
   * of `nearest` carry it, and the votes add up to the number of entries.
   */
  lemma {:induction false} CountVotesCounts(nearest: seq<ProbeDistance>)
    ensures DistinctKeys(CountVotes(nearest)) && Voted(CountVotes(nearest))
    ensures forall key :: VotesOf(CountVotes(nearest), key) == Occurrences(nearest, key)
    ensures forall key :: key in Keys(CountVotes(nearest)) <==> Occurrences(nearest, key) > 0
    ensures TotalVotes(CountVotes(nearest)) == |nearest|
  {
    if nearest != [] {
      var init := nearest[..|nearest| - 1];
      var last := nearest[|nearest| - 1].className;
      var before := CountVotes(init);
      var after := CountVotes(nearest);
      assert after == Increment(before, last);
      CountVotesCounts(init);
      IncrementKeys(before, last);
      IncrementKeepsKeysDistinct(before, last);
      IncrementTally(before, last);
      forall key
        ensures VotesOf(after, key) == Occurrences(nearest, key)
        ensures key in Keys(after) <==> Occurrences(nearest, key) > 0
      {
        assert Occurrences(nearest, key) == Occurrences(init, key) + (if last == key then 1 else 0);
        if key !in Keys(before) {
          AbsentKeyHasNoVotes(before, key);
        }
      }
    }
  }

  lemma {:induction false} AbsentKeyHasNoVotes(votes: Table<nat>, key: string)
    requires key !in Keys(votes)
    ensures VotesOf(votes, key) == 0
  {
    if votes != [] {
      assert Keys(votes) == [votes[0].0] + Keys(votes[1..]);
      AbsentKeyHasNoVotes(votes[1..], key);
    }
  }

  /**
   * The loop over the vote table: the index of the chosen entry (-1 before the
   * first) and its count; an entry replaces the choice only with strictly
   * more votes.
   */
  function MostVoted(votes: Table<nat>): (r: (int, nat))
    ensures -1 <= r.0 < |votes|
  {
    if votes == [] then (-1, 0)
    else
      var previous := MostVoted(votes[..|votes| - 1]);
      if previous.0 < 0 || previous.1 < votes[|votes| - 1].1 then (|votes| - 1, votes[|votes| - 1].1) else previous
  }

  /** The predicted class: the key of the chosen entry, "" for an empty table. */
  function MostVotedClass(votes: Table<nat>): string {
    var i := MostVoted(votes).0;
    if i < 0 then "" else votes[i].0
  }

  /**
   * The chosen class has a vote count no smaller than any other class's and
   * strictly larger than the count of every class before it: ties go to the
   * first class in iteration order. Only an empty table gives no class.
   */
  lemma {:induction false} MostVotedIsFirstMaximum(votes: Table<nat>)
    ensures var (i, count) := MostVoted(votes);
      && (i == -1 <==> votes == [])
      && (i >= 0 ==> votes[i].1 == count)
      && (forall j | 0 <= j < |votes| :: votes[j].1 <= count)
      && (i >= 0 ==> forall j | 0 <= j < i :: votes[j].1 < count)
  {
    if votes != [] {
      var init := votes[..|votes| - 1];
      MostVotedIsFirstMaximum(init);
      assert forall j | 0 <= j < |init| :: init[j] == votes[j];
    }
  }

  /**
   * The pool suffices for the vote: with k >= 1 it must reach k entries,
   * which holds iff the training sets hold k probes (see `PoolSize`); with
   * k <= 0 the bounded list fails on its first training probe.
   */
  predicate PoolSuffices(training: Table<Matrix>, k: int) {
    if k >= 1 then TotalProbes(training) >= k else TotalProbes(training) == 0
  }

  /** The first k entries of the ascending pool, which vote. */
  function Nearest(training: Table<Matrix>, probe: Vector, indexesOfBestAttributes: set<int>, k: int): (nearest: seq<ProbeDistance>)
    requires PoolSuffices(training, k) && SameShape(training, |probe|)
    ensures |nearest| == if k >= 1 then k else 0
  {
    if k <= 0 then []
    else
      PoolSize(training, probe, indexesOfBestAttributes, k);
      SortByDistance(Pool(training, probe, indexesOfBestAttributes, k))[..k]
  }

  /** The class predicted for one test probe. */
  function Predict(training: Table<Matrix>, probe: Vector, indexesOfBestAttributes: set<int>, k: int): string
    requires PoolSuffices(training, k) && SameShape(training, |probe|)
  {
    MostVotedClass(CountVotes(Nearest(training, probe, indexesOfBestAttributes, k)))
  }

  /** The predictions for the first `n` probes of one test set: entry `p` is the class predicted for probe `p`. */
  function PredictionsUpTo(training: Table<Matrix>, testSet: Matrix, indexesOfBestAttributes: set<int>, k: int, n: nat): (predicted: seq<string>)
    requires ProbeMatrix(testSet) && SameShape(training, |testSet|) && n <= ProbeCount(testSet)
    requires n > 0 ==> PoolSuffices(training, k)
    ensures |predicted| == n
  {
    seq(n, p requires 0 <= p < n => Predict(training, Column(testSet, p), indexesOfBestAttributes, k))
  }

  /** The predictions for the probes of one test set. */
  function Predictions(training: Table<Matrix>, testSet: Matrix, indexesOfBestAttributes: set<int>, k: int): (predicted: seq<string>)
    requires ProbeMatrix(testSet) && SameShape(training, |testSet|)
    requires ProbeCount(testSet) > 0 ==> PoolSuffices(training, k)
    ensures |predicted| == ProbeCount(testSet)
  {
    PredictionsUpTo(training, testSet, indexesOfBestAttributes, k, ProbeCount(testSet))
  }

  /** The predictions for every test set, in the order of the test sets. */
  function AllPredictions(training: Table<Matrix>, testSets: Table<Matrix>, indexesOfBestAttributes: set<int>, k: int, attributes: nat): (predicted: seq<seq<string>>)
    requires SameShape(training, attributes) && SameShape(testSets, attributes)
    requires TotalProbes(testSets) > 0 ==> PoolSuffices(training, k)
    ensures |predicted| == |testSets|
    ensures Count(predicted) == TotalProbes(testSets)
  {
    if testSets == [] then []
    else
      var init := testSets[..|testSets| - 1];
      assert SameShape(init, attributes);
      AllPredictions(training, init, indexesOfBestAttributes, k, attributes)
        + [Predictions(training, testSets[|testSets| - 1].1, indexesOfBestAttributes, k)]
  }

  /**
   * `train` on a data set: the percentage of test probes classified
   * correctly, or the exception it ends with. A test set without attribute
   * rows fails on `[0]`; a pool smaller than k fails in the vote; k <= 0 fails
   * in the bounded list as soon as a training probe exists.
   */
  function KnnAccuracy(sets: Table<Matrix>, indexesOfBestAttributes: set<int>, k: int): Result<real>
    requires ProbeSets(sets)
  {
    var training, tests := TrainingSets(sets), TestSets(sets);
    SplitKeepsShape(sets, Attributes(sets));
    if exists t | 0 <= t < |tests| :: tests[t].1 == [] then Err(IndexOutOfBounds)
    else if TotalProbes(tests) > 0 && !PoolSuffices(training, k) then Err(IndexOutOfBounds)
    else
      var predicted := AllPredictions(training, tests, indexesOfBestAttributes, k, Attributes(sets));
      var successes := AllSuccesses(Keys(tests), predicted);
      Accuracy(successes, Count(predicted) - successes)
  }

  /**
   * The innermost loop of `train`: the squared distance between test probe
   * `probeIndex` and training probe `trainingProbeIndex` over the selected
   * attributes, read straight from the two matrices.
   */
  method DistanceToProbe(testSet: Matrix, probeIndex: nat, trainingSet: Matrix, trainingProbeIndex: nat, indexesOfBestAttributes: set<int>)
    returns (distanceToProbe: real)
    requires ProbeMatrix(testSet) && ProbeMatrix(trainingSet) && |testSet| == |trainingSet|
    requires probeIndex < ProbeCount(testSet) && trainingProbeIndex < ProbeCount(trainingSet)
    ensures distanceToProbe
         == SquaredDistance(Column(testSet, probeIndex), Column(trainingSet, trainingProbeIndex), indexesOfBestAttributes)
  {
    ghost var x, y := Column(testSet, probeIndex), Column(trainingSet, trainingProbeIndex);
    distanceToProbe := 0.0;
    for attributeIndex := 0 to |trainingSet|
      invariant distanceToProbe == SquaredDistance(x[..attributeIndex], y[..attributeIndex], indexesOfBestAttributes)
    {
      assert x[..attributeIndex + 1][..attributeIndex] == x[..attributeIndex];
      assert y[..attributeIndex + 1][..attributeIndex] == y[..attributeIndex];
      if indexesOfBestAttributes == {} || attributeIndex in indexesOfBestAttributes {
        var difference := testSet[attributeIndex][probeIndex] - trainingSet[attributeIndex][trainingProbeIndex];
        distanceToProbe := distanceToProbe + difference * difference;
      }
    }
    assert x[..|trainingSet|] == x && y[..|trainingSet|] == y;
  }

  /**
   * The loop over the probes of one training set: the bounded list
   * `closestClassNeighbours`, appended to while short and otherwise sorted
   * and overwritten at its end. With k <= 0 its first probe fails on
   * `get(size() - 1)` of an empty list.
   */
  method NearestInClass(testSet: Matrix, probeIndex: nat, trainingSet: Matrix, indexesOfBestAttributes: set<int>, kCount: int)
    returns (closestClassNeighbours: Result<seq<real>>)
    requires ProbeMatrix(testSet) && ProbeMatrix(trainingSet) && |testSet| == |trainingSet|
    requires probeIndex < ProbeCount(testSet)
    ensures closestClassNeighbours
         == if kCount >= 1 then Ok(Retain(ClassDistances(trainingSet, Column(testSet, probeIndex), indexesOfBestAttributes), kCount))
            else if ProbeCount(trainingSet) == 0 then Ok([])
            else Err(IndexOutOfBounds)
  {
    ghost var ds := ClassDistances(trainingSet, Column(testSet, probeIndex), indexesOfBestAttributes);
    var kept: seq<real> := [];
    for trainingProbeIndex := 0 to ProbeCount(trainingSet)
      invariant kCount >= 1 ==> kept == Retain(ds[..trainingProbeIndex], kCount)
      invariant kCount < 1 ==> trainingProbeIndex == 0 && kept == []
    {
      var distanceToProbe := DistanceToProbe(testSet, probeIndex, trainingSet, trainingProbeIndex, indexesOfBestAttributes);
      assert distanceToProbe == ds[trainingProbeIndex];
      if kCount >= 1 {
        RetainStep(ds, trainingProbeIndex, kCount);
      }
      var next := Admit(kept, distanceToProbe, kCount);
      if next.Err? {
        return Err(IndexOutOfBounds);
      }
      kept := next.value;
    }
    assert ds[..ProbeCount(trainingSet)] == ds;
    return Ok(kept);
  }

  /**
   * One pass of the loop over a training set: the distance is appended while
   * the list is short; otherwise the list is sorted and its last entry is
   * overwritten by a strictly smaller distance.
   */
  method Admit(kept: seq<real>, distanceToProbe: real, kCount: int) returns (next: Result<seq<real>>)
    ensures kCount >= 1 ==> next == Ok(Step(kept, distanceToProbe, kCount))
    ensures kCount < 1 && kept == [] ==> next == Err(IndexOutOfBounds)
  {
    if |kept| < kCount {
      return Ok(kept + [distanceToProbe]);
    }
    var sorted := Sort(kept);
    assert |sorted| == |kept|;
    if |sorted| == 0 {
      return Err(IndexOutOfBounds);
    }
    if distanceToProbe < sorted[|sorted| - 1] {
      next := Ok(sorted[..|sorted| - 1] + [distanceToProbe]);
    } else {
      next := Ok(sorted);
    }
  }

  /** The loop over the training sets: the pooled, tagged retained distances of one test probe. */
  method CollectPool(testSet: Matrix, probeIndex: nat, trainingSets: Table<Matrix>, indexesOfBestAttributes: set<int>, kCount: int)
    returns (pool: Result<seq<ProbeDistance>>)
    requires ProbeMatrix(testSet) && SameShape(trainingSets, |testSet|) && probeIndex < ProbeCount(testSet)
    ensures pool
         == if kCount >= 1 then Ok(Pool(trainingSets, Column(testSet, probeIndex), indexesOfBestAttributes, kCount))
            else if TotalProbes(trainingSets) == 0 then Ok([])
            else Err(IndexOutOfBounds)
  {
    ghost var probe := Column(testSet, probeIndex);
    var distances: seq<ProbeDistance> := [];
    for c := 0 to |trainingSets|
      invariant SameShape(trainingSets[..c], |probe|)
      invariant kCount >= 1 ==> distances == Pool(trainingSets[..c], probe, indexesOfBestAttributes, kCount)
      invariant kCount < 1 ==> distances == [] && TotalProbes(trainingSets[..c]) == 0
    {
      assert trainingSets[..c + 1][..c] == trainingSets[..c];
      assert trainingSets[..c + 1][c] == trainingSets[c];
      var keyInTrainingSet := trainingSets[c].0;
      var closest := NearestInClass(testSet, probeIndex, trainingSets[c].1, indexesOfBestAttributes, kCount);
      if closest.Err? {
        TotalProbesBound(trainingSets, c);
        return Err(closest.error);
      }
      distances := distances + Tag(keyInTrainingSet, closest.value);
    }
    assert trainingSets[..|trainingSets|] == trainingSets;
    return Ok(distances);
  }

  /** The loop over the vote table that finds the class with most votes. */
  method FindMostVoted(votes: Table<nat>) returns (closestClass: string)
    ensures closestClass == MostVotedClass(votes)
  {
    closestClass := "";
    var closestClassCount: Option<nat> := None;
    ghost var chosen := -1;
    for i := 0 to |votes|
      invariant MostVoted(votes[..i]).0 == chosen
      invariant closestClassCount.None? <==> chosen == -1
      invariant closestClassCount.Some? ==> MostVoted(votes[..i]).1 == closestClassCount.value
      invariant closestClass == if chosen < 0 then "" else votes[chosen].0
    {
      assert votes[..i + 1][..i] == votes[..i];
      if closestClassCount == None || closestClassCount.value < votes[i].1 {
        closestClass := votes[i].0;
        closestClassCount := Some(votes[i].1);
        chosen := i;
      }
    }
    assert votes[..|votes|] == votes;
  }

  /**
   * The vote loop: one vote per entry among the first k of the sorted pool;
   * `get(i)` fails once `i` reaches the end of a pool shorter than k.
   */
  method TallyVotes(sorted: seq<ProbeDistance>, kCount: int) returns (votes: Result<Table<nat>>)
    ensures votes == if kCount <= 0 then Ok([])
                     else if |sorted| < kCount then Err(IndexOutOfBounds)
                     else Ok(CountVotes(sorted[..kCount]))
  {
    var countOfClosestNeighboursPerClass: Table<nat> := [];
    var i := 0;
    while i < kCount
      invariant 0 <= i && (kCount >= 1 ==> i <= kCount) && (kCount < 1 ==> i == 0)
      invariant i <= |sorted| && countOfClosestNeighboursPerClass == CountVotes(sorted[..i])
    {
      if i >= |sorted| {
        return Err(IndexOutOfBounds);
      }
      assert sorted[..i + 1][..i] == sorted[..i];
      countOfClosestNeighboursPerClass := Increment(countOfClosestNeighboursPerClass, sorted[i].className);
      i := i + 1;
    }
    return Ok(countOfClosestNeighboursPerClass);
  }

  /**
   * One test probe: pool, sort, count the votes of the first k entries, take
   * the class with most votes. Fails exactly when the pool does not suffice.
   */
  method ClassifyProbe(testSet: Matrix, probeIndex: nat, trainingSets: Table<Matrix>, indexesOfBestAttributes: set<int>, kCount: int)
    returns (closestClass: Result<string>)
    requires ProbeMatrix(testSet) && SameShape(trainingSets, |testSet|) && probeIndex < ProbeCount(testSet)
    ensures closestClass
         == if PoolSuffices(trainingSets, kCount)
            then Ok(Predict(trainingSets, Column(testSet, probeIndex), indexesOfBestAttributes, kCount))
            else Err(IndexOutOfBounds)
  {
    ghost var probe := Column(testSet, probeIndex);
    var pool := CollectPool(testSet, probeIndex, trainingSets, indexesOfBestAttributes, kCount);
    if pool.Err? {
      return Err(pool.error);
    }
    var sorted := SortByDistance(pool.value);
    if kCount >= 1 {
      PoolSize(trainingSets, probe, indexesOfBestAttributes, kCount);
    }
    var votes := TallyVotes(sorted, kCount);
    if votes.Err? {
      return Err(votes.error);
    }
    var chosen := FindMostVoted(votes.value);
    return Ok(chosen);
  }

  /**
   * The loop over the probes of one test set: each probe is classified and
   * counted once, as a success or as a failure, on top of the counts so far.
   */
  method ScoreTestSet(keyInTestSet: string, testSet: Matrix, trainingSets: Table<Matrix>, indexesOfBestAttributes: set<int>,
                      kCount: int, successesBefore: nat, failuresBefore: nat)
    returns (counts: Result<(nat, nat)>)
    requires ProbeMatrix(testSet) && |testSet| > 0 && SameShape(trainingSets, |testSet|)
    ensures counts.Err? <==> ProbeCount(testSet) > 0 && !PoolSuffices(trainingSets, kCount)
    ensures counts.Err? ==> counts.error == IndexOutOfBounds
    ensures counts.Ok? ==>
      var successes := Successes(keyInTestSet, Predictions(trainingSets, testSet, indexesOfBestAttributes, kCount));
      counts.value == (successesBefore + successes, failuresBefore + ProbeCount(testSet) - successes)
  {
    var countOfSuccessAssignments, countOfFailedAssignments := successesBefore, failuresBefore;
    ghost var row: seq<string> := [];
    for testProbeIndex := 0 to |testSet[0]|
      invariant testProbeIndex > 0 ==> PoolSuffices(trainingSets, kCount)
      invariant row == PredictionsUpTo(trainingSets, testSet, indexesOfBestAttributes, kCount, testProbeIndex)
      invariant countOfSuccessAssignments == successesBefore + Successes(keyInTestSet, row)
      invariant countOfSuccessAssignments + countOfFailedAssignments == successesBefore + failuresBefore + |row|
    {
      var closestClass := ClassifyProbe(testSet, testProbeIndex, trainingSets, indexesOfBestAttributes, kCount);
      if closestClass.Err? {
        return Err(closestClass.error);
      }
      NextProbe(keyInTestSet, row, closestClass.value, trainingSets, testSet, indexesOfBestAttributes, kCount, testProbeIndex);
      row := row + [closestClass.value];
      countOfSuccessAssignments, countOfFailedAssignments :=
        Record(keyInTestSet, closestClass.value, countOfSuccessAssignments, countOfFailedAssignments);
    }
    return Ok((countOfSuccessAssignments, countOfFailedAssignments));
  }

  /**
   * The loop of `train` over the test sets, in key order: the success and
   * failure counts over all of them, or the exception that stops it.
   */
  method ScoreTestSets(sets: Table<Matrix>, training: Table<Matrix>, tests: Table<Matrix>, keys: seq<string>,
                       indexesOfBestAttributes: set<int>, kCount: int)
    returns (counts: Result<(nat, nat)>)
    requires ProbeSets(sets) && training == TrainingSets(sets) && tests == TestSets(sets) && keys == Keys(tests)
    ensures KnnAccuracy(sets, indexesOfBestAttributes, kCount)
         == if counts.Err? then Err(counts.error) else Accuracy(counts.value.0, counts.value.1)
  {
    ghost var attributes := Attributes(sets);
    SplitKeepsShape(sets, attributes);
    var counted: (nat, nat) := (0, 0);
    ghost var predicted: seq<seq<string>> := [];
    for t := 0 to |keys|
      invariant forall u | 0 <= u < t :: tests[u].1 != []
      invariant TotalProbes(tests[..t]) > 0 ==> PoolSuffices(training, kCount)
      invariant SameShape(tests[..t], attributes)
      invariant predicted == AllPredictions(training, tests[..t], indexesOfBestAttributes, kCount, attributes)
      invariant counted.0 == AllSuccesses(Keys(tests[..t]), predicted)
      invariant counted.0 + counted.1 == Count(predicted)
    {
      var keyInTestSet := keys[t];
      var testSet := tests[t].1;
      if |testSet| == 0 {
        EmptyTestSetFails(sets, indexesOfBestAttributes, kCount, t);
        return Err(IndexOutOfBounds);
      }
      var setCounts := ScoreTestSet(keyInTestSet, testSet, training, indexesOfBestAttributes, kCount,
                                    counted.0, counted.1);
      if setCounts.Err? {
        ShortPoolFails(sets, indexesOfBestAttributes, kCount, t);
        return Err(setCounts.error);
      }
      predicted := NextTestSet(training, tests, t, indexesOfBestAttributes, kCount, attributes, predicted,
                               counted.0, counted.1, setCounts.value.0, setCounts.value.1);
      counted := setCounts.value;
    }
    assert tests[..|tests|] == tests;
    AllTestSetsScored(sets, indexesOfBestAttributes, kCount, predicted, counted.0, counted.1);
    return Ok(counted);
  }

  /**
   * The classifier object. `train` assigns the four fields in its split and
   * leaves them there; the model keeps them so that a caller sees the same
   * state after a call.
   */
  class KNNClassifier {
    var trainingSets: Table<Matrix>
    var testSets: Table<Matrix>
    var keysInTrainingSets: seq<string>
    var keysInTestSets: seq<string>

    constructor ()
      ensures trainingSets == [] && testSets == [] && keysInTrainingSets == [] && keysInTestSets == []
    {
      trainingSets := [];
      testSets := [];
      keysInTrainingSets := [];
      keysInTestSets := [];
    }

    /**
     * `splitPassedSetsIntoTestAndTraining`: a set goes to `testSets` iff its
     * key contains "_test", with its matrix unchanged; the key fields list the
     * keys of the two maps.
     */
    method SplitPassedSetsIntoTestAndTraining(sets: Table<Matrix>)
      modifies this
      ensures trainingSets == TrainingSets(sets) && testSets == TestSets(sets)
      ensures keysInTrainingSets == Keys(trainingSets) && keysInTestSets == Keys(testSets)
    {
      trainingSets := [];
      testSets := [];
      for i := 0 to |sets|
        invariant trainingSets == TrainingSets(sets[..i]) && testSets == TestSets(sets[..i])
      {
        assert sets[..i + 1][..i] == sets[..i];
        var className := sets[i].0;
        if IsTestKey(className) {
          testSets := testSets + [(className, sets[i].1)];
        } else {
          trainingSets := trainingSets + [(className, sets[i].1)];
        }
      }
      assert sets[..|sets|] == sets;
      keysInTestSets := Keys(testSets);
      keysInTrainingSets := Keys(trainingSets);
    }

    /**
     * `train`: classifies every probe of every test set against the training
     * sets with `kCount` neighbours and returns the percentage classified
     * correctly.
     */
    method Train(sets: Table<Matrix>, indexesOfBestAttributes: set<int>, kCount: int) returns (accuracy: Result<real>)
      requires ProbeSets(sets)
      modifies this
      ensures trainingSets == TrainingSets(sets) && testSets == TestSets(sets)
      ensures keysInTrainingSets == Keys(trainingSets) && keysInTestSets == Keys(testSets)
      ensures accuracy == KnnAccuracy(sets, indexesOfBestAttributes, kCount)
    {
      SplitPassedSetsIntoTestAndTraining(sets);
      var counts := ScoreTestSets(sets, trainingSets, testSets, keysInTestSets, indexesOfBestAttributes, kCount);
      if counts.Err? {
        return Err(counts.error);
      }
      accuracy := Accuracy(counts.value.0, counts.value.1);
    }
  }

  /** `train` fails on `probesInTestSet[0]` when test set `t` has no attribute rows. */
  lemma EmptyTestSetFails(sets: Table<Matrix>, indexesOfBestAttributes: set<int>, k: int, t: nat)
    requires ProbeSets(sets) && t < |TestSets(sets)| && TestSets(sets)[t].1 == []
    ensures KnnAccuracy(sets, indexesOfBestAttributes, k) == Err(IndexOutOfBounds)
  {
  }

  /**
   * `train` fails on the bounded list of `kCount` nearest neighbours when test
   * set `t` has a probe to classify and the training sets cannot fill it.
   */
  lemma ShortPoolFails(sets: Table<Matrix>, indexesOfBestAttributes: set<int>, k: int, t: nat)
    requires ProbeSets(sets) && t < |TestSets(sets)| && ProbeCount(TestSets(sets)[t].1) > 0
    requires !PoolSuffices(TrainingSets(sets), k)
    ensures KnnAccuracy(sets, indexesOfBestAttributes, k) == Err(IndexOutOfBounds)
  {
    TotalProbesBound(TestSets(sets), t);
  }

  /** Once every test set is scored, the counts give `KnnAccuracy`. */
  lemma AllTestSetsScored(sets: Table<Matrix>, indexesOfBestAttributes: set<int>, k: int, predicted: seq<seq<string>>,
                          successes: nat, failures: nat)
    requires ProbeSets(sets)
    requires var tests := TestSets(sets);
      && (forall u | 0 <= u < |tests| :: tests[u].1 != [])
      && (TotalProbes(tests) > 0 ==> PoolSuffices(TrainingSets(sets), k))
      && SameShape(tests, Attributes(sets)) && SameShape(TrainingSets(sets), Attributes(sets))
      && predicted == AllPredictions(TrainingSets(sets), tests, indexesOfBestAttributes, k, Attributes(sets))
      && successes == AllSuccesses(Keys(tests), predicted)
      && successes + failures == Count(predicted)
    ensures KnnAccuracy(sets, indexesOfBestAttributes, k) == Accuracy(successes, failures)
  {
  }

  /** The step of the loop over the probes of one test set: one more probe classified. */
  lemma NextProbe(keyInTestSet: string, row: seq<string>, predicted: string, training: Table<Matrix>, testSet: Matrix,
                  indexesOfBestAttributes: set<int>, k: int, i: nat)
    requires ProbeMatrix(testSet) && SameShape(training, |testSet|) && i < ProbeCount(testSet) && PoolSuffices(training, k)
    requires row == PredictionsUpTo(training, testSet, indexesOfBestAttributes, k, i)
    requires predicted == Predict(training, Column(testSet, i), indexesOfBestAttributes, k)
    ensures row + [predicted] == PredictionsUpTo(training, testSet, indexesOfBestAttributes, k, i + 1)
    ensures Successes(keyInTestSet, row + [predicted])
         == Successes(keyInTestSet, row) + (if IsSuccess(keyInTestSet, predicted) then 1 else 0)
  {
    var after := PredictionsUpTo(training, testSet, indexesOfBestAttributes, k, i + 1);
    forall q | 0 <= q < i + 1
      ensures (row + [predicted])[q] == after[q]
    {
    }
    assert row + [predicted] == after;
    assert (row + [predicted])[..|row|] == row;
  }

  /**
   * The step of `train`'s loop over the test sets: once test set `t` is
   * scored, the loop's bookkeeping covers one more test set.
   */
  lemma {:induction false} NextTestSet(training: Table<Matrix>, tests: Table<Matrix>, t: nat, indexesOfBestAttributes: set<int>, k: int,
                    attributes: nat, predicted: seq<seq<string>>, successes: nat, failures: nat,
                    successesAfter: nat, failuresAfter: nat)
    returns (predictedAfter: seq<seq<string>>)
    requires t < |tests| && SameShape(training, attributes) && SameShape(tests, attributes)
    requires TotalProbes(tests[..t]) > 0 || ProbeCount(tests[t].1) > 0 ==> PoolSuffices(training, k)
    requires SameShape(tests[..t], attributes)
    requires predicted == AllPredictions(training, tests[..t], indexesOfBestAttributes, k, attributes)
    requires successes == AllSuccesses(Keys(tests[..t]), predicted)
    requires successes + failures == Count(predicted)
    requires var successesInSet := Successes(tests[t].0, Predictions(training, tests[t].1, indexesOfBestAttributes, k));
      && successesAfter == successes + successesInSet
      && failuresAfter == failures + ProbeCount(tests[t].1) - successesInSet
    ensures TotalProbes(tests[..t + 1]) > 0 ==> PoolSuffices(training, k)
    ensures SameShape(tests[..t + 1], attributes)
    ensures predictedAfter == AllPredictions(training, tests[..t + 1], indexesOfBestAttributes, k, attributes)
    ensures successesAfter == AllSuccesses(Keys(tests[..t + 1]), predictedAfter)
    ensures successesAfter + failuresAfter == Count(predictedAfter)
  {
    PrefixGrows(tests, t, attributes);
    var row := Predictions(training, tests[t].1, indexesOfBestAttributes, k);
    AllPredictionsStep(training, tests, t, indexesOfBestAttributes, k, attributes);
    predictedAfter := predicted + [row];
    assert predictedAfter == AllPredictions(training, tests[..t + 1], indexesOfBestAttributes, k, attributes);
    AllSuccessesStep(Keys(tests[..t]), predicted, tests[t].0, row);
    assert successesAfter == AllSuccesses(Keys(tests[..t]) + [tests[t].0], predictedAfter);
    CountStep(predicted, row);
    assert |row| == ProbeCount(tests[t].1);
  }

  /** The predictions for the test sets up to `t + 1`: those up to `t`, then those for set `t`. */
  lemma AllPredictionsStep(training: Table<Matrix>, tests: Table<Matrix>, t: nat, indexesOfBestAttributes: set<int>, k: int, attributes: nat)
    requires t < |tests| && SameShape(training, attributes) && SameShape(tests[..t + 1], attributes)
    requires TotalProbes(tests[..t + 1]) > 0 ==> PoolSuffices(training, k)
    requires TotalProbes(tests[..t + 1]) == TotalProbes(tests[..t]) + ProbeCount(tests[t].1)
    ensures SameShape(tests[..t], attributes)
    ensures AllPredictions(training, tests[..t + 1], indexesOfBestAttributes, k, attributes)
         == AllPredictions(training, tests[..t], indexesOfBestAttributes, k, attributes)
            + [Predictions(training, tests[t].1, indexesOfBestAttributes, k)]
  {
    assert tests[..t + 1][..t] == tests[..t];
  }
}
