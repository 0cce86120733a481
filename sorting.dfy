/**
 * The two uses of `Collections.sort` in the classifiers: a `List<Double>` in
 * natural order, and a `List<ProbeDistance>` in the order of its
 * `compareTo`. Java's list sort is stable, and so are these insertion sorts:
 * an element is placed before the first element that is not smaller than it,
 * so elements that compare equal keep their relative order
 * (`SortByDistanceIsStable`).
 */
module Sorting {
  import opened ProbeDistances

  /** The values never decrease along `s`. */
  predicate Ascending(s: seq<real>) {
    forall i, j | 0 <= i < j < |s| :: s[i] <= s[j]
  }

  function Insert(x: real, s: seq<real>): (r: seq<real>)
    requires Ascending(s)
    ensures Ascending(r)
    ensures multiset(r) == multiset(s) + multiset{x}
    ensures |r| == |s| + 1
  {
    if s == [] then [x]
    else if x <= s[0] then [x] + s
    else
      assert s == [s[0]] + s[1..];
      var rest := Insert(x, s[1..]);
      LeastPrepended(s[0], rest, s[1..], x);
      [s[0]] + rest
  }

  /** A value no greater than `x` and than every value of `tail` can go before their ascending merge. */
  lemma LeastPrepended(y: real, rest: seq<real>, tail: seq<real>, x: real)
    requires Ascending(rest) && multiset(rest) == multiset(tail) + multiset{x}
    requires y <= x && forall j | 0 <= j < |tail| :: y <= tail[j]
    ensures Ascending([y] + rest)
  {
    forall i | 0 <= i < |rest|
      ensures y <= rest[i]
    {
      assert rest[i] in multiset(rest);
      if rest[i] != x {
        assert rest[i] in multiset(tail);
      }
    }
  }

  /** `Collections.sort` on a list of doubles: the ascending permutation of `s`. */
  function Sort(s: seq<real>): (r: seq<real>)
    ensures Ascending(r)
    ensures multiset(r) == multiset(s)
    ensures |r| == |s|
  {
    if s == [] then []
    else
      assert s == [s[0]] + s[1..];
      Insert(s[0], Sort(s[1..]))
  }

  /** The last value of an ascending non-empty sequence is the greatest of its values. */
  lemma {:induction false} LastIsGreatest(s: seq<real>, x: real)
    requires |s| > 0 && Ascending(s) && x in multiset(s)
    ensures x <= s[|s| - 1]
  {
    var i :| 0 <= i < |s| && s[i] == x;
  }

  /**
   * The distances never decrease along `s`, which is to say that `compareTo`
   * never finds an earlier entry greater than a later one
   * (`CompareToAgreesWithDistance`).
   */
  predicate AscendingByDistance(s: seq<ProbeDistance>) {
    forall i, j | 0 <= i < j < |s| :: s[i].distanceToTestProbe <= s[j].distanceToTestProbe
  }

  function InsertByDistance(x: ProbeDistance, s: seq<ProbeDistance>): (r: seq<ProbeDistance>)
    requires AscendingByDistance(s)
    ensures AscendingByDistance(r)
    ensures multiset(r) == multiset(s) + multiset{x}
    ensures |r| == |s| + 1
  {
    if s == [] then [x]
    else if x.CompareTo(s[0]) <= 0 then [x] + s
    else
      assert s == [s[0]] + s[1..];
      var rest := InsertByDistance(x, s[1..]);
      ClosestPrepended(s[0], rest, s[1..], x);
      [s[0]] + rest
  }

  /** An entry no farther than `x` and than every entry of `tail` can go before their ascending merge. */
  lemma ClosestPrepended(y: ProbeDistance, rest: seq<ProbeDistance>, tail: seq<ProbeDistance>, x: ProbeDistance)
    requires AscendingByDistance(rest) && multiset(rest) == multiset(tail) + multiset{x}
    requires y.distanceToTestProbe <= x.distanceToTestProbe
    requires forall j | 0 <= j < |tail| :: y.distanceToTestProbe <= tail[j].distanceToTestProbe
    ensures AscendingByDistance([y] + rest)
  {
    forall i | 0 <= i < |rest|
      ensures y.distanceToTestProbe <= rest[i].distanceToTestProbe
    {
      assert rest[i] in multiset(rest);
      if rest[i] != x {
        assert rest[i] in multiset(tail);
      }
    }
  }

  /**
   * `Collections.sort` on a list of probe distances: the permutation of `s`
   * ascending by distance, entries at equal distance in their original order.
   */
  function SortByDistance(s: seq<ProbeDistance>): (r: seq<ProbeDistance>)
    ensures AscendingByDistance(r)
    ensures multiset(r) == multiset(s)
    ensures |r| == |s|
  {
    if s == [] then []
    else
      assert s == [s[0]] + s[1..];
      InsertByDistance(s[0], SortByDistance(s[1..]))
  }

  /** The entries of `s` at distance `d`, in their order in `s`. */
  function AtDistance(s: seq<ProbeDistance>, d: real): (r: seq<ProbeDistance>)
    ensures |r| <= |s|
  {
    if s == [] then []
    else (if s[0].distanceToTestProbe == d then [s[0]] else []) + AtDistance(s[1..], d)
  }

  /** The entries at distance `d` of a sequence with `y` in front. */
  lemma AtDistancePrepended(y: ProbeDistance, s: seq<ProbeDistance>, d: real)
    ensures AtDistance([y] + s, d) == (if y.distanceToTestProbe == d then [y] else []) + AtDistance(s, d)
  {
    assert ([y] + s)[1..] == s;
  }

  /**
   * Inserting `x` into an ascending sequence puts it before every entry at
   * its own distance, and leaves the entries at every other distance as
   * they were.
   */
  lemma {:induction false} InsertByDistanceIsStable(x: ProbeDistance, s: seq<ProbeDistance>, d: real)
    requires AscendingByDistance(s)
    ensures AtDistance(InsertByDistance(x, s), d) == (if x.distanceToTestProbe == d then [x] else []) + AtDistance(s, d)
  {
    if s == [] {
      AtDistancePrepended(x, [], d);
    } else if x.CompareTo(s[0]) <= 0 {
      AtDistancePrepended(x, s, d);
    } else {
      var tail := s[1..];
      var rest := InsertByDistance(x, tail);
      assert InsertByDistance(x, s) == [s[0]] + rest;
      InsertByDistanceIsStable(x, tail, d);
      AtDistancePrepended(s[0], rest, d);
      AtDistancePrepended(s[0], tail, d);
      assert s == [s[0]] + tail;
      if x.distanceToTestProbe == d {
        assert s[0].distanceToTestProbe != d;
        assert AtDistance(s, d) == AtDistance(tail, d);
        assert AtDistance([s[0]] + rest, d) == AtDistance(rest, d);
      }
    }
  }

  /**
   * `SortByDistance` is stable: at every distance, the entries come in the
   * order they had in `s`. With the order and the permutation its contract
   * states, this is all that `Collections.sort` promises of its result.
   */
  lemma {:induction false} SortByDistanceIsStable(s: seq<ProbeDistance>, d: real)
    ensures AtDistance(SortByDistance(s), d) == AtDistance(s, d)
  {
    if s != [] {
      SortByDistanceIsStable(s[1..], d);
      InsertByDistanceIsStable(s[0], SortByDistance(s[1..]), d);
    }
  }

  /** The first entry of an ascending non-empty sequence is at least as close as every entry. */
  lemma {:induction false} FirstIsClosest(s: seq<ProbeDistance>, x: ProbeDistance)
    requires |s| > 0 && AscendingByDistance(s) && x in multiset(s)
    ensures s[0].distanceToTestProbe <= x.distanceToTestProbe
  {
    var i :| 0 <= i < |s| && s[i] == x;
  }
}
