/**
 * The three `java.lang.String` operations the classifiers use on set keys:
 * `contains`, `replace(target, "")` and `trim`.
 */
module Text {

  /** `s.contains(sub)`: `sub` occurs in `s` starting at some position. */
  predicate Contains(s: string, sub: string) {
    sub <= s || (|s| > 0 && Contains(s[1..], sub))
  }

  /**
   * `s.replace(pattern, "")`: scanning from the left, every occurrence of
   * `pattern` that does not overlap an earlier removed one is deleted.
   * Removal can create new occurrences, which are not rescanned.
   */
  function RemoveAll(s: string, pattern: string): (r: string)
    requires pattern != []
    ensures |r| <= |s|
    decreases |s|
  {
    if |s| < |pattern| then s
    else if pattern <= s then RemoveAll(s[|pattern|..], pattern)
    else [s[0]] + RemoveAll(s[1..], pattern)
  }

  /** Java's `trim` treats every character up to U+0020 as blank. */
  predicate IsBlank(c: char) {
    c <= ' '
  }

  /** The index of the first non-blank character of `s` at or after `i`, or `|s|`. */
  function TrimmedStart(s: string, i: nat): (b: nat)
    requires i <= |s|
    ensures i <= b <= |s|
    ensures b == |s| || !IsBlank(s[b])
    decreases |s| - i
  {
    if i < |s| && IsBlank(s[i]) then TrimmedStart(s, i + 1) else i
  }

  /** The end of `s[..j]` once its trailing blanks after index `b` are cut. */
  function TrimmedEnd(s: string, b: nat, j: nat): (e: nat)
    requires b <= j <= |s|
    ensures b <= e <= j
    ensures e == b || !IsBlank(s[e - 1])
  {
    if j > b && IsBlank(s[j - 1]) then TrimmedEnd(s, b, j - 1) else j
  }

  /** `s.trim()`: `s` without its leading and trailing blanks. */
  function Trim(s: string): (r: string)
    ensures r == [] || (!IsBlank(r[0]) && !IsBlank(r[|r| - 1]))
  {
    var b := TrimmedStart(s, 0);
    s[b..TrimmedEnd(s, b, |s|)]
  }

  /** `Contains` holds exactly when `sub` is a prefix of some suffix of `s`. */
  lemma {:induction false} ContainsIffOccurs(s: string, sub: string)
    ensures Contains(s, sub) <==> exists i | 0 <= i <= |s| :: sub <= s[i..]
    decreases |s|
  {
    if |s| == 0 {
      assert s[0..] == s;
    } else if sub <= s {
      assert s[0..] == s;
    } else {
      ContainsIffOccurs(s[1..], sub);
      if Contains(s[1..], sub) {
        var i :| 0 <= i <= |s[1..]| && sub <= s[1..][i..];
        assert s[1..][i..] == s[i + 1..];
      } else {
        forall i | 0 <= i <= |s|
          ensures !(sub <= s[i..])
        {
          if i == 0 {
            assert s[0..] == s;
          } else {
            assert s[1..][i - 1..] == s[i..];
          }
        }
      }
    }
  }

  /** Everything `Trim` cuts from the front is blank. */
  lemma {:induction false} LeadingBlanks(s: string, i: nat)
    requires i <= |s|
    ensures forall k | i <= k < TrimmedStart(s, i) :: IsBlank(s[k])
    decreases |s| - i
  {
    if i < |s| && IsBlank(s[i]) {
      LeadingBlanks(s, i + 1);
    }
  }

  /** Everything `Trim` cuts from the back is blank. */
  lemma {:induction false} TrailingBlanks(s: string, b: nat, j: nat)
    requires b <= j <= |s|
    ensures forall k | TrimmedEnd(s, b, j) <= k < j :: IsBlank(s[k])
  {
    if j > b && IsBlank(s[j - 1]) {
      TrailingBlanks(s, b, j - 1);
    }
  }

  /**
   * Removing `pattern` from `c + pattern` gives back `c` when no occurrence of
   * `pattern` starts inside `c`.
   */
  lemma {:induction false} RemoveAllSuffix(c: string, pattern: string)
    requires pattern != []
    requires forall i | 0 <= i < |c| :: !(pattern <= (c + pattern)[i..])
    ensures RemoveAll(c + pattern, pattern) == c
    decreases |c|
  {
    var s := c + pattern;
    if c == [] {
      assert s == pattern && pattern <= s;
      assert s[|pattern|..] == [];
    } else {
      assert !(pattern <= s[0..]) && s[0..] == s;
      var rest := c[1..];
      assert s[1..] == rest + pattern;
      forall i | 0 <= i < |rest|
        ensures !(pattern <= (rest + pattern)[i..])
      {
        assert (rest + pattern)[i..] == s[i + 1..];
      }
      RemoveAllSuffix(rest, pattern);
      assert [c[0]] + rest == c;
    }
  }

  /** Trimming leaves a string alone when it starts and ends with non-blanks. */
  lemma TrimUnchanged(s: string)
    requires s == [] || (!IsBlank(s[0]) && !IsBlank(s[|s| - 1]))
    ensures Trim(s) == s
  {
  }
}
