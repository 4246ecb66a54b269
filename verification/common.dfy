/** The nullable values PHP passes around (`null` or a value). */
module Options {

  datatype Option<+T> = None | Some(value: T)
}

/** Small facts about sequences used by the query planner. */
module Collections {

  /** No element occurs twice. */
  ghost predicate NoDuplicates<T>(s: seq<T>) {
    forall i, j :: 0 <= i < j < |s| ==> s[i] != s[j]
  }

  /** `xs` is obtained from `ys` by deleting some elements, keeping the order of the rest. */
  predicate IsSubsequence<T(==)>(xs: seq<T>, ys: seq<T>)
    decreases |ys|
  {
    if |xs| == 0 then true
    else if |ys| == 0 then false
    else (xs[0] == ys[0] && IsSubsequence(xs[1..], ys[1..])) || IsSubsequence(xs, ys[1..])
  }

  lemma {:induction false} SubsequenceMembers<T>(xs: seq<T>, ys: seq<T>)
    requires IsSubsequence(xs, ys)
    ensures forall x :: x in xs ==> x in ys
    decreases |ys|
  {
    if |xs| > 0 {
      if xs[0] == ys[0] && IsSubsequence(xs[1..], ys[1..]) {
        SubsequenceMembers(xs[1..], ys[1..]);
        forall x | x in xs ensures x in ys {
          if x != xs[0] {
            assert x in xs[1..];
          }
        }
      } else {
        SubsequenceMembers(xs, ys[1..]);
      }
    }
  }

  /** A subsequence of a duplicate-free sequence is duplicate-free. */
  lemma {:induction false} SubsequenceOfDistinct<T>(xs: seq<T>, ys: seq<T>)
    requires IsSubsequence(xs, ys)
    requires NoDuplicates(ys)
    ensures NoDuplicates(xs)
    decreases |ys|
  {
    if |xs| > 0 {
      assert NoDuplicates(ys[1..]);
      if xs[0] == ys[0] && IsSubsequence(xs[1..], ys[1..]) {
        SubsequenceOfDistinct(xs[1..], ys[1..]);
        SubsequenceMembers(xs[1..], ys[1..]);
        assert xs[0] !in ys[1..];
        forall i, j | 0 <= i < j < |xs| ensures xs[i] != xs[j] {
          if i == 0 {
            assert xs[j] in xs[1..];
          } else {
            assert xs[i] == xs[1..][i - 1] && xs[j] == xs[1..][j - 1];
          }
        }
      } else {
        SubsequenceOfDistinct(xs, ys[1..]);
      }
    }
  }
}

/**
 * The parts of PHP's value semantics the planner's `switch` statements
 * depend on. A PHP `switch` compares with loose `==`.
 */
module PhpSemantics {
  import opened Options

  /**
   * PHP truthiness of a nullable string: `null`, `""` and `"0"` are falsy,
   * every other string is truthy.
   */
  predicate Truthy(s: Option<string>) {
    s.Some? && s.value != "" && s.value != "0"
  }

  /** Loose `==` between a nullable string and a boolean compares truthiness. */
  predicate LooseEqualsBool(s: Option<string>, b: bool) {
    Truthy(s) == b
  }

  /** `pat` occurs in `s` at position `i`. */
  predicate OccursAt(s: string, pat: string, i: nat) {
    i + |pat| <= |s| && s[i..i + |pat|] == pat
  }

  predicate ContainsSubstring(s: string, pat: string) {
    exists i: nat | i <= |s| :: OccursAt(s, pat, i)
  }

  /**
   * `preg_match('/.*?Entity.*?/', $s) == 1`: the lazy wildcards make the
   * pattern match exactly the subjects that contain `Entity`; a `null`
   * subject is read as the empty string, which does not match.
   */
  predicate MatchesEntityPattern(s: Option<string>) {
    s.Some? && ContainsSubstring(s.value, "Entity")
  }

  /** A subject that matches the pattern is truthy: it is longer than `"0"`. */
  lemma EntityMatchIsTruthy(s: Option<string>)
    ensures MatchesEntityPattern(s) ==> Truthy(s)
  {
    if MatchesEntityPattern(s) {
      var i: nat :| OccursAt(s.value, "Entity", i);
      assert |s.value| >= 6;
    }
  }
}
