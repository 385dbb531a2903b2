/** The `combinations` adaptor of the itertools library, which the best-hand
    search relies on: all length-`k` subsequences of the input, in
    lexicographic order of the positions they are taken from, each keeping
    the input's order. */
module Itertools {

  /** `c` can be obtained from `s` by deleting elements. */
  predicate IsSubsequence<T(==)>(c: seq<T>, s: seq<T>)
    decreases |s|
  {
    if c == [] then true
    else if s == [] then false
    else (c[0] == s[0] && IsSubsequence(c[1..], s[1..])) || IsSubsequence(c, s[1..])
  }

  /** Puts `x` in front of every sequence of `cs`. */
  function Prepend<T>(x: T, cs: seq<seq<T>>): (r: seq<seq<T>>)
    ensures |r| == |cs|
    ensures forall i :: 0 <= i < |cs| ==> r[i] == [x] + cs[i]
  {
    seq(|cs|, i requires 0 <= i < |cs| => [x] + cs[i])
  }

  /** `s.combinations(k)`: first the combinations that take `s[0]`, then
      those that skip it. There are `Binomial(|s|, k)` of them. */
  function Combinations<T>(s: seq<T>, k: nat): (r: seq<seq<T>>)
    ensures |r| == Binomial(|s|, k)
    decreases |s|
  {
    if k == 0 then [[]]
    else if |s| < k then BinomialOfTooFew(|s|, k); []
    else Prepend(s[0], Combinations(s[1..], k - 1)) + Combinations(s[1..], k)
  }

  /** The binomial coefficient, by Pascal's rule. */
  function Binomial(n: nat, k: nat): nat {
    if k == 0 then 1
    else if n == 0 then 0
    else Binomial(n - 1, k - 1) + Binomial(n - 1, k)
  }

  /** A subsequence is never longer than the sequence it comes from. */
  lemma {:induction false} SubsequenceLength<T>(c: seq<T>, s: seq<T>)
    requires IsSubsequence(c, s)
    ensures |c| <= |s|
    decreases |s|
  {
    if c != [] {
      if c[0] == s[0] && IsSubsequence(c[1..], s[1..]) {
        SubsequenceLength(c[1..], s[1..]);
      } else {
        SubsequenceLength(c, s[1..]);
      }
    }
  }

  /** Every enumerated combination has `k` elements drawn from `s` in order. */
  lemma {:induction false} CombinationsAreSubsequences<T>(s: seq<T>, k: nat, c: seq<T>)
    requires c in Combinations(s, k)
    ensures |c| == k && IsSubsequence(c, s)
    decreases |s|
  {
    if k > 0 {
      var take := Prepend(s[0], Combinations(s[1..], k - 1));
      var skip := Combinations(s[1..], k);
      assert Combinations(s, k) == take + skip;
      if c in take {
        var i :| 0 <= i < |take| && take[i] == c;
        var rest := Combinations(s[1..], k - 1)[i];
        CombinationsAreSubsequences(s[1..], k - 1, rest);
        assert c[1..] == rest;
      } else {
        CombinationsAreSubsequences(s[1..], k, c);
      }
    }
  }

  /** Every enumerated combination has exactly `k` elements. */
  lemma {:induction false} AllCombinationsHaveLength<T>(s: seq<T>, k: nat)
    ensures forall c :: c in Combinations(s, k) ==> |c| == k
  {
    forall c | c in Combinations(s, k) ensures |c| == k {
      CombinationsAreSubsequences(s, k, c);
    }
  }

  /** Every selection of `k` elements of `s`, in order, is enumerated. */
  lemma {:induction false} SubsequencesAreCombinations<T>(s: seq<T>, k: nat, c: seq<T>)
    requires |c| == k && IsSubsequence(c, s)
    ensures c in Combinations(s, k)
    decreases |s|
  {
    if k > 0 {
      SubsequenceLength(c, s);
      var rest := Combinations(s[1..], k - 1);
      var take := Prepend(s[0], rest);
      var skip := Combinations(s[1..], k);
      assert Combinations(s, k) == take + skip;
      if c[0] == s[0] && IsSubsequence(c[1..], s[1..]) {
        SubsequencesAreCombinations(s[1..], k - 1, c[1..]);
        var i :| 0 <= i < |rest| && rest[i] == c[1..];
        assert c == [s[0]] + c[1..];
        assert take[i] == c;
      } else {
        assert IsSubsequence(c, s[1..]);
        SubsequencesAreCombinations(s[1..], k, c);
        assert c in skip;
      }
    }
  }

  lemma {:induction false} BinomialOfTooFew(n: nat, k: nat)
    requires n < k
    ensures Binomial(n, k) == 0
  {
    if n > 0 {
      BinomialOfTooFew(n - 1, k - 1);
      BinomialOfTooFew(n - 1, k);
    }
  }

  lemma {:induction false} BinomialPositive(n: nat, k: nat)
    requires k <= n
    ensures Binomial(n, k) > 0
  {
    if k > 0 {
      BinomialPositive(n - 1, k - 1);
    }
  }

  /** There is at least one combination exactly when `s` has at least `k`
      elements. */
  lemma {:induction false} CombinationsNonEmpty<T>(s: seq<T>, k: nat)
    ensures |Combinations(s, k)| > 0 <==> |s| >= k
  {
    if |s| >= k {
      BinomialPositive(|s|, k);
    } else {
      BinomialOfTooFew(|s|, k);
    }
  }
}
