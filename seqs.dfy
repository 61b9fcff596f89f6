/** Sequence vocabulary shared by the model. */
module Seqs {

  /** `a` is obtained from `b` by deleting elements; the order of what is kept is preserved. */
  predicate Subsequence<T(==)>(a: seq<T>, b: seq<T>)
    decreases |b|
  {
    if |a| == 0 then true
    else if |b| == 0 then false
    else (a[|a| - 1] == b[|b| - 1] && Subsequence(a[..|a| - 1], b[..|b| - 1]))
         || Subsequence(a, b[..|b| - 1])
  }

  lemma {:induction false} SubsequenceMembers<T>(a: seq<T>, b: seq<T>)
    requires Subsequence(a, b)
    ensures |a| <= |b|
    ensures forall x :: x in a ==> x in b
    decreases |b|
  {
    if |a| == 0 {
    } else if a[|a| - 1] == b[|b| - 1] && Subsequence(a[..|a| - 1], b[..|b| - 1]) {
      SubsequenceMembers(a[..|a| - 1], b[..|b| - 1]);
      forall x | x in a ensures x in b {
        if x != a[|a| - 1] {
          assert x in a[..|a| - 1] by { assert a == a[..|a| - 1] + [a[|a| - 1]]; }
          assert x in b[..|b| - 1];
        }
      }
    } else {
      SubsequenceMembers(a, b[..|b| - 1]);
    }
  }

  /** A prefix one element longer: the shorter prefix, then the next element. */
  lemma PrefixStep<T>(s: seq<T>, i: nat)
    requires i < |s|
    ensures s[..i + 1] == s[..i] + [s[i]]
    ensures s[..i + 1][..i] == s[..i]
  {
  }

  /** The elements of `xs` that satisfy `p`, in their order. */
  ghost function Filter<T>(p: T -> bool, xs: seq<T>): seq<T>
  {
    if |xs| == 0 then []
    else Filter(p, xs[..|xs| - 1]) + (if p(xs[|xs| - 1]) then [xs[|xs| - 1]] else [])
  }

  lemma {:induction false} FilterSelects<T>(p: T -> bool, xs: seq<T>)
    ensures Subsequence(Filter(p, xs), xs)
    ensures forall x :: x in Filter(p, xs) <==> x in xs && p(x)
    decreases |xs|
  {
    if |xs| > 0 {
      var init, last := xs[..|xs| - 1], xs[|xs| - 1];
      assert xs == init + [last];
      FilterSelects(p, init);
      var f := Filter(p, init);
      if p(last) {
        assert Filter(p, xs) == f + [last];
        assert (f + [last])[..|f|] == f;
      } else {
        assert Filter(p, xs) == f;
        assert |f| == 0 || Subsequence(f, xs[..|xs| - 1]);
      }
    }
  }

  /**
   * A scan over `names` that keeps the names satisfying `keep` in `kept`, in order, and maps
   * every other name to a reason satisfying `valid` in `rejected`; each scanned name passed `ok`.
   */
  ghost predicate Tally<K(!new), V>(keep: K -> bool, ok: K -> bool, valid: (K, V) -> bool,
                              names: seq<K>, kept: seq<K>, rejected: map<K, V>)
  {
    && kept == Filter(keep, names)
    && (forall n | n in names :: ok(n))
    && (forall n :: n in rejected <==> n in names && !keep(n))
    && (forall n | n in rejected :: valid(n, rejected[n]))
  }

  /** Scanning one more name that passes `ok` extends the tally. */
  lemma TallyStep<K(!new), V>(keep: K -> bool, ok: K -> bool, valid: (K, V) -> bool,
                        names: seq<K>, kept: seq<K>, rejected: map<K, V>, n: K, reason: V)
    requires Tally(keep, ok, valid, names, kept, rejected)
    requires ok(n)
    requires !keep(n) ==> valid(n, reason)
    ensures keep(n) ==> Tally(keep, ok, valid, names + [n], kept + [n], rejected)
    ensures !keep(n) ==> Tally(keep, ok, valid, names + [n], kept, rejected[n := reason])
  {
    assert (names + [n])[..|names|] == names;
  }
}
