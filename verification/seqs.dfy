/** Small facts about permutations of sequences, used by the proofs that
    reading order does not matter for counters. */
module Seqs {

  /** Splits `b` around one occurrence of the last element of `a`, when the
      two are permutations of each other; what remains of both is again a
      pair of permutations. */
  lemma SplitAtLast<T>(a: seq<T>, b: seq<T>) returns (left: seq<T>, right: seq<T>)
    requires |a| > 0 && multiset(a) == multiset(b)
    ensures b == left + [a[|a| - 1]] + right
    ensures multiset(a[..|a| - 1]) == multiset(left + right)
  {
    var x := a[|a| - 1];
    assert a == a[..|a| - 1] + [x];
    assert x in multiset(b);
    var j :| 0 <= j < |b| && b[j] == x;
    left, right := b[..j], b[j + 1..];
    assert b == left + [x] + right;
    assert multiset(a[..|a| - 1]) == multiset(a) - multiset{x};
    assert multiset(left + right) == multiset(b) - multiset{x};
  }

  /** Moving a middle block to the end keeps the multiset of elements. */
  lemma MultisetOfThree<T>(before: seq<T>, l: seq<T>, single: seq<T>, r: seq<T>)
    requires multiset(before) == multiset(l + r)
    ensures multiset(before + single) == multiset(l + single + r)
  {
    calc {
      multiset(before + single);
      multiset(before) + multiset(single);
      multiset(l) + multiset(r) + multiset(single);
      multiset(l + single + r);
    }
  }
}
