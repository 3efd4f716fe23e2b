/** Small facts about sequences and sets that the proofs of the other modules share. */
module Collections {

  lemma ConcatAssociative<T>(a: seq<T>, b: seq<T>, c: seq<T>)
    ensures (a + b) + c == a + (b + c)
  {
  }

  /** Leaving out position `k` of all but the last element, then putting the last one back, leaves out position `k`. */
  lemma SnocAround<T>(xs: seq<T>, k: nat, rest: seq<T>)
    requires k + 1 < |xs|
    requires rest == xs[..|xs| - 1][..k] + xs[..|xs| - 1][k + 1..]
    ensures rest + [xs[|xs| - 1]] == xs[..k] + xs[k + 1..]
  {
    var init := xs[..|xs| - 1];
    assert init[..k] == xs[..k];
    assert init[k + 1..] + [xs[|xs| - 1]] == xs[k + 1..];
    ConcatAssociative(init[..k], init[k + 1..], [xs[|xs| - 1]]);
  }

  /** Leaving out one position shortens a sequence by one. */
  lemma SliceAroundLength<T>(xs: seq<T>, k: nat, ys: seq<T>)
    requires k < |xs| && ys == xs[..k] + xs[k + 1..]
    ensures |ys| == |xs| - 1
  {
  }

  lemma SubsetCardinality<T>(a: set<T>, b: set<T>)
    requires a <= b
    ensures |a| <= |b|
  {
    assert b == a + (b - a);
  }

  lemma UnionAssociative<T>(a: set<T>, b: set<T>, c: set<T>)
    ensures (a + b) + c == a + (b + c)
  {
  }
}
