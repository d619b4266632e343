/** The paired shuffle of `create_image_groups` (generator.py). NumPy's
    in-place shuffle walks `i` from `n - 1` down to `1`, draws `j` in `[0, i]`
    from the seeded generator and swaps positions `i` and `j`. The draws depend
    only on the seed and on `n`, never on the contents; the generator is reset
    to the same seed before each of the two shuffles, so both lists see the same
    draws. The random stream itself is not modelled: the draws are a parameter,
    `draws[k]` being the `j` chosen at step `k` (where `i == n - 1 - k`). */
module Shuffle {

  /** The draws of one full shuffle of `n` items: one per step, each within
      the range NumPy draws it from. */
  predicate ValidDraws(draws: seq<nat>, n: nat)
  {
    && |draws| == (if n == 0 then 0 else n - 1)
    && forall k :: 0 <= k < |draws| ==> draws[k] <= n - 1 - k
  }

  function Swap<T>(xs: seq<T>, i: nat, j: nat): (r: seq<T>)
    requires i < |xs| && j < |xs|
    ensures |r| == |xs|
    ensures r[i] == xs[j] && r[j] == xs[i]
    ensures forall m :: 0 <= m < |xs| && m != i && m != j ==> r[m] == xs[m]
  {
    xs[i := xs[j]][j := xs[i]]
  }

  lemma SwapMultiset<T>(xs: seq<T>, i: nat, j: nat)
    requires i < |xs| && j < |xs|
    ensures multiset(Swap(xs, i, j)) == multiset(xs)
  {
  }

  /** Steps `k`, `k + 1`, ... of the shuffle, applied to `xs`. */
  function ShuffleFrom<T>(xs: seq<T>, draws: seq<nat>, k: nat): (r: seq<T>)
    requires ValidDraws(draws, |xs|) && k <= |draws|
    ensures |r| == |xs|
    decreases |draws| - k
  {
    if k == |draws| then xs
    else ShuffleFrom(Swap(xs, |xs| - 1 - k, draws[k]), draws, k + 1)
  }

  /** The whole shuffle: a rearrangement of `xs` (same length, same multiset
      of elements). */
  function FisherYates<T>(xs: seq<T>, draws: seq<nat>): (r: seq<T>)
    requires ValidDraws(draws, |xs|)
    ensures |r| == |xs|
    ensures multiset(r) == multiset(xs)
  {
    ShuffleFromMultiset(xs, draws, 0);
    ShuffleFrom(xs, draws, 0)
  }

  lemma {:induction false} ShuffleFromMultiset<T>(xs: seq<T>, draws: seq<nat>, k: nat)
    requires ValidDraws(draws, |xs|) && k <= |draws|
    ensures multiset(ShuffleFrom(xs, draws, k)) == multiset(xs)
    decreases |draws| - k
  {
    if k < |draws| {
      var i, j := |xs| - 1 - k, draws[k];
      assert j <= i;
      SwapMultiset(xs, i, j);
      ShuffleFromMultiset(Swap(xs, i, j), draws, k + 1);
    }
  }

  // ---------------------------------------------------------------------------
  // The shuffle as a reindexing

  function Range(n: nat): (r: seq<nat>)
    ensures |r| == n
    ensures forall i :: 0 <= i < n ==> r[i] == i
  {
    seq(n, i requires 0 <= i < n => i)
  }

  predicate InRange(order: seq<nat>, n: nat)
  {
    forall i :: 0 <= i < |order| ==> order[i] < n
  }

  /** `order` lists every index below `n` exactly once. */
  predicate IsPermutation(order: seq<nat>, n: nat)
  {
    && |order| == n
    && InRange(order, n)
    && forall i, j :: 0 <= i < j < n ==> order[i] != order[j]
  }

  /** The list whose element `i` is `xs[order[i]]`. */
  function Reindex<T>(xs: seq<T>, order: seq<nat>): (r: seq<T>)
    requires InRange(order, |xs|)
    ensures |r| == |order|
    ensures forall i :: 0 <= i < |order| ==> r[i] == xs[order[i]]
  {
    seq(|order|, i requires 0 <= i < |order| => xs[order[i]])
  }

  /** The order in which a shuffle with `draws` leaves `n` items: the shuffle
      of the identity order. It is a permutation of `0 .. n - 1`, so the
      shuffle neither drops nor repeats an item. */
  function ShuffleOrder(n: nat, draws: seq<nat>): (r: seq<nat>)
    requires ValidDraws(draws, n)
    ensures IsPermutation(r, n)
  {
    ShuffleFromPermutation(Range(n), n, draws, 0);
    FisherYates(Range(n), draws)
  }

  lemma SwapReindex<T>(xs: seq<T>, order: seq<nat>, i: nat, j: nat)
    requires InRange(order, |xs|) && i < |order| && j < |order|
    ensures InRange(Swap(order, i, j), |xs|)
    ensures Swap(Reindex(xs, order), i, j) == Reindex(xs, Swap(order, i, j))
  {
  }

  /** Lemma: the shuffle only moves indices around, so it keeps them in range. */
  lemma {:induction false} ShuffleFromInRange(order: seq<nat>, n: nat, draws: seq<nat>, k: nat)
    requires InRange(order, n) && ValidDraws(draws, |order|) && k <= |draws|
    ensures InRange(ShuffleFrom(order, draws, k), n)
    decreases |draws| - k
  {
    if k < |draws| {
      var i, j := |order| - 1 - k, draws[k];
      assert j <= i;
      ShuffleFromInRange(Swap(order, i, j), n, draws, k + 1);
    }
  }

  /** Lemma: shuffling a reindexed list is reindexing by the shuffled order. */
  lemma {:induction false} ShuffleFromReindex<T>(xs: seq<T>, order: seq<nat>, draws: seq<nat>, k: nat)
    requires InRange(order, |xs|) && ValidDraws(draws, |order|) && k <= |draws|
    requires InRange(ShuffleFrom(order, draws, k), |xs|)
    ensures ShuffleFrom(Reindex(xs, order), draws, k) == Reindex(xs, ShuffleFrom(order, draws, k))
    decreases |draws| - k
  {
    if k < |draws| {
      var i, j := |order| - 1 - k, draws[k];
      assert j <= i;
      var ys := Reindex(xs, order);
      var order' := Swap(order, i, j);
      SwapReindex(xs, order, i, j);
      ShuffleFromInRange(order', |xs|, draws, k + 1);
      ShuffleFromReindex(xs, order', draws, k + 1);
      assert ShuffleFrom(order, draws, k) == ShuffleFrom(order', draws, k + 1);
      assert ShuffleFrom(ys, draws, k) == ShuffleFrom(Reindex(xs, order'), draws, k + 1) by {
        assert ShuffleFrom(ys, draws, k) == ShuffleFrom(Swap(ys, i, j), draws, k + 1);
      }
    }
  }

  /** Lemma: the shuffle moves items without looking at them. Item `i` of the
      result is item `ShuffleOrder(n, draws)[i]` of the input, whatever the
      input holds. */
  lemma ShuffleIsReindex<T>(xs: seq<T>, draws: seq<nat>)
    requires ValidDraws(draws, |xs|)
    ensures FisherYates(xs, draws) == Reindex(xs, ShuffleOrder(|xs|, draws))
  {
    var id := Range(|xs|);
    assert Reindex(xs, id) == xs;
    ShuffleFromInRange(id, |xs|, draws, 0);
    ShuffleFromReindex(xs, id, draws, 0);
  }

  lemma SwapPermutation(order: seq<nat>, n: nat, i: nat, j: nat)
    requires IsPermutation(order, n) && i < n && j < n
    ensures IsPermutation(Swap(order, i, j), n)
  {
  }

  lemma {:induction false} ShuffleFromPermutation(order: seq<nat>, n: nat, draws: seq<nat>, k: nat)
    requires IsPermutation(order, n) && ValidDraws(draws, n) && k <= |draws|
    ensures IsPermutation(ShuffleFrom(order, draws, k), n)
    decreases |draws| - k
  {
    if k < |draws| {
      assert draws[k] <= n - 1 - k;
      var order' := Swap(order, n - 1 - k, draws[k]);
      SwapPermutation(order, n, n - 1 - k, draws[k]);
      ShuffleFromPermutation(order', n, draws, k + 1);
      assert ShuffleFrom(order, draws, k) == ShuffleFrom(order', draws, k + 1);
    }
  }

  // ---------------------------------------------------------------------------
  // Shuffling two lists with the same draws

  function Zip<A, B>(xs: seq<A>, ys: seq<B>): (r: seq<(A, B)>)
    requires |xs| == |ys|
    ensures |r| == |xs|
    ensures forall i :: 0 <= i < |xs| ==> r[i] == (xs[i], ys[i])
  {
    seq(|xs|, i requires 0 <= i < |xs| => (xs[i], ys[i]))
  }

  /** Lemma: shuffling two equally long lists with the same draws is shuffling
      their pairs: the item at index `i` of one still sits beside its partner at
      index `i` of the other, and the multiset of pairs is unchanged. */
  lemma PairedShuffle<A, B>(xs: seq<A>, ys: seq<B>, draws: seq<nat>)
    requires |xs| == |ys| && ValidDraws(draws, |xs|)
    ensures Zip(FisherYates(xs, draws), FisherYates(ys, draws)) == FisherYates(Zip(xs, ys), draws)
    ensures multiset(Zip(FisherYates(xs, draws), FisherYates(ys, draws))) == multiset(Zip(xs, ys))
  {
    ShuffleIsReindex(xs, draws);
    ShuffleIsReindex(ys, draws);
    ShuffleIsReindex(Zip(xs, ys), draws);
  }

  /** Lemma: a relation between partners that holds index by index before the
      paired shuffle holds index by index after it. */
  lemma PairedShuffleKeepsRelation<A, B>(xs: seq<A>, ys: seq<B>, draws: seq<nat>, related: (A, B) -> bool)
    requires |xs| == |ys| && ValidDraws(draws, |xs|)
    requires forall i :: 0 <= i < |xs| ==> related(xs[i], ys[i])
    ensures forall i :: 0 <= i < |xs| ==> related(FisherYates(xs, draws)[i], FisherYates(ys, draws)[i])
  {
    ShuffleIsReindex(xs, draws);
    ShuffleIsReindex(ys, draws);
  }
}
