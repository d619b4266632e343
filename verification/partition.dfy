/** The wraparound batch partition of `create_image_groups` (generator.py).
    Groups start at `0, B, 2B, ...` below `N` (Python's `range(0, N, B)`), and
    group `k` holds the `B` items at indices `k*B, ..., k*B + B - 1` taken modulo
    `N`. Every group therefore has exactly `B` items; the last one wraps around
    to the start of the list instead of being short. */
module Partition {
  import opened Arith

  /** Number of groups: the length of `range(0, n, b)`. */
  function NumGroups(n: nat, b: nat): nat
    requires b > 0
  {
    (n + b - 1) / b
  }

  /** Lemma: group `k` exists exactly when its first index `k * b` is below
      `n`, which is what `range(0, n, b)` enumerates. */
  lemma NumGroupsExact(n: nat, b: nat, k: nat)
    requires b > 0
    ensures k < NumGroups(n, b) <==> k * b < n
  {
    var q, r := (n + b - 1) / b, (n + b - 1) % b;
    assert q * b + r == n + b - 1;
    if k < q {
      assert k * b <= (q - 1) * b by {
        MulMonotone(k, q - 1, b);
      }
    } else {
      assert q * b <= k * b by {
        MulMonotone(q, k, b);
      }
    }
  }

  /** Lemma: the groups hold between `n` and `n + b - 1` slots, and there are
      none exactly when the list is empty. */
  lemma NumGroupsBounds(n: nat, b: nat)
    requires b > 0
    ensures n <= NumGroups(n, b) * b < n + b
    ensures NumGroups(n, b) == 0 <==> n == 0
  {
    var g := NumGroups(n, b);
    NumGroupsExact(n, b, g);
    if g > 0 {
      NumGroupsExact(n, b, g - 1);
      assert (g - 1) * b == g * b - b;
    }
    if n > 0 {
      NumGroupsExact(n, b, 0);
    }
  }

  /** The groups of `xs`: group `k`, entry `j` is `xs[(k*b + j) % |xs|]`. */
  function Groups<T>(xs: seq<T>, b: nat): (r: seq<seq<T>>)
    requires b > 0
    ensures |r| == NumGroups(|xs|, b)
    ensures forall k :: 0 <= k < |r| ==> |r[k]| == b
  {
    if |xs| == 0 then []
    else
      seq(NumGroups(|xs|, b), k requires 0 <= k < NumGroups(|xs|, b) =>
        seq(b, j requires 0 <= j < b => xs[(k * b + j) % |xs|]))
  }

  /** Lemma: entry `j` of group `k` is the item at `k*b + j`, wrapped modulo
      the list length. */
  lemma GroupEntry<T>(xs: seq<T>, b: nat, k: nat, j: nat)
    requires b > 0 && k < NumGroups(|xs|, b) && j < b
    ensures |xs| > 0
    ensures Groups(xs, b)[k][j] == xs[(k * b + j) % |xs|]
  {
    NumGroupsBounds(|xs|, b);
  }

  /** Lemma: every item of the list is in the groups, item `i` at entry
      `i % b` of group `i / b`; so no sample is skipped in an epoch. */
  lemma GroupsCover<T>(xs: seq<T>, b: nat, i: nat)
    requires b > 0 && i < |xs|
    ensures i / b < |Groups(xs, b)|
    ensures Groups(xs, b)[i / b][i % b] == xs[i]
  {
    var k, j := i / b, i % b;
    DivMod(i, b);
    NumGroupsExact(|xs|, b, k);
    GroupEntry(xs, b, k, j);
    ModSmall(i, |xs|);
  }

  /** Lemma: a group entry past the end of the list repeats an earlier one:
      the entry `|xs|` places back in the cyclic reading of the list. This
      covers groups larger than the list, which wrap around more than once. */
  lemma GroupsWrap<T>(xs: seq<T>, b: nat, k: nat, j: nat)
    requires b > 0 && k < NumGroups(|xs|, b) && j < b
    requires |xs| <= k * b + j
    ensures |xs| > 0
    ensures Groups(xs, b)[k][j] == xs[(k * b + j - |xs|) % |xs|]
  {
    GroupEntry(xs, b, k, j);
    ModShift(k * b + j, |xs|);
  }

  /** Lemma: two equally long lists partitioned with the same group size pair
      up group by group and entry by entry: entry `j` of group `k` of each
      comes from the same index of its list. */
  lemma GroupsPaired<A, B>(xs: seq<A>, ys: seq<B>, b: nat, k: nat, j: nat)
    requires b > 0 && |xs| == |ys|
    requires k < NumGroups(|xs|, b) && j < b
    ensures |xs| > 0
    ensures var i := (k * b + j) % |xs|;
            Groups(xs, b)[k][j] == xs[i] && Groups(ys, b)[k][j] == ys[i]
  {
    GroupEntry(xs, b, k, j);
    GroupEntry(ys, b, k, j);
  }
}
