/**
 * Keeping some elements of a sequence in their original order: the shape of
 * `nearbyAlerts` next to `allAlerts` in index.js.
 */
module Selection {

  /** The elements of `xs` whose flag in `keep` is set, in the order of `xs`. */
  function Select<T>(xs: seq<T>, keep: seq<bool>): seq<T>
    requires |xs| == |keep|
  {
    if xs == [] then []
    else
      var n := |xs| - 1;
      Select(xs[..n], keep[..n]) + (if keep[n] then [xs[n]] else [])
  }

  lemma SelectSnoc<T>(xs: seq<T>, keep: seq<bool>, x: T, b: bool)
    requires |xs| == |keep|
    ensures Select(xs + [x], keep + [b]) == Select(xs, keep) + (if b then [x] else [])
  {
    assert (xs + [x])[..|xs|] == xs;
    assert (keep + [b])[..|keep|] == keep;
  }

  /** `idx` places every element of `sub` at a distinct, increasing position of `xs`. */
  ghost predicate Embeds<T>(idx: seq<nat>, sub: seq<T>, xs: seq<T>)
  {
    && |idx| == |sub|
    && (forall m :: 0 <= m < |idx| ==> idx[m] < |xs| && sub[m] == xs[idx[m]])
    && (forall m, m' :: 0 <= m < m' < |idx| ==> idx[m] < idx[m'])
  }

  /** The positions whose flag is set, in increasing order. */
  function Kept(keep: seq<bool>): seq<nat>
  {
    if keep == [] then []
    else
      var n := |keep| - 1;
      Kept(keep[..n]) + (if keep[n] then [n] else [])
  }

  /** Select is an order-preserving subsequence: the kept positions embed it into
      `xs`, and they are exactly the positions whose flag is set. */
  lemma {:induction false} SelectIsSubsequence<T>(xs: seq<T>, keep: seq<bool>)
    requires |xs| == |keep|
    ensures Embeds(Kept(keep), Select(xs, keep), xs)
    ensures forall i :: 0 <= i < |keep| ==> (keep[i] <==> i in Kept(keep))
    decreases |xs|
  {
    if xs != [] {
      var n := |xs| - 1;
      SelectIsSubsequence(xs[..n], keep[..n]);
      var idx := Kept(keep[..n]);
      assert forall m :: 0 <= m < |idx| ==> idx[m] < n;
      forall i | 0 <= i < |keep|
        ensures keep[i] <==> i in Kept(keep)
      {
        if i < n {
          assert keep[..n][i] == keep[i];
        }
      }
    }
  }

  /** With no repeated elements in `xs`, an element is selected exactly when its
      own flag is set. */
  lemma SelectedIffFlagged<T>(xs: seq<T>, keep: seq<bool>, i: nat)
    requires |xs| == |keep|
    requires forall j, k :: 0 <= j < k < |xs| ==> xs[j] != xs[k]
    requires i < |xs|
    ensures xs[i] in Select(xs, keep) <==> keep[i]
  {
    SelectIsSubsequence(xs, keep);
    var idx := Kept(keep);
    var sub := Select(xs, keep);
    if xs[i] in sub {
      var m :| 0 <= m < |sub| && sub[m] == xs[i];
      assert xs[idx[m]] == xs[i];
      assert idx[m] == i;
      assert i in idx;
    }
  }
}
