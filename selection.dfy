/** Order-preserving selection: the elements of a sequence at the positions
    whose flag is set, as the filtering loops of the steps build them. */
module Selection {

  /** The elements of xs whose flag is set, in their original order: what a
      loop that appends `xs[i]` when `keep[i]` builds. */
  function Select<T>(xs: seq<T>, keep: seq<bool>): (r: seq<T>)
    requires |keep| == |xs|
    ensures |r| <= |xs|
    ensures forall j :: 0 <= j < |r| ==> r[j] in xs
    decreases |xs|
  {
    if |xs| == 0 then []
    else Select(xs[..|xs| - 1], keep[..|xs| - 1]) + (if keep[|xs| - 1] then [xs[|xs| - 1]] else [])
  }

  /** The indices whose flag is set, ascending. */
  function Kept(keep: seq<bool>): seq<nat>
    decreases |keep|
  {
    if |keep| == 0 then []
    else Kept(keep[..|keep| - 1]) + (if keep[|keep| - 1] then [|keep| - 1] else [])
  }

  /** Select is the sub-sequence of xs at the ascending indices Kept(keep):
      exactly the flagged positions, each once, in order. */
  lemma SelectIsSubsequence<T>(xs: seq<T>, keep: seq<bool>)
    requires |keep| == |xs|
    ensures var r, idx := Select(xs, keep), Kept(keep);
            && |idx| == |r|
            && (forall j :: 0 <= j < |idx| ==> idx[j] < |xs| && keep[idx[j]] && r[j] == xs[idx[j]])
            && (forall j1, j2 :: 0 <= j1 < j2 < |idx| ==> idx[j1] < idx[j2])
            && (forall i :: 0 <= i < |xs| && keep[i] ==> i in idx)
  {
    KeptIndices(keep);
    SelectAtKept(xs, keep);
  }

  /** Kept lists the flagged positions, ascending, and no others. */
  lemma {:induction false} KeptIndices(keep: seq<bool>)
    ensures forall j :: 0 <= j < |Kept(keep)| ==> Kept(keep)[j] < |keep| && keep[Kept(keep)[j]]
    ensures forall j1, j2 :: 0 <= j1 < j2 < |Kept(keep)| ==> Kept(keep)[j1] < Kept(keep)[j2]
    ensures forall i :: 0 <= i < |keep| && keep[i] ==> i in Kept(keep)
    decreases |keep|
  {
    if |keep| > 0 {
      var n := |keep| - 1;
      var idx0 := Kept(keep[..n]);
      KeptIndices(keep[..n]);
      assert forall j :: 0 <= j < |idx0| ==> idx0[j] < n && keep[idx0[j]] == keep[..n][idx0[j]];
      assert forall i :: 0 <= i < n ==> keep[i] == keep[..n][i];
    }
  }

  /** Select holds the elements at the Kept positions. */
  lemma {:induction false} SelectAtKept<T>(xs: seq<T>, keep: seq<bool>)
    requires |keep| == |xs|
    ensures var r, idx := Select(xs, keep), Kept(keep);
            |idx| == |r| && forall j :: 0 <= j < |idx| ==> idx[j] < |xs| && r[j] == xs[idx[j]]
    decreases |xs|
  {
    if |xs| > 0 {
      var n := |xs| - 1;
      var idx0 := Kept(keep[..n]);
      SelectAtKept(xs[..n], keep[..n]);
      KeptIndices(keep[..n]);
      assert forall j :: 0 <= j < |idx0| ==> idx0[j] < n && xs[idx0[j]] == xs[..n][idx0[j]];
    }
  }

  /** Selecting from one more element extends the selection by that element
      when its flag is set: the step of an append loop. */
  lemma SelectStep<T>(xs: seq<T>, keep: seq<bool>, i: nat)
    requires |keep| == |xs| && i < |xs|
    ensures Select(xs[..i + 1], keep[..i + 1]) == Select(xs[..i], keep[..i]) + (if keep[i] then [xs[i]] else [])
  {
    assert xs[..i + 1][..i] == xs[..i];
    assert keep[..i + 1][..i] == keep[..i];
  }
}
