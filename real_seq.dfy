/** Exact real arithmetic over sequences: the sums, means, cumulative sums,
    maxima and dot products that the signal-processing steps use. */
module RealSeq {

  function Sum(s: seq<real>): real
  {
    if |s| == 0 then 0.0 else Sum(s[..|s| - 1]) + s[|s| - 1]
  }

  /** `np.mean` of a non-empty vector. */
  function Mean(s: seq<real>): real
    requires |s| > 0
  {
    Sum(s) / (|s| as real)
  }

  function Abs(x: real): real
  {
    if x < 0.0 then -x else x
  }

  function MapAbs(s: seq<real>): (r: seq<real>)
    ensures |r| == |s|
    ensures forall i :: 0 <= i < |s| ==> r[i] == Abs(s[i])
  {
    seq(|s|, i requires 0 <= i < |s| => Abs(s[i]))
  }

  function Scale(s: seq<real>, c: real): (r: seq<real>)
    ensures |r| == |s|
    ensures forall i :: 0 <= i < |s| ==> r[i] == s[i] * c
  {
    seq(|s|, i requires 0 <= i < |s| => s[i] * c)
  }

  /** Elementwise product `a * b`. */
  function Times(a: seq<real>, b: seq<real>): (r: seq<real>)
    requires |a| == |b|
    ensures |r| == |a|
    ensures forall i :: 0 <= i < |a| ==> r[i] == a[i] * b[i]
  {
    seq(|a|, i requires 0 <= i < |a| => a[i] * b[i])
  }

  /** Elementwise difference `a - b`. */
  function Sub(a: seq<real>, b: seq<real>): (r: seq<real>)
    requires |a| == |b|
    ensures |r| == |a|
    ensures forall i :: 0 <= i < |a| ==> r[i] == a[i] - b[i]
  {
    seq(|a|, i requires 0 <= i < |a| => a[i] - b[i])
  }

  /** Elementwise sum `a + b`. */
  function Add(a: seq<real>, b: seq<real>): (r: seq<real>)
    requires |a| == |b|
    ensures |r| == |a|
    ensures forall i :: 0 <= i < |a| ==> r[i] == a[i] + b[i]
  {
    seq(|a|, i requires 0 <= i < |a| => a[i] + b[i])
  }

  function Dot(u: seq<real>, v: seq<real>): real
    requires |u| == |v|
  {
    Sum(Times(u, v))
  }

  function SquaredNorm(v: seq<real>): real
  {
    Dot(v, v)
  }

  /** `np.cumsum`: entry j is the sum of the first j + 1 entries. */
  function CumSum(s: seq<real>): (r: seq<real>)
    ensures |r| == |s|
  {
    seq(|s|, j requires 0 <= j < |s| => Sum(s[..j + 1]))
  }

  /** The builtin `max` of a non-empty sequence. */
  function Max(s: seq<real>): (m: real)
    requires |s| > 0
    ensures forall i :: 0 <= i < |s| ==> s[i] <= m
    ensures exists i :: 0 <= i < |s| && s[i] == m
  {
    if |s| == 1 then s[0]
    else
      var m' := Max(s[1..]);
      assert forall i :: 1 <= i < |s| ==> s[i] == s[1..][i - 1];
      if s[0] >= m' then s[0] else m'
  }

  /** The builtin `min` of a non-empty sequence. */
  function Min(s: seq<real>): (m: real)
    requires |s| > 0
    ensures forall i :: 0 <= i < |s| ==> m <= s[i]
    ensures exists i :: 0 <= i < |s| && s[i] == m
  {
    if |s| == 1 then s[0]
    else
      var m' := Min(s[1..]);
      assert forall i :: 1 <= i < |s| ==> s[i] == s[1..][i - 1];
      if s[0] <= m' then s[0] else m'
  }

  /** The column `x[:, c]` of a matrix given by its rows. */
  function Column(x: seq<seq<real>>, c: nat): (r: seq<real>)
    requires forall k :: 0 <= k < |x| ==> c < |x[k]|
    ensures |r| == |x|
    ensures forall k :: 0 <= k < |x| ==> r[k] == x[k][c]
  {
    seq(|x|, k requires 0 <= k < |x| => x[k][c])
  }

  /** Every row has exactly `d` entries: an N×d array. */
  predicate IsMatrix(x: seq<seq<real>>, d: nat)
  {
    forall k :: 0 <= k < |x| ==> |x[k]| == d
  }

  /** `np.mean(x, axis=0)` of a non-empty N×d matrix. */
  function ColumnMeans(x: seq<seq<real>>, d: nat): seq<real>
    requires |x| > 0 && IsMatrix(x, d)
  {
    seq(d, c requires 0 <= c < d => Mean(Column(x, c)))
  }

  /** The cumulative sum steps by one entry at a time. */
  lemma CumSumStep(s: seq<real>, j: nat)
    requires j < |s|
    ensures CumSum(s)[j] == (if j == 0 then 0.0 else CumSum(s)[j - 1]) + s[j]
  {
    assert s[..j + 1][..j] == s[..j];
    assert CumSum(s)[j] == Sum(s[..j]) + s[j];
    if j > 0 {
      assert CumSum(s)[j - 1] == Sum(s[..j]);
    } else {
      assert s[..j] == [];
    }
  }

  lemma {:induction false} SumSub(a: seq<real>, b: seq<real>)
    requires |a| == |b|
    ensures Sum(Sub(a, b)) == Sum(a) - Sum(b)
  {
    if |a| > 0 {
      var n := |a| - 1;
      assert Sub(a, b)[..n] == Sub(a[..n], b[..n]);
      SumSub(a[..n], b[..n]);
    }
  }

  /** Subtracting a constant from every entry lowers the sum by |s| times it. */
  lemma {:induction false} SumMinusConstant(s: seq<real>, c: real)
    ensures Sum(seq(|s|, k requires 0 <= k < |s| => s[k] - c)) == Sum(s) - (|s| as real) * c
  {
    var d := seq(|s|, k requires 0 <= k < |s| => s[k] - c);
    if |s| > 0 {
      var n := |s| - 1;
      var d' := seq(n, k requires 0 <= k < n => s[..n][k] - c);
      assert d[..n] == d';
      SumMinusConstant(s[..n], c);
    }
  }

  /** DC removal: once its mean is subtracted, a vector sums (and averages) to zero. */
  lemma MeanRemovedSumsToZero(s: seq<real>)
    requires |s| > 0
    ensures Sum(seq(|s|, k requires 0 <= k < |s| => s[k] - Mean(s))) == 0.0
  {
    SumMinusConstant(s, Mean(s));
  }

  lemma TimesPrefix(a: seq<real>, b: seq<real>, n: nat)
    requires |a| == |b| && n <= |a|
    ensures Times(a, b)[..n] == Times(a[..n], b[..n])
  {
    var l, r := Times(a, b)[..n], Times(a[..n], b[..n]);
    assert |l| == |r|;
    forall i | 0 <= i < n
      ensures l[i] == r[i]
    {
      assert l[i] == a[i] * b[i];
      assert r[i] == a[..n][i] * b[..n][i];
    }
  }

  /** The dot product is symmetric. */
  lemma DotComm(u: seq<real>, v: seq<real>)
    requires |u| == |v|
    ensures Dot(u, v) == Dot(v, u)
  {
    assert Times(u, v) == Times(v, u);
  }

  /** The dot product distributes over a difference of left operands. */
  lemma {:induction false} DotSub(x: seq<real>, y: seq<real>, v: seq<real>)
    requires |x| == |y| == |v|
    ensures Dot(Sub(x, y), v) == Dot(x, v) - Dot(y, v)
  {
    if |x| > 0 {
      var n := |x| - 1;
      assert Sub(x, y)[..n] == Sub(x[..n], y[..n]);
      TimesPrefix(Sub(x, y), v, n);
      TimesPrefix(x, v, n);
      TimesPrefix(y, v, n);
      DotSub(x[..n], y[..n], v[..n]);
    }
  }
}
