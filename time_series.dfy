/** The signal containers: a time series of N timestamps and an N×D sample
    matrix with string tags and metadata, and a chunked view of a base series
    over a list of half-open index spans. */
module Signals {
  import opened Exceptions

  /** The numpy arrays the model meets: 0-d, 1-d and 2-d (given by rows). */
  datatype NdArray = Scalar(value: real) | Flat(items: seq<real>) | Grid(rows: seq<seq<real>>)

  /** Metadata values stored by the steps. */
  datatype MetaValue =
    | MetaReal(r: real)
    | MetaBool(b: bool)
    | MetaText(text: string)
    | MetaSpan(start: nat, stop: nat)
    | MetaVector(v: seq<real>)

  type Meta = map<string, MetaValue>

  /** A constructed `TimeSeries`: x is held by rows. */
  datatype TimeSeries = TimeSeries(t: seq<real>, x: seq<seq<real>>, units: string, frame: string, meta: Meta) {

    /** The invariant construction establishes: one sample row per timestamp. */
    predicate Valid()
    {
      |x| == |t|
    }
  }

  /** `x.reshape(-1, 1)` of a 1-d array. */
  function AsColumn(v: seq<real>): seq<seq<real>>
  {
    seq(|v|, k requires 0 <= k < |v| => [v[k]])
  }

  /** `TimeSeries(t, x, units, frame, meta)` with `__post_init__`: t must be
      1-d, a 1-d x becomes an N×1 column, and x must have one row per
      timestamp. */
  function NewTimeSeries(t: NdArray, x: NdArray, units: string, frame: string, meta: Meta): (r: Result<TimeSeries>)
    ensures !t.Flat? ==> r == Err(ValueError("t must be shape (N,)"))
    ensures t.Flat? && x.Scalar? ==> r == Err(IndexError)
    ensures r.Ok? ==> r.value.Valid() && r.value.t == t.items
    ensures r.Ok? ==> r.value.units == units && r.value.frame == frame && r.value.meta == meta
    ensures r.Ok? <==> t.Flat? && (x.Flat? || x.Grid?) && Rows(x) == |t.items|
  {
    if !t.Flat? then Err(ValueError("t must be shape (N,)"))
    else
      var x2 := if x.Flat? then Grid(AsColumn(x.items)) else x;
      if x2.Scalar? then Err(IndexError)
      else if |x2.rows| != |t.items| then Err(ValueError("x must have same length as t"))
      else Ok(TimeSeries(t.items, x2.rows, units, frame, meta))
  }

  /** `x.shape[0]` (0 for a 0-d array, whose shape has no entry). */
  function Rows(x: NdArray): nat
  {
    match x
    case Scalar(_) => 0
    case Flat(v) => |v|
    case Grid(m) => |m|
  }

  /** A 1-d x is stored as the N×1 column of its values. */
  lemma NewTimeSeriesReshapes(t: seq<real>, v: seq<real>, units: string, frame: string, meta: Meta)
    requires |v| == |t|
    ensures NewTimeSeries(Flat(t), Flat(v), units, frame, meta).Ok?
    ensures var ts := NewTimeSeries(Flat(t), Flat(v), units, frame, meta).value;
            |ts.x| == |v| && forall k :: 0 <= k < |v| ==> |ts.x[k]| == 1 && ts.x[k][0] == v[k]
  {
  }

  /** Re-constructing a constructed series from its own fields gives it back. */
  lemma NewTimeSeriesOfValid(ts: TimeSeries)
    requires ts.Valid()
    ensures NewTimeSeries(Flat(ts.t), Grid(ts.x), ts.units, ts.frame, ts.meta) == Ok(ts)
  {
  }

  /** A half-open span `(i0, i1)` of sample indices. */
  datatype Span = Span(start: nat, stop: nat)

  datatype ChunkedTimeSeries = ChunkedTimeSeries(base: TimeSeries, spans: seq<Span>, meta: Meta)

  /** Python's `s[i0:i1]` for non-negative bounds: both ends clipped at |s|. */
  function Slice<T>(s: seq<T>, i0: nat, i1: nat): (r: seq<T>)
    ensures |r| == if Clip(i1, |s|) <= Clip(i0, |s|) then 0 else Clip(i1, |s|) - Clip(i0, |s|)
    ensures forall j :: 0 <= j < |r| ==> i0 + j < |s| && r[j] == s[i0 + j]
  {
    var lo, hi := Clip(i0, |s|), Clip(i1, |s|);
    if hi <= lo then [] else s[lo..hi]
  }

  function Clip(i: nat, n: nat): nat
  {
    if i <= n then i else n
  }

  /** The view of one span: sliced t and x, the base's tags, and the base's
      metadata with "chunk" set to the span. */
  function Chunk(base: TimeSeries, sp: Span): TimeSeries
  {
    TimeSeries(Slice(base.t, sp.start, sp.stop), Slice(base.x, sp.start, sp.stop),
               base.units, base.frame, base.meta["chunk" := MetaSpan(sp.start, sp.stop)])
  }

  /** `iter_chunks`: one view per span, in span order. */
  function IterChunks(c: ChunkedTimeSeries): (r: seq<TimeSeries>)
    ensures |r| == |c.spans|
  {
    seq(|c.spans|, k requires 0 <= k < |c.spans| => Chunk(c.base, c.spans[k]))
  }

  /** What each chunk holds: the base's samples from i0 on, clipped at N; a
      valid chunk even when the span runs past the end; the base's units,
      frame and metadata, with only "chunk" set. The chunked series' own
      metadata plays no part. */
  lemma IterChunksContents(c: ChunkedTimeSeries, k: nat)
    requires c.base.Valid() && k < |c.spans|
    ensures var ch, sp, n := IterChunks(c)[k], c.spans[k], |c.base.t|;
            && ch.Valid()
            && (sp.start <= sp.stop <= n ==> |ch.t| == sp.stop - sp.start)
            && (sp.start <= n <= sp.stop ==> |ch.t| == n - sp.start)
            && (forall j :: 0 <= j < |ch.t| ==> ch.t[j] == c.base.t[sp.start + j] && ch.x[j] == c.base.x[sp.start + j])
            && ch.units == c.base.units && ch.frame == c.base.frame
            && ch.meta.Keys == c.base.meta.Keys + {"chunk"}
            && ch.meta["chunk"] == MetaSpan(sp.start, sp.stop)
            && (forall key :: key in c.base.meta && key != "chunk" ==> ch.meta[key] == c.base.meta[key])
  {
    var sp, n := c.spans[k], |c.base.t|;
    assert |c.base.x| == n;
  }

  lemma IterChunksIgnoresOwnMeta(c: ChunkedTimeSeries, m: Meta)
    ensures IterChunks(c.(meta := m)) == IterChunks(c)
  {
  }
}
