/** Steps: named units of computation with declared input and output keys,
    the base step's entry point, and the chunking step that splits a series
    into fixed-length spans. */
module Steps {
  import opened Exceptions
  import opened Signals
  import opened Workspace

  datatype PlotKind = TimeseriesPlot | ScatterPlot | HistPlot

  /** An entry of `plot_keys`: a bare workspace key or a `PlotSpec` (its
      title, bins and alpha only style the picture and are not modelled). */
  datatype PlotKey = Key(key: string) | Spec(kind: PlotKind, key: string)

  /** The `Step` record: static configuration only. */
  datatype Step = Step(name: string, inputs: seq<string>, outputs: seq<string>, plotKeys: seq<PlotKey>)

  /** What `step.run(ws)` does to the workspace: the assignments it made, in
      order, and the exception that ended it, if any. */
  datatype StepOutcome = StepOutcome(writes: seq<(string, Artifact)>, raised: Option<Exception>)

  /** `Step.run`: the base class writes nothing and raises. */
  function BaseRun(step: Step, ws: Dict): StepOutcome
  {
    StepOutcome([], Some(NotImplementedError))
  }

  /** `range(i, n, spanLen)` as spans `(i, i + spanLen)`, for spanLen > 0. */
  function RangeSpans(i: nat, n: nat, spanLen: nat): seq<Span>
    requires spanLen > 0
    decreases n - i
  {
    if i >= n then [] else [Span(i, i + spanLen)] + RangeSpans(i + spanLen, n, spanLen)
  }

  /** The span list `ChunkStep.run` computes for N samples: the comprehension
      over `range(0, N, span_len)` (ValueError for a zero step, nothing for a
      negative one), `spans[-1]` (IndexError when empty), and the check that
      drops a short trailing span, which compares the span's constructed
      width. */
  function ChunkSpans(n: nat, spanLen: int): Result<seq<Span>>
  {
    if spanLen == 0 then Err(ValueError("range() arg 3 must not be zero"))
    else
      var spans := if spanLen > 0 then RangeSpans(0, n, spanLen) else [];
      if |spans| == 0 then Err(IndexError)
      else if spans[|spans| - 1].stop - spans[|spans| - 1].start < spanLen then Ok(spans[..|spans| - 1])
      else Ok(spans)
  }

  /** The spans from i: none exactly when i >= n; otherwise the first starts
      at i, each is L wide and starts before n, each starts where the previous
      one stopped, and the last reaches n or beyond. */
  lemma {:induction false} RangeSpansShape(i: nat, n: nat, spanLen: nat)
    requires spanLen > 0
    ensures var spans := RangeSpans(i, n, spanLen);
            && (|spans| == 0 <==> i >= n)
            && (|spans| > 0 ==> spans[0].start == i && spans[|spans| - 1].stop >= n)
            && (forall k :: 0 <= k < |spans| ==> spans[k].stop == spans[k].start + spanLen && spans[k].start < n)
            && (forall k :: 0 <= k < |spans| - 1 ==> spans[k].stop == spans[k + 1].start)
    decreases n - i
  {
    if i < n {
      var spans, rest := RangeSpans(i, n, spanLen), RangeSpans(i + spanLen, n, spanLen);
      RangeSpansShape(i + spanLen, n, spanLen);
      assert spans[1..] == rest;
    }
  }

  /** For L > 0 and N > 0 the trailing-span check never fires: every span is
      built with width exactly L, so the result is the whole range. */
  lemma ChunkSpansAsWritten(n: nat, spanLen: nat)
    requires n > 0 && spanLen > 0
    ensures ChunkSpans(n, spanLen) == Ok(RangeSpans(0, n, spanLen))
  {
    RangeSpansShape(0, n, spanLen);
  }

  /** N = 0, or a negative span length, leaves no span, and `spans[-1]` raises. */
  lemma ChunkSpansEmpty(n: nat, spanLen: int)
    requires n == 0 || spanLen < 0
    ensures ChunkSpans(n, spanLen) == if spanLen == 0 then Err(ValueError("range() arg 3 must not be zero")) else Err(IndexError)
  {
  }

  /** Concatenation of a list of sequences. */
  function Flatten<T>(parts: seq<seq<T>>): seq<T>
  {
    if |parts| == 0 then [] else parts[0] + Flatten(parts[1..])
  }

  /** The chunk views of the spans from i, laid end to end, are the rest of
      the base from i: nothing is lost, repeated or reordered. */
  lemma {:induction false} RangeChunksCover<T>(s: seq<T>, i: nat, spanLen: nat)
    requires spanLen > 0 && i <= |s|
    ensures var spans := RangeSpans(i, |s|, spanLen);
            Flatten(seq(|spans|, k requires 0 <= k < |spans| => Slice(s, spans[k].start, spans[k].stop))) == s[i..]
    decreases |s| - i
  {
    var spans := RangeSpans(i, |s|, spanLen);
    var parts := seq(|spans|, k requires 0 <= k < |spans| => Slice(s, spans[k].start, spans[k].stop));
    if i < |s| {
      var rest := RangeSpans(i + spanLen, |s|, spanLen);
      var restParts := seq(|rest|, k requires 0 <= k < |rest| => Slice(s, rest[k].start, rest[k].stop));
      assert parts[1..] == restParts;
      if i + spanLen <= |s| {
        RangeChunksCover(s, i + spanLen, spanLen);
        assert s[i..] == s[i..i + spanLen] + s[i + spanLen..];
      } else {
        assert rest == [];
        assert Flatten(restParts) == [];
        assert parts[0] == s[i..];
      }
    }
  }

  /** The chunks of a ChunkStep output partition the base series'
      timestamps; every chunk but the last holds exactly L samples, and the
      last is shorter than L exactly when its span runs past the end. */
  lemma ChunksPartitionBase(ts: TimeSeries, spanLen: nat)
    requires ts.Valid() && |ts.t| > 0 && spanLen > 0
    ensures var spans := RangeSpans(0, |ts.t|, spanLen);
            var chunks := IterChunks(ChunkedTimeSeries(ts, spans, map[]));
            && |chunks| > 0
            && Flatten(seq(|chunks|, k requires 0 <= k < |chunks| => chunks[k].t)) == ts.t
            && (forall k :: 0 <= k < |chunks| - 1 ==> |chunks[k].t| == spanLen)
            && (|chunks[|chunks| - 1].t| < spanLen <==> spans[|spans| - 1].stop > |ts.t|)
  {
    var spans := RangeSpans(0, |ts.t|, spanLen);
    var chunks := IterChunks(ChunkedTimeSeries(ts, spans, map[]));
    RangeChunksCover(ts.t, 0, spanLen);
    assert seq(|chunks|, k requires 0 <= k < |chunks| => chunks[k].t)
        == seq(|spans|, k requires 0 <= k < |spans| => Slice(ts.t, spans[k].start, spans[k].stop));
    RangeSpansShape(0, |ts.t|, spanLen);
    forall k | 0 <= k < |chunks|
      ensures |chunks[k].t| == |Slice(ts.t, spans[k].start, spans[k].stop)|
    {
    }
    SpanSliceLengths(ts.t, spans, spanLen);
  }

  /** Slice lengths of contiguous L-wide spans that all start inside s. */
  lemma SpanSliceLengths<T>(s: seq<T>, spans: seq<Span>, spanLen: nat)
    requires |spans| > 0
    requires forall m :: 0 <= m < |spans| ==> spans[m].stop == spans[m].start + spanLen && spans[m].start < |s|
    requires forall m :: 0 <= m < |spans| - 1 ==> spans[m].stop == spans[m + 1].start
    ensures forall k :: 0 <= k < |spans| - 1 ==> |Slice(s, spans[k].start, spans[k].stop)| == spanLen
    ensures var last := spans[|spans| - 1];
            |Slice(s, last.start, last.stop)| < spanLen <==> last.stop > |s|
  {
    forall k | 0 <= k < |spans| - 1
      ensures |Slice(s, spans[k].start, spans[k].stop)| == spanLen
    {
      SpansIncrease(spans, spanLen, k, |spans| - 1);
    }
  }

  /** Contiguous spans of width L start in increasing order. */
  lemma {:induction false} SpansIncrease(spans: seq<Span>, spanLen: nat, j: nat, k: nat)
    requires j < k < |spans|
    requires forall m :: 0 <= m < |spans| ==> spans[m].stop == spans[m].start + spanLen
    requires forall m :: 0 <= m < |spans| - 1 ==> spans[m].stop == spans[m + 1].start
    ensures spans[j].stop <= spans[k].start
    decreases k - j
  {
    if j + 1 < k {
      SpansIncrease(spans, spanLen, j + 1, k);
    }
  }

  /** `ChunkStep.run` with `span_len = int(chunk_t_s * fs_hz)` given: reads its
      first input series, needs "fs_hz" in its metadata, and writes to its
      first output a ChunkedTimeSeries over the unchanged series, with the
      series' metadata plus "chunk_t_s". */
  function ChunkStepRun(step: Step, chunkTs: real, spanLen: int, ws: Dict): (o: StepOutcome)
    ensures |o.writes| <= 1
    ensures o.raised.None? <==> |o.writes| == 1
    ensures |o.writes| == 1 ==>
              && |step.inputs| > 0 && step.inputs[0] in ws.entries && ws.entries[step.inputs[0]].Series?
              && var ts := ws.entries[step.inputs[0]].ts;
                 && |step.outputs| > 0
                 && ChunkSpans(|ts.x|, spanLen).Ok?
                 && o.writes[0] == (step.outputs[0], Chunked(ChunkedTimeSeries(
                      ts, ChunkSpans(|ts.x|, spanLen).value, ts.meta["chunk_t_s" := MetaReal(chunkTs)])))
    ensures |step.inputs| == 0 ==> o.raised == Some(IndexError)
    ensures |step.inputs| > 0 && step.inputs[0] !in ws.entries ==> o.raised == Some(KeyError(step.inputs[0]))
  {
    if |step.inputs| == 0 then StepOutcome([], Some(IndexError))
    else if step.inputs[0] !in ws.entries then StepOutcome([], Some(KeyError(step.inputs[0])))
    else match ws.entries[step.inputs[0]]
      case Series(ts) =>
        if "fs_hz" !in ts.meta then StepOutcome([], Some(KeyError("fs_hz")))
        else (match ChunkSpans(|ts.x|, spanLen)
          case Err(e) => StepOutcome([], Some(e))
          case Ok(spans) =>
            if |step.outputs| == 0 then StepOutcome([], Some(IndexError))
            else StepOutcome([(step.outputs[0], Chunked(ChunkedTimeSeries(ts, spans, ts.meta["chunk_t_s" := MetaReal(chunkTs)])))], None))
      case Chunked(c) =>
        StepOutcome([], Some(if "fs_hz" in c.meta then AttributeError else KeyError("fs_hz")))
      case _ => StepOutcome([], Some(AttributeError))
  }
}
