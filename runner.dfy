/** The pipeline runner: steps run strictly in list order over one shared
    workspace, with an optional cache of step outputs keyed by
    "{index}_{name}", plot requests for the marked keys, and a final blob
    "all" holding the whole workspace. The cache directory is modelled as
    a map from file path to blob. */
module Execution {
  import opened Exceptions
  import opened Signals
  import opened Workspace
  import opened Steps
  import opened Decimal

  /** The arrays of one `.npz` file, by name. */
  type Blob = map<string, NdArray>

  /** The runner's settings (`out_dir`, `write_cache`, `read_cache`, `make_plots`). */
  datatype Config = Config(outDir: string, writeCache: bool, readCache: bool, makePlots: bool)

  /** A figure the runner asks for: a line plot of a series, or a scatter
      plot of whatever `ws.get` returned for the key. */
  datatype PlotRequest =
    | SeriesFigure(path: string, title: string, ts: TimeSeries)
    | DataFigure(path: string, data: Option<Artifact>)

  /** Everything the run changes: the workspace, the cache files, the figures,
      and the indices of the steps whose `run` was called. */
  datatype RunState = RunState(ws: Dict, store: map<string, Blob>, plots: seq<PlotRequest>, ran: seq<nat>)

  // ----- names and paths --------------------------------------------------

  /** `f"{i}_{step.name}"`: the cache identity of step i. */
  function StepId(i: nat, name: string): string
  {
    NatToString(i) + "_" + name
  }

  /** `out_dir / "cache" / f"{id}.npz"`. */
  function CachePath(outDir: string, id: string): string
  {
    outDir + "/cache/" + id + ".npz"
  }

  /** `k.replace('/', '_')`. */
  function ReplaceSlash(k: string): (r: string)
    ensures |r| == |k| && forall j :: 0 <= j < |r| ==> r[j] != '/'
  {
    seq(|k|, j requires 0 <= j < |k| => if k[j] == '/' then '_' else k[j])
  }

  /** `out_dir / "plots" / id / f"{k.replace('/', '_')}.png"`. */
  function PlotPath(outDir: string, id: string, k: string): string
  {
    outDir + "/plots/" + id + "/" + ReplaceSlash(k) + ".png"
  }

  /** The text before the first '_' (all of it when there is none). */
  function BeforeUnderscore(s: string): (r: string)
    ensures |r| <= |s| && r == s[..|r|]
  {
    if |s| == 0 || s[0] == '_' then [] else [s[0]] + BeforeUnderscore(s[1..])
  }

  lemma {:induction false} BeforeUnderscoreOfDigits(ds: string, rest: string)
    requires AllDigits(ds)
    ensures BeforeUnderscore(ds + "_" + rest) == ds
  {
    if |ds| > 0 {
      assert (ds + "_" + rest)[1..] == ds[1..] + "_" + rest;
      BeforeUnderscoreOfDigits(ds[1..], rest);
    } else {
      assert ds + "_" + rest == "_" + rest;
    }
  }

  /** The leading digits of a step identity determine the index and the rest
      the name, so two steps never share a cache blob. */
  lemma StepIdInjective(i: nat, a: string, j: nat, b: string)
    requires StepId(i, a) == StepId(j, b)
    ensures i == j && a == b
  {
    var si, sj := NatToString(i), NatToString(j);
    var s := StepId(i, a);
    BeforeUnderscoreOfDigits(si, a);
    BeforeUnderscoreOfDigits(sj, b);
    assert si == sj;
    assert a == s[|si| + 1..] == b;
    NatToStringValue(i);
    NatToStringValue(j);
  }

  /** No step identity is "all": the final blob never overwrites a step's blob. */
  lemma StepIdIsNotAll(i: nat, a: string)
    ensures StepId(i, a) != "all"
  {
    var s := StepId(i, a);
    assert s[|NatToString(i)|] == '_';
    assert '_' !in "all";
  }

  /** Distinct identities give distinct cache files. */
  lemma CachePathInjective(outDir: string, id1: string, id2: string)
    requires CachePath(outDir, id1) == CachePath(outDir, id2)
    ensures id1 == id2
  {
    var p := CachePath(outDir, id1);
    var n := |outDir| + 7;
    assert id1 == p[n..|p| - 4];
    assert id2 == CachePath(outDir, id2)[n..|p| - 4];
  }

  // ----- the cache payload -------------------------------------------------

  /** `_save_cache`'s payload for `keys`: `ws[k]` for each key in order (the
      first absent key raises KeyError), a series stored as its t and x
      arrays under "k__t" and "k__x", an ndarray under k, anything else
      dropped. */
  function SavePayload(d: Dict, keys: seq<string>): Result<Blob>
    decreases |keys|
  {
    if |keys| == 0 then Ok(map[])
    else match SavePayload(d, keys[..|keys| - 1])
      case Err(e) => Err(e)
      case Ok(p) => SaveKey(d, keys[|keys| - 1], p)
  }

  function SaveKey(d: Dict, k: string, p: Blob): Result<Blob>
  {
    if k !in d.entries then Err(KeyError(k))
    else match d.entries[k]
      case Series(ts) => Ok(p[k + "__t" := Flat(ts.t)][k + "__x" := Grid(ts.x)])
      case Array(a) => Ok(p[k := a])
      case _ => Ok(p)
  }

  /** `_load_cache`'s writes for `keys` from an existing blob: every key with
      both "k__t" and "k__x" arrays becomes a fresh `TimeSeries(t, x)`, in
      key order; a construction error stops the loop and is raised. */
  function RestoreWrites(blob: Blob, keys: seq<string>): StepOutcome
    decreases |keys|
  {
    if |keys| == 0 then StepOutcome([], None)
    else
      var prev := RestoreWrites(blob, keys[..|keys| - 1]);
      if prev.raised.Some? then prev else RestoreKey(blob, keys[|keys| - 1], prev.writes)
  }

  function RestoreKey(blob: Blob, k: string, writes: seq<(string, Artifact)>): StepOutcome
  {
    var tk, xk := k + "__t", k + "__x";
    if tk in blob && xk in blob then
      match NewTimeSeries(blob[tk], blob[xk], "", "", map[])
      case Ok(ts) => StepOutcome(writes + [(k, Series(ts))], None)
      case Err(e) => StepOutcome(writes, Some(e))
    else StepOutcome(writes, None)
  }

  /** `[k for k in step.inputs if k not in ws]`. */
  function Missing(inputs: seq<string>, d: Dict): (m: seq<string>)
    ensures forall k :: k in m <==> k in inputs && k !in d.entries
    ensures |m| <= |inputs|
  {
    if |inputs| == 0 then [] else (if inputs[0] in d.entries then [] else [inputs[0]]) + Missing(inputs[1..], d)
  }

  /** The missing list keeps the declared order: one more input adds at most
      that input, at the end. */
  lemma {:induction false} MissingAppend(inputs: seq<string>, k: string, d: Dict)
    ensures Missing(inputs + [k], d) == Missing(inputs, d) + (if k in d.entries then [] else [k])
  {
    if |inputs| > 0 {
      assert (inputs + [k])[1..] == inputs[1..] + [k];
      MissingAppend(inputs[1..], k, d);
    } else {
      assert [] + [k] == [k];
    }
  }

  // ----- plots -----------------------------------------------------------

  /** `step.plot_keys or step.outputs`. */
  function PlotKeys(step: Step): seq<PlotKey>
  {
    if |step.plotKeys| > 0 then step.plotKeys
    else seq(|step.outputs|, j requires 0 <= j < |step.outputs| => Key(step.outputs[j]))
  }

  /** What `data[:, 0]` in `_plot_data` raises for `ws.get(key)`: nothing for a
      2-d array whose rows have at least one column; IndexError for a 0-d or
      1-d array or a 2-d one without columns; TypeError for None (an absent
      key) and for every non-array object, none of which takes a tuple
      index. */
  function ScatterError(data: Option<Artifact>): Option<Exception>
  {
    match data
    case Some(Array(Grid(m))) => if forall k :: 0 <= k < |m| ==> |m[k]| > 0 then None else Some(IndexError)
    case Some(Array(_)) => Some(IndexError)
    case _ => Some(TypeError)
  }

  /** The figure for one plot key: a bare key that holds a series gets a line
      plot titled "k (name)"; a scatter spec gets a scatter plot of
      `ws.get(key)`, or the error its column indexing raises; anything else
      gets none. */
  function PlotFor(outDir: string, id: string, name: string, pk: PlotKey, d: Dict): Result<seq<PlotRequest>>
  {
    match pk
    case Key(k) =>
      (match d.Get(k)
       case Some(Series(ts)) => Ok([SeriesFigure(PlotPath(outDir, id, k), k + " (" + name + ")", ts)])
       case _ => Ok([]))
    case Spec(kind, k) =>
      if kind != ScatterPlot then Ok([])
      else if ScatterError(d.Get(k)).Some? then Err(ScatterError(d.Get(k)).value)
      else Ok([DataFigure(PlotPath(outDir, id, k), d.Get(k))])
  }

  /** The figures for the first n plot keys, in order, and the first error:
      the figures saved before it stay saved. */
  function PlotsUpTo(outDir: string, id: string, step: Step, d: Dict, n: nat): (seq<PlotRequest>, Option<Exception>)
    requires n <= |PlotKeys(step)|
  {
    if n == 0 then ([], None)
    else
      var prev := PlotsUpTo(outDir, id, step, d, n - 1);
      if prev.1.Some? then prev
      else match PlotFor(outDir, id, step.name, PlotKeys(step)[n - 1], d)
        case Ok(f) => (prev.0 + f, None)
        case Err(e) => (prev.0, Some(e))
  }

  function PlotRequests(outDir: string, id: string, step: Step, d: Dict): (seq<PlotRequest>, Option<Exception>)
  {
    PlotsUpTo(outDir, id, step, d, |PlotKeys(step)|)
  }

  /** A scatter spec whose data cannot be column-indexed. */
  predicate BadScatter(pk: PlotKey, d: Dict)
  {
    pk.Spec? && pk.kind == ScatterPlot && ScatterError(d.Get(pk.key)).Some?
  }

  /** The plots of the first n keys raise nothing iff none of those keys is
      a scatter spec over data that cannot be column-indexed; what they
      raise is TypeError or IndexError. */
  lemma {:induction false} PlotsRaise(outDir: string, id: string, step: Step, d: Dict, n: nat)
    requires n <= |PlotKeys(step)|
    ensures PlotsUpTo(outDir, id, step, d, n).1 == None <==> forall j :: 0 <= j < n ==> !BadScatter(PlotKeys(step)[j], d)
    ensures PlotsUpTo(outDir, id, step, d, n).1 in {None, Some(TypeError), Some(IndexError)}
  {
    if n > 0 {
      PlotsRaise(outDir, id, step, d, n - 1);
    }
  }

  /** Once a plot key has raised, the later keys change nothing. */
  lemma {:induction false} PlotsErrSticky(outDir: string, id: string, step: Step, d: Dict, n: nat)
    requires n <= |PlotKeys(step)| && PlotsUpTo(outDir, id, step, d, n).1.Some?
    ensures PlotRequests(outDir, id, step, d) == PlotsUpTo(outDir, id, step, d, n)
    decreases |PlotKeys(step)| - n
  {
    if n < |PlotKeys(step)| {
      PlotsErrSticky(outDir, id, step, d, n + 1);
    }
  }

  /** Every line plot is of a series the workspace holds under a plot key. */
  lemma {:induction false} PlotsShowWorkspace(outDir: string, id: string, step: Step, d: Dict, n: nat)
    requires n <= |PlotKeys(step)|
    ensures forall r :: r in PlotsUpTo(outDir, id, step, d, n).0 && r.SeriesFigure? ==>
              exists k :: Key(k) in PlotKeys(step) && d.Get(k) == Some(Series(r.ts))
  {
    if n > 0 {
      PlotsShowWorkspace(outDir, id, step, d, n - 1);
      var pk := PlotKeys(step)[n - 1];
      var f := PlotFor(outDir, id, step.name, pk, d);
      if f.Ok? {
        forall r | r in f.value && r.SeriesFigure?
          ensures exists k :: Key(k) in PlotKeys(step) && d.Get(k) == Some(Series(r.ts))
        {
          assert Key(pk.key) in PlotKeys(step);
        }
      }
    }
  }

  // ----- one step and the whole run, as functions ---------------------------

  /** The cache read: tried only with `read_cache` and at least one output; a
      hit whenever the blob exists, restoring what it can. */
  function LoadPhase(cfg: Config, id: string, step: Step, st: RunState): (bool, RunState, Option<Exception>)
  {
    var path := CachePath(cfg.outDir, id);
    if cfg.readCache && |step.outputs| > 0 && path in st.store then
      var o := RestoreWrites(st.store[path], step.outputs);
      (true, st.(ws := st.ws.PutAll(o.writes)), o.raised)
    else (false, st, None)
  }

  /** A cache miss: the input check, `step.run`, and the cache write (only with
      `write_cache` and at least one output). */
  function ExecPhase(cfg: Config, i: nat, id: string, step: Step, st: RunState, exec: (Step, Dict) -> StepOutcome): (RunState, Option<Exception>)
  {
    var miss := Missing(step.inputs, st.ws);
    if |miss| > 0 then (st, Some(MissingInputs(step.name, miss)))
    else
      var o := exec(step, st.ws);
      var st2 := st.(ws := st.ws.PutAll(o.writes), ran := st.ran + [i]);
      if o.raised.Some? then (st2, o.raised)
      else if cfg.writeCache && |step.outputs| > 0 then
        match SavePayload(st2.ws, step.outputs)
        case Err(e) => (st2, Some(e))
        case Ok(p) => (st2.(store := st2.store[CachePath(cfg.outDir, id) := p]), None)
      else (st2, None)
  }

  /** One iteration of the runner's loop for step i. */
  function StepSpec(cfg: Config, i: nat, step: Step, st: RunState, exec: (Step, Dict) -> StepOutcome): (RunState, Option<Exception>)
  {
    var id := StepId(i, step.name);
    var load := LoadPhase(cfg, id, step, st);
    if load.2.Some? then (load.1, load.2)
    else
      var after := if load.0 then (load.1, None) else ExecPhase(cfg, i, id, step, load.1, exec);
      if after.1.Some? then after
      else if cfg.makePlots then
        var pr := PlotRequests(cfg.outDir, id, step, after.0.ws);
        (after.0.(plots := after.0.plots + pr.0), pr.1)
      else after
  }

  /** The final save of every workspace key under "all". */
  function FinalSave(cfg: Config, st: RunState): (RunState, Option<Exception>)
  {
    match SavePayload(st.ws, st.ws.order)
    case Ok(p) => (st.(store := st.store[CachePath(cfg.outDir, "all") := p]), None)
    case Err(e) => (st, Some(e))
  }

  /** The run from step i on: the first exception ends it. */
  function RunFrom(cfg: Config, steps: seq<Step>, exec: (Step, Dict) -> StepOutcome, i: nat, st: RunState): (RunState, Option<Exception>)
    requires i <= |steps|
    decreases |steps| - i
  {
    if i == |steps| then FinalSave(cfg, st)
    else
      var r := StepSpec(cfg, i, steps[i], st, exec);
      if r.1.Some? then r else RunFrom(cfg, steps, exec, i + 1, r.0)
  }

  /** A step that ends without an exception hands its state to the next step. */
  lemma RunFromContinues(cfg: Config, steps: seq<Step>, exec: (Step, Dict) -> StepOutcome, i: nat, st: RunState)
    requires i < |steps| && StepSpec(cfg, i, steps[i], st, exec).1 == None
    ensures RunFrom(cfg, steps, exec, i, st) == RunFrom(cfg, steps, exec, i + 1, StepSpec(cfg, i, steps[i], st, exec).0)
  {
  }

  // ----- what the cache keeps -----------------------------------------------

  /** Saving keys that are all present never raises. */
  lemma {:induction false} SavePayloadOk(d: Dict, keys: seq<string>)
    requires forall k :: k in keys ==> k in d.entries
    ensures SavePayload(d, keys).Ok?
    decreases |keys|
  {
    if |keys| > 0 {
      SavePayloadOk(d, keys[..|keys| - 1]);
    }
  }

  /** Whatever the blob holds, loading writes only series, only under the
      requested keys, and always with units "", frame "" and empty meta:
      ndarray outputs are never restored and string tags and metadata are
      lost. */
  lemma {:induction false} RestoreOnlySeries(blob: Blob, keys: seq<string>)
    ensures forall w :: w in RestoreWrites(blob, keys).writes ==>
              && w.0 in keys && w.1.Series?
              && w.1.ts.Valid() && w.1.ts.units == "" && w.1.ts.frame == "" && w.1.ts.meta == map[]
    decreases |keys|
  {
    if |keys| > 0 {
      RestoreOnlySeries(blob, keys[..|keys| - 1]);
    }
  }

  /** k + suffix for one of the tag suffixes. */
  predicate HasTagSuffix(s: string)
  {
    |s| >= 3 && (s[|s| - 3..] == "__t" || s[|s| - 3..] == "__x")
  }

  /** A series with its string tags and metadata reset, as a restore builds it. */
  function Stripped(ts: TimeSeries): (r: TimeSeries)
    ensures r.t == ts.t && r.x == ts.x && r.units == "" && r.frame == "" && r.meta == map[]
  {
    TimeSeries(ts.t, ts.x, "", "", map[])
  }

  /** The tagged names of distinct keys differ, and no untagged key collides
      with a tagged name. */
  lemma TagNames(k: string, k2: string)
    ensures k + "__t" != k2 + "__x"
    ensures k + "__t" == k2 + "__t" ==> k == k2
    ensures k + "__x" == k2 + "__x" ==> k == k2
    ensures !HasTagSuffix(k2) ==> k2 != k + "__t" && k2 != k + "__x"
  {
    var a, b := k + "__t", k2 + "__x";
    assert a[|a| - 1] == 't' && b[|b| - 1] == 'x';
    if k + "__t" == k2 + "__t" {
      assert k == (k + "__t")[..|k|];
    }
    if k + "__x" == k2 + "__x" {
      assert k == (k + "__x")[..|k|];
    }
    assert (k + "__t")[|k + "__t"| - 3..] == "__t";
    assert (k + "__x")[|k + "__x"| - 3..] == "__x";
  }

  /** The ndarray half of a payload of present, untagged keys: each ndarray
      key's array under the key itself, and every untagged name in the
      payload is a requested ndarray key. */
  lemma {:induction false} PayloadArrays(d: Dict, keys: seq<string>)
    requires forall k :: k in keys ==> k in d.entries && !HasTagSuffix(k)
    ensures SavePayload(d, keys).Ok?
    ensures var p := SavePayload(d, keys).value;
            && (forall k :: k in keys && d.entries[k].Array? ==> k in p && p[k] == d.entries[k].arr)
            && (forall k :: k in p && !HasTagSuffix(k) ==> k in keys && d.entries[k].Array?)
    decreases |keys|
  {
    if |keys| > 0 {
      var init := keys[..|keys| - 1];
      PayloadArrays(d, init);
      var last := keys[|keys| - 1];
      var p := SavePayload(d, keys).value;
      forall k | k in keys && d.entries[k].Array?
        ensures k in p && p[k] == d.entries[k].arr
      {
        TagNames(last, k);
        if k != last {
          assert k in init;
        }
      }
      forall k | k in p && !HasTagSuffix(k)
        ensures k in keys && d.entries[k].Array?
      {
        TagNames(last, k);
      }
    }
  }

  /** The series half of a payload of present, untagged keys: each series
      key's t and x arrays under its tagged names, and no tagged names for
      the other keys. */
  lemma {:induction false} PayloadSeries(d: Dict, keys: seq<string>)
    requires forall k :: k in keys ==> k in d.entries && !HasTagSuffix(k)
    ensures SavePayload(d, keys).Ok?
    ensures var p := SavePayload(d, keys).value;
            && (forall k :: k in keys && d.entries[k].Series? ==>
                  && k + "__t" in p && p[k + "__t"] == Flat(d.entries[k].ts.t)
                  && k + "__x" in p && p[k + "__x"] == Grid(d.entries[k].ts.x))
            && (forall k :: k + "__t" in p ==> k in keys && d.entries[k].Series?)
    decreases |keys|
  {
    if |keys| > 0 {
      var init := keys[..|keys| - 1];
      PayloadSeries(d, init);
      var p0 := SavePayload(d, init).value;
      var last := keys[|keys| - 1];
      var p := SavePayload(d, keys).value;
      forall k | k in keys && d.entries[k].Series?
        ensures && k + "__t" in p && p[k + "__t"] == Flat(d.entries[k].ts.t)
                && k + "__x" in p && p[k + "__x"] == Grid(d.entries[k].ts.x)
      {
        TagNames(k, last);
        TagNames(last, k);
        if k != last {
          assert k in init;
        }
      }
      forall k | k + "__t" in p
        ensures k in keys && d.entries[k].Series?
      {
        TagNames(k, last);
        TagNames(last, k);
      }
    }
  }

  /** The payload of keys that are all present and carry no tag suffix: each
      series key's t and x arrays under its tagged names, each ndarray key's
      array under its own name, no tagged name but a requested series key's
      and no untagged name but a requested ndarray key's; any other value is
      dropped. */
  lemma PayloadContents(d: Dict, keys: seq<string>)
    requires forall k :: k in keys ==> k in d.entries && !HasTagSuffix(k)
    ensures SavePayload(d, keys).Ok?
    ensures var p := SavePayload(d, keys).value;
            && (forall k :: k in keys && d.entries[k].Series? ==>
                  && k + "__t" in p && p[k + "__t"] == Flat(d.entries[k].ts.t)
                  && k + "__x" in p && p[k + "__x"] == Grid(d.entries[k].ts.x))
            && (forall k :: k + "__t" in p ==> k in keys && d.entries[k].Series?)
            && (forall k :: k in keys && d.entries[k].Array? ==> k in p && p[k] == d.entries[k].arr)
            && (forall k :: k in p && !HasTagSuffix(k) ==> k in keys && d.entries[k].Array?)
  {
    PayloadSeries(d, keys);
    PayloadArrays(d, keys);
  }

  /** The series a blob from distinct-named, present keys restores, in key
      order: exactly the series keys, stripped of tags and metadata. */
  lemma {:induction false} RestoreFromPayload(d: Dict, keys: seq<string>, p: Blob, n: nat)
    requires n <= |keys|
    requires forall k :: k in keys ==> k in d.entries
    requires forall k :: k in keys && d.entries[k].Series? ==> d.entries[k].ts.Valid()
    requires forall k :: k in keys && d.entries[k].Series? ==>
              && k + "__t" in p && p[k + "__t"] == Flat(d.entries[k].ts.t)
              && k + "__x" in p && p[k + "__x"] == Grid(d.entries[k].ts.x)
    requires forall k :: k + "__t" in p ==> k in keys && d.entries[k].Series?
    ensures var o := RestoreWrites(p, keys[..n]);
            && o.raised == None
            && (forall w :: w in o.writes ==> w.0 in keys[..n] && d.entries[w.0].Series? && w.1 == Series(Stripped(d.entries[w.0].ts)))
            && (forall k :: k in keys[..n] && d.entries[k].Series? ==> (k, Series(Stripped(d.entries[k].ts))) in o.writes)
  {
    if n > 0 {
      RestoreFromPayload(d, keys, p, n - 1);
      var init, k := keys[..n - 1], keys[n - 1];
      assert keys[..n][..n - 1] == init && keys[..n] == init + [k];
      var prev := RestoreWrites(p, init);
      assert RestoreWrites(p, keys[..n]) == RestoreKey(p, k, prev.writes);
      if d.entries[k].Series? {
        NewTimeSeriesOfValid(Stripped(d.entries[k].ts));
        assert RestoreKey(p, k, prev.writes) == StepOutcome(prev.writes + [(k, Series(Stripped(d.entries[k].ts)))], None);
      } else {
        assert RestoreKey(p, k, prev.writes) == StepOutcome(prev.writes, None);
      }
    }
  }

  /** Saving then loading the same keys: no exception, and each series comes
      back with its t and x but with units "", frame "" and empty meta,
      while nothing else is restored. Keys must be present and must not end
      in "__t" or "__x" (such a key's ndarray would overwrite another key's
      tagged array). */
  lemma SaveLoadRoundTrip(d: Dict, keys: seq<string>)
    requires forall k :: k in keys ==> k in d.entries && !HasTagSuffix(k)
    requires forall k :: k in keys && d.entries[k].Series? ==> d.entries[k].ts.Valid()
    ensures SavePayload(d, keys).Ok?
    ensures var o := RestoreWrites(SavePayload(d, keys).value, keys);
            && o.raised == None
            && (forall w :: w in o.writes ==> w.0 in keys && d.entries[w.0].Series? && w.1 == Series(Stripped(d.entries[w.0].ts)))
            && (forall k :: k in keys && d.entries[k].Series? ==> (k, Series(Stripped(d.entries[k].ts))) in o.writes)
  {
    PayloadContents(d, keys);
    RestoreFromPayload(d, keys, SavePayload(d, keys).value, |keys|);
    assert keys[..|keys|] == keys;
  }

  // ----- what the run does ----------------------------------------------------

  /** What one step may do: the cache is written only by a step that ran,
      with `write_cache` and at least one output, and only under its own
      path; a cache hit skips `step.run`; without a usable cache and with
      every input present, the step runs; every step leaves the workspace
      well formed. */
  lemma StepCacheDiscipline(cfg: Config, i: nat, step: Step, st: RunState, exec: (Step, Dict) -> StepOutcome)
    requires st.ws.Valid()
    ensures var r := StepSpec(cfg, i, step, st, exec).0;
            var path := CachePath(cfg.outDir, StepId(i, step.name));
            && r.ws.Valid()
            && (r.ran == st.ran || r.ran == st.ran + [i])
            && (r.store == st.store || (path in r.store && r.store == st.store[path := r.store[path]]
                                        && cfg.writeCache && |step.outputs| > 0 && r.ran == st.ran + [i]))
            && (cfg.readCache && |step.outputs| > 0 && path in st.store ==> r.ran == st.ran && r.store == st.store)
            && (!(cfg.readCache && |step.outputs| > 0 && path in st.store) && Missing(step.inputs, st.ws) == [] ==>
                  r.ran == st.ran + [i])
  {
    var id := StepId(i, step.name);
    var load := LoadPhase(cfg, id, step, st);
    LoadPhaseFacts(cfg, id, step, st);
    if !load.0 {
      ExecPhaseFacts(cfg, i, id, step, st, exec);
    }
  }

  lemma LoadPhaseFacts(cfg: Config, id: string, step: Step, st: RunState)
    requires st.ws.Valid()
    ensures var r := LoadPhase(cfg, id, step, st);
            && r.0 == (cfg.readCache && |step.outputs| > 0 && CachePath(cfg.outDir, id) in st.store)
            && r.1.ws.Valid() && r.1.ran == st.ran && r.1.store == st.store
            && (!r.0 ==> r.1 == st && r.2 == None)
  {
    var path := CachePath(cfg.outDir, id);
    if cfg.readCache && |step.outputs| > 0 && path in st.store {
      PutAllEffect(st.ws, RestoreWrites(st.store[path], step.outputs).writes);
    }
  }

  lemma ExecPhaseFacts(cfg: Config, i: nat, id: string, step: Step, st: RunState, exec: (Step, Dict) -> StepOutcome)
    requires st.ws.Valid()
    ensures var r := ExecPhase(cfg, i, id, step, st, exec).0;
            var path := CachePath(cfg.outDir, id);
            && r.ws.Valid()
            && (if Missing(step.inputs, st.ws) == [] then r.ran == st.ran + [i] else r == st)
            && (r.store == st.store || (path in r.store && r.store == st.store[path := r.store[path]]
                                        && cfg.writeCache && |step.outputs| > 0))
  {
    if Missing(step.inputs, st.ws) == [] {
      PutAllEffect(st.ws, exec(step, st.ws).writes);
    }
  }

  /** A step whose cache is not tried or absent, and whose inputs are not all
      present, raises MissingInputs naming the absent inputs in declared
      order; nothing of the state changes and no later step runs, so the
      final "all" blob is not written either. */
  lemma RunStopsOnMissingInputs(cfg: Config, steps: seq<Step>, exec: (Step, Dict) -> StepOutcome, i: nat, st: RunState)
    requires i < |steps|
    requires !(cfg.readCache && |steps[i].outputs| > 0 && CachePath(cfg.outDir, StepId(i, steps[i].name)) in st.store)
    requires Missing(steps[i].inputs, st.ws) != []
    ensures RunFrom(cfg, steps, exec, i, st) == (st, Some(MissingInputs(steps[i].name, Missing(steps[i].inputs, st.ws))))
  {
  }

  /** Steps run in list order, each at most once: the indices whose `run` is
      called from step i on are strictly increasing and lie in [i, |steps|). */
  lemma {:induction false} RanInOrder(cfg: Config, steps: seq<Step>, exec: (Step, Dict) -> StepOutcome, i: nat, st: RunState)
    requires i <= |steps|
    ensures var r := RunFrom(cfg, steps, exec, i, st).0.ran;
            && |st.ran| <= |r| && r[..|st.ran|] == st.ran
            && (forall a, b :: |st.ran| <= a < b < |r| ==> r[a] < r[b])
            && (forall a :: |st.ran| <= a < |r| ==> i <= r[a] < |steps|)
    decreases |steps| - i
  {
    if i == |steps| {
      assert RunFrom(cfg, steps, exec, i, st).0.ran == st.ran;
    } else {
      var r1 := StepSpec(cfg, i, steps[i], st, exec);
      StepRan(cfg, i, steps[i], st, exec);
      if r1.1.Some? {
        assert RunFrom(cfg, steps, exec, i, st) == r1;
      } else {
        assert RunFrom(cfg, steps, exec, i, st) == RunFrom(cfg, steps, exec, i + 1, r1.0);
        RanInOrder(cfg, steps, exec, i + 1, r1.0);
        LogTailStep(RunFrom(cfg, steps, exec, i + 1, r1.0).0.ran, st.ran, r1.0.ran, i, |steps|);
      }
    }
  }

  /** The ordering facts of a run log carry back over one step that logged
      its own index i, or nothing. */
  lemma LogTailStep(r: seq<nat>, s: seq<nat>, s1: seq<nat>, i: nat, n: nat)
    requires s1 == s || s1 == s + [i]
    requires i < n && |s1| <= |r| && r[..|s1|] == s1
    requires forall a, b :: |s1| <= a < b < |r| ==> r[a] < r[b]
    requires forall a :: |s1| <= a < |r| ==> i + 1 <= r[a] < n
    ensures |s| <= |r| && r[..|s|] == s
    ensures forall a, b :: |s| <= a < b < |r| ==> r[a] < r[b]
    ensures forall a :: |s| <= a < |r| ==> i <= r[a] < n
  {
    assert r[..|s|] == r[..|s1|][..|s|];
    if s1 != s {
      assert r[|s|] == s1[|s|] == i;
    }
  }

  /** One step appends its own index to the log, or nothing. */
  lemma StepRan(cfg: Config, i: nat, step: Step, st: RunState, exec: (Step, Dict) -> StepOutcome)
    ensures var r := StepSpec(cfg, i, step, st, exec).0.ran;
            r == st.ran || r == st.ran + [i]
  {
  }

  /** Every step served from the cache. */
  predicate AllCached(cfg: Config, steps: seq<Step>, store: map<string, Blob>)
  {
    && cfg.readCache
    && forall j :: 0 <= j < |steps| ==>
         && |steps[j].outputs| > 0
         && CachePath(cfg.outDir, StepId(j, steps[j].name)) in store
         && RestoreWrites(store[CachePath(cfg.outDir, StepId(j, steps[j].name))], steps[j].outputs).raised == None
  }

  /** With `read_cache` and a loadable blob for every step, the run calls no
      step's `run`. Without `make_plots` it raises nothing and writes only
      the "all" blob. With `make_plots` it may instead stop at a scatter plot
      over data the cache did not restore (a cache hit restores series
      only): that error is TypeError or IndexError, and then no blob at all
      is written. */
  lemma {:induction false} FullCacheHit(cfg: Config, steps: seq<Step>, exec: (Step, Dict) -> StepOutcome, i: nat, st: RunState)
    requires i <= |steps| && AllCached(cfg, steps, st.store) && st.ws.Valid()
    ensures var r := RunFrom(cfg, steps, exec, i, st);
            && r.0.ran == st.ran
            && (!cfg.makePlots ==> r.1 == None)
            && (r.1 == None ==>
                  && r.0.store.Keys == st.store.Keys + {CachePath(cfg.outDir, "all")}
                  && forall p :: p in st.store && p != CachePath(cfg.outDir, "all") ==> r.0.store[p] == st.store[p])
            && (r.1 != None ==> cfg.makePlots && r.0.store == st.store && r.1 in {Some(TypeError), Some(IndexError)})
    decreases |steps| - i
  {
    if i == |steps| {
      SavePayloadOk(st.ws, st.ws.order);
    } else {
      var id := StepId(i, steps[i].name);
      var r1 := StepSpec(cfg, i, steps[i], st, exec);
      StepCacheDiscipline(cfg, i, steps[i], st, exec);
      var load := LoadPhase(cfg, id, steps[i], st);
      assert load.2 == None && load.0;
      if cfg.makePlots {
        PlotsRaise(cfg.outDir, id, steps[i], load.1.ws, |PlotKeys(steps[i])|);
      }
      if r1.1 == None {
        FullCacheHit(cfg, steps, exec, i + 1, r1.0);
      }
    }
  }

  /** The case the plots decide: on a full cache hit with `make_plots`, step i
      raises exactly when one of its plot keys is a scatter spec over data
      that cannot be column-indexed, such as an ndarray output that is absent
      because the cache restores series only. */
  lemma CachedStepPlotRaises(cfg: Config, steps: seq<Step>, exec: (Step, Dict) -> StepOutcome, i: nat, st: RunState)
    requires i < |steps| && AllCached(cfg, steps, st.store) && cfg.makePlots
    ensures var id := StepId(i, steps[i].name);
            var d := LoadPhase(cfg, id, steps[i], st).1.ws;
            StepSpec(cfg, i, steps[i], st, exec).1 == None <==>
              forall j :: 0 <= j < |PlotKeys(steps[i])| ==> !BadScatter(PlotKeys(steps[i])[j], d)
  {
    var id := StepId(i, steps[i].name);
    PlotsRaise(cfg.outDir, id, steps[i], LoadPhase(cfg, id, steps[i], st).1.ws, |PlotKeys(steps[i])|);
  }

  /** The first failure while building a payload is the payload's failure. */
  lemma {:induction false} SavePayloadErrSticky(d: Dict, keys: seq<string>, n: nat)
    requires n <= |keys| && SavePayload(d, keys[..n]).Err?
    ensures SavePayload(d, keys) == SavePayload(d, keys[..n])
    decreases |keys| - n
  {
    if n < |keys| {
      assert keys[..n + 1][..n] == keys[..n];
      SavePayloadErrSticky(d, keys, n + 1);
    } else {
      assert keys[..n] == keys;
    }
  }

  /** The first failure while restoring is the load's failure. */
  lemma {:induction false} RestoreErrSticky(blob: Blob, keys: seq<string>, n: nat)
    requires n <= |keys| && RestoreWrites(blob, keys[..n]).raised.Some?
    ensures RestoreWrites(blob, keys) == RestoreWrites(blob, keys[..n])
    decreases |keys| - n
  {
    if n < |keys| {
      assert keys[..n + 1][..n] == keys[..n];
      RestoreErrSticky(blob, keys, n + 1);
    } else {
      assert keys[..n] == keys;
    }
  }

  // ----- the runner object ---------------------------------------------------

  class Runner {
    const outDir: string
    const writeCache: bool
    const readCache: bool
    const makePlots: bool
    /** The cache files under `out_dir`, by path. */
    var store: map<string, Blob>
    /** The figures asked for so far. */
    var plots: seq<PlotRequest>
    /** The indices of the steps whose `run` was called, in call order. */
    ghost var ran: seq<nat>

    constructor (outDir: string, writeCache: bool, readCache: bool, makePlots: bool, store: map<string, Blob>)
      ensures Cfg() == Config(outDir, writeCache, readCache, makePlots)
      ensures this.store == store && plots == [] && ran == []
    {
      this.outDir, this.writeCache, this.readCache, this.makePlots := outDir, writeCache, readCache, makePlots;
      this.store, plots, ran := store, [], [];
    }

    function Cfg(): Config
    {
      Config(outDir, writeCache, readCache, makePlots)
    }

    ghost function State(ws: Workspace): RunState
      reads this, ws
    {
      RunState(ws.Snapshot(), store, plots, ran)
    }

    /** `_save_cache(id, ws, keys)`. */
    method SaveCache(id: string, ws: Workspace, keys: seq<string>) returns (raised: Option<Exception>)
      modifies this
      ensures plots == old(plots) && ran == old(ran)
      ensures match SavePayload(ws.Snapshot(), keys)
              case Ok(p) => raised == None && store == old(store)[CachePath(outDir, id) := p]
              case Err(e) => raised == Some(e) && store == old(store)
    {
      var payload: Blob := map[];
      var i := 0;
      while i < |keys|
        invariant i <= |keys|
        invariant SavePayload(ws.Snapshot(), keys[..i]) == Ok(payload)
      {
        assert keys[..i + 1][..i] == keys[..i];
        var k := keys[i];
        if k !in ws.entries {
          SavePayloadErrSticky(ws.Snapshot(), keys, i + 1);
          return Some(KeyError(k));
        }
        match ws.entries[k] {
          case Series(ts) =>
            payload := payload[k + "__t" := Flat(ts.t)][k + "__x" := Grid(ts.x)];
          case Array(a) =>
            payload := payload[k := a];
          case _ =>
        }
        i := i + 1;
      }
      assert keys[..i] == keys;
      store := store[CachePath(outDir, id) := payload];
      raised := None;
    }
  
    /** `_load_cache(id, ws, keys)`: false without touching ws when the blob
        is absent; otherwise the restores, and true. */
    method LoadCache(id: string, ws: Workspace, keys: seq<string>) returns (loaded: bool, raised: Option<Exception>)
      modifies ws
      ensures loaded == (CachePath(outDir, id) in store)
      ensures !loaded ==> raised == None && ws.Snapshot() == old(ws.Snapshot())
      ensures loaded ==> var o := RestoreWrites(store[CachePath(outDir, id)], keys);
                         raised == o.raised && ws.Snapshot() == old(ws.Snapshot()).PutAll(o.writes)
    {
      var p := CachePath(outDir, id);
      if p !in store {
        return false, None;
      }
      var data := store[p];
      var i := 0;
      while i < |keys|
        invariant i <= |keys|
        invariant RestoreWrites(data, keys[..i]).raised == None
        invariant ws.Snapshot() == old(ws.Snapshot()).PutAll(RestoreWrites(data, keys[..i]).writes)
      {
        assert keys[..i + 1][..i] == keys[..i];
        var k := keys[i];
        var tKey, xKey := k + "__t", k + "__x";
        if tKey in data && xKey in data {
          var r := NewTimeSeries(data[tKey], data[xKey], "", "", map[]);
          if r.Err? {
            RestoreErrSticky(data, keys, i + 1);
            return true, Some(r.error);
          }
          PutAllAppend(old(ws.Snapshot()), RestoreWrites(data, keys[..i]).writes, (k, Series(r.value)));
          ws.Put(k, Series(r.value));
        }
        i := i + 1;
      }
      assert keys[..i] == keys;
      return true, None;
    }

    /** The plotting loop: one request per plot key that yields a figure,
        stopping at the first scatter whose data cannot be column-indexed. */
    method Plot(id: string, step: Step, ws: Workspace) returns (raised: Option<Exception>)
      modifies this
      ensures (plots, raised) == (old(plots) + PlotRequests(outDir, id, step, ws.Snapshot()).0, PlotRequests(outDir, id, step, ws.Snapshot()).1)
      ensures store == old(store) && ran == old(ran)
    {
      var keys := PlotKeys(step);
      var i := 0;
      while i < |keys|
        invariant i <= |keys|
        invariant plots == old(plots) + PlotsUpTo(outDir, id, step, ws.Snapshot(), i).0
        invariant PlotsUpTo(outDir, id, step, ws.Snapshot(), i).1 == None
        invariant store == old(store) && ran == old(ran)
      {
        var figure: seq<PlotRequest> := [];
        match keys[i] {
          case Key(k) =>
            var v := ws.Snapshot().Get(k);
            if v.Some? && v.value.Series? {
              figure := [SeriesFigure(PlotPath(outDir, id, k), k + " (" + step.name + ")", v.value.ts)];
            }
          case Spec(kind, k) =>
            if kind == ScatterPlot {
              var data := ws.Snapshot().Get(k);
              var e := ScatterError(data);
              if e.Some? {
                PlotsErrSticky(outDir, id, step, ws.Snapshot(), i + 1);
                return e;
              }
              figure := [DataFigure(PlotPath(outDir, id, k), data)];
            }
        }
        plots := plots + figure;
        i := i + 1;
      }
      return None;
    }

    /** One pass of the loop in `Runner.run` for step i: the cache load, the
        input check, `step.run` and the cache write on a miss, then the plots. */
    method RunStep(i: nat, step: Step, ws: Workspace, exec: (Step, Dict) -> StepOutcome) returns (raised: Option<Exception>)
      modifies this, ws
      ensures (State(ws), raised) == StepSpec(Cfg(), i, step, old(State(ws)), exec)
    {
      var id := StepId(i, step.name);
      ghost var st := State(ws);
      ghost var load := LoadPhase(Cfg(), id, step, st);
      var loaded := false;
      if readCache && |step.outputs| > 0 {
        loaded, raised := LoadCache(id, ws, step.outputs);
        if raised.Some? {
          return;
        }
      }
      assert loaded == load.0 && State(ws) == load.1;
      if !loaded {
        var missing := Missing(step.inputs, ws.Snapshot());
        if |missing| > 0 {
          return Some(MissingInputs(step.name, missing));
        }
        var o := exec(step, ws.Snapshot());
        ws.PutAll(o.writes);
        ran := ran + [i];
        if o.raised.Some? {
          return o.raised;
        }
        if writeCache && |step.outputs| > 0 {
          raised := SaveCache(id, ws, step.outputs);
          if raised.Some? {
            return;
          }
        }
        assert (State(ws), None) == ExecPhase(Cfg(), i, id, step, st, exec);
      }
      if makePlots {
        raised := Plot(id, step, ws);
        return;
      }
      return None;
    }

    /** `Runner.run(ws, steps)`, with each step's `run` given as `exec`: the
        state after the call and the exception it ends with are those of the
        run specification, and the same workspace object is returned. */
    method Run(ws: Workspace, steps: seq<Step>, exec: (Step, Dict) -> StepOutcome) returns (r: Workspace, raised: Option<Exception>)
      modifies this, ws
      ensures r == ws
      ensures (State(ws), raised) == RunFrom(Cfg(), steps, exec, 0, old(State(ws)))
    {
      r := ws;
      var i := 0;
      while i < |steps|
        invariant i <= |steps|
        invariant RunFrom(Cfg(), steps, exec, i, State(ws)) == RunFrom(Cfg(), steps, exec, 0, old(State(ws)))
      {
        ghost var st := State(ws);
        var e := RunStep(i, steps[i], ws, exec);
        if e.Some? {
          return ws, e;
        }
        RunFromContinues(Cfg(), steps, exec, i, st);
        i := i + 1;
      }
      raised := SaveCache("all", ws, ws.order);
    }
  }
}
