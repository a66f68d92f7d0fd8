/** Magnetometer/accelerometer fusion: the still windows that define the
    magnetometer baseline, and the scan for calibration events (a still
    period followed by a magnet bump while the sensor travels). */
module Fusion {
  import opened Exceptions
  import opened RealSeq
  import opened Signals
  import opened Steps
  import opened Selection

  /** What the builtin `max` raises on an empty sequence. */
  const EmptyMax := ValueError("max() arg is an empty sequence")

  // ----- GetMagBaseline ----------------------------------------------------

  /** The windows of `range(0, N - still_len, still_len)`: (s, s + still_len)
      for s = 0, L, 2L, … while s < N − L. */
  function StillWindows(n: nat, stillLen: nat): seq<Span>
    requires stillLen > 0
  {
    RangeSpans(0, if n > stillLen then n - stillLen else 0, stillLen)
  }

  /** Every still window is L samples long and ends before the last sample,
      so the final L samples never form a window of their own. */
  lemma StillWindowsInside(n: nat, stillLen: nat)
    requires stillLen > 0
    ensures var ws := StillWindows(n, stillLen);
            && (n > stillLen ==> |ws| > 0 && ws[0].start == 0)
            && (n <= stillLen ==> ws == [])
            && forall k :: 0 <= k < |ws| ==> ws[k].stop == ws[k].start + stillLen && ws[k].stop < n
  {
    RangeSpansShape(0, if n > stillLen then n - stillLen else 0, stillLen);
  }

  /** `max(abs(a_chunk)) < still_a_max` for one window of the first accel column. */
  function StillTest(accel: seq<real>, sp: Span, stillAMax: real): Result<bool>
  {
    var a := Slice(accel, sp.start, sp.stop);
    if |a| == 0 then Err(EmptyMax) else Ok(Max(MapAbs(a)) < stillAMax)
  }

  /** The still test of every window, in window order. */
  function StillTests(accel: seq<real>, spans: seq<Span>, stillAMax: real): (tests: seq<Result<bool>>)
    ensures |tests| == |spans|
    ensures forall k :: 0 <= k < |spans| ==> tests[k] == StillTest(accel, spans[k], stillAMax)
  {
    seq(|spans|, k requires 0 <= k < |spans| => StillTest(accel, spans[k], stillAMax))
  }

  /** `still_mags` after the first n windows, given each window's test. */
  function StillMags(mag: seq<seq<real>>, spans: seq<Span>, tests: seq<Result<bool>>, n: nat): Result<seq<seq<seq<real>>>>
    requires |tests| == |spans| && n <= |spans|
  {
    if n == 0 then Ok([])
    else match StillMags(mag, spans, tests, n - 1)
      case Err(e) => Err(e)
      case Ok(sel) =>
        match tests[n - 1]
        case Err(e) => Err(e)
        case Ok(still) => Ok(if still then sel + [Slice(mag, spans[n - 1].start, spans[n - 1].stop)] else sel)
  }

  /** The mag window of every span, in span order. */
  function MagWindows(mag: seq<seq<real>>, spans: seq<Span>): (ws: seq<seq<seq<real>>>)
    ensures |ws| == |spans|
  {
    seq(|spans|, k requires 0 <= k < |spans| => Slice(mag, spans[k].start, spans[k].stop))
  }

  /** Which tests passed: `Ok(true)`. */
  function Passed(tests: seq<Result<bool>>): (f: seq<bool>)
    ensures |f| == |tests|
  {
    seq(|tests|, k requires 0 <= k < |tests| => tests[k] == Ok(true))
  }

  /** The selection fails iff some test failed. */
  lemma {:induction false} StillMagsOk(mag: seq<seq<real>>, spans: seq<Span>, tests: seq<Result<bool>>, n: nat)
    requires |tests| == |spans| && n <= |spans|
    ensures StillMags(mag, spans, tests, n).Ok? <==> forall k :: 0 <= k < n ==> tests[k].Ok?
  {
    if n > 0 {
      StillMagsOk(mag, spans, tests, n - 1);
      if StillMags(mag, spans, tests, n - 1).Err? {
        var k :| 0 <= k < n - 1 && !tests[k].Ok?;
        assert StillMags(mag, spans, tests, n).Err?;
      } else if tests[n - 1].Err? {
        assert StillMags(mag, spans, tests, n).Err?;
      }
    }
  }

  /** A successful selection is the order-preserving selection of the mag
      windows whose test passed, so a window is kept as often as it
      passes. */
  lemma {:induction false} StillMagsSelect(mag: seq<seq<real>>, spans: seq<Span>, tests: seq<Result<bool>>, n: nat)
    requires |tests| == |spans| && n <= |spans|
    ensures StillMags(mag, spans, tests, n).Ok? ==>
              StillMags(mag, spans, tests, n).value == Select(MagWindows(mag, spans)[..n], Passed(tests)[..n])
  {
    if n > 0 && StillMags(mag, spans, tests, n).Ok? {
      var prev := StillMags(mag, spans, tests, n - 1);
      assert prev.Ok? && tests[n - 1].Ok?;
      StillMagsSelect(mag, spans, tests, n - 1);
      var w, f := MagWindows(mag, spans), Passed(tests);
      var sel0 := Select(w[..n - 1], f[..n - 1]);
      assert prev.value == sel0;
      SelectStep(w, f, n - 1);
      var last := Slice(mag, spans[n - 1].start, spans[n - 1].stop);
      if tests[n - 1].value {
        assert StillMags(mag, spans, tests, n).value == sel0 + [last];
        assert f[n - 1] && w[n - 1] == last;
      } else {
        assert StillMags(mag, spans, tests, n).value == sel0;
        assert !f[n - 1];
      }
    }
  }

  /** The successful selection as a subsequence: entry j is the mag window
      of the j-th passing span, those spans ascend, and every passing span
      contributes. */
  lemma StillMagsSubsequence(mag: seq<seq<real>>, spans: seq<Span>, tests: seq<Result<bool>>)
    requires |tests| == |spans| && StillMags(mag, spans, tests, |spans|).Ok?
    ensures var sel, idx := StillMags(mag, spans, tests, |spans|).value, Kept(Passed(tests));
            && |sel| == |idx|
            && (forall j :: 0 <= j < |idx| ==> idx[j] < |spans| && tests[idx[j]] == Ok(true)
                                               && sel[j] == Slice(mag, spans[idx[j]].start, spans[idx[j]].stop))
            && (forall j1, j2 :: 0 <= j1 < j2 < |idx| ==> idx[j1] < idx[j2])
            && (forall k :: 0 <= k < |spans| && tests[k] == Ok(true) ==> k in idx)
  {
    StillMagsSelect(mag, spans, tests, |spans|);
    assert MagWindows(mag, spans)[..|spans|] == MagWindows(mag, spans);
    assert Passed(tests)[..|spans|] == Passed(tests);
    SelectIsSubsequence(MagWindows(mag, spans), Passed(tests));
  }

  /** A window with an accel sample at or above the limit is never selected:
      being still means every |a| in the window is strictly below it. */
  lemma StillTestMeansAllBelow(accel: seq<real>, sp: Span, stillAMax: real)
    requires StillTest(accel, sp, stillAMax).Ok?
    ensures var a := Slice(accel, sp.start, sp.stop);
            StillTest(accel, sp, stillAMax).value <==> forall j :: 0 <= j < |a| ==> Abs(a[j]) < stillAMax
  {
    var a := Slice(accel, sp.start, sp.stop);
    var m := Max(MapAbs(a));
    if forall j :: 0 <= j < |a| ==> Abs(a[j]) < stillAMax {
      var j :| 0 <= j < |a| && MapAbs(a)[j] == m;
    }
  }

  /** `GetMagBaseline.run` up to the statistics: the unit checks, then the
      windows of mag whose accel window is still. */
  method GetMagBaseline(magUnits: string, mag: seq<seq<real>>, accelUnits: string, accel: seq<real>, stillLen: nat, stillAMax: real)
    returns (r: Result<seq<seq<seq<real>>>>)
    ensures magUnits != "milli-Gauss" ==> r == Err(AssertionError)
    ensures magUnits == "milli-Gauss" && accelUnits != "m/s^2" ==> r == Err(AssertionError)
    ensures magUnits == "milli-Gauss" && accelUnits == "m/s^2" && stillLen == 0 ==>
              r == Err(ValueError("range() arg 3 must not be zero"))
    ensures magUnits == "milli-Gauss" && accelUnits == "m/s^2" && stillLen > 0 ==>
              var spans := StillWindows(|mag|, stillLen);
              r == StillMags(mag, spans, StillTests(accel, spans, stillAMax), |spans|)
  {
    if magUnits != "milli-Gauss" || accelUnits != "m/s^2" {
      return Err(AssertionError);
    }
    if stillLen == 0 {
      return Err(ValueError("range() arg 3 must not be zero"));
    }
    var spans := StillWindows(|mag|, stillLen);
    ghost var tests := StillTests(accel, spans, stillAMax);
    var stillMags: seq<seq<seq<real>>> := [];
    var k := 0;
    while k < |spans|
      invariant k <= |spans|
      invariant StillMags(mag, spans, tests, k) == Ok(stillMags)
    {
      var aChunk := Slice(accel, spans[k].start, spans[k].stop);
      if |aChunk| == 0 {
        StillMagsErrStays(mag, spans, tests, k + 1);
        return Err(EmptyMax);
      }
      var still := Max(MapAbs(aChunk)) < stillAMax;
      assert tests[k] == Ok(still);
      StillMagsStep(mag, spans, tests, k, stillMags);
      if still {
        stillMags := stillMags + [Slice(mag, spans[k].start, spans[k].stop)];
      }
      k := k + 1;
    }
    return Ok(stillMags);
  }

  /** One more window: its mag window is appended when its test passed. */
  lemma StillMagsStep(mag: seq<seq<real>>, spans: seq<Span>, tests: seq<Result<bool>>, k: nat, sel: seq<seq<seq<real>>>)
    requires |tests| == |spans| && k < |spans| && StillMags(mag, spans, tests, k) == Ok(sel) && tests[k].Ok?
    ensures StillMags(mag, spans, tests, k + 1) ==
              Ok(if tests[k].value then sel + [Slice(mag, spans[k].start, spans[k].stop)] else sel)
  {
  }

  /** Once the selection fails it stays failed. */
  lemma {:induction false} StillMagsErrStays(mag: seq<seq<real>>, spans: seq<Span>, tests: seq<Result<bool>>, n: nat)
    requires |tests| == |spans| && n <= |spans| && StillMags(mag, spans, tests, n).Err?
    ensures StillMags(mag, spans, tests, |spans|) == StillMags(mag, spans, tests, n)
    decreases |spans| - n
  {
    if n < |spans| {
      StillMagsErrStays(mag, spans, tests, n + 1);
    }
  }

  // ----- FindCalibrationChunks -----------------------------------------------

  /** The scan's settings, with the `int(seconds * fs_hz)` lengths given. */
  datatype Params = Params(bumpMagMin: real, stillAMax: real, bumpDxMin: real,
                           stillLen: nat, bumpLen: nat, stride: nat, skips: nat)
  {
    function ChunkLen(): nat { stillLen + bumpLen }
  }

  /** The scan's per-sample inputs: the mag column, the first accel column in
      mm/s² and the time steps. */
  datatype Recording = Recording(mag: seq<real>, aMms: seq<real>, dt: seq<real>)
  {
    predicate Valid() { |aMms| == |mag| && |dt| == |mag| }
  }

  datatype Direction = Forward | Reverse

  /** One calibration event: its scan position, its orientation, its
      displacement trace and its mag trace over the bump sub-window. */
  datatype Event = Event(pos: nat, dir: Direction, disp: seq<real>, magTrace: seq<real>)

  /** `np.diff(t, prepend=t[0] - 0.01)`: 0.01 first, then successive differences. */
  function TimeSteps(t: seq<real>): seq<real>
    requires |t| > 0
  {
    seq(|t|, k requires 0 <= k < |t| => if k == 0 then t[0] - (t[0] - 0.01) else t[k] - t[k - 1])
  }

  /** The steps add back up to the timestamps: the running sum of the first
      k + 1 steps is t[k] - t[0] + 0.01, so integrating over them spans the
      recording plus the prepended 0.01 s. */
  lemma {:induction false} TimeStepsTelescope(t: seq<real>, k: nat)
    requires k < |t|
    ensures |TimeSteps(t)| == |t|
    ensures CumSum(TimeSteps(t))[k] == t[k] - t[0] + 0.01
  {
    CumSumStep(TimeSteps(t), k);
    if k > 0 {
      TimeStepsTelescope(t, k - 1);
    }
  }

  /** `s[::-1]`, built from the front. */
  function Reversed<T>(s: seq<T>): seq<T>
  {
    if |s| == 0 then [] else Reversed(s[1..]) + [s[0]]
  }

  /** `s[i : i + len]` forward, or `s[i + len : i : -1]` reversed (from
      i + len down to i + 1). */
  function Window(s: seq<real>, i: nat, len: nat, dir: Direction): seq<real>
    requires i + len < |s|
  {
    seq(len, k requires 0 <= k < len => s[if dir == Forward then i + k else i + len - k])
  }

  /** The forward window is the slice from i, and the reverse window is the
      slice from i + 1 read backwards. */
  lemma {:induction false} WindowSlices(s: seq<real>, i: nat, len: nat)
    requires i + len < |s|
    ensures Window(s, i, len, Forward) == s[i..i + len]
    ensures Window(s, i, len, Reverse) == Reversed(s[i + 1..i + len + 1])
    decreases len
  {
    if len > 0 {
      WindowSlices(s, i + 1, len - 1);
      assert s[i + 1..i + len + 1][1..] == s[i + 2..i + len + 1];
      assert Window(s, i, len, Reverse) == Window(s, i + 1, len - 1, Reverse) + [s[i + 1]];
    }
  }

  function Velocity(a: seq<real>, dt: seq<real>): (v: seq<real>)
    requires |a| == |dt|
    ensures |v| == |a|
  {
    CumSum(Times(a, dt))
  }

  /** `cumsum(cumsum(a * dt) * dt)`. */
  function Displacement(a: seq<real>, dt: seq<real>): (d: seq<real>)
    requires |a| == |dt|
    ensures |d| == |a|
  {
    CumSum(Times(Velocity(a, dt), dt))
  }

  /** The integration recurrences: v_j = v_{j-1} + a_j·dt_j and
      d_j = d_{j-1} + v_j·dt_j, from zero. */
  lemma DisplacementStep(a: seq<real>, dt: seq<real>, j: nat)
    requires |a| == |dt| && j < |a|
    ensures Velocity(a, dt)[j] == (if j == 0 then 0.0 else Velocity(a, dt)[j - 1]) + a[j] * dt[j]
    ensures Displacement(a, dt)[j] == (if j == 0 then 0.0 else Displacement(a, dt)[j - 1]) + Velocity(a, dt)[j] * dt[j]
  {
    CumSumStep(Times(a, dt), j);
    CumSumStep(Times(Velocity(a, dt), dt), j);
  }

  /** One candidate window (mag, accel in mm/s², dt, each still_len +
      bump_len long): Ok(Some(displacement)) when it qualifies, Ok(None)
      when a test rejects it, Err when `max` meets an empty sub-window. */
  function Evaluate(p: Params, baseline: real, magW: seq<real>, aW: seq<real>, dtW: seq<real>): (r: Result<Option<seq<real>>>)
    requires |magW| == |aW| == |dtW| == p.ChunkLen()
    ensures p.stillLen == 0 ==> r == Err(EmptyMax)
    ensures r.Ok? && r.value.Some? ==> |r.value.value| == p.bumpLen && p.stillLen > 0 && p.bumpLen > 0
  {
    if p.stillLen == 0 then Err(EmptyMax)
    else
      var magStill := magW[..p.stillLen];
      if Mean(magStill) > baseline then Ok(None)
      else if Max(MapAbs(aW[..p.stillLen])) > p.stillAMax then Ok(None)
      else if p.bumpLen == 0 then Err(EmptyMax)
      else if Max(magW[p.stillLen..]) < Mean(magStill) + p.bumpMagMin then Ok(None)
      else
        var d := Displacement(aW[p.stillLen..], dtW[p.stillLen..]);
        if Max(d) < p.bumpDxMin then Ok(None) else Ok(Some(d))
  }

  /** A candidate qualifies exactly when its still mean is at most the
      baseline, no still |a| exceeds the limit, the bump peak reaches the
      still mean plus the minimum (equality passes) and the displacement
      peak reaches its minimum; its trace is then the displacement. Only
      an empty still or bump sub-window raises. */
  lemma EvaluateQualifies(p: Params, baseline: real, magW: seq<real>, aW: seq<real>, dtW: seq<real>)
    requires |magW| == |aW| == |dtW| == p.ChunkLen()
    ensures var r := Evaluate(p, baseline, magW, aW, dtW);
            && (r.Err? ==> p.stillLen == 0 || p.bumpLen == 0)
            && (r.Ok? && r.value.Some? <==>
                  && p.stillLen > 0 && p.bumpLen > 0
                  && Mean(magW[..p.stillLen]) <= baseline
                  && Max(MapAbs(aW[..p.stillLen])) <= p.stillAMax
                  && Max(magW[p.stillLen..]) >= Mean(magW[..p.stillLen]) + p.bumpMagMin
                  && Max(Displacement(aW[p.stillLen..], dtW[p.stillLen..])) >= p.bumpDxMin)
            && (r.Ok? && r.value.Some? ==> r.value.value == Displacement(aW[p.stillLen..], dtW[p.stillLen..]))
  {
  }

  /** The candidate at scan position i in one orientation. */
  function EvaluateAt(rec: Recording, p: Params, baseline: real, i: nat, dir: Direction): Verdict
    requires rec.Valid() && i + p.ChunkLen() < |rec.mag|
  {
    Evaluate(p, baseline, Window(rec.mag, i, p.ChunkLen(), dir), Window(rec.aMms, i, p.ChunkLen(), dir),
             Window(rec.dt, i, p.ChunkLen(), dir))
  }

  /** The outcome of one candidate's tests. */
  type Verdict = Result<Option<seq<real>>>

  /** The verdicts of both orientations at every position whose window fits. */
  function Verdicts(rec: Recording, p: Params, baseline: real): (vs: seq<(Verdict, Verdict)>)
    requires rec.Valid()
    ensures |vs| == |rec.mag|
    ensures forall i :: 0 <= i < |vs| && i + p.ChunkLen() < |rec.mag| ==>
              vs[i] == (EvaluateAt(rec, p, baseline, i, Forward), EvaluateAt(rec, p, baseline, i, Reverse))
  {
    seq(|rec.mag|, i requires 0 <= i < |rec.mag| =>
      if i + p.ChunkLen() < |rec.mag| then (EvaluateAt(rec, p, baseline, i, Forward), EvaluateAt(rec, p, baseline, i, Reverse))
      else (Ok(None), Ok(None)))
  }

  function Pick(v: (Verdict, Verdict), dir: Direction): Verdict
  {
    if dir == Forward then v.0 else v.1
  }

  /** The event a qualifying candidate yields. */
  function EventAt(rec: Recording, p: Params, i: nat, dir: Direction, disp: seq<real>): Event
    requires rec.Valid() && i + p.ChunkLen() < |rec.mag|
  {
    Event(i, dir, disp, Window(rec.mag, i, p.ChunkLen(), dir)[p.stillLen..])
  }

  /** The events of the first n orientations examined at position i. */
  function PositionEvents(rec: Recording, p: Params, vs: seq<(Verdict, Verdict)>, i: nat, dirs: seq<Direction>, n: nat): Result<seq<Event>>
    requires rec.Valid() && |vs| == |rec.mag| && i + p.ChunkLen() < |rec.mag| && n <= |dirs|
  {
    if n == 0 then Ok([])
    else match PositionEvents(rec, p, vs, i, dirs, n - 1)
      case Err(e) => Err(e)
      case Ok(found) =>
        match Pick(vs[i], dirs[n - 1])
        case Err(e) => Err(e)
        case Ok(None) => Ok(found)
        case Ok(Some(d)) => Ok(found + [EventAt(rec, p, i, dirs[n - 1], d)])
  }

  /** All events found at one position: forward first, then reverse. */
  function AtPosition(rec: Recording, p: Params, vs: seq<(Verdict, Verdict)>, i: nat): Result<seq<Event>>
    requires rec.Valid() && |vs| == |rec.mag| && i + p.ChunkLen() < |rec.mag|
  {
    PositionEvents(rec, p, vs, i, [Forward, Reverse], 2)
  }

  /** The scan loop from position i with `skip` positions still to skip and
      the events found so far. */
  function Scan(rec: Recording, p: Params, vs: seq<(Verdict, Verdict)>, i: nat, skip: nat, events: seq<Event>): Result<seq<Event>>
    requires rec.Valid() && |vs| == |rec.mag| && p.stride > 0
    decreases |rec.mag| - i
  {
    if i + p.ChunkLen() >= |rec.mag| then Ok(events)
    else if skip > 0 then Scan(rec, p, vs, i + p.stride, skip - 1, events)
    else match AtPosition(rec, p, vs, i)
      case Err(e) => Err(e)
      case Ok(found) => Scan(rec, p, vs, i + p.stride, if |found| > 0 then p.skips else 0, events + found)
  }

  /** A position still being skipped is passed over. */
  lemma ScanSkips(rec: Recording, p: Params, vs: seq<(Verdict, Verdict)>, i: nat, skip: nat, events: seq<Event>)
    requires rec.Valid() && |vs| == |rec.mag| && p.stride > 0
    requires i + p.ChunkLen() < |rec.mag| && skip > 0
    ensures Scan(rec, p, vs, i, skip, events) == Scan(rec, p, vs, i + p.stride, skip - 1, events)
  {
  }

  /** A position examined without error adds its events and resets the skip count. */
  lemma ScanFinds(rec: Recording, p: Params, vs: seq<(Verdict, Verdict)>, i: nat, events: seq<Event>, found: seq<Event>)
    requires rec.Valid() && |vs| == |rec.mag| && p.stride > 0
    requires i + p.ChunkLen() < |rec.mag| && AtPosition(rec, p, vs, i) == Ok(found)
    ensures Scan(rec, p, vs, i, 0, events)
         == Scan(rec, p, vs, i + p.stride, if |found| > 0 then p.skips else 0, events + found)
  {
  }

  /** A position whose examination raises ends the scan with that error. */
  lemma ScanErrs(rec: Recording, p: Params, vs: seq<(Verdict, Verdict)>, i: nat, events: seq<Event>, e: Exception)
    requires rec.Valid() && |vs| == |rec.mag| && p.stride > 0
    requires i + p.ChunkLen() < |rec.mag| && AtPosition(rec, p, vs, i) == Err(e)
    ensures Scan(rec, p, vs, i, 0, events) == Err(e)
  {
  }

  /** The events of a whole scan; none at all makes `.shape[1]` raise. */
  function Calibrate(rec: Recording, p: Params, baseline: real): Result<seq<Event>>
    requires rec.Valid() && p.stride > 0
  {
    match Scan(rec, p, Verdicts(rec, p, baseline), 0, 0, [])
    case Err(e) => Err(e)
    case Ok(evs) => if |evs| == 0 then Err(IndexError) else Ok(evs)
  }

  /** `FindCalibrationChunks.run` on the mag column, the time stamps and the
      first accel column (in m/s²), with mag, accel and t of one length. */
  method FindCalibrationChunks(magUnits: string, mag: seq<real>, t: seq<real>, accelUnits: string, accel: seq<real>,
                               baseline: real, p: Params) returns (r: Result<seq<Event>>)
    requires |mag| == |t| == |accel|
    ensures |t| == 0 ==> r == Err(IndexError)
    ensures |t| > 0 && (magUnits != "milli-Gauss" || accelUnits != "m/s^2") ==> r == Err(AssertionError)
    ensures |t| > 0 && magUnits == "milli-Gauss" && accelUnits == "m/s^2" && p.stride == 0 ==>
              r == Err(ValueError("range() arg 3 must not be zero"))
    ensures |t| > 0 && magUnits == "milli-Gauss" && accelUnits == "m/s^2" && p.stride > 0 ==>
              r == Calibrate(Recording(mag, Scale(accel, 1000.0), TimeSteps(t)), p, baseline)
  {
    if |t| == 0 {
      return Err(IndexError);
    }
    var dt := TimeSteps(t);
    if magUnits != "milli-Gauss" || accelUnits != "m/s^2" {
      return Err(AssertionError);
    }
    if p.stride == 0 {
      return Err(ValueError("range() arg 3 must not be zero"));
    }
    r := ScanRecording(Recording(mag, Scale(accel, 1000.0), dt), p, baseline);
  }

  /** The scan loop over positions `range(0, len - chunk_len, stride)`. */
  method ScanRecording(rec: Recording, p: Params, baseline: real) returns (r: Result<seq<Event>>)
    requires rec.Valid() && p.stride > 0
    ensures r == Calibrate(rec, p, baseline)
  {
    ghost var vs := Verdicts(rec, p, baseline);
    var chunkLen := p.stillLen + p.bumpLen;
    var events: seq<Event> := [];
    var i: nat := 0;
    var skip: nat := 0;
    while i + chunkLen < |rec.mag|
      invariant Scan(rec, p, vs, i, skip, events) == Scan(rec, p, vs, 0, 0, [])
      decreases |rec.mag| - i
    {
      if skip > 0 {
        ScanSkips(rec, p, vs, i, skip, events);
        skip := skip - 1;
      } else {
        var at := ExaminePosition(rec, p, baseline, i);
        if at.Err? {
          ScanErrs(rec, p, vs, i, events, at.error);
          return Err(at.error);
        }
        ScanFinds(rec, p, vs, i, events, at.value);
        events := events + at.value;
        skip := if |at.value| > 0 then p.skips else 0;
      }
      i := i + p.stride;
    }
    if |events| == 0 {
      return Err(IndexError);
    }
    return Ok(events);
  }

  /** The inner loop over `[chunk_r, chunk_l]` at scan position i. */
  method ExaminePosition(rec: Recording, p: Params, baseline: real, i: nat) returns (r: Result<seq<Event>>)
    requires rec.Valid() && i + p.ChunkLen() < |rec.mag|
    ensures r == AtPosition(rec, p, Verdicts(rec, p, baseline), i)
  {
    ghost var vs := Verdicts(rec, p, baseline);
    var chunkLen := p.stillLen + p.bumpLen;
    var dirs := [Forward, Reverse];
    var found: seq<Event> := [];
    var d := 0;
    while d < |dirs|
      invariant d <= |dirs|
      invariant PositionEvents(rec, p, vs, i, dirs, d) == Ok(found)
    {
      var magW := Window(rec.mag, i, chunkLen, dirs[d]);
      var e := Evaluate(p, baseline, magW, Window(rec.aMms, i, chunkLen, dirs[d]), Window(rec.dt, i, chunkLen, dirs[d]));
      assert e == Pick(vs[i], dirs[d]);
      if e.Err? {
        PositionErrStays(rec, p, vs, i, dirs, d + 1);
        return Err(e.error);
      }
      if e.value.Some? {
        found := found + [Event(i, dirs[d], e.value.value, magW[p.stillLen..])];
      }
      d := d + 1;
    }
    return Ok(found);
  }

  /** Once an orientation fails, the position fails with the same error. */
  lemma {:induction false} PositionErrStays(rec: Recording, p: Params, vs: seq<(Verdict, Verdict)>, i: nat, dirs: seq<Direction>, n: nat)
    requires rec.Valid() && |vs| == |rec.mag| && i + p.ChunkLen() < |rec.mag| && n <= |dirs|
    requires PositionEvents(rec, p, vs, i, dirs, n).Err?
    ensures PositionEvents(rec, p, vs, i, dirs, |dirs|) == PositionEvents(rec, p, vs, i, dirs, n)
    decreases |dirs| - n
  {
    if n < |dirs| {
      PositionErrStays(rec, p, vs, i, dirs, n + 1);
    }
  }

  // ----- what the scan finds ---------------------------------------------------

  /** e is a candidate the verdicts accept: its window lies inside the data,
      its trace is the one its verdict gives and its mag trace is that
      window's bump samples. */
  predicate Accepted(rec: Recording, p: Params, vs: seq<(Verdict, Verdict)>, e: Event)
    requires rec.Valid() && |vs| == |rec.mag|
  {
    && e.pos + p.ChunkLen() < |rec.mag|
    && Pick(vs[e.pos], e.dir) == Ok(Some(e.disp))
    && e.magTrace == Window(rec.mag, e.pos, p.ChunkLen(), e.dir)[p.stillLen..]
  }

  /** Scan positions between events: two events share a position only as
      forward then reverse; otherwise they are at least `gap` apart. */
  predicate Spaced(evs: seq<Event>, gap: nat)
  {
    forall k :: 0 <= k < |evs| - 1 ==>
      (evs[k].pos == evs[k + 1].pos && evs[k].dir == Forward && evs[k + 1].dir == Reverse)
      || evs[k].pos + gap <= evs[k + 1].pos
  }

  /** The least distance between events at different positions: a match
      and the `skips` skipped positions after it. */
  function Gap(p: Params): nat
  {
    (p.skips + 1) * p.stride
  }

  /** At one position: at most two events, both there, forward before
      reverse, each accepted. */
  lemma AtPositionShape(rec: Recording, p: Params, vs: seq<(Verdict, Verdict)>, i: nat)
    requires rec.Valid() && |vs| == |rec.mag| && i + p.ChunkLen() < |rec.mag| && AtPosition(rec, p, vs, i).Ok?
    ensures var found := AtPosition(rec, p, vs, i).value;
            && |found| <= 2
            && (forall k :: 0 <= k < |found| ==> found[k].pos == i && Accepted(rec, p, vs, found[k]))
            && (|found| == 2 ==> found[0].dir == Forward && found[1].dir == Reverse)
  {
    var dirs := [Forward, Reverse];
    var f1 := PositionEvents(rec, p, vs, i, dirs, 1);
    assert PositionEvents(rec, p, vs, i, dirs, 0) == Ok([]);
    assert f1.Ok?;
    assert |f1.value| <= 1 && forall e :: e in f1.value ==> e.pos == i && e.dir == Forward && Accepted(rec, p, vs, e);
  }

  lemma SpacedAppend(evs: seq<Event>, found: seq<Event>, gap: nat, i: nat)
    requires Spaced(evs, gap)
    requires |found| <= 2 && (forall k :: 0 <= k < |found| ==> found[k].pos == i)
    requires |found| == 2 ==> found[0].dir == Forward && found[1].dir == Reverse
    requires |evs| > 0 ==> evs[|evs| - 1].pos + gap <= i
    ensures Spaced(evs + found, gap)
  {
    var all := evs + found;
    forall k | 0 <= k < |all| - 1
      ensures (all[k].pos == all[k + 1].pos && all[k].dir == Forward && all[k + 1].dir == Reverse)
              || all[k].pos + gap <= all[k + 1].pos
    {
      if k + 1 < |evs| {
        assert all[k] == evs[k] && all[k + 1] == evs[k + 1];
      } else if k + 1 == |evs| {
        assert all[k] == evs[|evs| - 1] && all[k + 1] == found[0];
      } else {
        assert all[k] == found[0] && all[k + 1] == found[1];
      }
    }
  }

  /** Every event is one the verdicts accept. */
  predicate AllAccepted(rec: Recording, p: Params, vs: seq<(Verdict, Verdict)>, evs: seq<Event>)
    requires rec.Valid() && |vs| == |rec.mag|
  {
    forall e :: e in evs ==> Accepted(rec, p, vs, e)
  }

  /** A successful scan result keeps `events` as its prefix and is spaced
      and accepted throughout. */
  predicate Extends(rec: Recording, p: Params, vs: seq<(Verdict, Verdict)>, events: seq<Event>, r: Result<seq<Event>>)
    requires rec.Valid() && |vs| == |rec.mag|
  {
    r.Ok? ==> && |events| <= |r.value| && r.value[..|events|] == events
              && Spaced(r.value, Gap(p)) && AllAccepted(rec, p, vs, r.value)
  }

  /** A result that extends a list extends the list without its last few events. */
  lemma ExtendsPrefix(rec: Recording, p: Params, vs: seq<(Verdict, Verdict)>, events: seq<Event>, found: seq<Event>, r: Result<seq<Event>>)
    requires rec.Valid() && |vs| == |rec.mag|
    requires Extends(rec, p, vs, events + found, r)
    ensures Extends(rec, p, vs, events, r)
  {
    var next := events + found;
    assert next[..|events|] == events;
    if r.Ok? {
      assert r.value[..|events|] == r.value[..|next|][..|events|];
    }
  }

  /** The scan from position i keeps the events found so far, adds only
      accepted candidates, and keeps them spaced: forward before reverse
      at one position, at least (skips + 1)·stride apart otherwise. */
  lemma {:induction false} ScanEvents(rec: Recording, p: Params, vs: seq<(Verdict, Verdict)>, i: nat, skip: nat, events: seq<Event>)
    requires rec.Valid() && |vs| == |rec.mag| && p.stride > 0 && skip <= p.skips
    requires Spaced(events, Gap(p)) && AllAccepted(rec, p, vs, events)
    requires |events| > 0 ==> events[|events| - 1].pos + (p.skips - skip + 1) * p.stride <= i
    ensures Extends(rec, p, vs, events, Scan(rec, p, vs, i, skip, events))
    decreases |rec.mag| - i
  {
    if i + p.ChunkLen() >= |rec.mag| {
      assert events[..|events|] == events;
    } else if skip > 0 {
      assert (p.skips - (skip - 1) + 1) * p.stride == (p.skips - skip + 1) * p.stride + p.stride;
      ScanSkips(rec, p, vs, i, skip, events);
      ScanEvents(rec, p, vs, i + p.stride, skip - 1, events);
    } else {
      var at := AtPosition(rec, p, vs, i);
      if at.Ok? {
        ScanAfterPosition(rec, p, vs, i, events);
      } else {
        ScanErrs(rec, p, vs, i, events, at.error);
      }
    }
  }

  /** The step of ScanEvents at a position that is examined. */
  lemma {:induction false} ScanAfterPosition(rec: Recording, p: Params, vs: seq<(Verdict, Verdict)>, i: nat, events: seq<Event>)
    requires rec.Valid() && |vs| == |rec.mag| && p.stride > 0 && i + p.ChunkLen() < |rec.mag|
    requires AtPosition(rec, p, vs, i).Ok?
    requires Spaced(events, Gap(p)) && AllAccepted(rec, p, vs, events)
    requires |events| > 0 ==> events[|events| - 1].pos + (p.skips + 1) * p.stride <= i
    ensures Extends(rec, p, vs, events, Scan(rec, p, vs, i, 0, events))
    decreases |rec.mag| - i, 0
  {
    var found := AtPosition(rec, p, vs, i).value;
    AtPositionShape(rec, p, vs, i);
    SpacedAppend(events, found, Gap(p), i);
    var next := events + found;
    assert AllAccepted(rec, p, vs, next);
    var skip' := if |found| > 0 then p.skips else 0;
    if |found| > 0 {
      assert next[|next| - 1].pos == i;
      assert (p.skips - skip' + 1) * p.stride == p.stride;
    }
    ScanFinds(rec, p, vs, i, events, found);
    ScanEvents(rec, p, vs, i + p.stride, skip', next);
    ExtendsPrefix(rec, p, vs, events, found, Scan(rec, p, vs, i + p.stride, skip', next));
  }

  /** e is a qualifying candidate of the recording: it is accepted by the
      tests of its own window. */
  predicate EventOf(rec: Recording, p: Params, baseline: real, e: Event)
    requires rec.Valid()
  {
    && e.pos + p.ChunkLen() < |rec.mag|
    && EvaluateAt(rec, p, baseline, e.pos, e.dir) == Ok(Some(e.disp))
    && e.magTrace == Window(rec.mag, e.pos, p.ChunkLen(), e.dir)[p.stillLen..]
  }

  /** The events of a whole scan: at least one, each a qualifying candidate
      with `bump_len`-sample traces, in scan order and spaced. */
  lemma CalibrateEvents(rec: Recording, p: Params, baseline: real)
    requires rec.Valid() && p.stride > 0 && Calibrate(rec, p, baseline).Ok?
    ensures var evs := Calibrate(rec, p, baseline).value;
            && |evs| > 0
            && Spaced(evs, Gap(p))
            && forall e :: e in evs ==> EventOf(rec, p, baseline, e) && |e.disp| == p.bumpLen && |e.magTrace| == p.bumpLen
  {
    var vs := Verdicts(rec, p, baseline);
    ScanEvents(rec, p, vs, 0, 0, []);
    var evs := Calibrate(rec, p, baseline).value;
    forall e | e in evs
      ensures EventOf(rec, p, baseline, e) && |e.disp| == p.bumpLen && |e.magTrace| == p.bumpLen
    {
      assert Accepted(rec, p, vs, e);
    }
  }

  /** A positive factor keeps the other factor's sign, scaled at least by it. */
  lemma MulSign(k: int, s: int)
    requires s > 0
    ensures k >= 1 ==> k * s >= s
    ensures k <= -1 ==> k * s <= -s
  {
  }

  /** A multiple of s leaves no remainder. */
  lemma MulMod(m: nat, s: nat)
    requires s > 0
    ensures (m * s) % s == 0
  {
    var q, r := (m * s) / s, (m * s) % s;
    assert m * s == q * s + r;
    assert (m - q) * s == r;
    MulSign(m - q, s);
  }

  lemma MulLe(a: nat, b: nat, s: nat)
    requires s > 0
    ensures a <= b <==> a * s <= b * s
  {
  }

  /** A number with no remainder is the product of its quotient. */
  lemma DivMul(i: nat, s: nat) returns (n: nat)
    requires s > 0 && i % s == 0
    ensures i == n * s
  {
    n := i / s;
  }

  /** The elements of b are in any sequence that starts with a + b. */
  lemma PrefixMembers<T>(a: seq<T>, b: seq<T>, r: seq<T>)
    requires |a + b| <= |r| && r[..|a + b|] == a + b
    ensures forall x :: x in b ==> x in r
  {
    forall x | x in b
      ensures x in r
    {
      var k :| 0 <= k < |b| && b[k] == x;
      assert r[|a| + k] == (a + b)[|a| + k];
    }
  }

  /** A scan that succeeds keeps the events found before it as its prefix. */
  lemma {:induction false} ScanPrefix(rec: Recording, p: Params, vs: seq<(Verdict, Verdict)>, i: nat, skip: nat, events: seq<Event>)
    requires rec.Valid() && |vs| == |rec.mag| && p.stride > 0
    requires Scan(rec, p, vs, i, skip, events).Ok?
    ensures |events| <= |Scan(rec, p, vs, i, skip, events).value|
    ensures Scan(rec, p, vs, i, skip, events).value[..|events|] == events
    decreases |rec.mag| - i
  {
    if i + p.ChunkLen() >= |rec.mag| {
      assert events[..|events|] == events;
    } else if skip > 0 {
      ScanSkips(rec, p, vs, i, skip, events);
      ScanPrefix(rec, p, vs, i + p.stride, skip - 1, events);
    } else {
      var found := AtPosition(rec, p, vs, i).value;
      ScanFinds(rec, p, vs, i, events, found);
      var next := events + found;
      ScanPrefix(rec, p, vs, i + p.stride, if |found| > 0 then p.skips else 0, next);
      var r := Scan(rec, p, vs, i, 0, events).value;
      assert r[..|events|] == r[..|next|][..|events|];
      assert next[..|events|] == events;
    }
  }

  /** A qualifying orientation at an examined position is among its events. */
  lemma FoundAtPosition(rec: Recording, p: Params, vs: seq<(Verdict, Verdict)>, i: nat, dir: Direction, d: seq<real>)
    requires rec.Valid() && |vs| == |rec.mag| && i + p.ChunkLen() < |rec.mag| && AtPosition(rec, p, vs, i).Ok?
    requires Pick(vs[i], dir) == Ok(Some(d))
    ensures EventAt(rec, p, i, dir, d) in AtPosition(rec, p, vs, i).value
  {
    var dirs := [Forward, Reverse];
    assert PositionEvents(rec, p, vs, i, dirs, 0) == Ok([]);
    var f1 := PositionEvents(rec, p, vs, i, dirs, 1);
    assert f1.Ok?;
    if dir == Forward {
      assert f1.value == [EventAt(rec, p, i, Forward, d)];
      assert AtPosition(rec, p, vs, i).value[0] == EventAt(rec, p, i, Forward, d);
    } else {
      var found := AtPosition(rec, p, vs, i).value;
      assert found == f1.value + [EventAt(rec, p, i, Reverse, d)];
      assert found[|found| - 1] == EventAt(rec, p, i, Reverse, d);
    }
  }

  /** The scan from position m·stride, with `skip` positions left to skip,
      reports every qualifying candidate at a later position n·stride that it
      does not skip: one at least `skip` strides on and with no reported event
      in the `skips` strides before it. */
  lemma {:induction false} ScanComplete(rec: Recording, p: Params, vs: seq<(Verdict, Verdict)>, m: nat, skip: nat,
                                        events: seq<Event>, n: nat, dir: Direction, d: seq<real>)
    requires rec.Valid() && |vs| == |rec.mag| && p.stride > 0
    requires Scan(rec, p, vs, m * p.stride, skip, events).Ok?
    requires m + skip <= n && n * p.stride + p.ChunkLen() < |rec.mag|
    requires Pick(vs[n * p.stride], dir) == Ok(Some(d))
    requires forall e :: e in Scan(rec, p, vs, m * p.stride, skip, events).value && e.pos < n * p.stride ==>
               e.pos + p.skips * p.stride < n * p.stride
    ensures EventAt(rec, p, n * p.stride, dir, d) in Scan(rec, p, vs, m * p.stride, skip, events).value
    decreases |rec.mag| - m * p.stride
  {
    var i := m * p.stride;
    MulLe(m, n, p.stride);
    assert (m + 1) * p.stride == i + p.stride;
    if skip > 0 {
      ScanSkips(rec, p, vs, i, skip, events);
      ScanComplete(rec, p, vs, m + 1, skip - 1, events, n, dir, d);
    } else {
      var found := AtPosition(rec, p, vs, i).value;
      ScanFinds(rec, p, vs, i, events, found);
      var skip' := if |found| > 0 then p.skips else 0;
      ScanPrefix(rec, p, vs, i + p.stride, skip', events + found);
      PrefixMembers(events, found, Scan(rec, p, vs, i, 0, events).value);
      if n == m {
        FoundAtPosition(rec, p, vs, i, dir, d);
      } else {
        if |found| > 0 {
          AtPositionShape(rec, p, vs, i);
          assert found[0] in Scan(rec, p, vs, i, 0, events).value;
          MulLe(n, m, p.stride);
          assert (m + p.skips) * p.stride == i + p.skips * p.stride;
          MulLe(n, m + p.skips, p.stride);
        }
        ScanComplete(rec, p, vs, m + 1, skip', events + found, n, dir, d);
      }
    }
  }

  /** Completeness of the calibration scan: a candidate that qualifies at a
      scanned position i (a multiple of stride whose window fits) is
      reported, unless an event was reported within the `skips` strides
      before i. */
  lemma CalibrateComplete(rec: Recording, p: Params, baseline: real, i: nat, dir: Direction, d: seq<real>)
    requires rec.Valid() && p.stride > 0 && Calibrate(rec, p, baseline).Ok?
    requires i % p.stride == 0 && i + p.ChunkLen() < |rec.mag|
    requires EvaluateAt(rec, p, baseline, i, dir) == Ok(Some(d))
    requires forall e :: e in Calibrate(rec, p, baseline).value && e.pos < i ==> e.pos + p.skips * p.stride < i
    ensures EventAt(rec, p, i, dir, d) in Calibrate(rec, p, baseline).value
  {
    var vs := Verdicts(rec, p, baseline);
    var n := DivMul(i, p.stride);
    assert 0 * p.stride == 0;
    var r := Scan(rec, p, vs, 0, 0, []);
    assert r.Ok? && Calibrate(rec, p, baseline).value == r.value;
    assert Pick(vs[i], dir) == EvaluateAt(rec, p, baseline, i, dir);
    ScanComplete(rec, p, vs, 0, 0, [], n, dir, d);
  }

  /** Every event a scan from m·stride adds sits at a multiple of stride. */
  lemma {:induction false} ScanOnGrid(rec: Recording, p: Params, vs: seq<(Verdict, Verdict)>, m: nat, skip: nat, events: seq<Event>)
    requires rec.Valid() && |vs| == |rec.mag| && p.stride > 0
    requires Scan(rec, p, vs, m * p.stride, skip, events).Ok?
    ensures forall e :: e in Scan(rec, p, vs, m * p.stride, skip, events).value ==> e in events || e.pos % p.stride == 0
    decreases |rec.mag| - m * p.stride
  {
    var i := m * p.stride;
    assert (m + 1) * p.stride == i + p.stride;
    if i + p.ChunkLen() < |rec.mag| {
      if skip > 0 {
        ScanSkips(rec, p, vs, i, skip, events);
        ScanOnGrid(rec, p, vs, m + 1, skip - 1, events);
      } else {
        var found := AtPosition(rec, p, vs, i).value;
        ScanFinds(rec, p, vs, i, events, found);
        AtPositionShape(rec, p, vs, i);
        MulMod(m, p.stride);
        ScanOnGrid(rec, p, vs, m + 1, if |found| > 0 then p.skips else 0, events + found);
      }
    }
  }

  /** Every calibration event sits at a scan position: a multiple of stride. */
  lemma CalibrateOnGrid(rec: Recording, p: Params, baseline: real)
    requires rec.Valid() && p.stride > 0 && Calibrate(rec, p, baseline).Ok?
    ensures forall e :: e in Calibrate(rec, p, baseline).value ==> e.pos % p.stride == 0
  {
    assert 0 * p.stride == 0;
    ScanOnGrid(rec, p, Verdicts(rec, p, baseline), 0, 0, []);
  }
}
