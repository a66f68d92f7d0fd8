/** The alignment and travel-direction steps of the two-accelerometer fusion:
    the still-pair classifier, the colinearity filter, the rotated difference
    of two series, the travel-vector estimate and the projection onto it. */
module AccelRotation {
  import opened Exceptions
  import opened RealSeq
  import opened Signals
  import opened Workspace
  import opened Steps
  import opened Selection

  /** The number of positions of vs holding v. */
  function Count<T(==)>(vs: seq<T>, v: T): (c: nat)
    ensures c <= |vs|
    decreases |vs|
  {
    if |vs| == 0 then 0 else Count(vs[..|vs| - 1], v) + (if vs[|vs| - 1] == v then 1 else 0)
  }

  lemma CountStep<T>(vs: seq<T>, v: T, i: nat)
    requires i < |vs|
    ensures Count(vs[..i + 1], v) == Count(vs[..i], v) + (if vs[i] == v then 1 else 0)
  {
    assert vs[..i + 1][..i] == vs[..i];
  }

  /** Selecting by "equals v" keeps exactly Count(vs, v) elements. */
  lemma {:induction false} SelectCount<S, T>(xs: seq<S>, vs: seq<T>, v: T)
    requires |vs| == |xs|
    ensures |Select(xs, Flags(vs, v))| == Count(vs, v)
    decreases |xs|
  {
    if |xs| > 0 {
      var n := |xs| - 1;
      assert Flags(vs, v)[..n] == Flags(vs[..n], v);
      SelectCount(xs[..n], vs[..n], v);
    }
  }

  // ---------------------------------------------------------------------
  // FilterChunkPairs
  // ---------------------------------------------------------------------

  const DiffThreshold: real := 0.5
  const ConfThreshold: real := 0.98

  /** `zip(a.iter_chunks(), b.iter_chunks())`: positional pairs, as many as the
      shorter list has. */
  function ZipChunks(a: ChunkedTimeSeries, b: ChunkedTimeSeries): seq<ChunkPair>
  {
    var ca, cb := IterChunks(a), IterChunks(b);
    var n := if |ca| <= |cb| then |ca| else |cb|;
    seq(n, i requires 0 <= i < n => ChunkPair(ca[i], cb[i]))
  }

  /** How one pair ends. */
  datatype PairVerdict = JitterReject | DiffReject | Survivor

  /** The pair test with the chunk confidence and mean magnitude given: a
      jitter reject as soon as one chunk (a first) is below the confidence
      threshold, else a diff reject when the two mean magnitudes differ by
      more than the threshold (the spread `max - min` of two values), else a
      survivor. */
  function Classify(p: ChunkPair, conf: TimeSeries -> real, meanMag: TimeSeries -> real): PairVerdict
  {
    if conf(p.a) < ConfThreshold || conf(p.b) < ConfThreshold then JitterReject
    else if Abs(meanMag(p.a) - meanMag(p.b)) > DiffThreshold then DiffReject
    else Survivor
  }

  function Verdicts(ps: seq<ChunkPair>, conf: TimeSeries -> real, meanMag: TimeSeries -> real): (vs: seq<PairVerdict>)
    ensures |vs| == |ps|
    ensures forall i :: 0 <= i < |ps| ==> vs[i] == Classify(ps[i], conf, meanMag)
  {
    seq(|ps|, i requires 0 <= i < |ps| => Classify(ps[i], conf, meanMag))
  }

  /** The positions of vs holding v, as flags. */
  function Flags<T(==)>(vs: seq<T>, v: T): (f: seq<bool>)
    ensures |f| == |vs|
    ensures forall i :: 0 <= i < |vs| ==> (f[i] <==> vs[i] == v)
  {
    seq(|vs|, i requires 0 <= i < |vs| => vs[i] == v)
  }

  /** Two chunks of the same shape: as many rows, row by row as wide. */
  predicate SameShape(x: seq<seq<real>>, y: seq<seq<real>>)
  {
    |x| == |y| && forall k :: 0 <= k < |x| ==> |x[k]| == |y[k]|
  }

  /** Every a and b chunk has the shape of the first pair's a chunk, so the
      pairs stack into one N_pairs x 2 x chunk_len x D array. */
  predicate Homogeneous(pairs: seq<ChunkPair>)
    requires |pairs| > 0
  {
    forall i :: 0 <= i < |pairs| ==> SameShape(pairs[i].a.x, pairs[0].a.x) && SameShape(pairs[i].b.x, pairs[0].a.x)
  }

  /** `get_pair_stats`: `np.asarray` of the pairs' samples and a mean over
      axis 2. No pair leaves a 1-d empty array (AxisError); chunks of
      differing shapes make the array inhomogeneous (ValueError). */
  function PairStats(pairs: seq<ChunkPair>): Option<Exception>
  {
    if |pairs| == 0 then Some(AxisError)
    else if !Homogeneous(pairs) then Some(Inhomogeneous)
    else None
  }

  /** numpy's error for a ragged nested list. */
  const Inhomogeneous := ValueError("setting an array element with a sequence: inhomogeneous shape")

  /** Surviving chunks that all hold L samples of width D stack into one
      array: the stats raise nothing. */
  lemma PairStatsUniform(pairs: seq<ChunkPair>, len: nat, d: nat)
    requires |pairs| > 0
    requires forall i :: 0 <= i < |pairs| ==>
               |pairs[i].a.x| == len && IsMatrix(pairs[i].a.x, d) && |pairs[i].b.x| == len && IsMatrix(pairs[i].b.x, d)
    ensures PairStats(pairs) == None
  {
  }

  /** One surviving chunk whose sample count differs from the first a chunk's,
      such as a short trailing chunk, makes the array ragged: ValueError. */
  lemma PairStatsRagged(pairs: seq<ChunkPair>, i: nat)
    requires i < |pairs|
    requires |pairs[i].a.x| != |pairs[0].a.x| || |pairs[i].b.x| != |pairs[0].a.x|
    ensures PairStats(pairs) == Some(Inhomogeneous)
  {
  }

  /** With survivors, nothing is raised exactly when every chunk has the first
      chunk's shape; otherwise the error is always the ragged-array one. */
  lemma PairStatsShapes(pairs: seq<ChunkPair>)
    ensures |pairs| == 0 ==> PairStats(pairs) == Some(AxisError)
    ensures |pairs| > 0 ==> (PairStats(pairs) == None <==> Homogeneous(pairs))
    ensures |pairs| > 0 && PairStats(pairs) != None ==> PairStats(pairs) == Some(Inhomogeneous)
  {
  }

  /** The spread of two values is their distance. */
  lemma SpreadOfTwo(x: real, y: real)
    ensures Max([x, y]) - Min([x, y]) == Abs(x - y)
  {
  }

  /** One pass of the pair loop body: the for-else over `[chunk_a, chunk_b]`
      that stops at the first chunk below the confidence threshold, then the
      spread test on the two mean magnitudes. */
  method ExaminePair(p: ChunkPair, conf: TimeSeries -> real, meanMag: TimeSeries -> real) returns (v: PairVerdict)
    ensures v == Classify(p, conf, meanMag)
  {
    var chunks := [p.a, p.b];
    var meanAccels: seq<real> := [];
    var j: nat := 0;
    while j < 2
      invariant j <= 2
      invariant forall k :: 0 <= k < j ==> conf(chunks[k]) >= ConfThreshold
      invariant meanAccels == seq(j, k requires 0 <= k < j => meanMag(chunks[k]))
    {
      if conf(chunks[j]) < ConfThreshold {
        return JitterReject;
      }
      meanAccels := meanAccels + [meanMag(chunks[j])];
      j := j + 1;
    }
    assert meanAccels == [meanMag(p.a), meanMag(p.b)];
    SpreadOfTwo(meanMag(p.a), meanMag(p.b));
    if Max(meanAccels) - Min(meanAccels) > DiffThreshold {
      return DiffReject;
    }
    return Survivor;
  }

  /** `FilterChunkPairs.run`: classify the positional chunk pairs, counting
      each reject kind, keep the survivors, then compute the pair statistics,
      whose exception (if any) escapes before the survivors are stored. */
  method FilterChunkPairs(a: ChunkedTimeSeries, b: ChunkedTimeSeries, conf: TimeSeries -> real, meanMag: TimeSeries -> real)
    returns (stillPairs: seq<ChunkPair>, jitterRejects: nat, diffRejects: nat, raised: Option<Exception>)
    ensures var vs := Verdicts(ZipChunks(a, b), conf, meanMag);
            && stillPairs == Select(ZipChunks(a, b), Flags(vs, Survivor))
            && jitterRejects == Count(vs, JitterReject)
            && diffRejects == Count(vs, DiffReject)
    ensures raised == PairStats(stillPairs)
  {
    stillPairs, jitterRejects, diffRejects := ClassifyPairs(ZipChunks(a, b), conf, meanMag);
    raised := PairStats(stillPairs);
  }

  /** The loop of `FilterChunkPairs.run` over the pairs: each pair examined
      once, in order, each reject kind counted and the survivors kept. */
  method ClassifyPairs(ps: seq<ChunkPair>, conf: TimeSeries -> real, meanMag: TimeSeries -> real)
    returns (stillPairs: seq<ChunkPair>, jitterRejects: nat, diffRejects: nat)
    ensures var vs := Verdicts(ps, conf, meanMag);
            && stillPairs == Select(ps, Flags(vs, Survivor))
            && jitterRejects == Count(vs, JitterReject)
            && diffRejects == Count(vs, DiffReject)
  {
    ghost var vs := Verdicts(ps, conf, meanMag);
    stillPairs, jitterRejects, diffRejects := [], 0, 0;
    for i := 0 to |ps|
      invariant stillPairs == Select(ps[..i], Flags(vs, Survivor)[..i])
      invariant jitterRejects == Count(vs[..i], JitterReject)
      invariant diffRejects == Count(vs[..i], DiffReject)
    {
      var v := ExaminePair(ps[i], conf, meanMag);
      CountStep(vs, JitterReject, i);
      CountStep(vs, DiffReject, i);
      SelectStep(ps, Flags(vs, Survivor), i);
      match v {
        case JitterReject => jitterRejects := jitterRejects + 1;
        case DiffReject => diffRejects := diffRejects + 1;
        case Survivor => stillPairs := stillPairs + [ps[i]];
      }
    }
    assert ps[..|ps|] == ps && vs[..|ps|] == vs && Flags(vs, Survivor)[..|ps|] == Flags(vs, Survivor);
  }

  /** Every examined pair ends in exactly one verdict: the jitter rejects,
      the diff rejects and the survivors add up to the pairs examined,
      min(|a|, |b|). */
  lemma {:induction false} PairCountsSum(vs: seq<PairVerdict>)
    ensures Count(vs, JitterReject) + Count(vs, DiffReject) + Count(vs, Survivor) == |vs|
    decreases |vs|
  {
    if |vs| > 0 {
      var last := vs[|vs| - 1];
      PairCountsSum(vs[..|vs| - 1]);
      assert last == JitterReject || last == DiffReject || last == Survivor;
    }
  }

  lemma FilterChunkPairsCounts(a: ChunkedTimeSeries, b: ChunkedTimeSeries, conf: TimeSeries -> real, meanMag: TimeSeries -> real)
    ensures var ps := ZipChunks(a, b);
            var vs := Verdicts(ps, conf, meanMag);
            Count(vs, JitterReject) + Count(vs, DiffReject) + |Select(ps, Flags(vs, Survivor))|
              == if |a.spans| <= |b.spans| then |a.spans| else |b.spans|
  {
    var ps := ZipChunks(a, b);
    var vs := Verdicts(ps, conf, meanMag);
    PairCountsSum(vs);
    SelectCount(ps, vs, Survivor);
  }

  /** A pair survives exactly when both confidences reach the threshold and
      the mean magnitudes are within the threshold of each other; the
      survivors are those pairs in their input order. */
  lemma FilterChunkPairsSurvivors(a: ChunkedTimeSeries, b: ChunkedTimeSeries, conf: TimeSeries -> real, meanMag: TimeSeries -> real)
    ensures var ps := ZipChunks(a, b);
            var still, idx := Select(ps, Flags(Verdicts(ps, conf, meanMag), Survivor)), Kept(Flags(Verdicts(ps, conf, meanMag), Survivor));
            && |idx| == |still|
            && (forall j1, j2 :: 0 <= j1 < j2 < |idx| ==> idx[j1] < idx[j2])
            && (forall j :: 0 <= j < |idx| ==> idx[j] < |ps| && still[j] == ps[idx[j]])
            && (forall i :: 0 <= i < |ps| ==>
                  (i in idx <==> conf(ps[i].a) >= ConfThreshold && conf(ps[i].b) >= ConfThreshold
                                 && Abs(meanMag(ps[i].a) - meanMag(ps[i].b)) <= DiffThreshold))
  {
    var ps := ZipChunks(a, b);
    var flags := Flags(Verdicts(ps, conf, meanMag), Survivor);
    SelectIsSubsequence(ps, flags);
  }

  /** The jitter test short-circuits: a chunk a below the confidence
      threshold rejects the pair whatever chunk b holds. */
  lemma JitterShortCircuit(ca: TimeSeries, cb: TimeSeries, cb': TimeSeries, conf: TimeSeries -> real, meanMag: TimeSeries -> real)
    requires conf(ca) < ConfThreshold
    ensures Classify(ChunkPair(ca, cb), conf, meanMag) == Classify(ChunkPair(ca, cb'), conf, meanMag) == JitterReject
  {
  }

  // ---------------------------------------------------------------------
  // FilterColinearPairs
  // ---------------------------------------------------------------------

  /** `keep = ang_deg > 10`, with each pair's angle to the mean direction given. */
  function AngleFlags(angles: seq<real>): seq<bool>
  {
    seq(|angles|, i requires 0 <= i < |angles| => angles[i] > 10.0)
  }

  /** `FilterColinearPairs.run`: no pair leaves `normalize_rows` a 1-d array
      (AxisError); otherwise the pairs whose angle exceeds 10 degrees. */
  method FilterColinearPairs(pairs: seq<ChunkPair>, angles: seq<real>) returns (r: Result<seq<ChunkPair>>)
    requires |angles| == |pairs|
    ensures |pairs| == 0 <==> r == Err(AxisError)
    ensures |pairs| > 0 ==> r == Ok(Select(pairs, AngleFlags(angles)))
  {
    if |pairs| == 0 {
      return Err(AxisError);
    }
    var keep := AngleFlags(angles);
    var filtPairs: seq<ChunkPair> := [];
    for i := 0 to |pairs|
      invariant filtPairs == Select(pairs[..i], keep[..i])
    {
      SelectStep(pairs, keep, i);
      if keep[i] {
        filtPairs := filtPairs + [pairs[i]];
      }
    }
    assert pairs[..|pairs|] == pairs && keep[..|pairs|] == keep;
    return Ok(filtPairs);
  }

  /** The colinearity output is the order-preserving sub-sequence of the
      pairs whose angle is above 10 degrees. */
  lemma ColinearKept(pairs: seq<ChunkPair>, angles: seq<real>)
    requires |angles| == |pairs|
    ensures var out, idx := Select(pairs, AngleFlags(angles)), Kept(AngleFlags(angles));
            && |idx| == |out|
            && (forall j1, j2 :: 0 <= j1 < j2 < |idx| ==> idx[j1] < idx[j2])
            && (forall j :: 0 <= j < |idx| ==> idx[j] < |pairs| && out[j] == pairs[idx[j]])
            && (forall i :: 0 <= i < |pairs| ==> (i in idx <==> angles[i] > 10.0))
  {
    SelectIsSubsequence(pairs, AngleFlags(angles));
  }

  // ---------------------------------------------------------------------
  // GetRelativeAccel
  // ---------------------------------------------------------------------

  /** `R @ v` for a matrix given by its rows. */
  function MatVec(rot: seq<seq<real>>, v: seq<real>): seq<real>
    requires IsMatrix(rot, |v|)
  {
    seq(|rot|, r requires 0 <= r < |rot| => Dot(rot[r], v))
  }

  /** `rot @ (u - v) == rot @ u - rot @ v`: rotating a difference of samples
      is the difference of the rotated samples. */
  lemma MatVecSub(rot: seq<seq<real>>, u: seq<real>, v: seq<real>)
    requires |u| == |v| && IsMatrix(rot, |u|)
    ensures MatVec(rot, Sub(u, v)) == Sub(MatVec(rot, u), MatVec(rot, v))
  {
    forall r | 0 <= r < |rot|
      ensures Dot(rot[r], Sub(u, v)) == Dot(rot[r], u) - Dot(rot[r], v)
    {
      DotComm(rot[r], Sub(u, v));
      DotSub(u, v, rot[r]);
      DotComm(u, rot[r]);
      DotComm(v, rot[r]);
    }
  }

  /** `(rot @ b.x.T).T`: each sample of b rotated by rot. */
  function Rotate(rot: seq<seq<real>>, c: nat, x: seq<seq<real>>): (y: seq<seq<real>>)
    requires IsMatrix(rot, c) && IsMatrix(x, c)
    ensures |y| == |x| && IsMatrix(y, |rot|)
  {
    seq(|x|, k requires 0 <= k < |x| => MatVec(rot, x[k]))
  }

  /** `a.x - b_in_a` for two matrices of one shape. */
  function SubRows(x: seq<seq<real>>, y: seq<seq<real>>): (z: seq<seq<real>>)
    requires |x| == |y| && forall k :: 0 <= k < |x| ==> |x[k]| == |y[k]|
    ensures |z| == |x|
  {
    seq(|x|, k requires 0 <= k < |x| => Sub(x[k], y[k]))
  }

  /** `GetRelativeAccel.run` with the rotation `rot` (an R×c array): the
      rotated b samples and their difference from a's, both with b's
      timestamps and units, a's frame, and b's metadata plus
      "rotation_applied". A rotation whose width is not b's, or an a whose
      shape is not that of the rotated b, is a shape error. */
  function GetRelativeAccel(a: TimeSeries, b: TimeSeries, rot: seq<seq<real>>, c: nat): (r: Result<(TimeSeries, TimeSeries)>)
    requires b.Valid() && IsMatrix(rot, c)
    ensures r.Ok? <==> IsMatrix(b.x, c) && |a.x| == |b.x| && IsMatrix(a.x, |rot|)
    ensures r.Ok? ==>
              var (bInA, diff) := r.value;
              && bInA.Valid() && diff.Valid()
              && bInA.t == b.t && diff.t == b.t
              && bInA.units == b.units && diff.units == b.units
              && bInA.frame == a.frame && diff.frame == a.frame
              && bInA.meta == b.meta["rotation_applied" := MetaBool(true)]
              && diff.meta == bInA.meta
              && |bInA.x| == |b.x| && |diff.x| == |b.x|
              && (forall k :: 0 <= k < |b.x| ==>
                    bInA.x[k] == MatVec(rot, b.x[k]) && diff.x[k] == Sub(a.x[k], bInA.x[k]))
  {
    if !IsMatrix(b.x, c) || |a.x| != |b.x| || !IsMatrix(a.x, |rot|) then Err(ShapeError)
    else
      var bInA := Rotate(rot, c, b.x);
      var meta := b.meta["rotation_applied" := MetaBool(true)];
      Ok((TimeSeries(b.t, bInA, b.units, a.frame, meta),
          TimeSeries(b.t, SubRows(a.x, bInA), b.units, a.frame, meta)))
  }

  /** The two outputs recompose a: rotated b plus the difference is a, sample
      by sample. */
  lemma RelativeRecomposes(a: TimeSeries, b: TimeSeries, rot: seq<seq<real>>, c: nat, k: nat)
    requires b.Valid() && IsMatrix(rot, c) && GetRelativeAccel(a, b, rot, c).Ok?
    requires k < |b.x|
    ensures var (bInA, diff) := GetRelativeAccel(a, b, rot, c).value;
            |diff.x[k]| == |bInA.x[k]| && Add(diff.x[k], bInA.x[k]) == a.x[k]
  {
    var (bInA, diff) := GetRelativeAccel(a, b, rot, c).value;
    assert Add(diff.x[k], bInA.x[k]) == a.x[k];
  }

  // ---------------------------------------------------------------------
  // ProjectAccel
  // ---------------------------------------------------------------------

  /** `ProjectAccel.run` with the travel vector v: `a.x @ v`, stored as an
      N×1 column with a's timestamps, units and frame, and a's metadata plus
      "travel_vector". A sample width other than |v| is a shape error. */
  function ProjectAccel(v: seq<real>, a: TimeSeries): (r: Result<TimeSeries>)
    requires a.Valid()
    ensures r.Ok? <==> IsMatrix(a.x, |v|)
    ensures r.Ok? ==>
              && r.value.Valid()
              && r.value.t == a.t && r.value.units == a.units && r.value.frame == a.frame
              && r.value.meta == a.meta["travel_vector" := MetaVector(v)]
              && |r.value.x| == |a.x|
              && (forall k :: 0 <= k < |a.x| ==> r.value.x[k] == [Dot(a.x[k], v)])
  {
    if !IsMatrix(a.x, |v|) then Err(ShapeError)
    else
      var proj := seq(|a.x|, k requires 0 <= k < |a.x| => Dot(a.x[k], v));
      NewTimeSeries(Flat(a.t), Flat(proj), a.units, a.frame, a.meta["travel_vector" := MetaVector(v)])
  }

  /** Projecting the relative acceleration: each projected difference sample
      is a's projection minus the rotated b's. */
  lemma ProjectRelative(a: TimeSeries, b: TimeSeries, rot: seq<seq<real>>, c: nat, v: seq<real>, k: nat)
    requires b.Valid() && IsMatrix(rot, c) && GetRelativeAccel(a, b, rot, c).Ok?
    requires |rot| == |v| && k < |b.x|
    ensures var (bInA, diff) := GetRelativeAccel(a, b, rot, c).value;
            && ProjectAccel(v, diff).Ok? && ProjectAccel(v, bInA).Ok?
            && ProjectAccel(v, diff).value.x[k][0] == Dot(a.x[k], v) - ProjectAccel(v, bInA).value.x[k][0]
  {
    var (bInA, diff) := GetRelativeAccel(a, b, rot, c).value;
    DotSub(a.x[k], bInA.x[k], v);
  }

  // ---------------------------------------------------------------------
  // GetAccelTravelVector
  // ---------------------------------------------------------------------

  /** `accel_threshold` squared: the gate compares squared norms. */
  const AccelThresholdSquared: real := 20.25

  /** `a.x - np.mean(a.x, axis=0)`: the DC offset removed from every column
      (a series with no samples stays empty). */
  function DcRemoved(x: seq<seq<real>>, d: nat): (y: seq<seq<real>>)
    requires IsMatrix(x, d)
    ensures |y| == |x| && IsMatrix(y, d)
  {
    if |x| == 0 then []
    else
      var offset := ColumnMeans(x, d);
      seq(|x|, k requires 0 <= k < |x| => Sub(x[k], offset))
  }

  /** After DC removal every column sums, hence averages, to zero. */
  lemma DcRemovedZeroMean(x: seq<seq<real>>, d: nat, c: nat)
    requires IsMatrix(x, d) && |x| > 0 && c < d
    ensures Sum(Column(DcRemoved(x, d), c)) == 0.0
    ensures Mean(Column(DcRemoved(x, d), c)) == 0.0
  {
    var col := Column(x, c);
    MeanRemovedSumsToZero(col);
    assert Column(DcRemoved(x, d), c) == seq(|col|, k requires 0 <= k < |col| => col[k] - Mean(col));
  }

  /** The chunks `x[i : i + size]` for i = start, start + size, ... below N
      that hold a full `size` rows. */
  function FullChunksFrom(x: seq<seq<real>>, start: nat, size: nat): (cs: seq<seq<seq<real>>>)
    requires size > 0
    ensures forall j :: 0 <= j < |cs| ==> |cs[j]| == size
    ensures forall j, k :: 0 <= j < |cs| && 0 <= k < size ==> cs[j][k] in x
    decreases |x| - start
  {
    if start >= |x| then []
    else (if start + size <= |x| then [x[start..start + size]] else []) + FullChunksFrom(x, start + size, size)
  }

  /** The full chunks partition a prefix of x[start..] in order; what is
      left after them is shorter than one block. */
  lemma {:induction false} FullChunksPartition(x: seq<seq<real>>, start: nat, size: nat)
    requires size > 0 && start <= |x|
    ensures start + |Flatten(FullChunksFrom(x, start, size))| <= |x|
    ensures x[start..] == Flatten(FullChunksFrom(x, start, size)) + x[start + |Flatten(FullChunksFrom(x, start, size))|..]
    ensures |x| - (start + |Flatten(FullChunksFrom(x, start, size))|) < size
    decreases |x| - start
  {
    var cs := FullChunksFrom(x, start, size);
    if start < |x| {
      var rest := FullChunksFrom(x, start + size, size);
      if start + size <= |x| {
        FullChunksPartition(x, start + size, size);
        var block := x[start..start + size];
        assert cs == [block] + rest;
        assert cs[1..] == rest;
        assert Flatten(cs) == block + Flatten(rest);
        PrefixStep(x, start, size, Flatten(rest));
      } else {
        assert rest == [];
        assert cs == [];
        assert Flatten(cs) == [];
      }
    } else {
      assert Flatten(cs) == [];
    }
  }

  /** One block in front of a partitioned rest partitions the longer suffix. */
  lemma PrefixStep<T>(x: seq<T>, start: nat, size: nat, rest: seq<T>)
    requires start + size + |rest| <= |x|
    requires x[start + size..] == rest + x[start + size + |rest|..]
    ensures x[start..] == (x[start..start + size] + rest) + x[start + |x[start..start + size] + rest|..]
  {
    assert x[start..] == x[start..start + size] + x[start + size..];
  }

  /** Blocks of `size` rows flatten to |blocks| * size rows. */
  lemma {:induction false} FlattenUniform(cs: seq<seq<seq<real>>>, size: nat)
    requires forall j :: 0 <= j < |cs| ==> |cs[j]| == size
    ensures |Flatten(cs)| == |cs| * size
    decreases |cs|
  {
    if |cs| > 0 {
      FlattenUniform(cs[1..], size);
      assert |Flatten(cs)| == size + (|cs| - 1) * size;
    }
  }

  /** With q blocks of `size` rows covering q * size rows and fewer than
      `size` left over, q is N div size. */
  lemma DivUnique(n: nat, q: nat, size: nat)
    requires size > 0 && q * size <= n && n - q * size < size
    ensures q == n / size
  {
    var q', r' := n / size, n % size;
    assert n == q' * size + r';
    MultipleBounds(q - q', size);
    assert (q - q') * size == q * size - q' * size;
  }

  /** A non-zero multiple of size is at least size away from zero. */
  lemma MultipleBounds(k: int, size: nat)
    ensures k >= 1 ==> k * size >= size
    ensures k <= -1 ==> k * size <= -(size as int)
  {
    if k >= 1 {
      assert k * size == (k - 1) * size + size;
    } else if k <= -1 {
      assert k * size == (k + 1) * size - size;
    }
  }

  /** There are N div size full chunks. */
  lemma FullChunksCount(x: seq<seq<real>>, size: nat)
    requires size > 0
    ensures |FullChunksFrom(x, 0, size)| == |x| / size
  {
    FullChunksPartition(x, 0, size);
    FlattenUniform(FullChunksFrom(x, 0, size), size);
    DivUnique(|x|, |FullChunksFrom(x, 0, size)|, size);
  }

  /** The gate on a chunk's mean vector m: ‖m‖² above 4.5², then a negative
      x component. */
  predicate Gate(m: seq<real>)
  {
    SquaredNorm(m) > AccelThresholdSquared && |m| > 0 && m[0] < 0.0
  }

  /** For any true norm n of m (n >= 0, n² = ‖m‖²), `n > 4.5` is the
      squared-norm comparison. */
  lemma NormGate(m: seq<real>, n: real)
    requires n >= 0.0 && n * n == SquaredNorm(m)
    ensures n > 4.5 <==> SquaredNorm(m) > AccelThresholdSquared
  {
    if n > 4.5 {
      assert n * n > 4.5 * n > 4.5 * 4.5;
    } else {
      assert n * n <= 4.5 * n <= 4.5 * 4.5;
    }
  }

  /** An empty mean vector (a series with no columns) has norm 0 and fails
      the gate before its x component is read. */
  lemma GateNeedsAColumn(m: seq<real>)
    requires |m| == 0
    ensures !Gate(m)
  {
  }

  /** The gate flags of a list of chunks, each a non-empty d-wide matrix. */
  function GateFlags(chunks: seq<seq<seq<real>>>, d: nat): (f: seq<bool>)
    requires forall j :: 0 <= j < |chunks| ==> |chunks[j]| > 0 && IsMatrix(chunks[j], d)
    ensures |f| == |chunks|
    ensures forall j :: 0 <= j < |chunks| ==> (f[j] <==> Gate(ColumnMeans(chunks[j], d)))
  {
    seq(|chunks|, j requires 0 <= j < |chunks| => Gate(ColumnMeans(chunks[j], d)))
  }

  /** The travel-vector outputs before normalisation: the mean of the
      retained chunk means, and the scatter rows [‖mean‖, mean...], one per
      retained chunk, with the norm given. */
  datatype Travel = Travel(direction: seq<real>, scatter: seq<seq<real>>)

  /** `GetAccelTravelVector.run`: remove the DC offset, cut the samples into
      blocks of `chunkSize` rows keeping only full blocks, keep the blocks
      whose mean passes the gate, and summarise them. A zero chunk size is
      rejected by `range`; no retained block leaves a 1-d empty array for
      the mean over axis 1 (AxisError). */
  method GetAccelTravelVector(a: TimeSeries, d: nat, chunkSize: int, norm: seq<real> -> real) returns (r: Result<Travel>)
    requires IsMatrix(a.x, d)
    ensures chunkSize == 0 ==> r == Err(ValueError("range() arg 3 must not be zero"))
    ensures chunkSize < 0 ==> r == Err(AxisError)
    ensures chunkSize > 0 ==>
              var chunks := FullChunksFrom(DcRemoved(a.x, d), 0, chunkSize);
              var good := Select(chunks, GateFlags(chunks, d));
              && (|good| == 0 <==> r == Err(AxisError))
              && (|good| > 0 ==> r.Ok? && TravelOf(good, d, norm, r.value))
  {
    if chunkSize == 0 {
      return Err(ValueError("range() arg 3 must not be zero"));
    }
    if chunkSize < 0 {
      // `range(0, N, negative)` is empty, so no chunk is retained.
      return Err(AxisError);
    }
    var size: nat := chunkSize;
    var chunks := FullChunks(DcRemoved(a.x, d), size);
    var good := GoodChunks(chunks, d);
    if |good| == 0 {
      return Err(AxisError);
    }
    var means := seq(|good|, j requires 0 <= j < |good| => ColumnMeans(good[j], d));
    var scatter := seq(|good|, j requires 0 <= j < |good| => [norm(means[j])] + means[j]);
    return Ok(Travel(ColumnMeans(means, d), scatter));
  }

  /** The chunk loop: `x[i : i + size]` for i in `range(0, N, size)`, kept
      when it has `size` rows. */
  method FullChunks(x: seq<seq<real>>, size: nat) returns (chunks: seq<seq<seq<real>>>)
    requires size > 0
    ensures chunks == FullChunksFrom(x, 0, size)
  {
    chunks := [];
    var i: nat := 0;
    while i < |x|
      invariant chunks + FullChunksFrom(x, i, size) == FullChunksFrom(x, 0, size)
      decreases |x| - i
    {
      var chunk := Slice(x, i, i + size);
      if |chunk| == size {
        assert chunk == x[i..i + size];
        chunks := chunks + [chunk];
      }
      i := i + size;
    }
  }

  /** The gate loop: the chunks whose mean has a norm above the threshold
      and then a negative x component, in order. */
  method GoodChunks(chunks: seq<seq<seq<real>>>, d: nat) returns (good: seq<seq<seq<real>>>)
    requires forall j :: 0 <= j < |chunks| ==> |chunks[j]| > 0 && IsMatrix(chunks[j], d)
    ensures good == Select(chunks, GateFlags(chunks, d))
  {
    var keep := GateFlags(chunks, d);
    good := [];
    for j := 0 to |chunks|
      invariant good == Select(chunks[..j], keep[..j])
    {
      SelectStep(chunks, keep, j);
      var m := ColumnMeans(chunks[j], d);
      if SquaredNorm(m) > AccelThresholdSquared {
        if |m| > 0 && m[0] < 0.0 {
          good := good + [chunks[j]];
        }
      }
    }
    assert chunks[..|chunks|] == chunks && keep[..|chunks|] == keep;
  }

  /** What the summary of the retained blocks holds: the direction is the
      column mean of the block means; scatter row j is the norm of block j's
      mean followed by that mean. */
  predicate TravelOf(good: seq<seq<seq<real>>>, d: nat, norm: seq<real> -> real, t: Travel)
    requires |good| > 0 && forall j :: 0 <= j < |good| ==> |good[j]| > 0 && IsMatrix(good[j], d)
  {
    var means := seq(|good|, j requires 0 <= j < |good| => ColumnMeans(good[j], d));
    && t.direction == ColumnMeans(means, d)
    && |t.scatter| == |good|
    && forall j :: 0 <= j < |good| ==> t.scatter[j] == [norm(means[j])] + means[j]
  }

  /** Every retained block is one of the full blocks, keeps its place among
      them, and passes the gate; every full block that passes is retained. */
  lemma TravelChunksGated(x: seq<seq<real>>, d: nat, size: nat)
    requires IsMatrix(x, d) && size > 0
    ensures var chunks := FullChunksFrom(DcRemoved(x, d), 0, size);
            var good, idx := Select(chunks, GateFlags(chunks, d)), Kept(GateFlags(chunks, d));
            && |idx| == |good|
            && (forall j1, j2 :: 0 <= j1 < j2 < |idx| ==> idx[j1] < idx[j2])
            && (forall j :: 0 <= j < |idx| ==> idx[j] < |chunks| && good[j] == chunks[idx[j]])
            && (forall i :: 0 <= i < |chunks| ==> (i in idx <==> Gate(ColumnMeans(chunks[i], d))))
  {
    var chunks := FullChunksFrom(DcRemoved(x, d), 0, size);
    SelectIsSubsequence(chunks, GateFlags(chunks, d));
  }
}
