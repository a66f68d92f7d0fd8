# sus sensor pipeline — a Dafny model

The sus pipeline reads the binary log of an ESP32 sensor board. Each log
record is 32 packed little-endian bytes holding the time, a sequence number,
two accelerometers, a magnetometer, an angle and a temperature. The pipeline
turns the log into CSV and then runs named *steps* over a shared workspace,
a dict from string keys to time series and arrays. A *runner* executes each
step in list order, caches step outputs as `.npz` blobs and asks for plots.
The steps covered here are:

- chunking a series into fixed-length spans;
- the accelerometer pose-alignment steps: pair filtering, colinear-pair
  removal, relative acceleration, the travel vector and projection;
- the magnetometer/accelerometer fusion steps: the still-window baseline and
  the scan for calibration bumps.

This project models that core and proves facts about it:

- **`LittleEndian`** is `struct` packing for the `<I`, `<H`, `<i` and `<h`
  codes. `ReadBinary` is the binary log reader and the CSV layout.
  `Decimal` is `str(int)` and the fixed-point `f"{v:.Nf}"` text together
  with parsers that invert them.
- **`Signals`** is `TimeSeries`, `ChunkedTimeSeries` and `iter_chunks`.
  `Workspace` is the insertion-ordered dict, with a class for the shared
  mutable object. `Steps` is the `Step` record, the base `run` and
  `ChunkStep`.
- **`Execution`** is the runner. It is a class whose fields are the cache
  directory (a map from path to blob), the plot requests and a ghost log of
  the steps whose `run` was called. `Run` is proved against the functional
  specification `RunFrom`.
- **`Fusion`** is `GetMagBaseline` (the window selection) and
  `FindCalibrationChunks`. The scan loop is proved against `Calibrate`.
- **`AccelRotation`** covers `FilterChunkPairs`, `FilterColinearPairs`,
  `GetRelativeAccel`, `GetAccelTravelVector` and `ProjectAccel`.
- **`Selection`** is the order-preserving filter that the loops appending kept items build.
- **`RealSeq`** holds the exact-real vector arithmetic: sum, mean, `max`,
  `min`, cumulative sum and dot product. `Exceptions` holds `Result`,
  `Option` and the Python exceptions the code can raise.

Loops in the source are methods with loop invariants. Each method's
postcondition ties its result to a specification function:

- `IterRecords` and `Convert`;
- `Runner.SaveCache`, `Runner.LoadCache`, `Runner.Plot`, `Runner.RunStep`
  and `Runner.Run`;
- `GetMagBaseline`, `FindCalibrationChunks`, `ScanRecording` and
  `ExaminePosition`;
- `FilterChunkPairs`, `ExaminePair`, `FilterColinearPairs`,
  `GetAccelTravelVector`, `FullChunks` and `GoodChunks`.

Lemmas then prove what those specification functions promise:

- pack/unpack and print/parse round trips;
- the chunk spans partition the series;
- steps run in order, each at most once;
- cache discipline and a full cache hit;
- what a saved-then-loaded blob gives back;
- scan events are accepted and spaced;
- the pair and chunk filters keep exactly the qualifying items, in order.

Where the code and its description differ, the model follows the code:

- `GetRelativeAccel` stamps both outputs with b's timestamps
  (`backend/accel_rotation.py:188`).
- The trailing-span test of `ChunkStep` compares constructed span widths, so
  it never drops a span (`Steps.ChunkSpansAsWritten`).
- The runner always writes the final `"all"` blob, even when `write_cache`
  is off.

## Model

| member | source | states |
|---|---|---|
| LittleEndian.DecodeEncodeUnsigned | read_binary.py:20-21 | decoding the n-byte little-endian encoding of any value below 256^n gives the value back |
| LittleEndian.EncodeDecodeUnsigned | read_binary.py:20-21 | every byte string is the encoding of its decoded unsigned value |
| LittleEndian.DecodeSigned | read_binary.py:20 | a two's-complement field decodes to a value in the signed range of its width |
| LittleEndian.DecodeEncodeSigned | read_binary.py:20 | signed decoding inverts signed encoding over the whole signed range |
| LittleEndian.EncodeDecodeSigned | read_binary.py:20 | re-encoding a decoded signed field gives back its bytes |
| LittleEndian.EncodeDecodeField | read_binary.py:20 | a field of any of the four codes decodes into that code's range and re-encodes to the same bytes |
| LittleEndian.DecodeEncodeField | read_binary.py:20 | for each code, decoding inverts encoding on the values that code can hold |
| LittleEndian.SizeConcat | read_binary.py:18-20 | the packed size of a concatenated format is the sum of the parts' sizes |
| LittleEndian.UnpackFits | read_binary.py:46 | every value `unpack` returns lies in its field's range |
| LittleEndian.UnpackPack | read_binary.py:46 | unpacking the packing of in-range values returns those values |
| LittleEndian.PackUnpack | read_binary.py:46 | every byte string of the layout's size is the packing of its unpacked fields |
| LittleEndian.UnpackFieldAt | read_binary.py:46 | field j is decoded from the bytes at its offset (the summed widths before it) |
| ReadBinary.FormatPartSizes | read_binary.py:20 | the format parts "<II", "hhh", "H" and "i" pack into 8, 6, 2 and 4 bytes |
| ReadBinary.RecordSizeIsLayoutSize | read_binary.py:18-20 | the size of `"<II" + "hhh"*3 + "H" + "i"` is RECORD_SIZE = 32 |
| ReadBinary.DecodeRecord | read_binary.py:46 | unpacking 32 bytes gives 13 values, each in its field's range |
| ReadBinary.DecodeEncodeRecord | read_binary.py:20-21 | decoding an encoded record gives the record back |
| ReadBinary.EncodeDecodeRecord | read_binary.py:20-21 | every 32-byte chunk is the encoding of its decoded record |
| ReadBinary.IterRecords | read_binary.py:34-46 | yields \|data\| div 32 records, record j decoded from bytes [32j, 32j+32); ends cleanly iff the length is a multiple of 32, else raises the partial-record error with the leftover byte count and the record index |
| ReadBinary.EncodeLogRecords | read_binary.py:34-46 | in a log written from records, the bytes of record j decode to record j |
| ReadBinary.InsertAt | read_binary.py:52 | `list.insert(i, x)`: x at i, the elements before i unchanged, the rest shifted by one |
| ReadBinary.HeaderShape | read_binary.py:50-52 | the output header has 14 names, or 15 with "t_s" at index 1, and they are pairwise distinct |
| ReadBinary.HeaderDistinct | read_binary.py:23-32 | the 14 fixed header names are pairwise distinct |
| ReadBinary.TsNotInHeader | read_binary.py:23-32 | "t_s" is not one of the fixed header names |
| ReadBinary.CellForHeader | read_binary.py:70-79 | column m of the fixed layout holds the cell its header name calls for |
| ReadBinary.RowMatchesHeader | read_binary.py:50-83 | every row is as long as the header, and each cell is the one its column name calls for (with or without t_s) |
| ReadBinary.RowRoundTrip | read_binary.py:68-83 | parsing a row gives the record back; the temp_C cell reads back as temp_deciC / 10 and the t_s cell as t_ms / 1000 |
| ReadBinary.Convert | read_binary.py:48-85 | writes the header, then one row per complete record in file order; a trailing partial record ends the output with the reader's error |
| ReadBinary.WriteRows | read_binary.py:58-85 | one row per record, row j built from record j |
| Decimal.NatToStringValue | read_binary.py:70-79 | the digits of `str(n)` spell n |
| Decimal.IntToStringRoundTrip | read_binary.py:70-79 | `int(str(i)) == i` for every integer, negative ones included |
| Decimal.ShiftLowDigitsValue | read_binary.py:78-83 | the integer part followed by the d fractional digits spells the scaled value |
| Decimal.FixedPointRoundTrip | read_binary.py:78-83 | the fixed-point text of n / 10^d with d decimals reads back as n, for either sign |
| Signals.NewTimeSeries | backend/classes/time_series.py:24-30 | a non-1-d t raises "t must be shape (N,)"; construction succeeds iff x is 1-d or 2-d with one row per timestamp; the result keeps t, units, frame and meta |
| Signals.NewTimeSeriesReshapes | backend/classes/time_series.py:27-28 | a 1-d x of the right length is stored, through `AsColumn` (`reshape(-1, 1)`), as the N×1 column of its values |
| Signals.NewTimeSeriesOfValid | backend/classes/time_series.py:24-30 | rebuilding a constructed series from its own fields gives it back |
| Signals.Slice | backend/classes/time_series.py:44 | `s[i0:i1]` clips both ends at \|s\|; its entries are the source entries from i0 on |
| Signals.IterChunks | backend/classes/time_series.py:40-46 | yields exactly one chunk per span |
| Signals.IterChunksContents | backend/classes/time_series.py:40-46 | each chunk is a valid series of the base's samples from i0 (clipped at N), with the base's units, frame and meta plus "chunk" = (i0, i1) |
| Signals.IterChunksIgnoresOwnMeta | backend/classes/time_series.py:38-46 | the chunked series' own meta does not affect the chunks |
| Workspace.PutGet | backend/classes/sensor_loader.py:11 | after `d[k] = v` (`Dict.Put`), `d.get(k)` is v and every other key reads as before; a second assignment to k overrides the first; a new key goes last in order, an existing key keeps its place |
| Workspace.PutValid | backend/classes/sensor_loader.py:11 | an assignment keeps the keys and the order in one-to-one correspondence |
| Workspace.PutAllEffect | backend/classes/runner.py:50-54 | a run of writes keeps the dict well formed, adds exactly the written keys and leaves every unwritten key unchanged |
| Workspace.PutAllAppend | backend/classes/runner.py:50-54 | writing a list and then one more item equals writing the longer list |
| Workspace.Workspace.Put | backend/classes/runner.py:54 | the shared object's new state is the dict value after `ws[k] = v` |
| Workspace.Workspace.PutAll | backend/classes/runner.py:97 | the shared object's new state is the old state with the writes applied in order |
| Steps.RangeSpansShape | backend/classes/step.py:56 | the spans of `range(i, N, L)`: none iff i >= N; contiguous, L wide, each starting before N, the first at i, the last reaching N |
| Steps.ChunkSpansAsWritten | backend/classes/step.py:56-58 | for N > 0 and L > 0 the short-span drop never fires and the spans are the whole range |
| Steps.ChunkSpansEmpty | backend/classes/step.py:56-57 | with no samples or a negative span length there is no span: a zero length raises range's ValueError, any other `spans[-1]`'s IndexError |
| Steps.RangeChunksCover | backend/classes/step.py:55-58 | the slices of the spans from i, laid end to end, are exactly s[i..] |
| Steps.ChunksPartitionBase | backend/classes/step.py:55-70 | the chunk timestamps of a ChunkStep output concatenate to the base timestamps; all chunks but the last hold L samples; the last is short iff its span runs past the end |
| Steps.SpanSliceLengths | backend/classes/step.py:57-63 | contiguous L-wide spans: every slice but the last is L long; the last is short iff it runs past the end |
| Steps.SpansIncrease | backend/classes/step.py:56 | contiguous spans of width L start in increasing order |
| Steps.ChunkStepRun | backend/classes/step.py:52-70 | writes at most one item, exactly when nothing is raised; the item is a ChunkedTimeSeries over the unchanged input with the computed spans and meta + "chunk_t_s"; a missing input raises IndexError or KeyError |
| Fusion.StillWindowsInside | backend/fusion.py:30 | every still window is still_len long and ends before the last sample; there are none when N <= still_len |
| Fusion.StillMagsOk | backend/fusion.py:29-34 | the selection succeeds iff every window's test succeeds |
| Fusion.StillMagsSelect | backend/fusion.py:29-34 | a successful selection is the order-preserving selection of the mag windows whose accel window is still, repeats included |
| Fusion.StillMagsSubsequence | backend/fusion.py:29-34 | a successful selection has one entry per passing window: entry j is the mag window of the j-th passing span, in ascending span order, and no passing span is left out |
| Fusion.StillTestMeansAllBelow | backend/fusion.py:33 | a window is still iff every \|a\| in it is strictly below still_a_max |
| Fusion.GetMagBaseline | backend/fusion.py:19-34 | unit assertions first, a zero still_len is range's ValueError, otherwise the still-window selection |
| Fusion.TimeStepsTelescope | backend/fusion.py:60 | the steps `np.diff(t, prepend=t[0] - 0.01)` (`TimeSteps`) add back up to the timestamps: their cumulative sum at k is t[k] - t[0] + 0.01 |
| Fusion.WindowSlices | backend/fusion.py:84-86 | the forward `Window` is the slice s[i..i+len]; the reverse one, `s[i+len:i:-1]`, is the slice s[i+1..i+len+1] read backwards (`Reversed`) |
| Fusion.DisplacementStep | backend/fusion.py:106-108 | the double cumulative sum obeys v_j = v_{j-1} + a_j·dt_j and d_j = d_{j-1} + v_j·dt_j from zero |
| Fusion.Evaluate | backend/fusion.py:89-111 | an empty still window raises max's ValueError; a qualifying candidate's trace has bump_len samples |
| Fusion.EvaluateQualifies | backend/fusion.py:96-111 | raises only for a zero still or bump length; a candidate qualifies iff its still mean <= baseline, its still \|a\| peak <= limit, its bump mag peak >= still mean + bump_mag_min and its displacement peak >= bump_dx_min; its trace is the displacement |
| Fusion.FindCalibrationChunks | backend/fusion.py:53-79 | empty t raises IndexError (t[0]), wrong units AssertionError, a zero stride ValueError; otherwise the result of the scan specification |
| Fusion.ScanRecording | backend/fusion.py:77-123 | the scan loop with its skip counter equals the scan specification, including the IndexError when no event is found |
| Fusion.ExaminePosition | backend/fusion.py:84-116 | both orientations at one position, forward first, give the specified events or the first error |
| Fusion.AtPositionShape | backend/fusion.py:84-116 | one position yields at most two events, both at that position, forward before reverse, each accepted |
| Fusion.SpacedAppend | backend/fusion.py:79-116 | appending a position's events after a gap keeps the event list spaced |
| Fusion.ScanEvents | backend/fusion.py:79-116 | the scan keeps the events found so far as a prefix, adds only accepted candidates, and keeps them spaced by (skips + 1)·stride |
| Fusion.ScanAfterPosition | backend/fusion.py:84-116 | the same facts across one examined position |
| Fusion.CalibrateEvents | backend/fusion.py:79-123 | a successful scan has at least one event; each is a qualifying candidate with bump_len-sample traces; the events are in scan order and spaced |
| Fusion.CalibrateComplete | backend/fusion.py:79-116 | the scan misses nothing: a candidate that qualifies at a multiple of stride whose window fits is reported, unless an event was reported less than skips·stride + 1 samples before it |
| Fusion.CalibrateOnGrid | backend/fusion.py:79 | every event sits at a scanned position, a multiple of stride |
| Execution.ReplaceSlash | backend/classes/runner.py:111 | `k.replace('/', '_')` keeps the length and leaves no '/' |
| Execution.StepIdInjective | backend/classes/runner.py:85 | `f"{i}_{name}"` determines i and name, so two steps never share a cache blob |
| Execution.StepIdIsNotAll | backend/classes/runner.py:123 | no step identity is "all", so the final blob never overwrites a step's blob |
| Execution.CachePathInjective | backend/classes/runner.py:30-31 | distinct identities give distinct cache paths |
| Execution.Missing | backend/classes/runner.py:93 | k is missing iff it is an input absent from the workspace |
| Execution.MissingAppend | backend/classes/runner.py:93 | the missing list keeps the declared input order |
| Execution.PlotsRaise | backend/classes/runner.py:68-71 | the plots raise nothing iff no plot key is a scatter spec over data that is not a 2-d array with columns; the error is TypeError (None or a non-array) or IndexError (a 0-d or 1-d array) |
| Execution.PlotsErrSticky | backend/classes/runner.py:103-120 | after the first plot error the later plot keys add nothing |
| Execution.PlotsShowWorkspace | backend/classes/runner.py:103-120 | every line plot shows a series the workspace holds under a plot key (`PlotKeys`: `plot_keys or outputs`) |
| Execution.SavePayloadOk | backend/classes/runner.py:33-43 | saving keys that are all present never raises |
| Execution.RestoreOnlySeries | backend/classes/runner.py:45-55 | loading writes only series, only under requested keys, with units "", frame "" and empty meta |
| Execution.TagNames | backend/classes/runner.py:39-40 | "k__t" and "k__x" names of distinct keys never collide, and an untagged key is never a tagged name |
| Execution.PayloadSeries | backend/classes/runner.py:39-40 | the payload holds each series key's t and x under its tagged names, and tagged names only for series keys |
| Execution.PayloadArrays | backend/classes/runner.py:41-42 | the payload holds each ndarray key's array under the key itself, and an untagged name only for an ndarray key |
| Execution.PayloadContents | backend/classes/runner.py:33-43 | saving present, untagged keys succeeds; series go in as their tagged t and x, ndarrays under their own key; a "__t" name appears only for a series key and an untagged name only for an ndarray key |
| Execution.RestoreFromPayload | backend/classes/runner.py:45-55 | restoring such a payload raises nothing and writes exactly the series keys, stripped of tags and meta |
| Execution.SaveLoadRoundTrip | backend/classes/runner.py:33-55 | save then load returns each series with its t and x but with units, frame and meta reset, and nothing else |
| Execution.StepCacheDiscipline | backend/classes/runner.py:84-100 | a step writes only its own cache path, and only when it ran with write_cache and outputs; a cache hit skips run; a miss with all inputs runs the step; the workspace stays well formed |
| Execution.LoadPhaseFacts | backend/classes/runner.py:87-89 | the cache is tried iff read_cache, outputs and the blob exist; a miss changes nothing |
| Execution.ExecPhaseFacts | backend/classes/runner.py:91-100 | a miss with all inputs logs the step and may write only its own cache path; with missing inputs nothing changes |
| Execution.RunStopsOnMissingInputs | backend/classes/runner.py:93-95 | missing inputs raise MissingInputs naming them in order, with the state unchanged and no later step run |
| Execution.RanInOrder | backend/classes/runner.py:84-97 | the steps whose run is called are strictly increasing indices in [i, \|steps\|): in list order, each at most once |
| Execution.StepRan | backend/classes/runner.py:84-120 | one step logs its own index or nothing |
| Execution.FullCacheHit | backend/classes/runner.py:68-125 | with read_cache and a loadable blob for every step, no run is called; without make_plots nothing is raised and only the "all" blob is written; with make_plots the run may instead stop with TypeError or IndexError at a scatter plot, and then no blob is written |
| Execution.CachedStepPlotRaises | backend/classes/runner.py:68-71 | on a full cache hit with make_plots, a step raises iff one of its plot keys is a scatter spec over data `data[:, 0]` cannot index, such as an ndarray output the cache did not restore |
| Execution.SavePayloadErrSticky | backend/classes/runner.py:36-37 | the first absent key's KeyError is the save's error |
| Execution.RestoreErrSticky | backend/classes/runner.py:50-54 | the first construction error while restoring is the load's error |
| Execution.Runner.SaveCache | backend/classes/runner.py:33-43 | the store gains the payload under the step's path, or the KeyError is returned and the store is unchanged |
| Execution.Runner.LoadCache | backend/classes/runner.py:45-55 | false and unchanged when the blob is absent, otherwise true with the restores applied to the workspace |
| Execution.Runner.Plot | backend/classes/runner.py:68-120 | appends exactly the specified plot requests, in plot-key order, and returns the first scatter error, after which nothing more is appended |
| Execution.Runner.RunStep | backend/classes/runner.py:85-120 | one loop pass has the effect and exception of the step specification |
| Execution.Runner.Run | backend/classes/runner.py:81-125 | the final state and exception are those of the run specification, and the same workspace is returned |
| Selection.Select | backend/accel_rotation.py:91-94 | the filtered list is no longer than the input, and holds only input elements |
| Selection.SelectIsSubsequence | backend/accel_rotation.py:91-94 | the filtered list is the input at the flagged indices, in increasing order, every flagged index included |
| AccelRotation.SelectCount | backend/accel_rotation.py:42-50 | the number kept under the flags of v equals the number of v verdicts |
| AccelRotation.PairStatsShapes | backend/accel_rotation.py:57-60 | `PairStats`: no surviving pair raises AxisError (axis 2 of an empty array); with survivors nothing is raised iff every a and b chunk has the first chunk's shape, and otherwise the ragged-array ValueError |
| AccelRotation.PairStatsUniform | backend/accel_rotation.py:57-60 | survivors whose chunks all hold L samples of width D never raise |
| AccelRotation.PairStatsRagged | backend/accel_rotation.py:57-60 | one surviving chunk whose sample count differs from the first's, such as a short trailing chunk (`Steps.ChunksPartitionBase`), raises the ragged-array ValueError |
| AccelRotation.SpreadOfTwo | backend/accel_rotation.py:47 | `max - min` of two mean magnitudes is their distance |
| AccelRotation.ExaminePair | backend/accel_rotation.py:35-49 | the inner loop with its break and else gives the pair's verdict |
| AccelRotation.FilterChunkPairs | backend/accel_rotation.py:22-55 | the survivors are the pairs of `ZipChunks` (positional, as many as the shorter list) whose verdict is Survivor, in order; the counts are the jitter and diff verdicts; the raised error is that of get_pair_stats on the survivors |
| AccelRotation.ClassifyPairs | backend/accel_rotation.py:33-50 | the pair loop keeps the pairs whose verdict is Survivor, in order, and counts the jitter and diff verdicts |
| AccelRotation.PairCountsSum | backend/accel_rotation.py:29-50 | every pair gets exactly one of the three verdicts |
| AccelRotation.FilterChunkPairsCounts | backend/accel_rotation.py:29-54 | the jitter and diff rejects and the survivors add up to the number of zipped pairs |
| AccelRotation.FilterChunkPairsSurvivors | backend/accel_rotation.py:33-50 | pair i survives iff both confidences are >= 0.98 and the mean magnitudes differ by at most 0.5; the survivors keep their order |
| AccelRotation.JitterShortCircuit | backend/accel_rotation.py:36-43 | a jittery a chunk rejects the pair whatever its b chunk is |
| AccelRotation.FilterColinearPairs | backend/accel_rotation.py:75-98 | no pair raises AxisError (normalize_rows of an empty mean); otherwise the pairs whose angle exceeds 10 degrees, in order |
| AccelRotation.ColinearKept | backend/accel_rotation.py:89-94 | with `keep = ang_deg > 10` (`AngleFlags`), pair i is kept iff its angle exceeds 10 degrees; the kept pairs keep their order |
| AccelRotation.MatVecSub | backend/accel_rotation.py:184 | `rot @ v` (`MatVec`) is linear: rotating a difference of samples is the difference of the rotated samples |
| AccelRotation.Rotate | backend/accel_rotation.py:184 | `(rot @ b.x.T).T` has one R-wide row per sample |
| AccelRotation.GetRelativeAccel | backend/accel_rotation.py:179-200 | succeeds iff the shapes agree; both outputs have b's t and units, a's frame and b's meta + "rotation_applied"; sample k is rot·b_k, and then a_k minus that |
| AccelRotation.RelativeRecomposes | backend/accel_rotation.py:184-185 | rotated b plus the difference is a, sample by sample |
| AccelRotation.ProjectAccel | backend/accel_rotation.py:250-265 | succeeds iff every sample is \|v\| wide; an N×1 series of a_k·v with a's t, units and frame and a's meta + "travel_vector" |
| AccelRotation.ProjectRelative | backend/accel_rotation.py:255 | the projected difference is a's projection minus the rotated b's |
| AccelRotation.DcRemoved | backend/accel_rotation.py:213-215 | subtracting the column means keeps the shape |
| AccelRotation.DcRemovedZeroMean | backend/accel_rotation.py:213-215 | after DC removal every column sums and averages to zero |
| AccelRotation.FullChunksFrom | backend/accel_rotation.py:218-222 | each kept chunk has exactly chunk_size rows, all taken from x |
| AccelRotation.FullChunksPartition | backend/accel_rotation.py:218-222 | the full chunks tile a prefix of x in order; fewer than chunk_size rows are left over |
| AccelRotation.FullChunksCount | backend/accel_rotation.py:218-222 | there are N div chunk_size full chunks |
| AccelRotation.NormGate | backend/accel_rotation.py:227-228 | `norm > 4.5` is the squared-norm test against 4.5² for any true norm |
| AccelRotation.GateNeedsAColumn | backend/accel_rotation.py:227-229 | an empty mean vector fails the gate before its x component is read |
| AccelRotation.GateFlags | backend/accel_rotation.py:225-230 | flag j is set iff chunk j's column means (`ColumnMeans`, `np.mean(x, axis=0)`) pass the gate: squared norm above 4.5², at least one column and a negative x mean |
| AccelRotation.GetAccelTravelVector | backend/accel_rotation.py:209-244 | a zero chunk size raises range's ValueError and a negative one AxisError; otherwise AxisError iff no chunk is retained, else the summary of the retained chunks |
| AccelRotation.FullChunks | backend/accel_rotation.py:218-222 | the chunk loop yields the specified full chunks |
| AccelRotation.GoodChunks | backend/accel_rotation.py:225-230 | the gate loop yields the chunks whose flag is set, in order |
| AccelRotation.TravelChunksGated | backend/accel_rotation.py:218-230 | retained chunks are full chunks in their original order; chunk i is retained iff it passes the gate |
| RealSeq.Max | backend/fusion.py:110 | builtin `max`: an upper bound that some entry attains |
| RealSeq.Min | backend/accel_rotation.py:47 | builtin `min`: a lower bound that some entry attains |
| RealSeq.CumSumStep | backend/fusion.py:106 | `np.cumsum` steps by one entry at a time from zero |
| RealSeq.MeanRemovedSumsToZero | backend/accel_rotation.py:213-215 | a vector minus its mean sums to zero |
| RealSeq.DotSub | backend/accel_rotation.py:255 | the dot product distributes over a difference |
| RealSeq.DotComm | backend/accel_rotation.py:184 | the dot product is symmetric |

## Left out

- Floating point: samples, means and thresholds are exact reals. Rounding, NaN and infinities are not modelled.
- `np.linalg.norm`, `sqrt`, `arccos` and `degrees` are not modelled. Quantities built from them enter as inputs: the chunk confidence and mean magnitude of `FilterChunkPairs`, the angles of `FilterColinearPairs`, and the norm of the travel summary. The norm gate is stated on squared norms (`AccelRotation.NormGate`).
- AccelRotation.FilterChunkPairs: per-chunk confidence and mean magnitude are parameters, not computed from the samples.
- AccelRotation.PairStats: models only the exceptions `get_pair_stats` can raise. The scale mean and std it prints are not computed.
- AccelRotation.FilterColinearPairs: takes the per-pair angle to the mean direction as input. `normalize_rows` is modelled only through the AxisError it raises on no pairs.
- AccelRotation.GetAccelTravelVector: the direction is the mean of the retained chunk means, left unnormalised. The division by its norm is not modelled.
- AccelRotation.GetRelativeAccel: rot comes with its column count c. The shapes must match exactly, with a mismatch on a non-empty series a ShapeError; numpy broadcasting is not modelled.
- AccelRotation.GetRelativeAccel, AccelRotation.ProjectAccel: samples are held by rows, so an empty series carries no width. An empty series of the wrong width therefore succeeds here, where numpy's matmul raises ValueError.
- `RotationFromPairs` (weights, Kabsch/SVD, error statistics) is not modelled: it is SVD numerics.
- `FilterStep`, a Butterworth filter from scipy, is not modelled.
- Fusion.GetMagBaseline: stops at the selected still windows. The median + std baseline and the workspace write are not modelled. accel is a single column: for a wider accel the builtin `max(abs(a_chunk))` at `backend/fusion.py:33` raises ValueError (the truth value of an array is ambiguous), and that error is not modelled.
- Fusion.FindCalibrationChunks: mag and accel are single columns. The builtin `max` over rows is only defined for one column, so wider ones are not modelled. mag, t and accel must have one length. The three workspace writes (arrays of traces and slice objects) are not modelled; the events are returned.
- The lengths `int(seconds * fs_hz)` are taken as given naturals: still_len, bump_len, stride, `span_len` and the chunk size sign. Negative lengths from negative settings are not modelled for the fusion scan.
- Steps.ChunkStepRun: `span_len` is a parameter, and the two `print` calls are left out.
- Signals.NewTimeSeries: arrays of more than 2 dimensions are not modelled. A 0-d x raises IndexError via `shape[0]`.
- The runner's `mkdir` calls and the `.npz` compression are not modelled. The cache directory is a map from path to blob.
- Matplotlib rendering is not modelled; only the requested figures (path, title, data) are recorded. The one numpy operation before rendering, `data[:, 0]` for a scatter spec, is modelled by its errors (`ScatterError`).
- Execution.ScatterError: the object kind `Other` is taken not to accept a tuple index, so it raises TypeError. A 2-d array with no rows is taken to have at least one column, because the model holds arrays by rows.
- The command-line `main` of `read_binary.py` and its file reading and writing are not modelled. Files are byte and row sequences.
- ReadBinary.Convert: `f"{x:.1f}"` and `f"{x:.3f}"` are modelled as the exact decimal texts of temp_deciC / 10 and t_ms / 1000. Binary64 rounding of these quotients is not modelled.
- `backend/mag.py`, `backend/angle.py`, `backend/pipeline.py` and the loaders in `backend/classes/sensor_loader.py` are not part of this model. They are callers and CSV input.
- `print` output is not modelled anywhere.
- The ragged-array error message of `get_pair_stats` follows numpy 1.24 and later, which raises ValueError.
- The workspace lookups inside steps (`ws[self.inputs[i]]`) are parameters of the step functions, except in `ChunkStepRun`, which reads its own input.
- AccelRotation.FilterChunkPairs, AccelRotation.FilterColinearPairs, AccelRotation.GetRelativeAccel, AccelRotation.ProjectAccel, AccelRotation.GetAccelTravelVector: the workspace writes to `ws[self.outputs[0]]` and `ws[self.outputs[1]]` are modelled as returned values.
