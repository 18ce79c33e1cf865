# aqmaq in Dafny

aqmaq turns a video stream into a small set of debounced incidents: `motion_start` / `motion_end` for
presence, `cross_line` for motion at a horizontal line, `interaction_start` / `interaction_end` for
product zones, and `face_capture` for the face crops saved when a zone activates. This project models the
per-frame decision logic of its two demo runners and the pure helpers beneath them. Each model is stated
in Dafny and proved against its contracts.

- **Line runner** (`LineDemo`). The `MotionState` presence record and the `LineDemoRunner` class are classes with
  fields. `_process_frame` works over the bounding rectangles found in a frame, and `_update_presence` is
  the presence debounce. The read loop of `run`, with its bound of five consecutive re-opens, is a `while`
  loop over a finite sequence of read outcomes. It is proved equal to a recursive specification function,
  and the run's properties are lemmas about that function.
- **Zone runner** (`ZoneDemo`). `ZoneRunner` keeps one `ZoneState` per zone name in a map field. Each zone
  of a frame is debounced against the activation threshold with a cooldown. An activation publishes
  `interaction_start` and runs one face-capture pass. The read loop re-opens an RTSP source after every
  failure, with no cap. As in the line runner, the methods are proved equal to specification functions.
- **Shared pieces**:
  - `Debounce`: the step rule both machines use.
  - `Capture`: the `_open_capture` decision.
  - `Effects`: the log of published incidents, thumbnail writes, face-capture passes and capture open/release.
  - `Zones`: zone geometry and `load_zones`.
  - `ZoneModel`: scorer selection and `predict_proba`.
  - `FaceCapture`: the capture service.
  - `Config`: settings.
  - `Models`: incidents.
  - `Frames`, `Paths`, `Text`: numpy frames with Python slicing, `pathlib` paths, and string helpers.

Inputs from the outside world are parameters:
- Clock readings: per frame, per crossing, per zone incident and per face.
- The rectangles OpenCV finds.
- The classifier's score per zone.
- The face detector's detections and whether each image write succeeded.
- The interpreter's output.
- The outcome of each `cap.read()`.
- Whether ESC was pressed.

The publisher and the thumbnail writer are entries appended to the runner's `log`. The publisher swallows every failure, so a publish always succeeds in this model.

Two behaviours of the code worth noting:
- The zone runner's read-failure retry has no attempt limit. Only the line runner stops after five re-opens.
- Zone names are not required to be unique. Duplicate names share one state record, and `load_zones` keeps duplicates.

## Model

| member | source | states |
|---|---|---|
| Models.EventTextRoundTrip | aqmaq/models.py:8-15 | Every event name's text parses back to that name, and a text that parses to a name is that name's text. |
| Models.ExactlySixEvents | aqmaq/models.py:8-15 | A text is an event name exactly when it is one of the six listed texts. There are six, and they are pairwise distinct. |
| Models.NewIncident | aqmaq/models.py:18-26 | Validation succeeds iff `timestamp >= 0` and the event text is one of the six names. On success the incident carries the given `y`, `zone`, `metadata` and `iso`. On failure the error list names exactly the constraints that failed. |
| Models.OptionalFieldsDefault | aqmaq/models.py:23-26 | With only a timestamp and an event, `y`, `zone`, `metadata` and `iso` are all absent. |
| Config.NewSettings | aqmaq/config.py:14-35 | Construction succeeds iff `line_y >= 0` and `no_motion_seconds > 0`. The result is an immutable value holding exactly the given fields. Each failing constraint, and only those, is reported. |
| Config.IsRtspSource | aqmaq/config.py:49-51 | Defined as: the source starts with `rtsp://` or `rtsps://`. Its properties are in `IsRtspSourceIff`. |
| Config.IsRtspSourceIff | aqmaq/config.py:49-51 | A source is RTSP iff it starts with `rtsp://` or `rtsps://`. |
| Config.DefaultsValid | aqmaq/config.py:19-29 | The default settings pass validation and are not an RTSP source. They are what construction yields from the default field values. |
| Config.DerivedPaths | aqmaq/config.py:37-55 | `thumbs`, `faces` and `db` are direct children of the data directory. `incidents.jsonl` sits inside `db`. The four paths are pairwise distinct. |
| Text.StartsWithIff | aqmaq/config.py:51 | `startswith` holds iff the string is the prefix followed by some rest. |
| Text.DecimalInjective | aqmaq/services/face_capture.py:35 | Distinct naturals format to distinct decimal texts. |
| Paths.JoinSplits | aqmaq/config.py:37-39 | `dir / name` has `dir` as parent and `name` as last component. |
| Paths.JoinInjective | aqmaq/config.py:37-55 | `d1 / n1 == d2 / n2` iff the directories and the names are equal. |
| Capture.OpenCapture | aqmaq/vision/line_demo.py:83-91 | `"0"` opens the default camera. An RTSP source opens as a stream with buffer size 1. Anything else opens as a path. The three cases are told apart exactly by those conditions. The zone runner's copy at zone_runner.py:80-87 is the same. |
| Capture.DefaultCameraIsNotRtsp | aqmaq/config.py:50-51 | The default-camera source `"0"` is never an RTSP source, so checking it first shadows nothing. |
| Zones.ClampUnit | aqmaq/zones.py:23-24 | The result lies in [0,1]. It is the value itself when the value is already in [0,1], 0 below and 1 above. |
| Zones.Clamp | aqmaq/zones.py:22-32 | Keeps the name, clamps each of x, y, width and height into [0,1], and leaves a zone already in the unit square unchanged. |
| Zones.ClampIdempotent | aqmaq/zones.py:22-32 | Clamping twice is clamping once. |
| Zones.ClampExample | aqmaq/zones.py:23-31 | `(-0.1, 1.2, 0.5, 0.5)` clamps to `(0, 1.0, 0.5, 0.5)`. |
| Zones.Truncate | aqmaq/zones.py:36-39 | Python's `int()` on a real truncates toward zero: it is a floor for non-negative values and a ceiling for negative ones. |
| Zones.AsPixels | aqmaq/zones.py:34-40 | The right and bottom edges never exceed the frame's width and height. |
| Zones.AxisWithin | aqmaq/zones.py:36-39 | For a start in [0,1] and a non-negative extent, each axis maps to `0 <= start <= end <= size`. |
| Zones.AsPixelsClamped | aqmaq/zones.py:34-40 | A clamped zone gives `0 <= x1 <= x2 <= w` and `0 <= y1 <= y2 <= h`. |
| Zones.ExtractRoi | aqmaq/zones.py:42-44 | The region is a well-formed frame. |
| Zones.ExtractRoiClamped | aqmaq/zones.py:42-44 | For a clamped zone the region has `y2 - y1` rows and `x2 - x1` columns, and each of its pixels is the frame's pixel at the offset position. |
| Zones.FullZoneRoi | aqmaq/zones.py:34-44 | The zone `(0, 0, 1, 1)` maps to `(0, 0, w, h)`, and its region is the whole frame. |
| Zones.Field | aqmaq/zones.py:59 | Only an object can be indexed by a key. A missing key raises `KeyError`, and a non-object raises `TypeError`. |
| Zones.RawZone | aqmaq/zones.py:58-64 | Defined as reading `name`, then `x`, `y`, `width` and `height` in Python's evaluation order, stopping at the first failure. Its properties are in `RawZoneSpec`. |
| Zones.RawZoneSpec | aqmaq/zones.py:58-64 | An entry is read exactly when it is an object with a text name and four convertible coordinates. The zone then carries those values, and a non-object raises `TypeError`. |
| Zones.LoadZoneList | aqmaq/zones.py:56-66 | The list loads iff every entry reads. The result is then one clamped zone per entry, in order, with duplicates kept. Otherwise the error raised is that of the first failing entry. |
| Zones.LoadZones | aqmaq/zones.py:47-66 | No path or a missing file gives exactly the default zone `(0.25, 0.3, 0.5, 0.4)`. Undecodable JSON raises. A list loads as `LoadZoneList` says. An empty object or string gives no zones, and other non-lists raise `TypeError`. Every loaded zone lies in the unit square. |
| Frames.SizeZeroIff | aqmaq/services/zone_model.py:43 | A frame's size is zero iff it has no rows or no columns. |
| Frames.ClipIndex | aqmaq/zones.py:44 | Python's slice bound: a negative index counts from the end, and every bound is clipped into `[0, n]`. |
| Frames.Slice | aqmaq/zones.py:44 | The slice has the Python slice length and, for in-range bounds, is the subsequence. |
| Frames.Crop | aqmaq/zones.py:44 | `frame[top:bottom, left:right]` is well-formed, with the clipped slice lengths as height and width. |
| Frames.CropWithin | aqmaq/services/face_capture.py:34 | In-range bounds give a crop of exactly `bottom - top` rows and `right - left` columns, holding the frame's pixels at the offset. |
| Frames.CropWhole | aqmaq/zones.py:44 | Cropping to the full bounds gives the frame back. |
| ZoneModel.NewClassifier | aqmaq/services/zone_model.py:17-40 | The corrected constructor of the finding below. The classifier keeps its path, input size (default 224×224) and threshold (default 0.6). It scores with the learned model iff a path is given, the file exists and loading completes; it then uses the loaded interpreter. Otherwise, including when a setup step after the `Interpreter` constructor raises, it falls back to the heuristic. |
| ZoneModel.SumBounds | aqmaq/services/zone_model.py:62 | A sum of values in [0,255] lies between 0 and 255 times the count. |
| ZoneModel.SumOfBinaryEdges | aqmaq/services/zone_model.py:61-62 | For a Canny map of 0s and 255s, the sum is 255 times the number of edge pixels. |
| ZoneModel.HeuristicScore | aqmaq/services/zone_model.py:58-63 | Defined as `sum(edges) / (size * 255)`. Its properties are in `HeuristicScoreInUnit` and `HeuristicIsEdgeFraction`. |
| ZoneModel.HeuristicScoreInUnit | aqmaq/services/zone_model.py:58-63 | `sum(edges) / (size * 255)` lies in [0,1] when every edge value is in [0,255]. |
| ZoneModel.HeuristicIsEdgeFraction | aqmaq/services/zone_model.py:58-63 | On a binary edge map the heuristic score is the fraction of edge pixels. |
| ZoneModel.PredictProba | aqmaq/services/zone_model.py:42-56 | A zero-size region scores 0.0 before anything else. Without a model it scores by the heuristic. With a model it returns the first output element, and an empty output raises `IndexError`. |
| ZoneModel.ZeroSizeScoresZero | aqmaq/services/zone_model.py:43-44 | A region with no rows or no columns scores 0.0, whichever scorer is in use. |
| ZoneModel.FallbackOnLoadFailure | aqmaq/services/zone_model.py:26-47 | For the corrected classifier: with no path, a missing file or a failed load, every prediction succeeds in [0,1]: 0.0 for an empty region, the heuristic otherwise. |
| ZoneModel.ThresholdIgnored | aqmaq/services/zone_model.py:42-56 | Changing the stored threshold never changes a prediction. |
| ZoneModel.LearnedScoreNotClamped | aqmaq/services/zone_model.py:49-56 | For any loaded model, region and output, the first output element is returned as it is, even when it is outside [0,1]. |
| ZoneModel.InitAsWritten | aqmaq/services/zone_model.py:30-40 | As written, the interpreter field is set iff a path is given, the file exists and the `Interpreter` constructor itself succeeded, even if a later setup step raised. |
| ZoneModel.SetupFailureBreaksPrediction | aqmaq/services/zone_model.py:34-53 | After a setup failure, the code as written raises `TypeError` on a non-empty region. The corrected classifier returns the heuristic score for the same region. |
| FaceCapture.CascadeLocation | aqmaq/services/face_capture.py:22 | A non-empty cascade path is used as given. Otherwise the bundled frontal-face cascade is used. |
| FaceCapture.NewFaceCaptureService | aqmaq/services/face_capture.py:18-25 | Construction fails iff the detector is empty. It then raises `RuntimeError` naming the cascade. Otherwise the service holds the output directory and the cascade location. |
| FaceCapture.FaceFileName | aqmaq/services/face_capture.py:35 | Defined as `face_<zone>_<timestamp>_<idx>.jpg`. Its properties are in `FaceFileNamesDistinct`. |
| FaceCapture.FaceFileNamesDistinct | aqmaq/services/face_capture.py:33-35 | Within one call (one zone, one timestamp), different indices give different file names. |
| FaceCapture.FaceCropCovers | aqmaq/services/face_capture.py:34 | A detection inside the frame crops exactly rows `y..y+h` and columns `x..x+w`. |
| FaceCapture.SavedIndicesSpec | aqmaq/services/face_capture.py:37-41 | The saved indices are exactly those whose write succeeded, strictly increasing, and no more than the detections. |
| FaceCapture.SavedPathsDistinct | aqmaq/services/face_capture.py:31-42 | The saved paths of one call are pairwise distinct. |
| FaceCapture.Capture | aqmaq/services/face_capture.py:27-42 | One image write per detection, in order, of that detection's crop to `face_{zone}_{timestamp}_{idx}.jpg`. The result is the targets of exactly the successful writes, in detection order. |
| Debounce.Step | aqmaq/vision/line_demo.py:119-129 | Inactive becomes active exactly on an on-input. Active becomes inactive exactly on an off-input with `now - last > hold` (strict). An on-input always stamps `now`. An off-input keeps the stamp, and it changes nothing unless it ends. The zone rule at zone_runner.py:97-106 is the same step. |
| Debounce.TraceAt | aqmaq/vision/line_demo.py:119-129 | The k-th transition of a run of inputs is one step from the state the first k inputs reach. |
| Debounce.FinalRecordsLatestOn | aqmaq/vision/line_demo.py:121-122 | After any run of inputs, the stamp is the clock reading of the latest on-input, or the initial stamp if there was none. |
| Debounce.EndedOnlyAfterHold | aqmaq/vision/line_demo.py:126-129 | The k-th input ends presence iff the machine was active, the input is off, and it comes strictly more than the hold time after the latest on-input. |
| Debounce.StartsMinusEnds | aqmaq/vision/line_demo.py:119-129 | Over any run, starts minus ends equals the change in the active flag. |
| Debounce.ChangesAlternate | aqmaq/vision/line_demo.py:119-129 | The non-trivial transitions alternate start, end, start, … from the initial state. The final active flag is the initial one flipped once per change. |
| Debounce.ActiveStaysQuiet | aqmaq/vision/line_demo.py:121-125 | While active, further on-inputs publish nothing and keep it active. |
| Debounce.OnEpisodeStartsOnce | aqmaq/vision/line_demo.py:121-125 | A run of on-inputs from the inactive state has exactly one start, at its first input, and no end. |
| LineDemo.CrossingIndicesSpec | aqmaq/vision/line_demo.py:100-109 | The crossing contours are exactly those with area above the threshold and a centre within the tolerance of the line, in contour order. |
| LineDemo.CrossLineEffects | aqmaq/vision/line_demo.py:101-117 | Defined as the crossing effects of a frame's contours, in order. Its properties are in `CrossLineEffectsShape`, `CrossLineCounts` and `CrossLineEffectsValid`. |
| LineDemo.CrossLineEffectsShape | aqmaq/vision/line_demo.py:101-117 | Each crossing contour, in order, yields a `cross_line` incident at its centre `y + h // 2`. A thumbnail write with the same timestamp follows it, and nothing else is produced. |
| LineDemo.CrossLineCounts | aqmaq/vision/line_demo.py:101-117 | A frame's crossing effects hold one `cross_line` and one thumbnail per crossing contour, and nothing of any other kind. |
| LineDemo.CrossLineEffectsValid | aqmaq/vision/line_demo.py:113-117 | With non-negative clock readings, every `cross_line` incident is a valid incident. |
| LineDemo.FrameStep | aqmaq/vision/line_demo.py:96-129 | Defined as one debounce step on the motion test, with the frame's crossing effects followed by the presence effects. Its properties are in `FrameStepCounts`. |
| LineDemo.FrameStepCounts | aqmaq/vision/line_demo.py:96-129 | A frame publishes `motion_start` iff motion while absent, and `motion_end` iff no motion while present past the timeout. It publishes one `cross_line` per crossing contour and never opens or releases the capture. Starts minus ends equals the change in presence. |
| LineDemo.ShouldRetryRtsp | aqmaq/vision/line_demo.py:93-94 | Defined as: the source is RTSP and fewer than five attempts are used. Its properties are in `RtspFailuresExhaust` and `FrameRestoresBudget`. |
| LineDemo.RtspFailuresExhaust | aqmaq/vision/line_demo.py:58-67 | On RTSP with `a` attempts used, consecutive failures re-open exactly `5 - a` times, releasing and re-opening each time. The loop then ends at the next failure with the presence state untouched. |
| LineDemo.AllFailingRtspRun | aqmaq/vision/line_demo.py:51-78 | A run on RTSP where every read fails opens once, re-opens exactly five times, reads six times, and ends with a final release. |
| LineDemo.FrameRestoresBudget | aqmaq/vision/line_demo.py:69 | A successful read resets the attempt count: after a frame, failures re-open five more times. |
| LineDemo.NonRtspFailureEnds | aqmaq/vision/line_demo.py:58-67 | On a source that is not RTSP, the first failed read ends the loop with no re-open and no effect. |
| LineDemo.ReopensBounded | aqmaq/vision/line_demo.py:53-69 | Re-opens never exceed the remaining budget plus five per successful frame, and the loop uses no more reads than it is given. |
| LineDemo.AdvanceOne | aqmaq/vision/line_demo.py:57-76 | Defined as one read: a failure re-opens or ends the stream, and a frame takes one frame step and may end on ESC. Its properties are in `AdvanceCounts`. |
| LineDemo.AdvanceCounts | aqmaq/vision/line_demo.py:57-76 | One read opens and releases the capture once each iff it re-opens. Its starts minus ends equals the change in presence. |
| LineDemo.ReadLoop | aqmaq/vision/line_demo.py:56-76 | Defined as successive reads until a stop reason or the end of the outcomes. Its properties are in `ReadLoopCounts`, `ReopensBounded`, `RtspFailuresExhaust` and `ReadLoopValid`. |
| LineDemo.ReadLoopCounts | aqmaq/vision/line_demo.py:56-76 | Across the loop, opens and releases each equal the re-opens. Starts minus ends equals the change in presence. |
| LineDemo.LineRun | aqmaq/vision/line_demo.py:51-78 | Defined as one open, the read loop, then one release. Its properties are in `CaptureBalanced` and `AllFailingRtspRun`. |
| LineDemo.CaptureBalanced | aqmaq/vision/line_demo.py:51-78 | A whole run opens and releases the capture equally often, once more than it re-opens. The `motion_start` count is the `motion_end` count or one more. |
| LineDemo.ReadLoopValid | aqmaq/vision/line_demo.py:56-76 | With non-negative clock readings, every incident the loop publishes is valid. |
| LineDemo.MotionState.constructor | aqmaq/vision/line_demo.py:18-21 | A fresh presence record is absent and stamped with the clock reading at creation. |
| LineDemo.LineDemoRunner.constructor | aqmaq/vision/line_demo.py:27-40 | The runner keeps the settings, the area threshold (default 500) and the line tolerance (default 5), with nothing logged yet. |
| LineDemo.LineDemoRunner.HandleCrossLine | aqmaq/vision/line_demo.py:113-117 | Appends the `cross_line` incident at `y`, then the thumbnail write with the same timestamp. |
| LineDemo.LineDemoRunner.ProcessFrame | aqmaq/vision/line_demo.py:96-111 | Returns whether any contour's area exceeds the threshold. Appends exactly the crossing effects of the frame's contours, in order. |
| LineDemo.LineDemoRunner.UpdatePresence | aqmaq/vision/line_demo.py:119-129 | The record becomes the debounce step of its old value. The log gains `motion_start` or `motion_end` exactly when the step starts or ends presence. |
| LineDemo.LineDemoRunner.HandleFrame | aqmaq/vision/line_demo.py:69-71 | A frame's processing then presence update: the new record and log are those of the frame step. |
| LineDemo.LineDemoRunner.ReadOne | aqmaq/vision/line_demo.py:57-76 | One loop iteration: effects, record, attempt count, re-open flag and stop reason are those of one read. |
| LineDemo.LineDemoRunner.Run | aqmaq/vision/line_demo.py:42-81 | The whole run's log, re-open count and stop reason are those of the run specification: open, loop, release in the `finally`. |
| LineDemo.LineDemoRunner.ReadFrames | aqmaq/vision/line_demo.py:55-76 | The `while` loop's log, re-opens, stop reason and final presence record are those of the loop specification. |
| ZoneDemo.InitialStates | aqmaq/vision/zone_runner.py:48 | One record per distinct zone name, inactive with score 0.0. |
| ZoneDemo.InitialStatesLastWins | aqmaq/vision/zone_runner.py:48 | Duplicates share one record: it carries the creation stamp of the last zone with that name. |
| ZoneDemo.FaceIncidents | aqmaq/vision/zone_runner.py:117-126 | One `face_capture` incident per saved path, in order, each with the zone and the path as metadata. |
| ZoneDemo.FaceIncidentsCount | aqmaq/vision/zone_runner.py:117-126 | A face-capture pass publishes only `face_capture` incidents, one per path. |
| ZoneDemo.TransitionEffects | aqmaq/vision/zone_runner.py:97-126 | Defined as nothing when unchanged, an `interaction_start` then a face-capture pass and its incidents on a start, and an `interaction_end` on an end. Its properties are in `ZoneStepCounts` and `TransitionEffectsZone`. |
| ZoneDemo.ZoneStep | aqmaq/vision/zone_runner.py:91-106 | The zone's score is recorded, and its active flag and stamp take one debounce step on `score >= threshold` with the cooldown. Every other record is unchanged, and no name is added or removed. |
| ZoneDemo.ZoneStepCounts | aqmaq/vision/zone_runner.py:97-106 | A zone publishes one `interaction_start` and runs one face-capture pass iff the score reaches the threshold while inactive, followed by one `face_capture` per saved path. It publishes `interaction_end` iff the score is below the threshold while active past the cooldown (strict). It never touches the capture. |
| ZoneDemo.ProcessZones | aqmaq/vision/zone_runner.py:89-106 | A frame changes no zone names. |
| ZoneDemo.ProcessZonesSnoc | aqmaq/vision/zone_runner.py:91-106 | Zones are processed in list order: a frame over `i + 1` zones is the frame over `i` zones followed by zone `i`'s step. |
| ZoneDemo.ProcessZonesUntouched | aqmaq/vision/zone_runner.py:91-106 | A record whose name is not among the zones is unchanged by a frame. |
| ZoneDemo.ProcessZonesLastScore | aqmaq/vision/zone_runner.py:91-95 | After a frame, a zone's recorded score is the frame's score for the last zone with that name. |
| ZoneDemo.ProcessZonesNoCapture | aqmaq/vision/zone_runner.py:89-106 | A frame never opens or releases the capture. |
| ZoneDemo.ProcessZonesValid | aqmaq/vision/zone_runner.py:108-126 | With non-negative clock readings, every incident a frame publishes is valid. |
| ZoneDemo.AdvanceOne | aqmaq/vision/zone_runner.py:58-72 | One read never adds or removes a zone record. |
| ZoneDemo.ZoneLoop | aqmaq/vision/zone_runner.py:56-72 | The read loop never adds or removes a zone record. |
| ZoneDemo.RtspReopensEveryFailure | aqmaq/vision/zone_runner.py:58-65 | On RTSP, `n` failed reads re-open exactly `n` times. Their effects are exactly `n` release-then-open pairs, so no incident of any event is published. They leave the records as they were and never end the stream by themselves. |
| ZoneDemo.NonRtspFailureEnds | aqmaq/vision/zone_runner.py:58-66 | On a source that is not RTSP, the first failed read ends the loop with no effect. |
| ZoneDemo.ZoneAdvanceCounts | aqmaq/vision/zone_runner.py:57-72 | One read opens and releases the capture once each iff it re-opens. |
| ZoneDemo.ZoneLoopCounts | aqmaq/vision/zone_runner.py:56-72 | Across the loop, opens and releases each equal the re-opens. |
| ZoneDemo.ZoneRun | aqmaq/vision/zone_runner.py:50-78 | Defined as one open, the read loop, then one release. Its properties are in `ZoneCaptureBalanced`. |
| ZoneDemo.ZoneCaptureBalanced | aqmaq/vision/zone_runner.py:54-75 | A whole run opens and releases the capture equally often, once more than it re-opens. |
| ZoneDemo.TransitionEffectsZone | aqmaq/vision/zone_runner.py:97-126 | Every effect of a zone's transition names that zone. |
| ZoneDemo.ProcessZonesOwnZone | aqmaq/vision/zone_runner.py:89-106 | In one frame, a zone whose name no other zone has, scoring at or above the threshold, gets one `interaction_start` and one face-capture pass iff it was inactive, and no `interaction_end`. It ends active. Before its own step its record is untouched. |
| ZoneDemo.AdvanceOwnZone | aqmaq/vision/zone_runner.py:68-72 | The same for one frame read: it starts the zone iff inactive, never ends it, and leaves it active. |
| ZoneDemo.OnEpisodeStartsOnce | aqmaq/vision/zone_runner.py:89-106 | For any zone list, with or without a window, take a zone whose name no other zone has and a run of frames in which it scores at or above the threshold. Counting only the incidents and passes for that zone, the run yields one `interaction_start` and one face-capture pass if the zone was inactive, none if it was active, and no `interaction_end`. The zone ends active. |
| ZoneDemo.ZoneRunner.constructor | aqmaq/vision/zone_runner.py:30-48 | The runner keeps settings, zones, threshold (default 0.6) and cooldown (default 2.0). Its map is the initial record per name, with no capture and nothing logged. |
| ZoneDemo.ZoneRunner.EmitInteractionEvent | aqmaq/vision/zone_runner.py:108-115 | Appends one incident of the event, with the zone and the score as metadata. |
| ZoneDemo.ZoneRunner.CaptureFaces | aqmaq/vision/zone_runner.py:117-126 | Appends one face-capture pass, then its `face_capture` incidents in path order. |
| ZoneDemo.ZoneRunner.StepZone | aqmaq/vision/zone_runner.py:92-106 | The map and the log become those of the zone step. |
| ZoneDemo.ZoneRunner.ProcessFrame | aqmaq/vision/zone_runner.py:89-106 | The `for` loop over zones leaves the map and the log equal to those of the frame specification. |
| ZoneDemo.ZoneRunner.ReadOne | aqmaq/vision/zone_runner.py:58-72 | One loop iteration: the log, the map, the re-open flag and the stop reason are those of one read. A re-open leaves the capture opened from the settings; otherwise the capture is unchanged. |
| ZoneDemo.ZoneRunner.Run | aqmaq/vision/zone_runner.py:50-78 | The whole run's log, map, re-open count and stop reason are those of the run specification: open, loop, release in the `finally`. |
| ZoneDemo.ZoneRunner.ReadFrames | aqmaq/vision/zone_runner.py:56-72 | The `while` loop's log, map, re-opens and stop reason are those of the loop specification. |

## Left out

- Rendering: `_render_gui`, `imshow`, `waitKey` and `destroyAllWindows`. Pressing ESC is an input of each read outcome.
- `time.sleep(0.5)` and all logging: neither has any effect the model could observe.
- OpenCV itself: MOG2, `findContours`, `boundingRect`, `cvtColor`, `GaussianBlur`, `Canny`, `detectMultiScale`, `resize` and `imwrite`. These are foreign library code. Their results are inputs: rectangles, edge maps, detections and write outcomes.
- TFLite inference is foreign code. The interpreter's output is an input, and tensor preparation is not modelled.
- The HTTP publisher, the thumbnail writer, storage and the API (`services/events.py`, `storage.py`, `api.py`) are I/O. A publish or a thumbnail write is one log entry.
- `get_settings`, the demo scripts, environment and `.env` loading, and the FFmpeg capture options are process configuration.
- `api_url` is a plain string, because URL validation belongs to pydantic.
- Floating point is modelled as real arithmetic: scores, timestamps and normalised coordinates are `real`, and IEEE rounding is not modelled.
- Zones.RawZone, Zones.RawZoneSpec, Zones.LoadZoneList and Zones.LoadZones: a zone whose name is not a string is refused with `NameNotText`, where Python would keep whatever value was given. The model keeps names as text.
- ZoneModel.NewClassifier: when `allocate_tensors()` or a detail call raises after the `Interpreter` is stored, the source keeps the model path. `NewClassifier` falls back to the heuristic instead, as the finding below intends. The code as written is modelled by `InitAsWritten` and `PredictAsWritten`.
- Paths.Join: joins a single path component. A name containing separators is not split.
- LineDemo.ReadLoop and ZoneDemo.ZoneLoop: the outcomes of `cap.read()` are a finite sequence, so the model's loop also stops when they run out (`OutOfReads`). The source loops until a stop condition holds.
- ZoneDemo.ZoneObservation: the classifier's score for each zone is an input. The runner does not compose `extract_roi` with `predict_proba`, whose properties are proved on their own in `Zones` and `ZoneModel`. Likewise, the face-capture pass's saved paths are an input, and the service is modelled in `FaceCapture`.
- An exception from `predict_proba` or from the face-capture pass inside a zone runner frame is not modelled. In the source it would leave the loop through the `finally`.
- The directory creation in `FaceCaptureService.__init__` and in the thumbnail writer is file-system I/O.
- Clock readings (`time.time()`) are parameters: one per frame, per crossing, per zone incident and per saved face. The stamp of a new `MotionState` and of each new `ZoneState` is a parameter as well.
- The re-exports in `services/__init__.py` are packaging, not logic.
- ZoneDemo.ZoneRunner.Run: the `_cap is not None` test in the `finally` always holds here, because the capture is opened before the loop.

## Findings

| source | as written | input that shows it | evidently intended | confidence | as-written member | corrected member |
|---|---|---|---|---|---|---|
| aqmaq/services/zone_model.py:30-40 | The `Interpreter` is stored in `_interpreter` before `allocate_tensors()` and the detail calls run. If one of those raises, the exception is only logged. `_interpreter` stays set and `_input_details` stays `None`, so `predict_proba` takes the model path. | An existing model file whose `allocate_tensors()` raises, then any non-empty region: `predict_proba` raises `TypeError` when it indexes `None`. | A model that fails to load falls back to the heuristic, as it does when the `Interpreter` constructor itself fails. | not executed | ZoneModel.SetupFailureBreaksPrediction | ZoneModel.NewClassifier, ZoneModel.FallbackOnLoadFailure |
