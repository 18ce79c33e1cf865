/** The line-crossing runner (`LineDemoRunner`): per frame, every moving region larger than the area
    threshold counts as motion, and one whose vertical centre lies within the tolerance of the
    configured line is a crossing (an incident plus a thumbnail); presence of motion is debounced into
    `motion_start`/`motion_end`; read failures on an RTSP source re-open the capture at most five times
    in a row. The background subtractor and contour finder are an oracle: each frame arrives as the
    bounding boxes they would find, each crossing with the clock reading taken when it was handled. */
module LineDemo {
  import opened Base
  import opened Models
  import opened Config
  import opened Capture
  import opened Effects
  import Debounce

  /** A bounding rectangle as `cv2.boundingRect` returns it. */
  datatype Rect = Rect(x: int, y: int, w: int, h: int)

  /** A detected region, with the clock reading `_handle_cross_line` would take if it is a crossing. */
  datatype Contour = Contour(box: Rect, stamp: real)

  const DefaultAreaThreshold: int := 500
  const DefaultLineTolerance: int := 5
  /** Consecutive RTSP re-open attempts allowed before the loop gives up. */
  const MaxReopenAttempts: nat := 5

  function Area(r: Rect): int { r.w * r.h }

  /** The vertical centre; Python's floor division by 2 agrees with Dafny's division by a positive divisor. */
  function CenterY(r: Rect): int { r.y + r.h / 2 }

  function Abs(v: int): nat { if v < 0 then -v else v }

  /** A region counts as motion only when its area strictly exceeds the threshold. */
  predicate Qualifies(r: Rect, areaThreshold: int) { Area(r) > areaThreshold }

  /** A qualifying region is a crossing when its centre is within the tolerance of the line. */
  predicate Crosses(c: Contour, areaThreshold: int, lineY: int, tolerance: int)
  {
    Qualifies(c.box, areaThreshold) && Abs(CenterY(c.box) - lineY) <= tolerance
  }

  /** Motion is detected when at least one region qualifies. */
  predicate MotionDetected(contours: seq<Contour>, areaThreshold: int)
  {
    exists i :: 0 <= i < |contours| && Qualifies(contours[i].box, areaThreshold)
  }

  function CrossLineIncident(y: int, timestamp: real): Incident
  {
    Incident(timestamp, CrossLine, Some(y), None, None, None)
  }

  /** What one crossing does: publish the incident, then persist a thumbnail under the same timestamp. */
  function CrossingEffects(y: int, timestamp: real): seq<Effect>
  {
    [Published(CrossLineIncident(y, timestamp)), ThumbnailPersisted(timestamp)]
  }

  /** The effects of the crossings of one frame, in contour order. */
  function CrossLineEffects(contours: seq<Contour>, areaThreshold: int, lineY: int, tolerance: int): seq<Effect>
    decreases |contours|
  {
    if |contours| == 0 then []
    else
      var init, last := contours[..|contours| - 1], contours[|contours| - 1];
      CrossLineEffects(init, areaThreshold, lineY, tolerance)
        + (if Crosses(last, areaThreshold, lineY, tolerance) then CrossingEffects(CenterY(last.box), last.stamp) else [])
  }

  /** The positions of the crossings of one frame, in contour order. */
  function CrossingIndices(contours: seq<Contour>, areaThreshold: int, lineY: int, tolerance: int): seq<nat>
    decreases |contours|
  {
    if |contours| == 0 then []
    else
      var n := |contours| - 1;
      CrossingIndices(contours[..n], areaThreshold, lineY, tolerance)
        + (if Crosses(contours[n], areaThreshold, lineY, tolerance) then [n] else [])
  }

  /** The crossings are exactly the qualifying regions near the line, each once, in order. */
  lemma {:induction false} CrossingIndicesSpec(contours: seq<Contour>, areaThreshold: int, lineY: int, tolerance: int)
    ensures var ix := CrossingIndices(contours, areaThreshold, lineY, tolerance);
      (forall k :: 0 <= k < |ix| ==> ix[k] < |contours| && Crosses(contours[ix[k]], areaThreshold, lineY, tolerance))
      && (forall i :: 0 <= i < |contours| && Crosses(contours[i], areaThreshold, lineY, tolerance) ==> i in ix)
      && (forall a, b :: 0 <= a < b < |ix| ==> ix[a] < ix[b])
    decreases |contours|
  {
    if |contours| > 0 {
      var n := |contours| - 1;
      var init := contours[..n];
      CrossingIndicesSpec(init, areaThreshold, lineY, tolerance);
      assert forall i :: 0 <= i < n ==> init[i] == contours[i];
    }
  }

  /** Crossing number `k` contributes effects `2k` (its incident, `y` being its centre) and `2k + 1`
      (its thumbnail), so the frame's effects are the crossings' pairs in order and nothing else. */
  lemma {:induction false} CrossLineEffectsShape(contours: seq<Contour>, areaThreshold: int, lineY: int, tolerance: int)
    ensures var ix := CrossingIndices(contours, areaThreshold, lineY, tolerance);
      var es := CrossLineEffects(contours, areaThreshold, lineY, tolerance);
      && |es| == 2 * |ix|
      && (forall k :: 0 <= k < |ix| ==> ix[k] < |contours|)
      && (forall k :: 0 <= k < |ix| ==> es[2 * k] == Published(CrossLineIncident(CenterY(contours[ix[k]].box), contours[ix[k]].stamp)))
      && (forall k :: 0 <= k < |ix| ==> es[2 * k + 1] == ThumbnailPersisted(contours[ix[k]].stamp))
    decreases |contours|
  {
    if |contours| > 0 {
      var n := |contours| - 1;
      var init := contours[..n];
      CrossLineEffectsShape(init, areaThreshold, lineY, tolerance);
      var ix0 := CrossingIndices(init, areaThreshold, lineY, tolerance);
      var es0 := CrossLineEffects(init, areaThreshold, lineY, tolerance);
      var ix := CrossingIndices(contours, areaThreshold, lineY, tolerance);
      var es := CrossLineEffects(contours, areaThreshold, lineY, tolerance);
      forall k | 0 <= k < |ix0|
        ensures ix[k] == ix0[k] && es[2 * k] == es0[2 * k] && es[2 * k + 1] == es0[2 * k + 1]
        ensures contours[ix[k]] == init[ix0[k]]
      {
      }
      if Crosses(contours[n], areaThreshold, lineY, tolerance) {
        assert ix[|ix0|] == n;
        assert es[2 * |ix0|] == Published(CrossLineIncident(CenterY(contours[n].box), contours[n].stamp));
        assert es[2 * |ix0| + 1] == ThumbnailPersisted(contours[n].stamp);
      }
    }
  }

  /** A frame publishes one `cross_line` incident per thumbnail and no other effect. */
  lemma {:induction false} CrossLineCounts(contours: seq<Contour>, areaThreshold: int, lineY: int, tolerance: int, k: Kind)
    ensures var n := |CrossingIndices(contours, areaThreshold, lineY, tolerance)|;
      Count(CrossLineEffects(contours, areaThreshold, lineY, tolerance), k)
        == if k == PublishedKind(CrossLine) || k == ThumbnailKind then n else 0
    decreases |contours|
  {
    if |contours| > 0 {
      var n := |contours| - 1;
      var last := contours[n];
      CrossLineCounts(contours[..n], areaThreshold, lineY, tolerance, k);
      var tail := if Crosses(last, areaThreshold, lineY, tolerance) then CrossingEffects(CenterY(last.box), last.stamp) else [];
      CountConcat(CrossLineEffects(contours[..n], areaThreshold, lineY, tolerance), tail, k);
      if Crosses(last, areaThreshold, lineY, tolerance) {
        assert tail[1..] == [ThumbnailPersisted(last.stamp)];
        CountSingle(ThumbnailPersisted(last.stamp), k);
      }
    }
  }

  /** Crossing incidents are valid whenever the clock readings are. */
  lemma {:induction false} CrossLineEffectsValid(contours: seq<Contour>, areaThreshold: int, lineY: int, tolerance: int)
    requires forall i :: 0 <= i < |contours| ==> contours[i].stamp >= 0.0
    ensures AllValid(CrossLineEffects(contours, areaThreshold, lineY, tolerance))
    decreases |contours|
  {
    if |contours| > 0 {
      var n := |contours| - 1;
      var last := contours[n];
      CrossLineEffectsValid(contours[..n], areaThreshold, lineY, tolerance);
      var tail := if Crosses(last, areaThreshold, lineY, tolerance) then CrossingEffects(CenterY(last.box), last.stamp) else [];
      AllValidConcat(CrossLineEffects(contours[..n], areaThreshold, lineY, tolerance), tail);
    }
  }

  /** The incident the presence update publishes for a transition. */
  function PresenceEffects(t: Debounce.Transition, now: real): seq<Effect>
  {
    match t
    case Unchanged => []
    case Started => [Published(Incident(now, MotionStart, None, None, None, None))]
    case Ended => [Published(Incident(now, MotionEnd, None, None, None, None))]
  }

  datatype FrameResult = FrameResult(machine: Debounce.Machine, effects: seq<Effect>)

  /** One successfully read frame: the crossings, then the presence update at clock reading `now`. */
  function FrameStep(s: Settings, areaThreshold: int, tolerance: int, m: Debounce.Machine,
                     contours: seq<Contour>, now: real): FrameResult
  {
    var step := Debounce.Step(m, MotionDetected(contours, areaThreshold), now, s.noMotionSeconds);
    FrameResult(step.machine, CrossLineEffects(contours, areaThreshold, s.lineY, tolerance) + PresenceEffects(step.transition, now))
  }

  /** A frame publishes `motion_start` exactly when motion appears while absent, `motion_end` exactly when
      no motion is seen while present and the timeout has passed, and one `cross_line` per crossing. */
  lemma FrameStepCounts(s: Settings, areaThreshold: int, tolerance: int, m: Debounce.Machine,
                        contours: seq<Contour>, now: real)
    ensures var f := FrameStep(s, areaThreshold, tolerance, m, contours, now);
      var motion := MotionDetected(contours, areaThreshold);
      && Count(f.effects, PublishedKind(MotionStart)) == Bit(motion && !m.active)
      && Count(f.effects, PublishedKind(MotionEnd)) == Bit(!motion && m.active && now - m.lastOnTs > s.noMotionSeconds)
      && Count(f.effects, PublishedKind(CrossLine)) == |CrossingIndices(contours, areaThreshold, s.lineY, tolerance)|
      && Count(f.effects, OpenedKind) == 0
      && Count(f.effects, ReleasedKind) == 0
      && Bit(f.machine.active) - Bit(m.active)
         == Count(f.effects, PublishedKind(MotionStart)) - Count(f.effects, PublishedKind(MotionEnd))
  {
    var step := Debounce.Step(m, MotionDetected(contours, areaThreshold), now, s.noMotionSeconds);
    var cross := CrossLineEffects(contours, areaThreshold, s.lineY, tolerance);
    var presence := PresenceEffects(step.transition, now);
    forall k: Kind
      ensures Count(cross + presence, k) == Count(cross, k) + Count(presence, k)
    {
      CountConcat(cross, presence, k);
    }
    if presence != [] {
      forall k: Kind
        ensures Count(presence, k) == if KindOf(presence[0]) == k then 1 else 0
      {
        assert presence == [presence[0]];
        CountSingle(presence[0], k);
      }
    }
    CrossLineCounts(contours, areaThreshold, s.lineY, tolerance, PublishedKind(MotionStart));
    CrossLineCounts(contours, areaThreshold, s.lineY, tolerance, PublishedKind(MotionEnd));
    CrossLineCounts(contours, areaThreshold, s.lineY, tolerance, PublishedKind(CrossLine));
    CrossLineCounts(contours, areaThreshold, s.lineY, tolerance, OpenedKind);
    CrossLineCounts(contours, areaThreshold, s.lineY, tolerance, ReleasedKind);
  }

  /** One `cap.read()`: a failure, or a frame with the regions found in it, the presence clock reading,
      and whether ESC was pressed in the window shown after it. */
  datatype ReadOutcome = ReadFailed | FrameRead(contours: seq<Contour>, now: real, escPressed: bool)

  datatype LoopResult = LoopResult(effects: seq<Effect>, reopens: nat, consumed: nat, reason: StopReason,
                                   machine: Debounce.Machine)

  /** Another re-open is allowed only for an RTSP source and fewer than five attempts so far. */
  predicate ShouldRetryRtsp(s: Settings, attempts: int)
  {
    IsRtspSource(s) && attempts < MaxReopenAttempts
  }

  /** What one read does: its effects, the presence machine and attempt count after it, whether it
      re-opened the capture, and the reason to stop if the loop ends with it. A failure on an RTSP
      source with attempts left is re-opened; any other failure ends the stream; a frame resets the
      attempt count and ends the loop only if ESC was pressed while the window is shown. */
  datatype Advance = Advance(effects: seq<Effect>, machine: Debounce.Machine, attempts: nat, reopened: bool,
                             stop: Option<StopReason>)

  function AdvanceOne(s: Settings, areaThreshold: int, tolerance: int, noGui: bool, m: Debounce.Machine,
                      attempts: nat, outcome: ReadOutcome): Advance
  {
    match outcome
    case ReadFailed =>
      if ShouldRetryRtsp(s, attempts) then Advance([CaptureReleased, CaptureOpened(OpenCapture(s))], m, attempts + 1, true, None)
      else Advance([], m, attempts, false, Some(EndOfStream))
    case FrameRead(contours, now, escPressed) =>
      var f := FrameStep(s, areaThreshold, tolerance, m, contours, now);
      Advance(f.effects, f.machine, 0, false, if !noGui && escPressed then Some(EscPressed) else None)
  }

  /** The read loop from presence machine `m` with `attempts` consecutive re-opens so far. */
  function ReadLoop(s: Settings, areaThreshold: int, tolerance: int, noGui: bool, m: Debounce.Machine,
                    attempts: nat, outcomes: seq<ReadOutcome>): LoopResult
    decreases |outcomes|
  {
    if |outcomes| == 0 then LoopResult([], 0, 0, OutOfReads, m)
    else
      var st := AdvanceOne(s, areaThreshold, tolerance, noGui, m, attempts, outcomes[0]);
      if st.stop.Some? then LoopResult(st.effects, 0, 1, st.stop.value, st.machine)
      else
        var rest := ReadLoop(s, areaThreshold, tolerance, noGui, st.machine, st.attempts, outcomes[1..]);
        LoopResult(st.effects + rest.effects, rest.reopens + (if st.reopened then 1 else 0), rest.consumed + 1,
                   rest.reason, rest.machine)
  }

  /** A whole run: open the capture, run the loop from an absent presence stamped `startNow`, and
      release the capture however the loop ends. */
  function LineRun(s: Settings, areaThreshold: int, tolerance: int, noGui: bool, startNow: real,
                   outcomes: seq<ReadOutcome>): LoopResult
  {
    var r := ReadLoop(s, areaThreshold, tolerance, noGui, Debounce.Machine(false, startNow), 0, outcomes);
    r.(effects := [CaptureOpened(OpenCapture(s))] + r.effects + [CaptureReleased])
  }

  /** The loop from position `i`, unfolded by one read. */
  lemma ReadLoopAt(s: Settings, areaThreshold: int, tolerance: int, noGui: bool, m: Debounce.Machine,
                   a: nat, outcomes: seq<ReadOutcome>, i: nat)
    requires i < |outcomes|
    ensures var here := ReadLoop(s, areaThreshold, tolerance, noGui, m, a, outcomes[i..]);
      var st := AdvanceOne(s, areaThreshold, tolerance, noGui, m, a, outcomes[i]);
      var rest := ReadLoop(s, areaThreshold, tolerance, noGui, st.machine, st.attempts, outcomes[i + 1..]);
      if st.stop.Some? then here == LoopResult(st.effects, 0, 1, st.stop.value, st.machine)
      else
        && here.effects == st.effects + rest.effects
        && here.reopens == rest.reopens + (if st.reopened then 1 else 0)
        && here.reason == rest.reason && here.machine == rest.machine
  {
    assert outcomes[i..][0] == outcomes[i] && outcomes[i..][1..] == outcomes[i + 1..];
  }

  /** The number of frames read successfully. */
  function Frames(outcomes: seq<ReadOutcome>): nat
    decreases |outcomes|
  {
    if |outcomes| == 0 then 0 else (if outcomes[0].FrameRead? then 1 else 0) + Frames(outcomes[1..])
  }

  /** On an RTSP source, failures in a row exhaust the remaining attempts: with `a` used, exactly
      `5 - a` re-opens happen and the failure after them ends the stream, nothing else happening. */
  lemma {:induction false} RtspFailuresExhaust(s: Settings, areaThreshold: int, tolerance: int, noGui: bool,
                                               m: Debounce.Machine, a: nat, outcomes: seq<ReadOutcome>)
    requires IsRtspSource(s) && a <= MaxReopenAttempts
    requires |outcomes| >= MaxReopenAttempts - a + 1
    requires forall i :: 0 <= i <= MaxReopenAttempts - a ==> outcomes[i] == ReadFailed
    ensures var r := ReadLoop(s, areaThreshold, tolerance, noGui, m, a, outcomes);
      r.reopens == MaxReopenAttempts - a && r.consumed == MaxReopenAttempts - a + 1
      && r.reason == EndOfStream && r.machine == m
      && r.effects == ReopenEffects(OpenCapture(s), MaxReopenAttempts - a)
    decreases MaxReopenAttempts - a
  {
    assert outcomes[0] == ReadFailed;
    if a < MaxReopenAttempts {
      assert forall i :: 0 <= i <= MaxReopenAttempts - (a + 1) ==> outcomes[1..][i] == outcomes[i + 1];
      RtspFailuresExhaust(s, areaThreshold, tolerance, noGui, m, a + 1, outcomes[1..]);
    }
  }

  /** A run on an RTSP source whose reads all fail re-opens exactly five times and consumes six reads. */
  lemma AllFailingRtspRun(s: Settings, areaThreshold: int, tolerance: int, noGui: bool, startNow: real,
                          outcomes: seq<ReadOutcome>)
    requires IsRtspSource(s) && |outcomes| >= 6
    requires forall i :: 0 <= i < |outcomes| ==> outcomes[i] == ReadFailed
    ensures var r := LineRun(s, areaThreshold, tolerance, noGui, startNow, outcomes);
      && r.reopens == 5 && r.consumed == 6 && r.reason == EndOfStream
      && r.effects == [CaptureOpened(OpenCapture(s))] + ReopenEffects(OpenCapture(s), 5) + [CaptureReleased]
  {
    RtspFailuresExhaust(s, areaThreshold, tolerance, noGui, Debounce.Machine(false, startNow), 0, outcomes);
  }

  /** A successful frame restores the full budget: after it, five more failures are re-opened. */
  lemma FrameRestoresBudget(s: Settings, areaThreshold: int, tolerance: int, m: Debounce.Machine, a: nat,
                            contours: seq<Contour>, now: real, failures: seq<ReadOutcome>)
    requires IsRtspSource(s) && |failures| >= 6
    requires forall i :: 0 <= i < |failures| ==> failures[i] == ReadFailed
    ensures var r := ReadLoop(s, areaThreshold, tolerance, true, m, a, [FrameRead(contours, now, false)] + failures);
      r.reopens == 5 && r.reason == EndOfStream && r.consumed == 7
  {
    var outcomes := [FrameRead(contours, now, false)] + failures;
    assert outcomes[1..] == failures;
    var f := FrameStep(s, areaThreshold, tolerance, m, contours, now);
    RtspFailuresExhaust(s, areaThreshold, tolerance, true, f.machine, 0, failures);
  }

  /** A source that is not RTSP ends at its first failed read, with no re-open. */
  lemma NonRtspFailureEnds(s: Settings, areaThreshold: int, tolerance: int, noGui: bool, m: Debounce.Machine,
                           a: nat, outcomes: seq<ReadOutcome>)
    requires !IsRtspSource(s) && |outcomes| > 0 && outcomes[0] == ReadFailed
    ensures ReadLoop(s, areaThreshold, tolerance, noGui, m, a, outcomes) == LoopResult([], 0, 1, EndOfStream, m)
  {
  }

  /** Re-opens are bounded: at most the remaining attempts plus five per successful frame. */
  lemma {:induction false} ReopensBounded(s: Settings, areaThreshold: int, tolerance: int, noGui: bool,
                                          m: Debounce.Machine, a: nat, outcomes: seq<ReadOutcome>)
    requires a <= MaxReopenAttempts
    ensures var r := ReadLoop(s, areaThreshold, tolerance, noGui, m, a, outcomes);
      r.reopens <= (MaxReopenAttempts - a) + MaxReopenAttempts * Frames(outcomes)
      && r.consumed <= |outcomes|
    decreases |outcomes|
  {
    if |outcomes| > 0 {
      match outcomes[0]
      case ReadFailed =>
        if ShouldRetryRtsp(s, a) {
          ReopensBounded(s, areaThreshold, tolerance, noGui, m, a + 1, outcomes[1..]);
        }
      case FrameRead(contours, now, escPressed) =>
        var f := FrameStep(s, areaThreshold, tolerance, m, contours, now);
        ReopensBounded(s, areaThreshold, tolerance, noGui, f.machine, 0, outcomes[1..]);
    }
  }

  /** One read opens and releases the capture once each exactly when it re-opens, and changes
      presence by its `motion_start` count less its `motion_end` count. */
  lemma AdvanceCounts(s: Settings, areaThreshold: int, tolerance: int, noGui: bool, m: Debounce.Machine,
                      a: nat, outcome: ReadOutcome)
    ensures var st := AdvanceOne(s, areaThreshold, tolerance, noGui, m, a, outcome);
      && Count(st.effects, OpenedKind) == Bit(st.reopened)
      && Count(st.effects, ReleasedKind) == Bit(st.reopened)
      && Count(st.effects, PublishedKind(MotionStart)) - Count(st.effects, PublishedKind(MotionEnd))
         == Bit(st.machine.active) - Bit(m.active)
  {
    match outcome
    case ReadFailed =>
      if ShouldRetryRtsp(s, a) {
        var pre := [CaptureReleased, CaptureOpened(OpenCapture(s))];
        assert pre[1..] == [CaptureOpened(OpenCapture(s))];
        forall k: Kind
          ensures Count(pre, k) == (if k == ReleasedKind then 1 else 0) + (if k == OpenedKind then 1 else 0)
        {
          CountSingle(CaptureOpened(OpenCapture(s)), k);
        }
      }
    case FrameRead(contours, now, _) =>
      FrameStepCounts(s, areaThreshold, tolerance, m, contours, now);
  }

  /** Across the loop every re-open releases and opens once; `motion_start` less `motion_end` is the
      change in presence. */
  lemma {:induction false} ReadLoopCounts(s: Settings, areaThreshold: int, tolerance: int, noGui: bool,
                                          m: Debounce.Machine, a: nat, outcomes: seq<ReadOutcome>)
    ensures var r := ReadLoop(s, areaThreshold, tolerance, noGui, m, a, outcomes);
      && Count(r.effects, OpenedKind) == r.reopens
      && Count(r.effects, ReleasedKind) == r.reopens
      && Count(r.effects, PublishedKind(MotionStart)) - Count(r.effects, PublishedKind(MotionEnd))
         == Bit(r.machine.active) - Bit(m.active)
    decreases |outcomes|
  {
    if |outcomes| > 0 {
      var st := AdvanceOne(s, areaThreshold, tolerance, noGui, m, a, outcomes[0]);
      AdvanceCounts(s, areaThreshold, tolerance, noGui, m, a, outcomes[0]);
      if st.stop.None? {
        ReadLoopCounts(s, areaThreshold, tolerance, noGui, st.machine, st.attempts, outcomes[1..]);
        var rest := ReadLoop(s, areaThreshold, tolerance, noGui, st.machine, st.attempts, outcomes[1..]);
        CountConcat(st.effects, rest.effects, OpenedKind);
        CountConcat(st.effects, rest.effects, ReleasedKind);
        CountConcat(st.effects, rest.effects, PublishedKind(MotionStart));
        CountConcat(st.effects, rest.effects, PublishedKind(MotionEnd));
      }
    }
  }

  /** Every run opens and releases the capture equally often, once more than it re-opens, and
      publishes at most one more `motion_start` than `motion_end`. */
  lemma CaptureBalanced(s: Settings, areaThreshold: int, tolerance: int, noGui: bool, startNow: real,
                        outcomes: seq<ReadOutcome>)
    ensures var r := LineRun(s, areaThreshold, tolerance, noGui, startNow, outcomes);
      && Count(r.effects, OpenedKind) == 1 + r.reopens
      && Count(r.effects, ReleasedKind) == 1 + r.reopens
      && Count(r.effects, PublishedKind(MotionEnd)) <= Count(r.effects, PublishedKind(MotionStart))
         <= Count(r.effects, PublishedKind(MotionEnd)) + 1
  {
    var m := Debounce.Machine(false, startNow);
    var loop := ReadLoop(s, areaThreshold, tolerance, noGui, m, 0, outcomes);
    ReadLoopCounts(s, areaThreshold, tolerance, noGui, m, 0, outcomes);
    var head := [CaptureOpened(OpenCapture(s))];
    forall k: Kind
      ensures Count(head + loop.effects + [CaptureReleased], k)
              == (if k == OpenedKind then 1 else 0) + Count(loop.effects, k) + (if k == ReleasedKind then 1 else 0)
    {
      CountConcat(head, loop.effects, k);
      CountConcat(head + loop.effects, [CaptureReleased], k);
      CountSingle(CaptureOpened(OpenCapture(s)), k);
      CountSingle(CaptureReleased, k);
    }
  }

  /** Every clock reading of a read sequence is non-negative. */
  predicate ClocksNonNegative(outcomes: seq<ReadOutcome>)
  {
    forall i :: 0 <= i < |outcomes| && outcomes[i].FrameRead? ==>
      outcomes[i].now >= 0.0 && forall j :: 0 <= j < |outcomes[i].contours| ==> outcomes[i].contours[j].stamp >= 0.0
  }

  /** Every incident the loop publishes is valid when the clock never reads negative. */
  lemma {:induction false} ReadLoopValid(s: Settings, areaThreshold: int, tolerance: int, noGui: bool,
                                         m: Debounce.Machine, a: nat, outcomes: seq<ReadOutcome>)
    requires ClocksNonNegative(outcomes)
    ensures AllValid(ReadLoop(s, areaThreshold, tolerance, noGui, m, a, outcomes).effects)
    decreases |outcomes|
  {
    if |outcomes| > 0 {
      assert ClocksNonNegative(outcomes[1..]) by {
        forall i | 0 <= i < |outcomes[1..]| ensures outcomes[1..][i] == outcomes[i + 1] { }
      }
      match outcomes[0]
      case ReadFailed =>
        if ShouldRetryRtsp(s, a) {
          ReadLoopValid(s, areaThreshold, tolerance, noGui, m, a + 1, outcomes[1..]);
          var rest := ReadLoop(s, areaThreshold, tolerance, noGui, m, a + 1, outcomes[1..]);
          AllValidConcat([CaptureReleased, CaptureOpened(OpenCapture(s))], rest.effects);
        }
      case FrameRead(contours, now, escPressed) =>
        var step := Debounce.Step(m, MotionDetected(contours, areaThreshold), now, s.noMotionSeconds);
        var f := FrameStep(s, areaThreshold, tolerance, m, contours, now);
        CrossLineEffectsValid(contours, areaThreshold, s.lineY, tolerance);
        AllValidConcat(CrossLineEffects(contours, areaThreshold, s.lineY, tolerance), PresenceEffects(step.transition, now));
        if noGui || !escPressed {
          ReadLoopValid(s, areaThreshold, tolerance, noGui, f.machine, 0, outcomes[1..]);
          var rest := ReadLoop(s, areaThreshold, tolerance, noGui, f.machine, 0, outcomes[1..]);
          AllValidConcat(f.effects, rest.effects);
        }
    }
  }

  /** The presence record; a fresh one is absent and stamped with the clock reading at creation. */
  class MotionState {
    var presence: bool
    var lastMotionTs: real

    constructor(now: real)
      ensures presence == false && lastMotionTs == now
    {
      presence := false;
      lastMotionTs := now;
    }

    function Machine(): Debounce.Machine
      reads this
    {
      Debounce.Machine(presence, lastMotionTs)
    }
  }

  /** The runner; `log` records the effects it has had, in order. */
  class LineDemoRunner {
    const settings: Settings
    const areaThreshold: int
    const lineTolerance: int
    ghost var log: seq<Effect>

    constructor(settings: Settings, areaThreshold: int := DefaultAreaThreshold,
                lineTolerance: int := DefaultLineTolerance)
      ensures this.settings == settings && this.areaThreshold == areaThreshold
      ensures this.lineTolerance == lineTolerance && log == []
    {
      this.settings := settings;
      this.areaThreshold := areaThreshold;
      this.lineTolerance := lineTolerance;
      log := [];
    }

    /** Publishes the crossing at height `y`, then persists the thumbnail under the same timestamp. */
    method HandleCrossLine(y: int, timestamp: real)
      modifies this`log
      ensures log == old(log) + CrossingEffects(y, timestamp)
    {
      log := log + [Published(CrossLineIncident(y, timestamp))];
      log := log + [ThumbnailPersisted(timestamp)];
    }

    /** Scans the regions of one frame; returns whether any qualifies and handles each crossing. */
    method ProcessFrame(contours: seq<Contour>) returns (motion: bool)
      modifies this`log
      ensures motion == MotionDetected(contours, areaThreshold)
      ensures log == old(log) + CrossLineEffects(contours, areaThreshold, settings.lineY, lineTolerance)
    {
      motion := false;
      var i := 0;
      while i < |contours|
        invariant 0 <= i <= |contours|
        invariant motion == MotionDetected(contours[..i], areaThreshold)
        invariant log == old(log) + CrossLineEffects(contours[..i], areaThreshold, settings.lineY, lineTolerance)
      {
        var box := contours[i].box;
        assert contours[..i + 1][..i] == contours[..i];
        assert contours[..i + 1][i] == contours[i];
        if box.w * box.h > areaThreshold {
          motion := true;
          var cy := box.y + box.h / 2;
          if Abs(cy - settings.lineY) <= lineTolerance {
            HandleCrossLine(cy, contours[i].stamp);
          }
        }
        i := i + 1;
      }
      assert contours[..|contours|] == contours;
    }

    /** Debounces presence at clock reading `now`, publishing `motion_start` or `motion_end`. */
    method UpdatePresence(state: MotionState, motion: bool, now: real)
      modifies this`log, state
      ensures state.Machine() == Debounce.Step(old(state.Machine()), motion, now, settings.noMotionSeconds).machine
      ensures log == old(log) + PresenceEffects(Debounce.Step(old(state.Machine()), motion, now, settings.noMotionSeconds).transition, now)
    {
      if motion {
        state.lastMotionTs := now;
        if !state.presence {
          state.presence := true;
          log := log + [Published(Incident(now, MotionStart, None, None, None, None))];
        }
      } else {
        if state.presence && now - state.lastMotionTs > settings.noMotionSeconds {
          state.presence := false;
          log := log + [Published(Incident(now, MotionEnd, None, None, None, None))];
        }
      }
    }

    /** One successfully read frame: process it, then update presence. */
    method HandleFrame(state: MotionState, contours: seq<Contour>, now: real)
      modifies this`log, state
      ensures state.Machine() == FrameStep(settings, areaThreshold, lineTolerance, old(state.Machine()), contours, now).machine
      ensures log == old(log) + FrameStep(settings, areaThreshold, lineTolerance, old(state.Machine()), contours, now).effects
    {
      var motion := ProcessFrame(contours);
      UpdatePresence(state, motion, now);
    }

    /** One `cap.read()` and what follows it: a re-open, the end of the stream, or the frame's
        processing and presence update. */
    method ReadOne(state: MotionState, noGui: bool, attempts: nat, outcome: ReadOutcome)
      returns (nextAttempts: nat, reopened: bool, stop: Option<StopReason>)
      modifies this`log, state
      ensures var st := AdvanceOne(settings, areaThreshold, lineTolerance, noGui, old(state.Machine()), attempts, outcome);
        && log == old(log) + st.effects && state.Machine() == st.machine
        && nextAttempts == st.attempts && reopened == st.reopened && stop == st.stop
    {
      match outcome
      case ReadFailed =>
        if ShouldRetryRtsp(settings, attempts) {
          log := log + [CaptureReleased];
          log := log + [CaptureOpened(OpenCapture(settings))];
          return attempts + 1, true, None;
        }
        return attempts, false, Some(EndOfStream);
      case FrameRead(contours, now, escPressed) =>
        HandleFrame(state, contours, now);
        stop := if !noGui && escPressed then Some(EscPressed) else None;
        return 0, false, stop;
    }

    /** The read loop over the outcomes of successive reads; `startNow` is the clock reading when
        the presence record is created. The capture is released however the loop ends. */
    method Run(noGui: bool, outcomes: seq<ReadOutcome>, startNow: real) returns (reopens: nat, reason: StopReason)
      modifies this`log
      ensures log == old(log) + LineRun(settings, areaThreshold, lineTolerance, noGui, startNow, outcomes).effects
      ensures reopens == LineRun(settings, areaThreshold, lineTolerance, noGui, startNow, outcomes).reopens
      ensures reason == LineRun(settings, areaThreshold, lineTolerance, noGui, startNow, outcomes).reason
    {
      log := log + [CaptureOpened(OpenCapture(settings))];
      var state := new MotionState(startNow);
      reopens, reason := ReadFrames(state, noGui, outcomes);
      log := log + [CaptureReleased];
    }

    /** The `while True` loop itself, from the presence record `state`. */
    method ReadFrames(state: MotionState, noGui: bool, outcomes: seq<ReadOutcome>) returns (reopens: nat, reason: StopReason)
      modifies this`log, state
      ensures var r := ReadLoop(settings, areaThreshold, lineTolerance, noGui, old(state.Machine()), 0, outcomes);
        log == old(log) + r.effects && reopens == r.reopens && reason == r.reason && state.Machine() == r.machine
    {
      ghost var base := log;
      ghost var m := state.Machine();
      ghost var full := ReadLoop(settings, areaThreshold, lineTolerance, noGui, m, 0, outcomes);
      assert base == old(log) && full == ReadLoop(settings, areaThreshold, lineTolerance, noGui, old(state.Machine()), 0, outcomes);
      ghost var rest := full;
      ghost var acc: seq<Effect> := [];
      var attempts: nat := 0;
      reopens := 0;
      reason := OutOfReads;
      var i := 0;
      while i < |outcomes|
        invariant 0 <= i <= |outcomes|
        invariant log == base + acc && state.Machine() == m
        invariant rest == ReadLoop(settings, areaThreshold, lineTolerance, noGui, m, attempts, outcomes[i..])
        invariant full.effects == acc + rest.effects && full.reopens == reopens + rest.reopens
        invariant full.reason == rest.reason && full.machine == rest.machine
      {
        ReadLoopAt(settings, areaThreshold, lineTolerance, noGui, m, attempts, outcomes, i);
        ghost var st := AdvanceOne(settings, areaThreshold, lineTolerance, noGui, m, attempts, outcomes[i]);
        ghost var next := ReadLoop(settings, areaThreshold, lineTolerance, noGui, st.machine, st.attempts, outcomes[i + 1..]);
        ConcatAssoc(base, acc, st.effects);
        ConcatAssoc(acc, st.effects, next.effects);
        var reopened, stop;
        attempts, reopened, stop := ReadOne(state, noGui, attempts, outcomes[i]);
        acc := acc + st.effects;
        m := st.machine;
        if stop.Some? {
          reason := stop.value;
          break;
        }
        if reopened {
          reopens := reopens + 1;
        }
        rest := next;
        i := i + 1;
      }
      if i == |outcomes| {
        assert outcomes[i..] == [];
      }
      assert log == base + acc && state.Machine() == m;
      assert full.effects == acc && full.reopens == reopens && full.reason == reason && full.machine == m;
    }
  }
}
