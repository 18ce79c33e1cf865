/** The zone-interaction runner (`ZoneRunner`): one state per zone name; per frame, each zone's score
    (from the classifier, an oracle here) is debounced into `interaction_start` / `interaction_end`
    with a cooldown, an activation runs one face-capture pass whose saved paths are each published as
    a `face_capture` incident, and a read failure on an RTSP source re-opens the capture every time. */
module ZoneDemo {
  import opened Base
  import opened Models
  import opened Config
  import opened Paths
  import opened Capture
  import opened Effects
  import opened Zones
  import Debounce

  /** One zone's record; a datatype value that the runner replaces in its map. */
  datatype ZoneState = ZoneState(active: bool, lastActiveTs: real, score: real)

  const DefaultActivationThreshold: real := 0.6
  const DefaultCooldownSeconds: real := 2.0

  /** The debounce machine a zone's record carries. */
  function MachineOf(z: ZoneState): Debounce.Machine
  {
    Debounce.Machine(z.active, z.lastActiveTs)
  }

  /** A path the face-capture pass saved, with the clock reading taken when it is published. */
  datatype FaceShot = FaceShot(path: Path, stamp: real)

  /** What the outside world supplies for one zone in one frame: the classifier's score, the clock
      reading an interaction incident would carry, and the face-capture pass's result if it runs. */
  datatype ZoneObservation = ZoneObservation(score: real, eventStamp: real, faces: seq<FaceShot>)

  /** The set of zone names. */
  function Names(zones: seq<ZoneDefinition>): set<string>
  {
    set i | 0 <= i < |zones| :: zones[i].name
  }

  /** The constructor's map: one inactive, zero-score record per distinct name, stamped with the clock
      reading of its creation; a later zone with the same name replaces the earlier record. */
  function InitialStates(zones: seq<ZoneDefinition>, stamps: seq<real>): (r: map<string, ZoneState>)
    requires |stamps| == |zones|
    ensures r.Keys == Names(zones)
    ensures forall k :: k in r ==> !r[k].active && r[k].score == 0.0
    decreases |zones|
  {
    if |zones| == 0 then map[]
    else
      var n := |zones| - 1;
      assert Names(zones) == Names(zones[..n]) + {zones[n].name} by {
        forall k | k in Names(zones) ensures k in Names(zones[..n]) + {zones[n].name} {
          var i :| 0 <= i < |zones| && zones[i].name == k;
          if i < n { assert zones[..n][i] == zones[i]; }
        }
        forall k | k in Names(zones[..n]) ensures k in Names(zones) {
          var i :| 0 <= i < n && zones[..n][i].name == k;
          assert zones[i].name == k;
        }
      }
      InitialStates(zones[..n], stamps[..n])[zones[n].name := ZoneState(false, stamps[n], 0.0)]
  }

  /** The record of each name carries the creation stamp of the last zone with that name. */
  lemma {:induction false} InitialStatesLastWins(zones: seq<ZoneDefinition>, stamps: seq<real>, j: nat)
    requires |stamps| == |zones| && j < |zones|
    requires forall k :: j < k < |zones| ==> zones[k].name != zones[j].name
    ensures InitialStates(zones, stamps)[zones[j].name] == ZoneState(false, stamps[j], 0.0)
    decreases |zones|
  {
    var n := |zones| - 1;
    if j < n {
      InitialStatesLastWins(zones[..n], stamps[..n], j);
    }
  }

  function InteractionIncident(event: EventName, zone: string, score: real, timestamp: real): Incident
  {
    Incident(timestamp, event, None, Some(zone), Some(map["score" := MetaNumber(score)]), None)
  }

  function FaceIncident(zone: string, shot: FaceShot): Incident
  {
    Incident(shot.stamp, FaceCapture, None, Some(zone), Some(map["path" := MetaText(ToText(shot.path))]), None)
  }

  /** The incidents `_capture_faces` publishes: one per saved path, in order. */
  function FaceIncidents(zone: string, faces: seq<FaceShot>): (r: seq<Effect>)
    ensures |r| == |faces|
    ensures forall i :: 0 <= i < |faces| ==> r[i] == Published(FaceIncident(zone, faces[i]))
    decreases |faces|
  {
    if |faces| == 0 then []
    else
      var n := |faces| - 1;
      FaceIncidents(zone, faces[..n]) + [Published(FaceIncident(zone, faces[n]))]
  }

  /** What a zone's transition does: on activation the start incident, the face-capture pass and its
      incidents; on deactivation the end incident; otherwise nothing. */
  function TransitionEffects(zone: string, t: Debounce.Transition, obs: ZoneObservation): seq<Effect>
  {
    match t
    case Unchanged => []
    case Started =>
      [Published(InteractionIncident(InteractionStart, zone, obs.score, obs.eventStamp)), FaceCapturePass(zone)]
        + FaceIncidents(zone, obs.faces)
    case Ended => [Published(InteractionIncident(InteractionEnd, zone, obs.score, obs.eventStamp))]
  }

  datatype FrameOutcome = FrameOutcome(states: map<string, ZoneState>, effects: seq<Effect>)

  /** One zone in one frame at clock reading `now`: the score is recorded, and the score at or above
      the threshold is the debounce machine's "on" input with the cooldown as its hold time. Only the
      zone's own record changes. */
  function ZoneStep(states: map<string, ZoneState>, zone: ZoneDefinition, obs: ZoneObservation, now: real,
                    threshold: real, cooldown: real): (r: FrameOutcome)
    requires zone.name in states
    ensures r.states.Keys == states.Keys
    ensures forall k :: k in states && k != zone.name ==> r.states[k] == states[k]
    ensures r.states[zone.name].score == obs.score
    ensures MachineOf(r.states[zone.name])
            == Debounce.Step(MachineOf(states[zone.name]), obs.score >= threshold, now, cooldown).machine
  {
    var step := Debounce.Step(MachineOf(states[zone.name]), obs.score >= threshold, now, cooldown);
    FrameOutcome(states[zone.name := ZoneState(step.machine.active, step.machine.lastOnTs, obs.score)],
                 TransitionEffects(zone.name, step.transition, obs))
  }

  /** A zone step publishes `interaction_start` and runs one face-capture pass exactly when the score
      reaches the threshold while inactive, and then one `face_capture` per saved path; it publishes
      `interaction_end` exactly when the score is below the threshold while active and the cooldown has
      strictly passed; it never touches the capture. */
  lemma ZoneStepCounts(states: map<string, ZoneState>, zone: ZoneDefinition, obs: ZoneObservation, now: real,
                       threshold: real, cooldown: real)
    requires zone.name in states
    ensures var st := states[zone.name];
      var r := ZoneStep(states, zone, obs, now, threshold, cooldown);
      var started := obs.score >= threshold && !st.active;
      && Count(r.effects, PublishedKind(InteractionStart)) == (if started then 1 else 0)
      && Count(r.effects, FacePassKind) == (if started then 1 else 0)
      && Count(r.effects, PublishedKind(FaceCapture)) == (if started then |obs.faces| else 0)
      && Count(r.effects, PublishedKind(InteractionEnd))
         == (if obs.score < threshold && st.active && now - st.lastActiveTs > cooldown then 1 else 0)
      && Count(r.effects, OpenedKind) == 0 && Count(r.effects, ReleasedKind) == 0
  {
    var step := Debounce.Step(MachineOf(states[zone.name]), obs.score >= threshold, now, cooldown);
    match step.transition
    case Unchanged =>
    case Started =>
      var head := [Published(InteractionIncident(InteractionStart, zone.name, obs.score, obs.eventStamp)), FaceCapturePass(zone.name)];
      assert head[1..] == [FaceCapturePass(zone.name)];
      forall k: Kind
        ensures Count(head + FaceIncidents(zone.name, obs.faces), k)
                == (if k == PublishedKind(InteractionStart) then 1 else 0) + (if k == FacePassKind then 1 else 0)
                   + (if k == PublishedKind(FaceCapture) then |obs.faces| else 0)
      {
        CountConcat(head, FaceIncidents(zone.name, obs.faces), k);
        CountSingle(FaceCapturePass(zone.name), k);
        FaceIncidentsCount(zone.name, obs.faces, k);
      }
    case Ended =>
      forall k: Kind
        ensures Count([Published(InteractionIncident(InteractionEnd, zone.name, obs.score, obs.eventStamp))], k)
                == if k == PublishedKind(InteractionEnd) then 1 else 0
      {
        CountSingle(Published(InteractionIncident(InteractionEnd, zone.name, obs.score, obs.eventStamp)), k);
      }
  }

  /** `_capture_faces` publishes `face_capture` incidents only, one per path. */
  lemma {:induction false} FaceIncidentsCount(zone: string, faces: seq<FaceShot>, k: Kind)
    ensures Count(FaceIncidents(zone, faces), k) == if k == PublishedKind(FaceCapture) then |faces| else 0
    decreases |faces|
  {
    if |faces| > 0 {
      var n := |faces| - 1;
      FaceIncidentsCount(zone, faces[..n], k);
      CountConcat(FaceIncidents(zone, faces[..n]), [Published(FaceIncident(zone, faces[n]))], k);
      CountSingle(Published(FaceIncident(zone, faces[n])), k);
    }
  }

  /** Every zone of the list names a record. */
  predicate Covers(states: map<string, ZoneState>, zones: seq<ZoneDefinition>)
  {
    forall i :: 0 <= i < |zones| ==> zones[i].name in states
  }

  /** Covering depends only on the names that have records. */
  lemma CoversKeys(a: map<string, ZoneState>, b: map<string, ZoneState>, zones: seq<ZoneDefinition>)
    requires Covers(a, zones) && a.Keys == b.Keys
    ensures Covers(b, zones)
  {
    forall i | 0 <= i < |zones| ensures zones[i].name in b {
      assert zones[i].name in a.Keys;
    }
  }

  /** One frame: every zone in list order, each with its own observation. */
  function ProcessZones(states: map<string, ZoneState>, zones: seq<ZoneDefinition>, obs: seq<ZoneObservation>,
                        now: real, threshold: real, cooldown: real): (r: FrameOutcome)
    requires |obs| == |zones| && Covers(states, zones)
    ensures r.states.Keys == states.Keys
    decreases |zones|
  {
    if |zones| == 0 then FrameOutcome(states, [])
    else
      var n := |zones| - 1;
      var before := ProcessZones(states, zones[..n], obs[..n], now, threshold, cooldown);
      var step := ZoneStep(before.states, zones[n], obs[n], now, threshold, cooldown);
      FrameOutcome(step.states, before.effects + step.effects)
  }

  /** The frame over the first `i + 1` zones is the frame over the first `i` followed by zone `i`. */
  lemma ProcessZonesSnoc(states: map<string, ZoneState>, zones: seq<ZoneDefinition>, obs: seq<ZoneObservation>,
                         now: real, threshold: real, cooldown: real, i: nat)
    requires |obs| == |zones| && Covers(states, zones) && i < |zones|
    ensures Covers(states, zones[..i]) && Covers(states, zones[..i + 1])
    ensures var before := ProcessZones(states, zones[..i], obs[..i], now, threshold, cooldown);
      && zones[i].name in before.states
      && var step := ZoneStep(before.states, zones[i], obs[i], now, threshold, cooldown);
      ProcessZones(states, zones[..i + 1], obs[..i + 1], now, threshold, cooldown)
        == FrameOutcome(step.states, before.effects + step.effects)
  {
    assert zones[..i + 1][..i] == zones[..i] && obs[..i + 1][..i] == obs[..i];
    assert zones[..i + 1][i] == zones[i] && obs[..i + 1][i] == obs[i];
  }

  /** A record whose name no zone of the list carries is left as it was. */
  lemma {:induction false} ProcessZonesUntouched(states: map<string, ZoneState>, zones: seq<ZoneDefinition>,
                                                 obs: seq<ZoneObservation>, now: real, threshold: real,
                                                 cooldown: real, k: string)
    requires |obs| == |zones| && Covers(states, zones)
    requires k in states && k !in Names(zones)
    ensures ProcessZones(states, zones, obs, now, threshold, cooldown).states[k] == states[k]
    decreases |zones|
  {
    if |zones| > 0 {
      var n := |zones| - 1;
      assert k !in Names(zones[..n]) && k != zones[n].name by {
        assert forall i :: 0 <= i < n ==> zones[..n][i] == zones[i];
        assert zones[n].name in Names(zones);
      }
      ProcessZonesUntouched(states, zones[..n], obs[..n], now, threshold, cooldown, k);
      var before := ProcessZones(states, zones[..n], obs[..n], now, threshold, cooldown);
      var step := ZoneStep(before.states, zones[n], obs[n], now, threshold, cooldown);
      assert ProcessZones(states, zones, obs, now, threshold, cooldown).states == step.states;
      assert k in before.states;
    }
  }

  /** After a frame, a zone's recorded score is the score of the last zone with its name. */
  lemma {:induction false} ProcessZonesLastScore(states: map<string, ZoneState>, zones: seq<ZoneDefinition>,
                                                 obs: seq<ZoneObservation>, now: real, threshold: real,
                                                 cooldown: real, j: nat)
    requires |obs| == |zones| && Covers(states, zones) && j < |zones|
    requires forall k :: j < k < |zones| ==> zones[k].name != zones[j].name
    ensures ProcessZones(states, zones, obs, now, threshold, cooldown).states[zones[j].name].score == obs[j].score
    decreases |zones|
  {
    var n := |zones| - 1;
    if j < n {
      assert forall i :: 0 <= i < n ==> zones[..n][i] == zones[i] && obs[..n][i] == obs[i];
      ProcessZonesLastScore(states, zones[..n], obs[..n], now, threshold, cooldown, j);
    }
  }

  /** A frame never opens or releases the capture. */
  lemma {:induction false} ProcessZonesNoCapture(states: map<string, ZoneState>, zones: seq<ZoneDefinition>,
                                                 obs: seq<ZoneObservation>, now: real, threshold: real,
                                                 cooldown: real)
    requires |obs| == |zones| && Covers(states, zones)
    ensures var r := ProcessZones(states, zones, obs, now, threshold, cooldown);
      Count(r.effects, OpenedKind) == 0 && Count(r.effects, ReleasedKind) == 0
    decreases |zones|
  {
    if |zones| > 0 {
      var n := |zones| - 1;
      ProcessZonesNoCapture(states, zones[..n], obs[..n], now, threshold, cooldown);
      var before := ProcessZones(states, zones[..n], obs[..n], now, threshold, cooldown);
      var step := ZoneStep(before.states, zones[n], obs[n], now, threshold, cooldown);
      ZoneStepCounts(before.states, zones[n], obs[n], now, threshold, cooldown);
      CountConcat(before.effects, step.effects, OpenedKind);
      CountConcat(before.effects, step.effects, ReleasedKind);
    }
  }

  /** A map keyed by exactly the zone names covers every zone. */
  lemma NamesCover(states: map<string, ZoneState>, zones: seq<ZoneDefinition>)
    requires states.Keys == Names(zones)
    ensures Covers(states, zones)
  {
    forall i | 0 <= i < |zones| ensures zones[i].name in states {
      assert zones[i].name in Names(zones);
    }
  }

  /** Every clock reading of a frame's observations is non-negative. */
  predicate StampsNonNegative(obs: seq<ZoneObservation>)
  {
    forall i :: 0 <= i < |obs| ==>
      obs[i].eventStamp >= 0.0 && forall j :: 0 <= j < |obs[i].faces| ==> obs[i].faces[j].stamp >= 0.0
  }

  /** A zone's transition publishes only valid incidents when its clock readings are non-negative. */
  lemma TransitionEffectsValid(zone: string, t: Debounce.Transition, obs: ZoneObservation)
    requires obs.eventStamp >= 0.0 && forall j :: 0 <= j < |obs.faces| ==> obs.faces[j].stamp >= 0.0
    ensures AllValid(TransitionEffects(zone, t, obs))
  {
    if t == Debounce.Started {
      var head := [Published(InteractionIncident(InteractionStart, zone, obs.score, obs.eventStamp)),
                   FaceCapturePass(zone)];
      AllValidConcat(head, FaceIncidents(zone, obs.faces));
    }
  }

  /** Every incident a frame publishes is valid when the clock never reads negative. */
  lemma {:induction false} ProcessZonesValid(states: map<string, ZoneState>, zones: seq<ZoneDefinition>,
                                             obs: seq<ZoneObservation>, now: real, threshold: real,
                                             cooldown: real)
    requires |obs| == |zones| && Covers(states, zones) && StampsNonNegative(obs)
    ensures AllValid(ProcessZones(states, zones, obs, now, threshold, cooldown).effects)
    decreases |zones|
  {
    if |zones| > 0 {
      var n := |zones| - 1;
      assert StampsNonNegative(obs[..n]) by {
        forall i | 0 <= i < n ensures obs[..n][i] == obs[i] { }
      }
      ProcessZonesValid(states, zones[..n], obs[..n], now, threshold, cooldown);
      var before := ProcessZones(states, zones[..n], obs[..n], now, threshold, cooldown);
      var step := ZoneStep(before.states, zones[n], obs[n], now, threshold, cooldown);
      assert ProcessZones(states, zones, obs, now, threshold, cooldown).effects == before.effects + step.effects;
      var ms := Debounce.Step(MachineOf(before.states[zones[n].name]), obs[n].score >= threshold, now, cooldown);
      assert step.effects == TransitionEffects(zones[n].name, ms.transition, obs[n]);
      TransitionEffectsValid(zones[n].name, ms.transition, obs[n]);
      AllValidConcat(before.effects, step.effects);
    }
  }

  /** One `self._cap.read()`: a failure, or a frame with its clock reading, one observation per zone, and
      whether ESC was pressed in the window shown after it. */
  datatype ReadOutcome = ReadFailed | FrameRead(now: real, observations: seq<ZoneObservation>, escPressed: bool)

  /** Every frame carries one observation per zone. */
  predicate Aligned(outcomes: seq<ReadOutcome>, zones: seq<ZoneDefinition>)
  {
    forall i :: 0 <= i < |outcomes| && outcomes[i].FrameRead? ==> |outcomes[i].observations| == |zones|
  }

  lemma AlignedTail(outcomes: seq<ReadOutcome>, zones: seq<ZoneDefinition>)
    requires |outcomes| > 0 && Aligned(outcomes, zones)
    ensures Aligned(outcomes[1..], zones)
  {
    forall i | 0 <= i < |outcomes[1..]| ensures outcomes[1..][i] == outcomes[i + 1] { }
  }

  /** The per-failure decision: an RTSP source is re-opened, whatever happened before; anything else stops. */
  predicate ReopensOnFailure(s: Settings)
  {
    IsRtspSource(s)
  }

  /** What one read does: its effects, the records after it, whether it re-opened the capture, and
      the reason to stop if the loop ends with it. */
  datatype Advance = Advance(effects: seq<Effect>, states: map<string, ZoneState>, reopened: bool,
                             stop: Option<StopReason>)

  function AdvanceOne(s: Settings, zones: seq<ZoneDefinition>, threshold: real, cooldown: real, noGui: bool,
                      states: map<string, ZoneState>, outcome: ReadOutcome): (r: Advance)
    requires Covers(states, zones)
    requires outcome.FrameRead? ==> |outcome.observations| == |zones|
    ensures r.states.Keys == states.Keys
  {
    match outcome
    case ReadFailed =>
      if ReopensOnFailure(s) then Advance([CaptureReleased, CaptureOpened(OpenCapture(s))], states, true, None)
      else Advance([], states, false, Some(EndOfStream))
    case FrameRead(now, observations, escPressed) =>
      var f := ProcessZones(states, zones, observations, now, threshold, cooldown);
      Advance(f.effects, f.states, false, if !noGui && escPressed then Some(EscPressed) else None)
  }

  datatype LoopResult = LoopResult(effects: seq<Effect>, reopens: nat, reason: StopReason,
                                   states: map<string, ZoneState>)

  /** The read loop over the outcomes of successive reads. */
  function ZoneLoop(s: Settings, zones: seq<ZoneDefinition>, threshold: real, cooldown: real, noGui: bool,
                    states: map<string, ZoneState>, outcomes: seq<ReadOutcome>): (r: LoopResult)
    requires Covers(states, zones) && Aligned(outcomes, zones)
    ensures r.states.Keys == states.Keys
    decreases |outcomes|
  {
    if |outcomes| == 0 then LoopResult([], 0, OutOfReads, states)
    else
      var st := AdvanceOne(s, zones, threshold, cooldown, noGui, states, outcomes[0]);
      if st.stop.Some? then LoopResult(st.effects, 0, st.stop.value, st.states)
      else
        assert Aligned(outcomes[1..], zones) by {
          forall i | 0 <= i < |outcomes[1..]| ensures outcomes[1..][i] == outcomes[i + 1] { }
        }
        var rest := ZoneLoop(s, zones, threshold, cooldown, noGui, st.states, outcomes[1..]);
        LoopResult(st.effects + rest.effects, rest.reopens + (if st.reopened then 1 else 0), rest.reason, rest.states)
  }

  /** The loop from position `i`, unfolded by one read. */
  lemma ZoneLoopAt(s: Settings, zones: seq<ZoneDefinition>, threshold: real, cooldown: real, noGui: bool,
                   states: map<string, ZoneState>, outcomes: seq<ReadOutcome>, i: nat)
    requires i < |outcomes| && Covers(states, zones) && Aligned(outcomes[i..], zones)
    ensures outcomes[i].FrameRead? ==> |outcomes[i].observations| == |zones|
    ensures Aligned(outcomes[i + 1..], zones)
    ensures var here := ZoneLoop(s, zones, threshold, cooldown, noGui, states, outcomes[i..]);
      var st := AdvanceOne(s, zones, threshold, cooldown, noGui, states, outcomes[i]);
      var rest := ZoneLoop(s, zones, threshold, cooldown, noGui, st.states, outcomes[i + 1..]);
      if st.stop.Some? then here == LoopResult(st.effects, 0, st.stop.value, st.states)
      else
        && here.effects == st.effects + rest.effects
        && here.reopens == rest.reopens + (if st.reopened then 1 else 0)
        && here.reason == rest.reason && here.states == rest.states
  {
    assert outcomes[i..][0] == outcomes[i] && outcomes[i..][1..] == outcomes[i + 1..];
    AlignedTail(outcomes[i..], zones);
  }

  /** A whole run: open the capture, run the loop, and release the capture however the loop ends. */
  function ZoneRun(s: Settings, zones: seq<ZoneDefinition>, threshold: real, cooldown: real, noGui: bool,
                   states: map<string, ZoneState>, outcomes: seq<ReadOutcome>): LoopResult
    requires Covers(states, zones) && Aligned(outcomes, zones)
  {
    var r := ZoneLoop(s, zones, threshold, cooldown, noGui, states, outcomes);
    r.(effects := [CaptureOpened(OpenCapture(s))] + r.effects + [CaptureReleased])
  }

  /** There is no attempt cap: on an RTSP source every failed read re-opens the capture, so a run of
      `n` failures re-opens `n` times, does nothing but release and re-open, and never ends the stream
      by itself. */
  lemma {:induction false} RtspReopensEveryFailure(s: Settings, zones: seq<ZoneDefinition>, threshold: real,
                                                   cooldown: real, noGui: bool, states: map<string, ZoneState>,
                                                   outcomes: seq<ReadOutcome>)
    requires IsRtspSource(s) && Covers(states, zones)
    requires forall i :: 0 <= i < |outcomes| ==> outcomes[i] == ReadFailed
    ensures Aligned(outcomes, zones)
    ensures var r := ZoneLoop(s, zones, threshold, cooldown, noGui, states, outcomes);
      && r.reopens == |outcomes| && r.reason == OutOfReads && r.states == states
      && r.effects == ReopenEffects(OpenCapture(s), |outcomes|)
      && Count(r.effects, OpenedKind) == |outcomes| && Count(r.effects, ReleasedKind) == |outcomes|
      && forall e: EventName :: Count(r.effects, PublishedKind(e)) == 0
    decreases |outcomes|
  {
    if |outcomes| > 0 {
      RtspReopensEveryFailure(s, zones, threshold, cooldown, noGui, states, outcomes[1..]);
    }
    var effects := ZoneLoop(s, zones, threshold, cooldown, noGui, states, outcomes).effects;
    ReopenEffectsCounts(OpenCapture(s), |outcomes|, OpenedKind);
    ReopenEffectsCounts(OpenCapture(s), |outcomes|, ReleasedKind);
    forall e: EventName ensures Count(effects, PublishedKind(e)) == 0 {
      ReopenEffectsCounts(OpenCapture(s), |outcomes|, PublishedKind(e));
    }
  }

  /** A source that is not RTSP ends at its first failed read, with nothing published. */
  lemma NonRtspFailureEnds(s: Settings, zones: seq<ZoneDefinition>, threshold: real, cooldown: real, noGui: bool,
                           states: map<string, ZoneState>, outcomes: seq<ReadOutcome>)
    requires !IsRtspSource(s) && Covers(states, zones) && Aligned(outcomes, zones)
    requires |outcomes| > 0 && outcomes[0] == ReadFailed
    ensures ZoneLoop(s, zones, threshold, cooldown, noGui, states, outcomes) == LoopResult([], 0, EndOfStream, states)
  {
  }

  /** One read opens and releases the capture once each exactly when it re-opens. */
  lemma ZoneAdvanceCounts(s: Settings, zones: seq<ZoneDefinition>, threshold: real, cooldown: real, noGui: bool,
                          states: map<string, ZoneState>, outcome: ReadOutcome)
    requires Covers(states, zones) && (outcome.FrameRead? ==> |outcome.observations| == |zones|)
    ensures var st := AdvanceOne(s, zones, threshold, cooldown, noGui, states, outcome);
      && Count(st.effects, OpenedKind) == Bit(st.reopened)
      && Count(st.effects, ReleasedKind) == Bit(st.reopened)
  {
    match outcome
    case ReadFailed =>
      if ReopensOnFailure(s) {
        ReopenCounts(OpenCapture(s), OpenedKind);
        ReopenCounts(OpenCapture(s), ReleasedKind);
      }
    case FrameRead(now, observations, _) =>
      ProcessZonesNoCapture(states, zones, observations, now, threshold, cooldown);
  }

  /** Across the loop every re-open releases and opens once. */
  lemma {:induction false} ZoneLoopCounts(s: Settings, zones: seq<ZoneDefinition>, threshold: real, cooldown: real,
                                          noGui: bool, states: map<string, ZoneState>, outcomes: seq<ReadOutcome>)
    requires Covers(states, zones) && Aligned(outcomes, zones)
    ensures var r := ZoneLoop(s, zones, threshold, cooldown, noGui, states, outcomes);
      Count(r.effects, OpenedKind) == r.reopens && Count(r.effects, ReleasedKind) == r.reopens
    decreases |outcomes|
  {
    if |outcomes| > 0 {
      ZoneLoopAt(s, zones, threshold, cooldown, noGui, states, outcomes, 0);
      assert outcomes[0..] == outcomes;
      var st := AdvanceOne(s, zones, threshold, cooldown, noGui, states, outcomes[0]);
      ZoneAdvanceCounts(s, zones, threshold, cooldown, noGui, states, outcomes[0]);
      if st.stop.None? {
        CoversKeys(states, st.states, zones);
        ZoneLoopCounts(s, zones, threshold, cooldown, noGui, st.states, outcomes[1..]);
        var rest := ZoneLoop(s, zones, threshold, cooldown, noGui, st.states, outcomes[1..]);
        CountConcat(st.effects, rest.effects, OpenedKind);
        CountConcat(st.effects, rest.effects, ReleasedKind);
      }
    }
  }

  /** Every run opens and releases the capture equally often, once more than it re-opens. */
  lemma ZoneCaptureBalanced(s: Settings, zones: seq<ZoneDefinition>, threshold: real, cooldown: real, noGui: bool,
                            states: map<string, ZoneState>, outcomes: seq<ReadOutcome>)
    requires Covers(states, zones) && Aligned(outcomes, zones)
    ensures var r := ZoneRun(s, zones, threshold, cooldown, noGui, states, outcomes);
      Count(r.effects, OpenedKind) == 1 + r.reopens && Count(r.effects, ReleasedKind) == 1 + r.reopens
  {
    var loop := ZoneLoop(s, zones, threshold, cooldown, noGui, states, outcomes);
    ZoneLoopCounts(s, zones, threshold, cooldown, noGui, states, outcomes);
    var head := [CaptureOpened(OpenCapture(s))];
    forall k: Kind
      ensures Count(head + loop.effects + [CaptureReleased], k)
              == (if k == OpenedKind then 1 else 0) + Count(loop.effects, k) + (if k == ReleasedKind then 1 else 0)
    {
      CountConcat(head, loop.effects, k);
      CountConcat(head + loop.effects, [CaptureReleased], k);
      CountSingle(CaptureOpened(OpenCapture(s)), k);
      CountSingle(CaptureReleased, k);
    }
  }

  /** Everything a zone's transition does concerns that zone. */
  lemma TransitionEffectsZone(zone: string, t: Debounce.Transition, obs: ZoneObservation)
    ensures forall i :: 0 <= i < |TransitionEffects(zone, t, obs)| ==> ZoneOf(TransitionEffects(zone, t, obs)[i]) == Some(zone)
  {
  }

  /** Within one frame, the first `n` zones act on a zone `j` whose name no other zone has only
      through `j`'s own step: a score at or above the threshold starts it, with one face-capture pass,
      exactly when it was inactive, never ends it, and leaves it active; before `j` its record is
      untouched. */
  lemma {:induction false} ProcessZonesOwnZone(states: map<string, ZoneState>, zones: seq<ZoneDefinition>,
                                               obs: seq<ZoneObservation>, now: real, threshold: real,
                                               cooldown: real, j: nat, n: nat)
    requires |obs| == |zones| && Covers(states, zones) && j < |zones| && n <= |zones|
    requires forall k :: 0 <= k < |zones| && k != j ==> zones[k].name != zones[j].name
    requires obs[j].score >= threshold
    ensures Covers(states, zones[..n])
    ensures var r := ProcessZones(states, zones[..n], obs[..n], now, threshold, cooldown);
      var name := zones[j].name;
      var fired := Bit(j < n && !states[name].active);
      && CountIn(r.effects, PublishedKind(InteractionStart), name) == fired
      && CountIn(r.effects, FacePassKind, name) == fired
      && CountIn(r.effects, PublishedKind(InteractionEnd), name) == 0
      && name in r.states
      && (if j < n then r.states[name].active else r.states[name] == states[name])
    decreases n
  {
    var name := zones[j].name;
    if n == 0 {
      assert zones[..0] == [] && obs[..0] == [];
    } else {
      var i := n - 1;
      ProcessZonesOwnZone(states, zones, obs, now, threshold, cooldown, j, i);
      ProcessZonesSnoc(states, zones, obs, now, threshold, cooldown, i);
      var before := ProcessZones(states, zones[..i], obs[..i], now, threshold, cooldown);
      var step := ZoneStep(before.states, zones[i], obs[i], now, threshold, cooldown);
      var t := Debounce.Step(MachineOf(before.states[zones[i].name]), obs[i].score >= threshold, now, cooldown).transition;
      assert step.effects == TransitionEffects(zones[i].name, t, obs[i]);
      TransitionEffectsZone(zones[i].name, t, obs[i]);
      CountInSingleZone(step.effects, PublishedKind(InteractionStart), zones[i].name, name);
      CountInSingleZone(step.effects, FacePassKind, zones[i].name, name);
      CountInSingleZone(step.effects, PublishedKind(InteractionEnd), zones[i].name, name);
      CountInConcat(before.effects, step.effects, PublishedKind(InteractionStart), name);
      CountInConcat(before.effects, step.effects, FacePassKind, name);
      CountInConcat(before.effects, step.effects, PublishedKind(InteractionEnd), name);
      if i == j {
        ZoneStepCounts(before.states, zones[j], obs[j], now, threshold, cooldown);
      }
    }
  }

  /** One frame in which zone `j`, whose name no other zone has, scores at or above the threshold. */
  lemma AdvanceOwnZone(s: Settings, zones: seq<ZoneDefinition>, j: nat, threshold: real, cooldown: real,
                       noGui: bool, states: map<string, ZoneState>, o: ReadOutcome)
    requires Covers(states, zones) && j < |zones| && o.FrameRead? && |o.observations| == |zones|
    requires forall k :: 0 <= k < |zones| && k != j ==> zones[k].name != zones[j].name
    requires o.observations[j].score >= threshold
    ensures var st := AdvanceOne(s, zones, threshold, cooldown, noGui, states, o);
      var name := zones[j].name;
      var fired := Bit(!states[name].active);
      && CountIn(st.effects, PublishedKind(InteractionStart), name) == fired
      && CountIn(st.effects, FacePassKind, name) == fired
      && CountIn(st.effects, PublishedKind(InteractionEnd), name) == 0
      && name in st.states && st.states[name].active
  {
    ProcessZonesOwnZone(states, zones, o.observations, o.now, threshold, cooldown, j, |zones|);
    assert zones[..|zones|] == zones && o.observations[..|zones|] == o.observations;
  }

  /** A continuous run of frames in which zone `j`, whose name no other zone has, scores at or above
      the threshold yields, for that zone, one `interaction_start` and one face-capture pass if it was
      inactive, none if it was already active, and never an `interaction_end`; the zone ends active.
      The other zones of the runner, and the window, may do what they like. */
  lemma {:induction false} OnEpisodeStartsOnce(s: Settings, zones: seq<ZoneDefinition>, j: nat, threshold: real,
                                               cooldown: real, noGui: bool, states: map<string, ZoneState>,
                                               outcomes: seq<ReadOutcome>)
    requires Covers(states, zones) && Aligned(outcomes, zones) && j < |zones|
    requires forall k :: 0 <= k < |zones| && k != j ==> zones[k].name != zones[j].name
    requires forall i :: 0 <= i < |outcomes| ==>
      outcomes[i].FrameRead? && outcomes[i].observations[j].score >= threshold
    ensures var r := ZoneLoop(s, zones, threshold, cooldown, noGui, states, outcomes);
      var name := zones[j].name;
      var starts := Bit(|outcomes| > 0 && !states[name].active);
      && CountIn(r.effects, PublishedKind(InteractionStart), name) == starts
      && CountIn(r.effects, FacePassKind, name) == starts
      && CountIn(r.effects, PublishedKind(InteractionEnd), name) == 0
      && name in r.states
      && (|outcomes| > 0 ==> r.states[name].active)
    decreases |outcomes|
  {
    if |outcomes| > 0 {
      var name := zones[j].name;
      assert outcomes[0..] == outcomes;
      ZoneLoopAt(s, zones, threshold, cooldown, noGui, states, outcomes, 0);
      var st := AdvanceOne(s, zones, threshold, cooldown, noGui, states, outcomes[0]);
      AdvanceOwnZone(s, zones, j, threshold, cooldown, noGui, states, outcomes[0]);
      if st.stop.None? {
        CoversKeys(states, st.states, zones);
        assert forall i :: 0 <= i < |outcomes[1..]| ==> outcomes[1..][i] == outcomes[i + 1];
        OnEpisodeStartsOnce(s, zones, j, threshold, cooldown, noGui, st.states, outcomes[1..]);
        var rest := ZoneLoop(s, zones, threshold, cooldown, noGui, st.states, outcomes[1..]);
        CountInConcat(st.effects, rest.effects, PublishedKind(InteractionStart), name);
        CountInConcat(st.effects, rest.effects, FacePassKind, name);
        CountInConcat(st.effects, rest.effects, PublishedKind(InteractionEnd), name);
      }
    }
  }

  /** The runner. `states` is `_states`, `capture` is `_cap`, and `log` records the effects in order. */
  class ZoneRunner {
    const settings: Settings
    const zones: seq<ZoneDefinition>
    const activationThreshold: real
    const cooldownSeconds: real
    var states: map<string, ZoneState>
    var capture: Option<CaptureConfig>
    ghost var log: seq<Effect>

    /** Every zone's name has a record, and nothing else does. */
    predicate Valid()
      reads this
    {
      states.Keys == Names(zones)
    }

    /** `stamps[i]` is the clock reading taken when zone `i`'s record is created. */
    constructor(settings: Settings, zones: seq<ZoneDefinition>, stamps: seq<real>,
                activationThreshold: real := DefaultActivationThreshold,
                cooldownSeconds: real := DefaultCooldownSeconds)
      requires |stamps| == |zones|
      ensures this.settings == settings && this.zones == zones
      ensures this.activationThreshold == activationThreshold && this.cooldownSeconds == cooldownSeconds
      ensures states == InitialStates(zones, stamps) && capture == None && log == []
      ensures Valid()
    {
      this.settings := settings;
      this.zones := zones;
      this.activationThreshold := activationThreshold;
      this.cooldownSeconds := cooldownSeconds;
      states := InitialStates(zones, stamps);
      capture := None;
      log := [];
    }

    /** Publishes an interaction incident for `zone` carrying the score as metadata. */
    method EmitInteractionEvent(event: EventName, zone: string, score: real, timestamp: real)
      modifies this`log
      ensures log == old(log) + [Published(InteractionIncident(event, zone, score, timestamp))]
    {
      log := log + [Published(InteractionIncident(event, zone, score, timestamp))];
    }

    /** Runs the face-capture pass for `zone`, then publishes one incident per saved path. */
    method CaptureFaces(zone: string, faces: seq<FaceShot>)
      modifies this`log
      ensures log == old(log) + [FaceCapturePass(zone)] + FaceIncidents(zone, faces)
    {
      log := log + [FaceCapturePass(zone)];
      ghost var start := log;
      var i := 0;
      while i < |faces|
        invariant 0 <= i <= |faces|
        invariant log == start + FaceIncidents(zone, faces[..i])
      {
        assert faces[..i + 1][..i] == faces[..i];
        log := log + [Published(FaceIncident(zone, faces[i]))];
        i := i + 1;
      }
      assert faces[..|faces|] == faces;
    }

    /** One zone of a frame at clock reading `now`: record the score, then activate, deactivate or
        leave the zone as the debounce rule says, publishing as it goes. */
    method StepZone(zone: ZoneDefinition, obs: ZoneObservation, now: real)
      requires zone.name in states
      modifies this`states, this`log
      ensures var r := ZoneStep(old(states), zone, obs, now, activationThreshold, cooldownSeconds);
        states == r.states && log == old(log) + r.effects
    {
      var state := states[zone.name];
      state := state.(score := obs.score);
      if obs.score >= activationThreshold {
        state := state.(lastActiveTs := now);
        if !state.active {
          state := state.(active := true);
          EmitInteractionEvent(InteractionStart, zone.name, obs.score, obs.eventStamp);
          CaptureFaces(zone.name, obs.faces);
        }
      } else {
        if state.active && now - state.lastActiveTs > cooldownSeconds {
          state := state.(active := false);
          EmitInteractionEvent(InteractionEnd, zone.name, obs.score, obs.eventStamp);
        }
      }
      states := states[zone.name := state];
    }

    /** One frame at clock reading `now`, `observations[i]` belonging to `zones[i]`. */
    method ProcessFrame(now: real, observations: seq<ZoneObservation>)
      requires Covers(states, zones) && |observations| == |zones|
      modifies this`states, this`log
      ensures var r := ProcessZones(old(states), zones, observations, now, activationThreshold, cooldownSeconds);
        states == r.states && log == old(log) + r.effects
    {
      var i := 0;
      while i < |zones|
        invariant 0 <= i <= |zones| && Covers(old(states), zones[..i])
        invariant var r := ProcessZones(old(states), zones[..i], observations[..i], now, activationThreshold, cooldownSeconds);
          states == r.states && log == old(log) + r.effects
      {
        ProcessZonesSnoc(old(states), zones, observations, now, activationThreshold, cooldownSeconds, i);
        ghost var before := ProcessZones(old(states), zones[..i], observations[..i], now, activationThreshold, cooldownSeconds);
        ghost var step := ZoneStep(before.states, zones[i], observations[i], now, activationThreshold, cooldownSeconds);
        ConcatAssoc(old(log), before.effects, step.effects);
        StepZone(zones[i], observations[i], now);
        i := i + 1;
      }
      assert zones[..|zones|] == zones && observations[..|observations|] == observations;
    }

    /** One `self._cap.read()` and what follows it. */
    method ReadOne(noGui: bool, outcome: ReadOutcome) returns (reopened: bool, stop: Option<StopReason>)
      requires Covers(states, zones) && (outcome.FrameRead? ==> |outcome.observations| == |zones|)
      modifies this`states, this`log, this`capture
      ensures var st := AdvanceOne(settings, zones, activationThreshold, cooldownSeconds, noGui, old(states), outcome);
        && log == old(log) + st.effects && states == st.states && reopened == st.reopened && stop == st.stop
      ensures old(capture).Some? ==> capture.Some?
      ensures reopened ==> capture == Some(OpenCapture(settings))
      ensures !reopened ==> capture == old(capture)
    {
      match outcome
      case ReadFailed =>
        if IsRtspSource(settings) {
          log := log + [CaptureReleased];
          capture := Some(OpenCapture(settings));
          log := log + [CaptureOpened(OpenCapture(settings))];
          return true, None;
        }
        return false, Some(EndOfStream);
      case FrameRead(now, observations, escPressed) =>
        ProcessFrame(now, observations);
        stop := if !noGui && escPressed then Some(EscPressed) else None;
        return false, stop;
    }

    /** The whole run: open the capture, loop over the reads, and release the capture at the end. */
    method Run(noGui: bool, outcomes: seq<ReadOutcome>) returns (reopens: nat, reason: StopReason)
      requires Valid() && Aligned(outcomes, zones)
      modifies this`states, this`log, this`capture
      ensures Covers(old(states), zones)
      ensures var r := ZoneRun(settings, zones, activationThreshold, cooldownSeconds, noGui, old(states), outcomes);
        && log == old(log) + r.effects && states == r.states && reopens == r.reopens && reason == r.reason
      ensures capture == Some(OpenCapture(settings)) && Valid()
    {
      NamesCover(states, zones);
      capture := Some(OpenCapture(settings));
      log := log + [CaptureOpened(OpenCapture(settings))];
      reopens, reason := ReadFrames(noGui, outcomes);
      log := log + [CaptureReleased];
    }

    /** The `while True` loop itself. */
    method ReadFrames(noGui: bool, outcomes: seq<ReadOutcome>) returns (reopens: nat, reason: StopReason)
      requires Covers(states, zones) && Aligned(outcomes, zones) && capture == Some(OpenCapture(settings))
      modifies this`states, this`log, this`capture
      ensures var r := ZoneLoop(settings, zones, activationThreshold, cooldownSeconds, noGui, old(states), outcomes);
        && log == old(log) + r.effects && states == r.states && reopens == r.reopens && reason == r.reason
      ensures capture == Some(OpenCapture(settings))
    {
      ghost var base := log;
      ghost var full := ZoneLoop(settings, zones, activationThreshold, cooldownSeconds, noGui, states, outcomes);
      assert base == old(log) && full == ZoneLoop(settings, zones, activationThreshold, cooldownSeconds, noGui, old(states), outcomes);
      ghost var acc: seq<Effect> := [];
      ghost var rest := full;
      reopens := 0;
      reason := OutOfReads;
      var i := 0;
      while i < |outcomes|
        invariant 0 <= i <= |outcomes|
        invariant Covers(states, zones) && Aligned(outcomes[i..], zones)
        invariant capture == Some(OpenCapture(settings))
        invariant log == base + acc
        invariant rest == ZoneLoop(settings, zones, activationThreshold, cooldownSeconds, noGui, states, outcomes[i..])
        invariant full.effects == acc + rest.effects && full.reopens == reopens + rest.reopens
        invariant full.reason == rest.reason && full.states == rest.states
      {
        ZoneLoopAt(settings, zones, activationThreshold, cooldownSeconds, noGui, states, outcomes, i);
        ghost var st := AdvanceOne(settings, zones, activationThreshold, cooldownSeconds, noGui, states, outcomes[i]);
        CoversKeys(states, st.states, zones);
        ghost var next := ZoneLoop(settings, zones, activationThreshold, cooldownSeconds, noGui, st.states, outcomes[i + 1..]);
        ConcatAssoc(base, acc, st.effects);
        ConcatAssoc(acc, st.effects, next.effects);
        var reopened, stop := ReadOne(noGui, outcomes[i]);
        acc := acc + st.effects;
        if stop.Some? {
          reason := stop.value;
          break;
        }
        if reopened {
          reopens := reopens + 1;
        }
        rest := next;
        i := i + 1;
      }
      if i == |outcomes| {
        assert outcomes[i..] == [];
      }
      assert log == base + acc;
      assert full.effects == acc && full.reopens == reopens && full.reason == reason && full.states == states;
    }
  }
}
