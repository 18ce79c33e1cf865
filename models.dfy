/** The incident record every runner publishes (aqmaq/models.py). */
module Models {
  import opened Base

  /** The six event names an incident may carry. */
  datatype EventName = MotionStart | MotionEnd | CrossLine | InteractionStart | InteractionEnd | FaceCapture

  /** The wire text of each event name. */
  function EventText(e: EventName): string
  {
    match e
    case MotionStart => "motion_start"
    case MotionEnd => "motion_end"
    case CrossLine => "cross_line"
    case InteractionStart => "interaction_start"
    case InteractionEnd => "interaction_end"
    case FaceCapture => "face_capture"
  }

  /** The accepted texts, in their declaration order. */
  const EventTexts: seq<string> :=
    ["motion_start", "motion_end", "cross_line", "interaction_start", "interaction_end", "face_capture"]

  /** Validation of the `event` field: the event name a text denotes, if any. */
  function ParseEvent(s: string): Option<EventName>
  {
    if s == "motion_start" then Some(MotionStart)
    else if s == "motion_end" then Some(MotionEnd)
    else if s == "cross_line" then Some(CrossLine)
    else if s == "interaction_start" then Some(InteractionStart)
    else if s == "interaction_end" then Some(InteractionEnd)
    else if s == "face_capture" then Some(FaceCapture)
    else None
  }

  /** Parsing and printing event names are inverse to each other, in both directions. */
  lemma EventTextRoundTrip(e: EventName, s: string)
    ensures ParseEvent(EventText(e)) == Some(e)
    ensures ParseEvent(s) == Some(e) ==> EventText(e) == s
  {
  }

  /** Exactly six pairwise different texts are accepted as event names. */
  lemma ExactlySixEvents(s: string)
    ensures ParseEvent(s).Some? <==> s in EventTexts
    ensures |EventTexts| == 6
    ensures forall i, j :: 0 <= i < j < |EventTexts| ==> EventTexts[i] != EventTexts[j]
  {
  }

  /** A metadata value: the runners store a score (a number) or a path (a text). */
  datatype MetaValue = MetaNumber(number: real) | MetaText(text: string)

  /** An incident as validated by its model: the four optional fields are `None` unless given. */
  datatype Incident = Incident(
    timestamp: real,
    event: EventName,
    y: Option<int>,
    zone: Option<string>,
    metadata: Option<map<string, MetaValue>>,
    iso: Option<string>)

  /** The field constraint beyond the types: a non-negative timestamp. */
  predicate Valid(i: Incident)
  {
    i.timestamp >= 0.0
  }

  /** One complaint of validation. */
  datatype FieldError = NegativeTimestamp | UnknownEvent(text: string)

  /** `Incident(...)` over raw field values: the incident, or every field error that validation reports. */
  function NewIncident(
    timestamp: real, event: string,
    y: Option<int> := None, zone: Option<string> := None,
    metadata: Option<map<string, MetaValue>> := None, iso: Option<string> := None): (r: Result<Incident, seq<FieldError>>)
    ensures r.Ok? <==> timestamp >= 0.0 && ParseEvent(event).Some?
    ensures r.Ok? ==> Valid(r.value) && EventText(r.value.event) == event
    ensures r.Ok? ==> r.value == Incident(timestamp, r.value.event, y, zone, metadata, iso)
    ensures r.Err? ==> (NegativeTimestamp in r.error <==> timestamp < 0.0)
    ensures r.Err? ==> (UnknownEvent(event) in r.error <==> ParseEvent(event).None?)
    ensures r.Err? ==> forall e :: e in r.error ==> e == NegativeTimestamp || e == UnknownEvent(event)
  {
    var errors := (if timestamp < 0.0 then [NegativeTimestamp] else [])
      + (if ParseEvent(event).None? then [UnknownEvent(event)] else []);
    if errors == [] then Ok(Incident(timestamp, ParseEvent(event).value, y, zone, metadata, iso))
    else Err(errors)
  }

  /** An incident given only its two required fields leaves the optional ones absent. */
  lemma OptionalFieldsDefault(timestamp: real, event: EventName)
    requires timestamp >= 0.0
    ensures NewIncident(timestamp, EventText(event)) == Ok(Incident(timestamp, event, None, None, None, None))
  {
    EventTextRoundTrip(event, EventText(event));
  }
}
