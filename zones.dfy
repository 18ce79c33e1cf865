/** Normalised zone rectangles, their pixel mapping, and the zone configuration loader (aqmaq/zones.py). */
module Zones {
  import opened Base
  import opened Frames

  /** A named rectangle in coordinates normalised to the frame: left, top, width and height. */
  datatype ZoneDefinition = ZoneDefinition(name: string, x: real, y: real, width: real, height: real)

  /** All four coordinates lie in [0, 1]. */
  predicate InUnit(z: ZoneDefinition)
  {
    0.0 <= z.x <= 1.0 && 0.0 <= z.y <= 1.0 && 0.0 <= z.width <= 1.0 && 0.0 <= z.height <= 1.0
  }

  /** `min(max(v, 0.0), 1.0)`. */
  function ClampUnit(v: real): (r: real)
    ensures 0.0 <= r <= 1.0
    ensures 0.0 <= v <= 1.0 ==> r == v
    ensures v < 0.0 ==> r == 0.0
    ensures 1.0 < v ==> r == 1.0
  {
    var low := if v > 0.0 then v else 0.0;
    if low < 1.0 then low else 1.0
  }

  /** `ZoneDefinition.clamp`: every coordinate forced into [0, 1], the name kept. */
  function Clamp(z: ZoneDefinition): (r: ZoneDefinition)
    ensures r.name == z.name && InUnit(r)
    ensures InUnit(z) ==> r == z
    ensures r.x == ClampUnit(z.x) && r.y == ClampUnit(z.y) && r.width == ClampUnit(z.width) && r.height == ClampUnit(z.height)
  {
    ZoneDefinition(z.name, ClampUnit(z.x), ClampUnit(z.y), ClampUnit(z.width), ClampUnit(z.height))
  }

  /** Clamping twice is clamping once. */
  lemma ClampIdempotent(z: ZoneDefinition)
    ensures Clamp(Clamp(z)) == Clamp(z)
  {
  }

  /** A zone hanging off the top-left corner and past the bottom edge. */
  lemma ClampExample(name: string)
    ensures Clamp(ZoneDefinition(name, -0.1, 1.2, 0.5, 0.5)) == ZoneDefinition(name, 0.0, 1.0, 0.5, 0.5)
  {
  }

  /** Python's `int()` on a float: the integer part, rounding toward zero. */
  function Truncate(v: real): (r: int)
    ensures 0.0 <= v ==> 0 <= r && r as real <= v < r as real + 1.0
    ensures v < 0.0 ==> r <= 0 && r as real - 1.0 < v <= r as real
  {
    if v >= 0.0 then v.Floor else -((-v).Floor)
  }

  /** Truncation keeps the order of non-negative values. */
  lemma TruncateMonotone(a: real, b: real)
    requires 0.0 <= a <= b
    ensures Truncate(a) <= Truncate(b)
  {
  }

  /** Truncating a value bounded by a non-negative integer stays within that bound. */
  lemma TruncateAtMost(v: real, n: nat)
    requires v <= n as real
    ensures Truncate(v) <= n
  {
  }

  /** Where `start * size` and `(start + extent) * size` lie for a start in [0, 1] and a non-negative extent. */
  lemma ScaledAxis(start: real, extent: real, s: real)
    requires 0.0 <= start <= 1.0 && 0.0 <= extent && 0.0 <= s
    ensures 0.0 <= start * s <= s
    ensures start * s <= (start + extent) * s
  {
    assert (start + extent) * s == start * s + extent * s;
    assert 0.0 <= extent * s;
    assert s - start * s == (1.0 - start) * s;
    assert 0.0 <= (1.0 - start) * s;
  }

  function Min(a: real, b: real): (r: real)
    ensures r <= a && r <= b && (r == a || r == b)
  {
    if a <= b then a else b
  }

  /** One axis of the pixel mapping: the start truncated, the end capped at the frame size and truncated. */
  function AxisSpan(start: real, extent: real, size: nat): (r: (int, int))
    ensures r.1 <= size
  {
    var end := Min((start + extent) * size as real, size as real);
    TruncateAtMost(end, size);
    (Truncate(start * size as real), Truncate(end))
  }

  /** Corner pixels `(x1, y1, x2, y2)` of a zone in a frame of the given size. */
  datatype PixelBox = PixelBox(x1: int, y1: int, x2: int, y2: int)

  /** `as_pixels`: right and bottom edges capped at the frame size before truncation. */
  function AsPixels(z: ZoneDefinition, height: nat, width: nat): (b: PixelBox)
    ensures b.x2 <= width && b.y2 <= height
  {
    var xs, ys := AxisSpan(z.x, z.width, width), AxisSpan(z.y, z.height, height);
    PixelBox(xs.0, ys.0, xs.1, ys.1)
  }

  /** One axis of a clamped zone: both ends inside the frame, in order. */
  lemma AxisWithin(start: real, extent: real, size: nat)
    requires 0.0 <= start <= 1.0 && 0.0 <= extent
    ensures 0 <= AxisSpan(start, extent, size).0 <= AxisSpan(start, extent, size).1 <= size
  {
    var s := size as real;
    var p, q := start * s, (start + extent) * s;
    assert 0.0 <= p <= s && p <= q by {
      ScaledAxis(start, extent, s);
    }
    TruncateMonotone(p, Min(q, s));
  }

  /** For a clamped zone, `0 <= x1 <= x2 <= width` and `0 <= y1 <= y2 <= height`. */
  lemma AsPixelsClamped(z: ZoneDefinition, height: nat, width: nat)
    requires InUnit(z)
    ensures var b := AsPixels(z, height, width);
      0 <= b.x1 <= b.x2 <= width && 0 <= b.y1 <= b.y2 <= height
  {
    AxisWithin(z.x, z.width, width);
    AxisWithin(z.y, z.height, height);
  }

  /** `extract_roi`: the frame sliced as `frame[y1:y2, x1:x2]`. */
  function ExtractRoi(z: ZoneDefinition, f: Frame): (roi: Frame)
    requires WellFormed(f)
    ensures WellFormed(roi)
  {
    var b := AsPixels(z, Height(f), f.width);
    Crop(f, b.y1, b.y2, b.x1, b.x2)
  }

  /** The ROI of a clamped zone has `y2 - y1` rows and `x2 - x1` columns and holds the frame's pixels of that box. */
  lemma ExtractRoiClamped(z: ZoneDefinition, f: Frame)
    requires InUnit(z) && WellFormed(f)
    ensures var b := AsPixels(z, Height(f), f.width);
      var roi := ExtractRoi(z, f);
      && Height(roi) == b.y2 - b.y1 && roi.width == b.x2 - b.x1
      && forall i, j :: 0 <= i < b.y2 - b.y1 && 0 <= j < b.x2 - b.x1 ==> roi.rows[i][j] == f.rows[b.y1 + i][b.x1 + j]
  {
    var b := AsPixels(z, Height(f), f.width);
    AsPixelsClamped(z, Height(f), f.width);
    CropWithin(f, b.y1, b.y2, b.x1, b.x2);
  }

  /** The zone covering the whole frame maps to `(0, 0, width, height)`, and its ROI is the frame itself. */
  lemma FullZoneRoi(name: string, f: Frame)
    requires WellFormed(f)
    ensures AsPixels(ZoneDefinition(name, 0.0, 0.0, 1.0, 1.0), Height(f), f.width) == PixelBox(0, 0, f.width, Height(f))
    ensures ExtractRoi(ZoneDefinition(name, 0.0, 0.0, 1.0, 1.0), f) == f
  {
    CropWhole(f);
  }

  /** A parsed JSON value. */
  datatype Json = JNull | JBool(b: bool) | JNumber(number: real) | JString(text: string)
                | JArray(items: seq<Json>) | JObject(fields: map<string, Json>)

  /** What the zone configuration path leads to. */
  datatype ZoneConfig = NoPath | MissingFile | Unparsable | Document(payload: Json)

  /** What loading raises; `NameNotText` is this model's own refusal of a name that is not a string. */
  datatype LoadError = DecodeError | KeyError(key: string) | TypeError | ValueError(text: string) | NameNotText

  /** The zone used when no configuration file is present. */
  const DefaultZone := ZoneDefinition("default", 0.25, 0.3, 0.5, 0.4)

  /** `entry[key]`: only an object can be indexed by a string key. */
  function Field(entry: Json, key: string): (r: Result<Json, LoadError>)
    ensures r.Ok? <==> entry.JObject? && key in entry.fields
    ensures r.Ok? ==> r.value == entry.fields[key]
    ensures !entry.JObject? ==> r == Err(TypeError)
    ensures entry.JObject? && key !in entry.fields ==> r == Err(KeyError(key))
  {
    if !entry.JObject? then Err(TypeError)
    else if key in entry.fields then Ok(entry.fields[key])
    else Err(KeyError(key))
  }

  /** Python's `float()` on a JSON value; `parseFloat` stands for its parsing of a string. */
  function ToFloat(v: Json, parseFloat: string -> Option<real>): Result<real, LoadError>
  {
    match v
    case JNumber(r) => Ok(r)
    case JBool(b) => Ok(if b then 1.0 else 0.0)
    case JString(s) => if parseFloat(s).Some? then Ok(parseFloat(s).value) else Err(ValueError(s))
    case _ => Err(TypeError)
  }

  /** One coordinate of an entry: looked up, then converted. */
  function Coordinate(entry: Json, key: string, parseFloat: string -> Option<real>): Result<real, LoadError>
  {
    match Field(entry, key)
    case Err(e) => Err(e)
    case Ok(v) => ToFloat(v, parseFloat)
  }

  /** `ZoneDefinition(name=entry["name"], x=float(entry["x"]), ...)` before clamping; the
      failures come in Python's evaluation order: name, x, y, width, height. */
  function RawZone(entry: Json, parseFloat: string -> Option<real>): Result<ZoneDefinition, LoadError>
  {
    match Field(entry, "name")
    case Err(e) => Err(e)
    case Ok(name) =>
      match Coordinate(entry, "x", parseFloat)
      case Err(e) => Err(e)
      case Ok(x) =>
        match Coordinate(entry, "y", parseFloat)
        case Err(e) => Err(e)
        case Ok(y) =>
          match Coordinate(entry, "width", parseFloat)
          case Err(e) => Err(e)
          case Ok(width) =>
            match Coordinate(entry, "height", parseFloat)
            case Err(e) => Err(e)
            case Ok(height) =>
              if name.JString? then Ok(ZoneDefinition(name.text, x, y, width, height)) else Err(NameNotText)
  }

  /** An entry is accepted exactly when it is an object with a text name and four convertible coordinates, and the zone carries those values. */
  lemma RawZoneSpec(entry: Json, parseFloat: string -> Option<real>)
    ensures RawZone(entry, parseFloat).Ok? <==>
      && entry.JObject?
      && "name" in entry.fields && entry.fields["name"].JString?
      && Coordinate(entry, "x", parseFloat).Ok? && Coordinate(entry, "y", parseFloat).Ok?
      && Coordinate(entry, "width", parseFloat).Ok? && Coordinate(entry, "height", parseFloat).Ok?
    ensures RawZone(entry, parseFloat).Ok? ==> RawZone(entry, parseFloat).value == ZoneDefinition(
      entry.fields["name"].text,
      Coordinate(entry, "x", parseFloat).value, Coordinate(entry, "y", parseFloat).value,
      Coordinate(entry, "width", parseFloat).value, Coordinate(entry, "height", parseFloat).value)
    ensures !entry.JObject? ==> RawZone(entry, parseFloat) == Err(TypeError)
  {
  }

  /** The loop over the entries of a list document: each entry read and clamped in order, the first
      failing entry's error raised. */
  method LoadZoneList(items: seq<Json>, parseFloat: string -> Option<real>) returns (r: Result<seq<ZoneDefinition>, LoadError>)
    ensures r.Ok? <==> forall i :: 0 <= i < |items| ==> RawZone(items[i], parseFloat).Ok?
    ensures r.Ok? ==> |r.value| == |items| && forall i :: 0 <= i < |items| ==> r.value[i] == Clamp(RawZone(items[i], parseFloat).value)
    ensures r.Err? ==> exists k :: 0 <= k < |items| && RawZone(items[k], parseFloat) == Err(r.error)
                                && forall i :: 0 <= i < k ==> RawZone(items[i], parseFloat).Ok?
  {
    var zones: seq<ZoneDefinition> := [];
    var i := 0;
    while i < |items|
      invariant 0 <= i <= |items| && |zones| == i
      invariant forall k :: 0 <= k < i ==> RawZone(items[k], parseFloat).Ok?
      invariant forall k :: 0 <= k < i ==> zones[k] == Clamp(RawZone(items[k], parseFloat).value)
    {
      var raw := RawZone(items[i], parseFloat);
      if raw.Err? {
        return Err(raw.error);
      }
      zones := zones + [Clamp(raw.value)];
      i := i + 1;
    }
    return Ok(zones);
  }

  /** `load_zones`: the default zone when there is no file, otherwise one clamped zone per payload entry, in order. */
  method LoadZones(config: ZoneConfig, parseFloat: string -> Option<real>) returns (r: Result<seq<ZoneDefinition>, LoadError>)
    ensures (config.NoPath? || config.MissingFile?) ==> r == Ok([DefaultZone])
    ensures config.Unparsable? ==> r == Err(DecodeError)
    ensures config.Document? && config.payload.JArray? ==>
      var items := config.payload.items;
      && (r.Ok? <==> forall i :: 0 <= i < |items| ==> RawZone(items[i], parseFloat).Ok?)
      && (r.Ok? ==> |r.value| == |items| && forall i :: 0 <= i < |items| ==> r.value[i] == Clamp(RawZone(items[i], parseFloat).value))
      && (r.Err? ==> exists k :: 0 <= k < |items| && RawZone(items[k], parseFloat) == Err(r.error)
                                && forall i :: 0 <= i < k ==> RawZone(items[i], parseFloat).Ok?)
    ensures config.Document? && config.payload.JObject? ==>
      r == if |config.payload.fields| == 0 then Ok([]) else Err(TypeError)
    ensures config.Document? && config.payload.JString? ==>
      r == if config.payload.text == "" then Ok([]) else Err(TypeError)
    ensures config.Document? && (config.payload.JNull? || config.payload.JBool? || config.payload.JNumber?) ==>
      r == Err(TypeError)
    ensures r.Ok? ==> forall i :: 0 <= i < |r.value| ==> InUnit(r.value[i])
  {
    match config
    case NoPath => return Ok([DefaultZone]);
    case MissingFile => return Ok([DefaultZone]);
    case Unparsable => return Err(DecodeError);
    case Document(payload) =>
      match payload
      case JArray(items) =>
        r := LoadZoneList(items, parseFloat);
      // Iterating a mapping yields its keys and a string yields its characters: a text cannot be indexed by "name".
      case JObject(fields) => return if |fields| == 0 then Ok([]) else Err(TypeError);
      case JString(text) => return if text == "" then Ok([]) else Err(TypeError);
      case _ => return Err(TypeError);
  }
}
