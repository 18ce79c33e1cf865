/** The frozen settings value shared by the demo runners (aqmaq/config.py). */
module Config {
  import opened Base
  import opened Text
  import opened Paths

  /** Settings fields; a datatype value never changes once built, as the frozen model promises. */
  datatype Settings = Settings(
    source: string,
    lineY: int,
    apiUrl: string,
    dataDir: Path,
    noMotionSeconds: real,
    ffmpegCaptureOptions: Option<string>,
    zoneConfigPath: Option<Path>,
    zoneModelPath: Option<Path>)

  /** The field constraints checked at construction. */
  predicate Valid(s: Settings)
  {
    s.lineY >= 0 && s.noMotionSeconds > 0.0
  }

  /** One constraint violation reported by construction. */
  datatype SettingsError = NegativeLineY | NonPositiveNoMotionSeconds

  /** `Settings(...)`: the value, or every constraint it violates. */
  function NewSettings(
    source: string, lineY: int, apiUrl: string, dataDir: Path, noMotionSeconds: real,
    ffmpegCaptureOptions: Option<string>, zoneConfigPath: Option<Path>, zoneModelPath: Option<Path>): (r: Result<Settings, seq<SettingsError>>)
    ensures r.Ok? <==> lineY >= 0 && noMotionSeconds > 0.0
    ensures r.Ok? ==> Valid(r.value)
    ensures r.Ok? ==> r.value == Settings(source, lineY, apiUrl, dataDir, noMotionSeconds, ffmpegCaptureOptions, zoneConfigPath, zoneModelPath)
    ensures r.Err? ==> (NegativeLineY in r.error <==> lineY < 0)
    ensures r.Err? ==> (NonPositiveNoMotionSeconds in r.error <==> noMotionSeconds <= 0.0)
    ensures r.Err? ==> |r.error| <= 2
  {
    var errors := (if lineY < 0 then [NegativeLineY] else [])
      + (if noMotionSeconds <= 0.0 then [NonPositiveNoMotionSeconds] else []);
    if errors == [] then
      Ok(Settings(source, lineY, apiUrl, dataDir, noMotionSeconds, ffmpegCaptureOptions, zoneConfigPath, zoneModelPath))
    else Err(errors)
  }

  /** The declared defaults; the default data directory is computed from the package location and is a parameter here. */
  function Defaults(defaultDataDir: Path): Settings
  {
    Settings("0", 300, "http://localhost:8000/incidents", defaultDataDir, 5.0, Some("rtsp_transport;tcp"), None, None)
  }

  /** Whether the source is an RTSP or RTSPS stream URL (case-sensitive prefix test). */
  predicate IsRtspSource(s: Settings)
  {
    StartsWith(s.source, "rtsp://") || StartsWith(s.source, "rtsps://")
  }

  /** The RTSP test holds exactly for the texts that begin with one of the two scheme prefixes. */
  lemma IsRtspSourceIff(s: Settings)
    ensures IsRtspSource(s) <==> exists rest :: s.source == "rtsp://" + rest || s.source == "rtsps://" + rest
  {
    StartsWithIff(s.source, "rtsp://");
    StartsWithIff(s.source, "rtsps://");
  }

  /** The defaults satisfy the constraints, and the default camera `"0"` is not an RTSP source. */
  lemma DefaultsValid(d: Path)
    ensures Valid(Defaults(d)) && !IsRtspSource(Defaults(d))
    ensures NewSettings("0", 300, "http://localhost:8000/incidents", d, 5.0, Some("rtsp_transport;tcp"), None, None) == Ok(Defaults(d))
  {
  }

  function ThumbsDir(s: Settings): Path { Join(s.dataDir, "thumbs") }

  function DbDir(s: Settings): Path { Join(s.dataDir, "db") }

  function IncidentsPath(s: Settings): Path { Join(DbDir(s), "incidents.jsonl") }

  function FacesDir(s: Settings): Path { Join(s.dataDir, "faces") }

  /** Where the derived paths sit: thumbs, db and faces directly under the data directory, the incident log inside db; all four differ. */
  lemma DerivedPaths(s: Settings)
    ensures Parent(ThumbsDir(s)) == s.dataDir && Name(ThumbsDir(s)) == "thumbs"
    ensures Parent(FacesDir(s)) == s.dataDir && Name(FacesDir(s)) == "faces"
    ensures Parent(DbDir(s)) == s.dataDir && Name(DbDir(s)) == "db"
    ensures Parent(IncidentsPath(s)) == DbDir(s) && Name(IncidentsPath(s)) == "incidents.jsonl"
    ensures Parent(Parent(IncidentsPath(s))) == s.dataDir
    ensures ThumbsDir(s) != FacesDir(s) && ThumbsDir(s) != DbDir(s) && FacesDir(s) != DbDir(s)
    ensures IncidentsPath(s) != ThumbsDir(s) && IncidentsPath(s) != FacesDir(s) && IncidentsPath(s) != DbDir(s)
  {
    JoinSplits(s.dataDir, "thumbs");
    JoinSplits(s.dataDir, "faces");
    JoinSplits(s.dataDir, "db");
    JoinSplits(DbDir(s), "incidents.jsonl");
    JoinInjective(s.dataDir, "thumbs", s.dataDir, "faces");
    JoinInjective(s.dataDir, "thumbs", s.dataDir, "db");
    JoinInjective(s.dataDir, "faces", s.dataDir, "db");
  }
}
