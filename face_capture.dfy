/** Face detection on a frame and persistence of the crops (aqmaq/services/face_capture.py). */
module FaceCapture {
  import opened Base
  import opened Text
  import opened Paths
  import opened Frames

  /** The cascade file bundled with OpenCV. */
  const DefaultCascadeName := "haarcascade_frontalface_default.xml"

  /** A constructed service: where crops go and which cascade file the detector was loaded from. */
  datatype FaceCaptureService = FaceCaptureService(outputDir: Path, cascade: string)

  /** What the constructor raises. */
  datatype InitError = RuntimeError(message: string)

  /** `cascade_path or (cv2.data.haarcascades + name)`: an absent or empty path selects the bundled cascade. */
  function CascadeLocation(cascadePath: Option<string>, haarcascades: string): (r: string)
    ensures cascadePath.Some? && cascadePath.value != "" ==> r == cascadePath.value
    ensures cascadePath.None? || cascadePath.value == "" ==> r == haarcascades + DefaultCascadeName
  {
    if cascadePath.Some? && cascadePath.value != "" then cascadePath.value else haarcascades + DefaultCascadeName
  }

  /** The constructor: it fails exactly when the detector loaded from the cascade is empty. */
  function NewFaceCaptureService(outputDir: Path, cascadePath: Option<string>, haarcascades: string, detectorEmpty: bool): (r: Result<FaceCaptureService, InitError>)
    ensures r.Err? <==> detectorEmpty
    ensures r.Ok? ==> r.value == FaceCaptureService(outputDir, CascadeLocation(cascadePath, haarcascades))
    ensures r.Err? ==> r.error == RuntimeError("Failed to load face cascade at " + CascadeLocation(cascadePath, haarcascades))
  {
    var cascade := CascadeLocation(cascadePath, haarcascades);
    if detectorEmpty then Err(RuntimeError("Failed to load face cascade at " + cascade))
    else Ok(FaceCaptureService(outputDir, cascade))
  }

  /** One face found by the detector: `(x, y, w, h)` in frame pixels. */
  datatype Detection = Detection(x: int, y: int, w: int, h: int)

  /** `face_{zone}_{timestamp}_{idx}.jpg`. */
  function FaceFileName(zone: string, timestamp: nat, idx: nat): string
  {
    "face_" + zone + "_" + Decimal(timestamp) + "_" + Decimal(idx) + ".jpg"
  }

  /** Within one call (same zone, same timestamp) different detections get different file names. */
  lemma FaceFileNamesDistinct(zone: string, timestamp: nat, i: nat, j: nat)
    ensures FaceFileName(zone, timestamp, i) == FaceFileName(zone, timestamp, j) ==> i == j
  {
    var prefix := "face_" + zone + "_" + Decimal(timestamp) + "_";
    var a, b := FaceFileName(zone, timestamp, i), FaceFileName(zone, timestamp, j);
    assert a == prefix + Decimal(i) + ".jpg";
    assert b == prefix + Decimal(j) + ".jpg";
    if a == b {
      assert |Decimal(i)| == |Decimal(j)|;
      assert a[|prefix|..|prefix| + |Decimal(i)|] == Decimal(i);
      assert b[|prefix|..|prefix| + |Decimal(j)|] == Decimal(j);
      DecimalInjective(i, j);
    }
  }

  /** `output_dir / filename` for detection `idx`. */
  function FaceTarget(svc: FaceCaptureService, zone: string, timestamp: nat, idx: nat): Path
  {
    Join(svc.outputDir, FaceFileName(zone, timestamp, idx))
  }

  /** `frame[y : y + h, x : x + w]`. */
  function FaceCrop(frame: Frame, d: Detection): Frame
    requires WellFormed(frame)
  {
    Crop(frame, d.y, d.y + d.h, d.x, d.x + d.w)
  }

  /** The detection lies inside the frame, as the detector reports it. */
  predicate InsideFrame(d: Detection, frame: Frame)
  {
    0 <= d.x && 0 <= d.w && d.x + d.w <= frame.width && 0 <= d.y && 0 <= d.h && d.y + d.h <= Height(frame)
  }

  /** The crop of a detection inside the frame covers exactly rows `y..y+h` and columns `x..x+w`. */
  lemma FaceCropCovers(frame: Frame, d: Detection)
    requires WellFormed(frame) && InsideFrame(d, frame)
    ensures Height(FaceCrop(frame, d)) == d.h && FaceCrop(frame, d).width == d.w
    ensures forall i, j :: 0 <= i < d.h && 0 <= j < d.w ==> FaceCrop(frame, d).rows[i][j] == frame.rows[d.y + i][d.x + j]
  {
    CropWithin(frame, d.y, d.y + d.h, d.x, d.x + d.w);
  }

  /** The indices whose write succeeded, in detection order. */
  function SavedIndices(written: seq<bool>): seq<nat>
    decreases |written|
  {
    if |written| == 0 then []
    else SavedIndices(written[..|written| - 1]) + (if written[|written| - 1] then [|written| - 1] else [])
  }

  /** An index is kept exactly when its write succeeded; kept indices are increasing, so there are at most as many as detections. */
  lemma {:induction false} SavedIndicesSpec(written: seq<bool>)
    ensures forall k :: 0 <= k < |SavedIndices(written)| ==> SavedIndices(written)[k] < |written| && written[SavedIndices(written)[k]]
    ensures forall i :: 0 <= i < |written| && written[i] ==> i in SavedIndices(written)
    ensures forall a, b :: 0 <= a < b < |SavedIndices(written)| ==> SavedIndices(written)[a] < SavedIndices(written)[b]
    ensures |SavedIndices(written)| <= |written|
    decreases |written|
  {
    if |written| > 0 {
      var init := written[..|written| - 1];
      SavedIndicesSpec(init);
      assert forall i :: 0 <= i < |init| ==> init[i] == written[i];
    }
  }

  /** The paths of the kept indices. */
  function Targets(svc: FaceCaptureService, zone: string, timestamp: nat, idxs: seq<nat>): (r: seq<Path>)
    ensures |r| == |idxs|
  {
    seq(|idxs|, k requires 0 <= k < |idxs| => FaceTarget(svc, zone, timestamp, idxs[k]))
  }

  /** The saved paths of one call are pairwise different. */
  lemma SavedPathsDistinct(svc: FaceCaptureService, zone: string, timestamp: nat, written: seq<bool>)
    ensures var paths := Targets(svc, zone, timestamp, SavedIndices(written));
      forall a, b :: 0 <= a < b < |paths| ==> paths[a] != paths[b]
  {
    var idxs := SavedIndices(written);
    SavedIndicesSpec(written);
    forall a, b | 0 <= a < b < |idxs|
      ensures FaceTarget(svc, zone, timestamp, idxs[a]) != FaceTarget(svc, zone, timestamp, idxs[b])
    {
      FaceFileNamesDistinct(zone, timestamp, idxs[a], idxs[b]);
      JoinInjective(svc.outputDir, FaceFileName(zone, timestamp, idxs[a]), svc.outputDir, FaceFileName(zone, timestamp, idxs[b]));
    }
  }

  /** One image write requested from the encoder. */
  datatype ImageWrite = ImageWrite(target: Path, image: Frame)

  /** `capture(frame, zone)`. `faces` are the detector's results, `timestamp` the whole seconds of the clock
      read once per call, and `written[i]` whether writing crop `i` succeeded. Every detection is written;
      only the successful paths are returned. */
  method Capture(svc: FaceCaptureService, frame: Frame, zone: string, timestamp: nat, faces: seq<Detection>, written: seq<bool>)
    returns (saved: seq<Path>, writes: seq<ImageWrite>)
    requires WellFormed(frame) && |written| == |faces|
    ensures |writes| == |faces|
    ensures forall i :: 0 <= i < |faces| ==> writes[i] == ImageWrite(FaceTarget(svc, zone, timestamp, i), FaceCrop(frame, faces[i]))
    ensures saved == Targets(svc, zone, timestamp, SavedIndices(written))
  {
    saved, writes := [], [];
    var idx := 0;
    while idx < |faces|
      invariant 0 <= idx <= |faces| && |writes| == idx
      invariant forall i :: 0 <= i < idx ==> writes[i] == ImageWrite(FaceTarget(svc, zone, timestamp, i), FaceCrop(frame, faces[i]))
      invariant saved == Targets(svc, zone, timestamp, SavedIndices(written[..idx]))
    {
      var target := FaceTarget(svc, zone, timestamp, idx);
      writes := writes + [ImageWrite(target, FaceCrop(frame, faces[idx]))];
      assert written[..idx + 1][..idx] == written[..idx];
      if written[idx] {
        saved := saved + [target];
      }
      idx := idx + 1;
    }
    assert written[..|faces|] == written;
  }
}
