/** The zone interaction scorer: an edge-density heuristic or an optional learned model (aqmaq/services/zone_model.py). */
module ZoneModel {
  import opened Base
  import opened Paths
  import opened Frames

  /** A TFLite interpreter that was created; what it computes is not interpreted here. */
  datatype Interpreter = Interpreter(handle: nat)

  /** How the guarded model load in the constructor ended. */
  datatype LoadOutcome =
    | InterpreterFailed                      // importing TFLite or creating the interpreter raised
    | SetupFailed(interpreter: Interpreter)  // the interpreter was created and stored, then tensor allocation or a details query raised
    | Loaded(interpreter: Interpreter)       // every step succeeded

  /** The scoring strategy, chosen once at construction. */
  datatype Scorer = Heuristic | Learned(interpreter: Interpreter)

  datatype ZoneClassifier = ZoneClassifier(modelPath: Option<Path>, inputSize: (nat, nat), threshold: real, scorer: Scorer)

  const DefaultInputSize: (nat, nat) := (224, 224)
  const DefaultThreshold := 0.6

  /** What `predict_proba` can raise. */
  datatype ScoreError = TypeError | IndexError

  /** The constructor: the learned model is used only when a path is given, the file exists and every
      loading step succeeded; any other case falls back to the heuristic for good. */
  function NewClassifier(
    modelPath: Option<Path>, modelExists: bool, load: LoadOutcome,
    inputSize: (nat, nat) := DefaultInputSize, threshold: real := DefaultThreshold): (c: ZoneClassifier)
    ensures c.modelPath == modelPath && c.inputSize == inputSize && c.threshold == threshold
    ensures c.scorer.Learned? <==> modelPath.Some? && modelExists && load.Loaded?
    ensures c.scorer.Learned? ==> c.scorer.interpreter == load.interpreter
  {
    var scorer := if modelPath.Some? && modelExists && load.Loaded? then Learned(load.interpreter) else Heuristic;
    ZoneClassifier(modelPath, inputSize, threshold, scorer)
  }

  /** The sum of a sequence of edge values. */
  function Sum(xs: seq<int>): int
    decreases |xs|
  {
    if |xs| == 0 then 0 else Sum(xs[..|xs| - 1]) + xs[|xs| - 1]
  }

  /** The number of full-intensity (255) values. */
  function EdgePixels(xs: seq<int>): nat
    decreases |xs|
  {
    if |xs| == 0 then 0 else EdgePixels(xs[..|xs| - 1]) + (if xs[|xs| - 1] == 255 then 1 else 0)
  }

  /** `_heuristic_score` over the edge map of the ROI: the edge values summed and divided by `size * 255`. */
  function HeuristicScore(edges: seq<int>): real
    requires |edges| > 0
  {
    Sum(edges) as real / (|edges| as real * 255.0)
  }

  /** A sum of values in [0, 255] lies between 0 and `255 * count`. */
  lemma {:induction false} SumBounds(xs: seq<int>)
    requires forall i :: 0 <= i < |xs| ==> 0 <= xs[i] <= 255
    ensures 0 <= Sum(xs) <= 255 * |xs|
    decreases |xs|
  {
    if |xs| > 0 {
      SumBounds(xs[..|xs| - 1]);
    }
  }

  /** For an edge map of zeros and 255s, the sum is 255 per edge pixel. */
  lemma {:induction false} SumOfBinaryEdges(xs: seq<int>)
    requires forall i :: 0 <= i < |xs| ==> xs[i] == 0 || xs[i] == 255
    ensures Sum(xs) == 255 * EdgePixels(xs)
    decreases |xs|
  {
    if |xs| > 0 {
      SumOfBinaryEdges(xs[..|xs| - 1]);
    }
  }

  /** The heuristic score lies in [0, 1] whenever every edge value is in [0, 255]. */
  lemma HeuristicScoreInUnit(edges: seq<int>)
    requires |edges| > 0
    requires forall i :: 0 <= i < |edges| ==> 0 <= edges[i] <= 255
    ensures 0.0 <= HeuristicScore(edges) <= 1.0
  {
    SumBounds(edges);
    QuotientInUnit(Sum(edges) as real, |edges| as real * 255.0);
  }

  /** A quotient of a non-negative value by a larger positive one lies in [0, 1]. */
  lemma QuotientInUnit(a: real, d: real)
    requires 0.0 <= a <= d && 0.0 < d
    ensures 0.0 <= a / d <= 1.0
  {
    assert a / d * d == a;
  }

  /** On a binary edge map the heuristic score is exactly the fraction of edge pixels. */
  lemma HeuristicIsEdgeFraction(edges: seq<int>)
    requires |edges| > 0
    requires forall i :: 0 <= i < |edges| ==> edges[i] == 0 || edges[i] == 255
    ensures HeuristicScore(edges) == EdgePixels(edges) as real / |edges| as real
  {
    SumOfBinaryEdges(edges);
    var n, c := |edges| as real, EdgePixels(edges) as real;
    assert Sum(edges) as real == 255.0 * c;
    assert (255.0 * c) / (n * 255.0) == c / n;
  }

  /** `predict_proba(roi)`. `edges` is the Canny edge map of the ROI (one value per pixel) and `output`
      the flattened output tensor the model gives for the resized, normalised ROI. */
  function PredictProba(c: ZoneClassifier, roi: Frame, edges: seq<int>, output: seq<real>): (r: Result<real, ScoreError>)
    requires |edges| == Height(roi) * roi.width
    ensures Size(roi) == 0 ==> r == Ok(0.0)
    ensures Size(roi) > 0 && c.scorer.Heuristic? ==> |edges| > 0 && r == Ok(HeuristicScore(edges))
    ensures Size(roi) > 0 && c.scorer.Learned? ==> r == if |output| == 0 then Err(IndexError) else Ok(output[0])
  {
    SizeZeroIff(roi);
    if Size(roi) == 0 then Ok(0.0)
    else if c.scorer.Heuristic? then Ok(HeuristicScore(edges))
    else if |output| == 0 then Err(IndexError)
    else Ok(output[0])
  }

  /** A zero-size ROI scores 0.0 before either strategy is consulted, whatever the classifier. */
  lemma ZeroSizeScoresZero(c: ZoneClassifier, roi: Frame, edges: seq<int>, output: seq<real>)
    requires |edges| == Height(roi) * roi.width
    requires Height(roi) == 0 || roi.width == 0
    ensures PredictProba(c, roi, edges, output) == Ok(0.0)
  {
    SizeZeroIff(roi);
  }

  /** Whenever the model is not fully loaded, every prediction is the heuristic one and never raises. */
  lemma FallbackOnLoadFailure(
    modelPath: Option<Path>, modelExists: bool, load: LoadOutcome,
    roi: Frame, edges: seq<int>, output: seq<real>)
    requires |edges| == Height(roi) * roi.width
    requires modelPath.None? || !modelExists || !load.Loaded?
    requires forall i :: 0 <= i < |edges| ==> 0 <= edges[i] <= 255
    ensures var r := PredictProba(NewClassifier(modelPath, modelExists, load), roi, edges, output);
      r.Ok? && 0.0 <= r.value <= 1.0
      && r == if Size(roi) == 0 then Ok(0.0) else Ok(HeuristicScore(edges))
  {
    if Size(roi) > 0 {
      SizeZeroIff(roi);
      HeuristicScoreInUnit(edges);
    }
  }

  /** The stored threshold plays no part in a prediction. */
  lemma ThresholdIgnored(c: ZoneClassifier, t: real, roi: Frame, edges: seq<int>, output: seq<real>)
    requires |edges| == Height(roi) * roi.width
    ensures PredictProba(c.(threshold := t), roi, edges, output) == PredictProba(c, roi, edges, output)
  {
  }

  /** A loaded model's first output is returned as it is: one outside [0,1] is not clamped into it. */
  lemma LearnedScoreNotClamped(p: Path, i: Interpreter, roi: Frame, edges: seq<int>, output: seq<real>)
    requires |edges| == Height(roi) * roi.width && Size(roi) > 0
    requires |output| > 0 && (output[0] < 0.0 || 1.0 < output[0])
    ensures var r := PredictProba(NewClassifier(Some(p), true, Loaded(i)), roi, edges, output);
      r == Ok(output[0]) && (r.value < 0.0 || 1.0 < r.value)
  {
  }

  // The constructor as the source writes it, kept to exhibit a fallback gap.

  /** The attributes the source's constructor leaves: the interpreter reference and whether both tensor-detail lists were stored. */
  datatype ClassifierFields = ClassifierFields(interpreter: Option<Interpreter>, detailsStored: bool)

  /** The constructor as written: the interpreter is stored before allocation and the details queries, so a
      failure in those leaves it set while the details stay `None`. */
  function InitAsWritten(modelPath: Option<Path>, modelExists: bool, load: LoadOutcome): (f: ClassifierFields)
    ensures f.interpreter.Some? <==> modelPath.Some? && modelExists && !load.InterpreterFailed?
  {
    if modelPath.Some? && modelExists then
      match load
      case InterpreterFailed => ClassifierFields(None, false)
      case SetupFailed(i) => ClassifierFields(Some(i), false)
      case Loaded(i) => ClassifierFields(Some(i), true)
    else ClassifierFields(None, false)
  }

  /** `predict_proba` over those attributes: with an interpreter but no details, indexing `None` raises. */
  function PredictAsWritten(f: ClassifierFields, roi: Frame, edges: seq<int>, output: seq<real>): Result<real, ScoreError>
    requires |edges| == Height(roi) * roi.width
  {
    SizeZeroIff(roi);
    if Size(roi) == 0 then Ok(0.0)
    else if f.interpreter.None? then Ok(HeuristicScore(edges))
    else if !f.detailsStored then Err(TypeError)
    else if |output| == 0 then Err(IndexError)
    else Ok(output[0])
  }

  /** As written, a model whose tensor allocation fails is not a heuristic fallback: every non-empty ROI raises. */
  lemma SetupFailureBreaksPrediction(p: Path, i: Interpreter)
    ensures var roi := Frame(1, [[Pixel(0, 0, 0)]]);
      && PredictAsWritten(InitAsWritten(Some(p), true, SetupFailed(i)), roi, [255], [0.5]) == Err(TypeError)
      && PredictProba(NewClassifier(Some(p), true, SetupFailed(i)), roi, [255], [0.5]) == Ok(1.0)
  {
    var roi := Frame(1, [[Pixel(0, 0, 0)]]);
    assert Size(roi) == 3;
    assert Sum([255]) == 255 by {
      assert [255][..0] == [];
    }
  }
}
