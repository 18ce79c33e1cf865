/** The observable effects of the runners, in the order they happen: published incidents, evidence
    writes, face-capture passes, and the opening and release of the capture source. */
module Effects {
  import opened Base
  import opened Models
  import opened Capture

  datatype Effect =
    | Published(incident: Incident)           // handed to the incident publisher, which swallows every failure
    | ThumbnailPersisted(timestamp: real)     // a thumbnail of the current frame, keyed by that timestamp
    | FaceCapturePass(zone: string)           // one call of the face capture service
    | CaptureOpened(config: CaptureConfig)
    | CaptureReleased

  /** The class of an effect, as counted below. */
  datatype Kind = PublishedKind(event: EventName) | ThumbnailKind | FacePassKind | OpenedKind | ReleasedKind

  function KindOf(e: Effect): Kind
  {
    match e
    case Published(i) => PublishedKind(i.event)
    case ThumbnailPersisted(_) => ThumbnailKind
    case FaceCapturePass(_) => FacePassKind
    case CaptureOpened(_) => OpenedKind
    case CaptureReleased => ReleasedKind
  }

  /** The number of effects of one kind. */
  function Count(effects: seq<Effect>, k: Kind): nat
    decreases |effects|
  {
    if |effects| == 0 then 0 else (if KindOf(effects[0]) == k then 1 else 0) + Count(effects[1..], k)
  }

  /** Counting distributes over concatenation. */
  lemma {:induction false} CountConcat(a: seq<Effect>, b: seq<Effect>, k: Kind)
    ensures Count(a + b, k) == Count(a, k) + Count(b, k)
    decreases |a|
  {
    if |a| > 0 {
      assert (a + b)[1..] == a[1..] + b;
      CountConcat(a[1..], b, k);
    } else {
      assert a + b == b;
    }
  }

  /** A single effect counts once, under its own kind. */
  lemma CountSingle(e: Effect, k: Kind)
    ensures Count([e], k) == if KindOf(e) == k then 1 else 0
  {
    assert [e][1..] == [];
  }

  /** Re-opening a capture releases it once and opens it once. */
  lemma ReopenCounts(c: CaptureConfig, k: Kind)
    ensures Count([CaptureReleased, CaptureOpened(c)], k)
            == (if k == ReleasedKind then 1 else 0) + (if k == OpenedKind then 1 else 0)
  {
    assert [CaptureReleased, CaptureOpened(c)][1..] == [CaptureOpened(c)];
    CountSingle(CaptureOpened(c), k);
  }

  /** The effects of `n` re-opens in a row: release, then open again, `n` times. */
  function ReopenEffects(c: CaptureConfig, n: nat): seq<Effect>
    decreases n
  {
    if n == 0 then [] else [CaptureReleased, CaptureOpened(c)] + ReopenEffects(c, n - 1)
  }

  /** `n` re-opens open and release the capture `n` times each and publish nothing. */
  lemma {:induction false} ReopenEffectsCounts(c: CaptureConfig, n: nat, k: Kind)
    ensures Count(ReopenEffects(c, n), k) == if k == OpenedKind || k == ReleasedKind then n else 0
    decreases n
  {
    if n > 0 {
      ReopenEffectsCounts(c, n - 1, k);
      CountConcat([CaptureReleased, CaptureOpened(c)], ReopenEffects(c, n - 1), k);
      ReopenCounts(c, k);
    }
  }

  /** The zone an effect concerns: the zone of a published incident, or a face-capture pass's zone. */
  function ZoneOf(e: Effect): Option<string>
  {
    match e
    case Published(i) => i.zone
    case FaceCapturePass(z) => Some(z)
    case _ => None
  }

  /** The number of effects of one kind that concern one zone. */
  function CountIn(effects: seq<Effect>, k: Kind, zone: string): nat
    decreases |effects|
  {
    if |effects| == 0 then 0
    else (if KindOf(effects[0]) == k && ZoneOf(effects[0]) == Some(zone) then 1 else 0) + CountIn(effects[1..], k, zone)
  }

  /** Counting per zone distributes over concatenation. */
  lemma {:induction false} CountInConcat(a: seq<Effect>, b: seq<Effect>, k: Kind, zone: string)
    ensures CountIn(a + b, k, zone) == CountIn(a, k, zone) + CountIn(b, k, zone)
    decreases |a|
  {
    if |a| > 0 {
      assert (a + b)[1..] == a[1..] + b;
      CountInConcat(a[1..], b, k, zone);
    } else {
      assert a + b == b;
    }
  }

  /** Effects that all concern one zone count per that zone as they count overall, and not at all
      for any other zone. */
  lemma {:induction false} CountInSingleZone(es: seq<Effect>, k: Kind, zone: string, other: string)
    requires forall i :: 0 <= i < |es| ==> ZoneOf(es[i]) == Some(zone)
    ensures CountIn(es, k, zone) == Count(es, k)
    ensures other != zone ==> CountIn(es, k, other) == 0
    decreases |es|
  {
    if |es| > 0 {
      assert forall i :: 0 <= i < |es[1..]| ==> es[1..][i] == es[i + 1];
      CountInSingleZone(es[1..], k, zone, other);
    }
  }

  /** Every published incident has a non-negative timestamp. */
  predicate AllValid(effects: seq<Effect>)
  {
    forall i :: 0 <= i < |effects| && effects[i].Published? ==> Valid(effects[i].incident)
  }

  /** Validity of a concatenation is validity of both parts. */
  lemma AllValidConcat(a: seq<Effect>, b: seq<Effect>)
    ensures AllValid(a + b) <==> AllValid(a) && AllValid(b)
  {
    if AllValid(a) && AllValid(b) {
      forall i | 0 <= i < |a + b| && (a + b)[i].Published?
        ensures Valid((a + b)[i].incident)
      {
        if i >= |a| {
          assert (a + b)[i] == b[i - |a|];
        }
      }
    }
    if AllValid(a + b) {
      forall i | 0 <= i < |a| && a[i].Published?
        ensures Valid(a[i].incident)
      {
        assert (a + b)[i] == a[i];
      }
      forall i | 0 <= i < |b| && b[i].Published?
        ensures Valid(b[i].incident)
      {
        assert (a + b)[|a| + i] == b[i];
      }
    }
  }
}
