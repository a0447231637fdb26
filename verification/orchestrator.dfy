/** The decision logic of one scan (app/core/orchestrator.py): the two detection
    filters, the fallback rule, the choice of which detections are analysed, the
    per-fruit aggregation and the publish targets. Every collaborator call is an
    input that may have failed. */
module Orchestrator {
  import opened Results
  import opened Numeric
  import opened Seqs
  import opened Settings
  import opened Common

  // ---------------------------------------------------------------------------
  // Class-threshold filter

  /** The confidence a class must reach: its own threshold, or the guard for an unlisted class. */
  function ClassThreshold(cfg: Config, fruitClass: string): real
  {
    if fruitClass in cfg.classThresholds then cfg.classThresholds[fruitClass] else cfg.confidenceGuard
  }

  predicate MeetsClassThreshold(cfg: Config, d: Detection)
  {
    d.confidence >= ClassThreshold(cfg, d.fruitClass)
  }

  /** `_filter_detections_by_class_threshold`: exactly the detections that reach their
      class's threshold, each as often as in the input, in input order. */
  function FilterByClassThreshold(cfg: Config, dets: seq<Detection>): (r: seq<Detection>)
    ensures |dets| == 0 ==> r == []
    ensures IsSubseq(r, dets)
    ensures forall i :: 0 <= i < |r| ==> MeetsClassThreshold(cfg, r[i])
    ensures forall d :: multiset(r)[d] == if MeetsClassThreshold(cfg, d) then multiset(dets)[d] else 0
  {
    if |dets| == 0 then [] else Filter(d => MeetsClassThreshold(cfg, d), dets)
  }

  /** Filtering an already filtered list changes nothing. */
  lemma ClassFilterIdempotent(cfg: Config, dets: seq<Detection>)
    ensures FilterByClassThreshold(cfg, FilterByClassThreshold(cfg, dets)) == FilterByClassThreshold(cfg, dets)
  {
    FilterIdempotent(d => MeetsClassThreshold(cfg, d), dets);
  }

  // ---------------------------------------------------------------------------
  // Bounding-box area filter

  /** Width times height; negative when exactly one axis is inverted. */
  function BoxArea(b: BoundingBox): real
  {
    (b.xMax - b.xMin) * (b.yMax - b.yMin)
  }

  function MinBoxArea(cfg: Config, imageArea: int): real
  {
    imageArea as real * cfg.minBboxAreaRatio
  }

  predicate LargeEnough(cfg: Config, imageArea: int, d: Detection)
  {
    BoxArea(d.bbox) >= MinBoxArea(cfg, imageArea)
  }

  /** `_filter_detections_by_bbox_area`: exactly the detections whose box covers at
      least `min_bbox_area_ratio` of the image, each as often as in the input, in
      input order. */
  function FilterByBoxArea(cfg: Config, imageArea: int, dets: seq<Detection>): (r: seq<Detection>)
    ensures |dets| == 0 ==> r == []
    ensures IsSubseq(r, dets)
    ensures forall i :: 0 <= i < |r| ==> LargeEnough(cfg, imageArea, r[i])
    ensures forall d :: multiset(r)[d] == if LargeEnough(cfg, imageArea, d) then multiset(dets)[d] else 0
  {
    if |dets| == 0 then [] else Filter(d => LargeEnough(cfg, imageArea, d), dets)
  }

  lemma AreaFilterIdempotent(cfg: Config, imageArea: int, dets: seq<Detection>)
    ensures FilterByBoxArea(cfg, imageArea, FilterByBoxArea(cfg, imageArea, dets)) == FilterByBoxArea(cfg, imageArea, dets)
  {
    FilterIdempotent(d => LargeEnough(cfg, imageArea, d), dets);
  }

  /** Because no min <= max ordering is enforced, a box inverted along exactly one
      axis has negative area and is always dropped under the configured bounds. */
  lemma HalfInvertedBoxDropped(cfg: Config, imageArea: int, dets: seq<Detection>, d: Detection)
    requires ValidConfig(cfg) && imageArea >= 0
    requires (d.bbox.xMax < d.bbox.xMin && d.bbox.yMin < d.bbox.yMax)
          || (d.bbox.xMin < d.bbox.xMax && d.bbox.yMax < d.bbox.yMin)
    ensures d !in FilterByBoxArea(cfg, imageArea, dets)
  {
    var w := d.bbox.xMax - d.bbox.xMin;
    var h := d.bbox.yMax - d.bbox.yMin;
    assert w * h < 0.0 by {
      if w < 0.0 {
        assert -w > 0.0 && h > 0.0;
        assert (-w) * h > 0.0;
      } else {
        assert w > 0.0 && -h > 0.0;
        assert w * (-h) > 0.0;
      }
    }
    assert imageArea as real * cfg.minBboxAreaRatio >= 0.0;
    assert !LargeEnough(cfg, imageArea, d);
    assert multiset(FilterByBoxArea(cfg, imageArea, dets))[d] == 0;
  }

  // ---------------------------------------------------------------------------
  // Both filters, in the order a scan applies them

  /** A detection survives both filters. */
  predicate Admissible(cfg: Config, imageArea: int, d: Detection)
  {
    LargeEnough(cfg, imageArea, d) && MeetsClassThreshold(cfg, d)
  }

  /** The area filter followed by the class filter is one filter by their conjunction. */
  function FilterDetections(cfg: Config, imageArea: int, raw: seq<Detection>): (r: seq<Detection>)
    ensures r == Filter(d => Admissible(cfg, imageArea, d), raw)
  {
    var afterArea := FilterByBoxArea(cfg, imageArea, raw);
    FilterCompose(d => LargeEnough(cfg, imageArea, d), d => MeetsClassThreshold(cfg, d),
                  d => Admissible(cfg, imageArea, d), raw);
    assert FilterByClassThreshold(cfg, afterArea) == Filter(d => MeetsClassThreshold(cfg, d), afterArea);
    FilterByClassThreshold(cfg, afterArea)
  }

  // ---------------------------------------------------------------------------
  // Fallback rule

  datatype FallbackReason =
    | WeightIndicatesFruitButNoDetections
    | AllDetectionsBelowConfidenceGuard
    | ExpectedMoreFruitsByWeight

  predicate AllBelowGuard(cfg: Config, raw: seq<Detection>)
  {
    forall i :: 0 <= i < |raw| ==> raw[i].confidence < cfg.confidenceGuard
  }

  /** With a positive per-fruit weight, "expected at least two and got fewer than
      expected minus one" says the weight covers two more fruits than were detected. */
  lemma ExpectedCountCondition(weight: real, perFruit: real, actual: nat)
    requires perFruit > 0.0
    ensures (var expected := Trunc(weight / perFruit); expected >= 2 && actual < expected - 1)
            <==> (actual + 2) as real * perFruit <= weight
  {
    var k := actual + 2;
    TruncAtLeast(weight / perFruit, k);
    assert weight == (weight / perFruit) * perFruit;
    assert weight / perFruit >= k as real <==> weight >= k as real * perFruit;
  }

  /** `_should_fallback`, with its three reasons in priority order. */
  function ShouldFallback(cfg: Config, filtered: seq<Detection>, raw: seq<Detection>, weight: real): (r: Option<FallbackReason>)
    // an empty filtered list under a fruit-heavy weight wins over everything else
    ensures weight >= cfg.minFruitWeight && |filtered| == 0 ==> r == Some(WeightIndicatesFruitButNoDetections)
    ensures r == Some(AllDetectionsBelowConfidenceGuard) <==>
              && !(weight >= cfg.minFruitWeight && |filtered| == 0)
              && |raw| > 0 && AllBelowGuard(cfg, raw)
    ensures r == Some(ExpectedMoreFruitsByWeight) <==>
              && !(weight >= cfg.minFruitWeight && |filtered| == 0)
              && !(|raw| > 0 && AllBelowGuard(cfg, raw))
              && weight >= cfg.minFruitWeight && cfg.expectedWeightPerFruit > 0.0
              && (|filtered| + 2) as real * cfg.expectedWeightPerFruit <= weight
    // no reason at all: light and no listed cause, or heavy with enough detections
    ensures r.None? <==>
              && !(weight >= cfg.minFruitWeight && |filtered| == 0)
              && !(|raw| > 0 && AllBelowGuard(cfg, raw))
              && !(weight >= cfg.minFruitWeight && cfg.expectedWeightPerFruit > 0.0
                   && (|filtered| + 2) as real * cfg.expectedWeightPerFruit <= weight)
  {
    if weight >= cfg.minFruitWeight && |filtered| == 0 then
      Some(WeightIndicatesFruitButNoDetections)
    else if |raw| > 0 && AllBelowGuard(cfg, raw) then
      Some(AllDetectionsBelowConfidenceGuard)
    else if weight >= cfg.minFruitWeight && cfg.expectedWeightPerFruit > 0.0
            && (var expected := Trunc(weight / cfg.expectedWeightPerFruit);
                expected >= 2 && |filtered| < expected - 1) then
      ExpectedCountCondition(weight, cfg.expectedWeightPerFruit, |filtered|);
      Some(ExpectedMoreFruitsByWeight)
    else
      if weight >= cfg.minFruitWeight && cfg.expectedWeightPerFruit > 0.0 then
        ExpectedCountCondition(weight, cfg.expectedWeightPerFruit, |filtered|);
        None
      else None
  }

  // ---------------------------------------------------------------------------
  // Which detections are analysed

  /** The detections `execute_scan` hands to the analysis: the filtered primary
      response when no fallback reason exists, otherwise the filtered fallback
      response, whose failure fails the scan. */
  function SelectDetections(cfg: Config, weight: real, imageArea: int, primary: seq<Detection>,
                            fallback: Result<seq<Detection>, string>): (r: Result<seq<Detection>, string>)
    ensures var reason := ShouldFallback(cfg, FilterDetections(cfg, imageArea, primary), primary, weight);
            && (reason.None? ==> r == Success(FilterDetections(cfg, imageArea, primary)))
            && (reason.Some? && fallback.Failure? ==> r.Failure?)
            && (reason.Some? && fallback.Success? ==>
                  r == Success(FilterDetections(cfg, imageArea, fallback.value)))
    ensures r.Success? ==> forall i :: 0 <= i < |r.value| ==> Admissible(cfg, imageArea, r.value[i])
  {
    var filtered := FilterDetections(cfg, imageArea, primary);
    match ShouldFallback(cfg, filtered, primary, weight)
    case None => Success(filtered)
    case Some(_) =>
      match fallback
      case Failure(e) => Failure(e)
      case Success(fb) => Success(FilterDetections(cfg, imageArea, fb))
  }

  /** Without a fallback reason the fallback response is never consulted. */
  lemma FallbackUnusedWithoutReason(cfg: Config, weight: real, imageArea: int, primary: seq<Detection>,
                                    fb1: Result<seq<Detection>, string>, fb2: Result<seq<Detection>, string>)
    ensures ShouldFallback(cfg, FilterDetections(cfg, imageArea, primary), primary, weight).None? ==>
              SelectDetections(cfg, weight, imageArea, primary, fb1) == SelectDetections(cfg, weight, imageArea, primary, fb2)
  {
  }

  /** With a fallback reason the primary results are discarded: every selected
      detection comes from the fallback response. */
  lemma PrimaryDiscardedOnFallback(cfg: Config, weight: real, imageArea: int, primary: seq<Detection>,
                                   fallback: seq<Detection>, d: Detection)
    ensures ShouldFallback(cfg, FilterDetections(cfg, imageArea, primary), primary, weight).Some? ==>
              SelectDetections(cfg, weight, imageArea, primary, Success(fallback)).Success? &&
              (d in SelectDetections(cfg, weight, imageArea, primary, Success(fallback)).value ==> d in fallback)
  {
    var sel := FilterDetections(cfg, imageArea, fallback);
    if d in sel {
      assert multiset(sel)[d] > 0;
    }
  }

  // ---------------------------------------------------------------------------
  // Per-fruit analysis

  /** What happened to one detection: its crop raised (its gathered coroutine failed and the
      fruit is dropped), the defect call raised, or the defect call answered. */
  datatype FruitOutcome = CropFailed | DefectCallFailed | DefectsFound(defects: seq<DefectInfo>)

  predicate Cropped(analyze: Detection -> FruitOutcome, d: Detection)
  {
    !analyze(d).CropFailed?
  }

  /** The summary built for one analysed detection: its identity copied, its
      defects the detector's list or empty when the defect call raised. */
  function Summarize(d: Detection, o: FruitOutcome): (s: FruitSummary)
    ensures s.fruitId == d.fruitId && s.fruitClass == d.fruitClass
    ensures s.confidence == d.confidence && s.bbox == d.bbox
    ensures s.defects == (if o.DefectsFound? then o.defects else [])
  {
    FruitSummary(d.fruitId, d.fruitClass, d.confidence, d.bbox, if o.DefectsFound? then o.defects else [])
  }

  function Summaries(dets: seq<Detection>, analyze: Detection -> FruitOutcome): (r: seq<FruitSummary>)
    ensures |r| == |dets|
    ensures forall i :: 0 <= i < |dets| ==> r[i] == Summarize(dets[i], analyze(dets[i]))
  {
    seq(|dets|, i requires 0 <= i < |dets| => Summarize(dets[i], analyze(dets[i])))
  }

  /** `_analyze_fruits`, run sequentially: the gathered per-detection results in
      input order, skipping the ones whose task raised. */
  function AnalyzeFruits(dets: seq<Detection>, analyze: Detection -> FruitOutcome): (r: seq<FruitSummary>)
    ensures |dets| == 0 ==> r == []
    ensures |r| <= |dets|
    decreases |dets|
  {
    if |dets| == 0 then []
    else
      var rest := AnalyzeFruits(dets[1..], analyze);
      if Cropped(analyze, dets[0]) then [Summarize(dets[0], analyze(dets[0]))] + rest else rest
  }

  /** The detections whose crop succeeds, in input order. */
  function CroppedDetections(dets: seq<Detection>, analyze: Detection -> FruitOutcome): seq<Detection>
  {
    Filter(d => Cropped(analyze, d), dets)
  }

  /** The analysis yields the summaries of exactly the detections whose crop
      succeeded, in input order. */
  lemma {:induction false} AnalyzeKeepsCropped(dets: seq<Detection>, analyze: Detection -> FruitOutcome)
    ensures AnalyzeFruits(dets, analyze) == Summaries(CroppedDetections(dets, analyze), analyze)
  {
    if |dets| > 0 {
      AnalyzeKeepsCropped(dets[1..], analyze);
      FilterStep(d => Cropped(analyze, d), dets);
      if Cropped(analyze, dets[0]) {
        SummariesCons(dets[0], CroppedDetections(dets[1..], analyze), analyze);
      }
    }
  }

  lemma SummariesCons(d: Detection, dets: seq<Detection>, analyze: Detection -> FruitOutcome)
    ensures Summaries([d] + dets, analyze) == [Summarize(d, analyze(d))] + Summaries(dets, analyze)
  {
  }

  /** When every crop succeeds, there is one summary per detection, position by position. */
  lemma AnalyzeAllCropped(dets: seq<Detection>, analyze: Detection -> FruitOutcome)
    requires forall i :: 0 <= i < |dets| ==> Cropped(analyze, dets[i])
    ensures |AnalyzeFruits(dets, analyze)| == |dets|
    ensures forall i :: 0 <= i < |dets| ==>
              && AnalyzeFruits(dets, analyze)[i].fruitId == dets[i].fruitId
              && AnalyzeFruits(dets, analyze)[i].defects == (if analyze(dets[i]).DefectsFound? then analyze(dets[i]).defects else [])
  {
    AnalyzeKeepsCropped(dets, analyze);
    FilterAllPass(d => Cropped(analyze, d), dets);
  }

  /** Three detections whose second defect call fails give three summaries in
      input order; the second carries no defects rather than an error. */
  lemma PartialDefectFailure(d1: Detection, d2: Detection, d3: Detection, analyze: Detection -> FruitOutcome)
    requires analyze(d1).DefectsFound? && analyze(d2) == DefectCallFailed && analyze(d3).DefectsFound?
    ensures AnalyzeFruits([d1, d2, d3], analyze)
            == [Summarize(d1, analyze(d1)),
                FruitSummary(d2.fruitId, d2.fruitClass, d2.confidence, d2.bbox, []),
                Summarize(d3, analyze(d3))]
  {
    var s1, s2, s3 := Summarize(d1, analyze(d1)), Summarize(d2, analyze(d2)), Summarize(d3, analyze(d3));
    AnalyzeCons(d3, [], analyze);
    assert [d3] + [] == [d3];
    assert AnalyzeFruits([d3], analyze) == [s3];
    AnalyzeCons(d2, [d3], analyze);
    assert [d2] + [d3] == [d2, d3];
    assert AnalyzeFruits([d2, d3], analyze) == [s2, s3];
    AnalyzeCons(d1, [d2, d3], analyze);
    assert [d1] + [d2, d3] == [d1, d2, d3];
    assert AnalyzeFruits([d1, d2, d3], analyze) == [s1, s2, s3];
  }

  /** One step of the analysis: the head's summary leads exactly when its crop succeeded. */
  lemma AnalyzeCons(d: Detection, dets: seq<Detection>, analyze: Detection -> FruitOutcome)
    ensures AnalyzeFruits([d] + dets, analyze)
            == (if Cropped(analyze, d) then [Summarize(d, analyze(d))] else []) + AnalyzeFruits(dets, analyze)
  {
    assert ([d] + dets)[1..] == dets;
  }

  /** Summaries of valid detections keep the detection's confidence and box bounds. */
  lemma AnalyzedFruitsValid(dets: seq<Detection>, analyze: Detection -> FruitOutcome)
    requires forall i :: 0 <= i < |dets| ==> ValidDetection(dets[i])
    ensures forall k :: 0 <= k < |AnalyzeFruits(dets, analyze)| ==>
              ValidConfidence(AnalyzeFruits(dets, analyze)[k].confidence) && ValidBox(AnalyzeFruits(dets, analyze)[k].bbox)
  {
    AnalyzeKeepsCropped(dets, analyze);
    var kept := CroppedDetections(dets, analyze);
    forall k | 0 <= k < |kept|
      ensures ValidDetection(kept[k])
    {
      assert multiset(kept)[kept[k]] > 0;
      assert kept[k] in dets;
    }
  }

  /** When every defect list the detector answers with is valid, as building each
      defect guarantees, every published summary carries only valid defects. */
  lemma AnalyzedDefectsValid(dets: seq<Detection>, analyze: Detection -> FruitOutcome)
    requires forall i :: 0 <= i < |dets| ==>
               analyze(dets[i]).DefectsFound? ==> ValidDefects(analyze(dets[i]).defects)
    ensures forall k :: 0 <= k < |AnalyzeFruits(dets, analyze)| ==>
              ValidDefects(AnalyzeFruits(dets, analyze)[k].defects)
  {
    AnalyzeKeepsCropped(dets, analyze);
    var kept := CroppedDetections(dets, analyze);
    forall k | 0 <= k < |kept|
      ensures kept[k] in dets
    {
      assert multiset(kept)[kept[k]] > 0;
    }
  }

  // ---------------------------------------------------------------------------
  // Publication

  datatype PublishTarget = UI | MainServer

  /** The UI always receives the result; the main server only when enabled. */
  function PublishTargets(cfg: Config): (ts: seq<PublishTarget>)
    ensures |ts| > 0 && ts[0] == UI
    ensures MainServer in ts <==> cfg.enableMainServerPublish
    ensures forall i, j :: 0 <= i < j < |ts| ==> ts[i] != ts[j]
  {
    if cfg.enableMainServerPublish then [UI, MainServer] else [UI]
  }

  // ---------------------------------------------------------------------------
  // One scan

  /** The decoded frame's size. */
  datatype Frame = Frame(width: nat, height: nat)

  /** The stage whose failure ended a scan. */
  datatype Stage = Capture | ImageLocation | ImageFetch | PrimaryDetection | FallbackDetection

  /** What the collaborators answer during one scan; any call may fail. `frame`
      covers downloading and decoding the image. */
  datatype Collaborators = Collaborators(
    capture: Result<CaptureResponse, string>,
    frame: Result<Frame, string>,
    primary: Result<seq<Detection>, string>,
    fallback: Result<seq<Detection>, string>,
    analyze: Detection -> FruitOutcome)

  datatype ScanOutcome = Aborted(stage: Stage) | Published(result: ScanResult, targets: seq<PublishTarget>)

  function ImageArea(f: Frame): int
  {
    f.width * f.height
  }

  /** The fallback reason a scan computes from its primary response. */
  function ScanFallbackReason(cfg: Config, reading: WeightReading, area: int, primary: seq<Detection>): Option<FallbackReason>
  {
    ShouldFallback(cfg, FilterDetections(cfg, area, primary), primary, reading.grams)
  }

  /** Every call the scan makes succeeds: the fallback detector only matters
      when a fallback reason exists. */
  predicate CollaboratorsSucceed(cfg: Config, reading: WeightReading, env: Collaborators)
  {
    && env.capture.Success?
    && (Given(env.capture.value.imagePath) || Given(env.capture.value.imageUrl))
    && env.frame.Success?
    && env.primary.Success?
    && (ScanFallbackReason(cfg, reading, ImageArea(env.frame.value), env.primary.value).Some? ==> env.fallback.Success?)
  }

  /** `execute_scan`, with the session id, clock and logging left out. */
  function ExecuteScan(cfg: Config, reading: WeightReading, env: Collaborators): (r: ScanOutcome)
    ensures env.capture.Failure? ==> r == Aborted(Capture)
    ensures r.Published? <==> CollaboratorsSucceed(cfg, reading, env)
    ensures r.Published? ==>
              && r.result.weightGrams == reading.grams
              && r.result.imageId == env.capture.value.imageId
              && r.targets == PublishTargets(cfg)
  {
    match env.capture
    case Failure(_) => Aborted(Capture)
    case Success(capture) =>
      match ResolvedPath(capture)
      case Failure(_) => Aborted(ImageLocation)
      case Success(_) =>
        match env.frame
        case Failure(_) => Aborted(ImageFetch)
        case Success(frame) =>
          match env.primary
          case Failure(_) => Aborted(PrimaryDetection)
          case Success(raw) =>
            match SelectDetections(cfg, reading.grams, ImageArea(frame), raw, env.fallback)
            case Failure(_) => Aborted(FallbackDetection)
            case Success(selected) =>
              var fruits := AnalyzeFruits(selected, env.analyze);
              Published(ScanResult(capture.imageId, reading.grams, fruits), PublishTargets(cfg))
  }

  /** The detector response a completed scan analysed: the primary one unless a
      fallback reason sent it to the fallback response. */
  function UsedResponse(cfg: Config, reading: WeightReading, env: Collaborators): seq<Detection>
    requires CollaboratorsSucceed(cfg, reading, env)
  {
    if ScanFallbackReason(cfg, reading, ImageArea(env.frame.value), env.primary.value).None?
    then env.primary.value else env.fallback.value
  }

  /** End to end: the published fruits are the summaries of exactly the detections
      of the used response that pass both filters and whose crop succeeded, in
      the detector's order. */
  lemma PublishedFruitsCharacterised(cfg: Config, reading: WeightReading, env: Collaborators)
    requires CollaboratorsSucceed(cfg, reading, env)
    ensures var kept := CroppedDetections(FilterDetections(cfg, ImageArea(env.frame.value), UsedResponse(cfg, reading, env)), env.analyze);
            ExecuteScan(cfg, reading, env).result.fruits == Summaries(kept, env.analyze)
  {
    var selected := FilterDetections(cfg, ImageArea(env.frame.value), UsedResponse(cfg, reading, env));
    AnalyzeKeepsCropped(selected, env.analyze);
  }

  /** An empty primary response under a weight below the minimum is published as
      a scan with no fruits, and no fruit is analysed. At or above the minimum
      the same empty response sends the scan to the fallback detector, and an
      empty fallback response still yields a published scan with no fruits. */
  lemma EmptyPrimaryResponse(cfg: Config, reading: WeightReading, env: Collaborators)
    requires env.primary == Success([])
    ensures var area := if env.frame.Success? then ImageArea(env.frame.value) else 0;
            (ScanFallbackReason(cfg, reading, area, []).Some? <==> reading.grams >= cfg.minFruitWeight)
    ensures CollaboratorsSucceed(cfg, reading, env) && reading.grams < cfg.minFruitWeight ==>
              ExecuteScan(cfg, reading, env).result.fruits == []
    // at or above the minimum, an empty fallback response is still published, with no fruits
    ensures CollaboratorsSucceed(cfg, reading, env) && env.fallback == Success([]) ==>
              ExecuteScan(cfg, reading, env).Published? && ExecuteScan(cfg, reading, env).result.fruits == []
  {
  }

  /** The orchestrator test: one confident apple on a 128x128 frame, a 120 g
      reading and a "bruise" from the defect detector give one published fruit
      carrying that defect, the reading's weight, and the UI as a target. */
  lemma SinglePayloadScenario()
    ensures var apple := Detection("fruit-1", "apple", 0.95, BoundingBox(0.0, 0.0, 60.0, 60.0));
            var env := Collaborators(
              Success(CaptureResponse("img-1", Some("/image/img-1.jpg"), None)),
              Success(Frame(128, 128)),
              Success([apple]),
              Failure("not called"),
              d => DefectsFound([DefectInfo("bruise", 0.9)]));
            var r := ExecuteScan(DefaultConfig(), WeightReading(120.0, 0), env);
            && r.Published?
            && r.result.weightGrams == 120.0
            && |r.result.fruits| == 1
            && r.result.fruits[0].defects[0].kind == "bruise"
            && UI in r.targets
  {
    var cfg := DefaultConfig();
    var apple := Detection("fruit-1", "apple", 0.95, BoundingBox(0.0, 0.0, 60.0, 60.0));
    var analyze: Detection -> FruitOutcome := d => DefectsFound([DefectInfo("bruise", 0.9)]);
    assert Admissible(cfg, 128 * 128, apple);
    FilterAllPass(d => Admissible(cfg, 128 * 128, d), [apple]);
    var filtered := FilterDetections(cfg, 128 * 128, [apple]);
    assert filtered == [apple];
    assert !AllBelowGuard(cfg, [apple]);
    assert !((|filtered| + 2) as real * 100.0 <= 120.0);
    assert ShouldFallback(cfg, filtered, [apple], 120.0).None?;
    AnalyzeAllCropped([apple], analyze);
  }
}
