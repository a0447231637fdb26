/** The value types shared by the state machine and the orchestrator
    (app/models/common.py), with the field constraints their validators enforce. */
module Common {
  import opened Results
  import opened Numeric

  // ---------------------------------------------------------------------------
  // Bounding boxes

  /** Axis-aligned box in pixel coordinates. No ordering between min and max is required. */
  datatype BoundingBox = BoundingBox(xMin: real, yMin: real, xMax: real, yMax: real)

  /** Field bounds: minima non-negative, maxima strictly positive. */
  predicate ValidBox(b: BoundingBox)
  {
    b.xMin >= 0.0 && b.yMin >= 0.0 && b.xMax > 0.0 && b.yMax > 0.0
  }

  /** The shapes of raw input a box can be built from: a detector may send a
      four-element list or tuple (`Items`) or an object (`Dict`). */
  datatype Value =
    | Num(n: real)
    | Str(s: string)
    | Bytes(data: seq<bv8>)
    | Dict(fields: map<string, Value>)
    | Items(elems: seq<Value>)
    | Null

  /** The dictionary a four-element sequence is turned into, position by position. */
  function BoxFields(a: Value, b: Value, c: Value, d: Value): map<string, Value>
  {
    map["x_min" := a, "y_min" := b, "x_max" := c, "y_max" := d]
  }

  /** The "before" validator of BoundingBox: strings, bytes and dictionaries pass
      through untouched, a sequence must have exactly four elements and is
      mapped positionally to the four named fields, anything else passes through. */
  function CoerceSequence(v: Value): (r: Result<Value, string>)
    ensures v.Str? || v.Bytes? || v.Dict? || v.Num? || v.Null? ==> r == Success(v)
    ensures v.Items? ==> (r.Success? <==> |v.elems| == 4)
    ensures v.Items? && |v.elems| == 4 ==>
              && r.Success? && r.value.Dict?
              && r.value.fields.Keys == {"x_min", "y_min", "x_max", "y_max"}
              && r.value.fields["x_min"] == v.elems[0]
              && r.value.fields["y_min"] == v.elems[1]
              && r.value.fields["x_max"] == v.elems[2]
              && r.value.fields["y_max"] == v.elems[3]
  {
    match v
    case Items(xs) =>
      if |xs| != 4 then Failure("BoundingBox sequence must contain four values")
      else Success(Dict(BoxFields(xs[0], xs[1], xs[2], xs[3])))
    case _ => Success(v)
  }

  function NumberField(m: map<string, Value>, key: string): Option<real>
  {
    if key in m && m[key].Num? then Some(m[key].n) else None
  }

  /** Field validation after coercion: the four keys must hold numbers within the
      field bounds; other keys are ignored. */
  function BoxFromFields(m: map<string, Value>): Result<BoundingBox, string>
  {
    var x0 := NumberField(m, "x_min");
    var y0 := NumberField(m, "y_min");
    var x1 := NumberField(m, "x_max");
    var y1 := NumberField(m, "y_max");
    if x0.None? || y0.None? || x1.None? || y1.None? then Failure("missing or non-numeric coordinate")
    else
      var b := BoundingBox(x0.value, y0.value, x1.value, y1.value);
      if ValidBox(b) then Success(b) else Failure("coordinate out of bounds")
  }

  /** Building a BoundingBox from raw input: coercion, then field validation. */
  function ParseBox(v: Value): (r: Result<BoundingBox, string>)
    ensures r.Success? ==> ValidBox(r.value)
    ensures v.Items? && |v.elems| != 4 ==> r.Failure?
    ensures v.Str? || v.Bytes? || v.Num? || v.Null? ==> r.Failure?
    ensures v.Items? && |v.elems| == 4 && r.Success? ==>
              && v.elems[0] == Num(r.value.xMin) && v.elems[1] == Num(r.value.yMin)
              && v.elems[2] == Num(r.value.xMax) && v.elems[3] == Num(r.value.yMax)
  {
    match CoerceSequence(v)
    case Failure(e) => Failure(e)
    case Success(c) =>
      if c.Dict? then BoxFromFields(c.fields) else Failure("input should be a dictionary")
  }

  /** The list form of a box. */
  function BoxAsItems(b: BoundingBox): Value
  {
    Items([Num(b.xMin), Num(b.yMin), Num(b.xMax), Num(b.yMax)])
  }

  /** Round trip: a box written as a four-element list parses back to itself
      exactly when it satisfies the field bounds. */
  lemma ParseBoxItemsRoundTrip(b: BoundingBox)
    ensures ParseBox(BoxAsItems(b)) == (if ValidBox(b) then Success(b) else Failure("coordinate out of bounds"))
  {
    var m := BoxFields(Num(b.xMin), Num(b.yMin), Num(b.xMax), Num(b.yMax));
    assert NumberField(m, "x_min") == Some(b.xMin);
    assert NumberField(m, "y_min") == Some(b.yMin);
    assert NumberField(m, "x_max") == Some(b.xMax);
    assert NumberField(m, "y_max") == Some(b.yMax);
  }

  /** The list form and the dictionary form of the same four values are accepted
      or rejected alike and give the same box. */
  lemma ParseBoxListMatchesDict(a: Value, b: Value, c: Value, d: Value)
    ensures ParseBox(Items([a, b, c, d])) == ParseBox(Dict(BoxFields(a, b, c, d)))
  {
  }

  /** No min <= max ordering is enforced: an inverted box is accepted. */
  lemma InvertedBoxAccepted()
    ensures ParseBox(Items([Num(50.0), Num(0.0), Num(10.0), Num(10.0)]))
            == Success(BoundingBox(50.0, 0.0, 10.0, 10.0))
  {
    ParseBoxItemsRoundTrip(BoundingBox(50.0, 0.0, 10.0, 10.0));
  }

  /** `as_tuple`: each coordinate truncated to an int. For a valid box every
      component is the floor of its coordinate. */
  function AsTuple(b: BoundingBox): (t: (int, int, int, int))
    ensures ValidBox(b) ==>
              && 0 <= t.0 && t.0 as real <= b.xMin < t.0 as real + 1.0
              && 0 <= t.1 && t.1 as real <= b.yMin < t.1 as real + 1.0
              && 0 <= t.2 && t.2 as real <= b.xMax < t.2 as real + 1.0
              && 0 <= t.3 && t.3 as real <= b.yMax < t.3 as real + 1.0
  {
    (Trunc(b.xMin), Trunc(b.yMin), Trunc(b.xMax), Trunc(b.yMax))
  }

  // ---------------------------------------------------------------------------
  // Detections, defects, readings

  datatype DefectInfo = DefectInfo(kind: string, confidence: real)

  datatype Detection = Detection(fruitId: string, fruitClass: string, confidence: real, bbox: BoundingBox)

  datatype WeightReading = WeightReading(grams: real, timestampMs: int)

  predicate ValidConfidence(c: real)
  {
    0.0 <= c <= 1.0
  }

  /** Building a detection: confidence within [0, 1] and a box that parses. */
  function ParseDetection(fruitId: string, fruitClass: string, confidence: real, bbox: Value): (r: Result<Detection, string>)
    ensures r.Success? <==> ValidConfidence(confidence) && ParseBox(bbox).Success?
    ensures r.Success? ==> r.value.fruitId == fruitId && r.value.fruitClass == fruitClass
                           && r.value.confidence == confidence && r.value.bbox == ParseBox(bbox).value
    // every detection that is built satisfies the model's field constraints
    ensures r.Success? ==> ValidDetection(r.value)
  {
    if !ValidConfidence(confidence) then Failure("confidence out of range")
    else match ParseBox(bbox)
      case Failure(e) => Failure(e)
      case Success(b) => Success(Detection(fruitId, fruitClass, confidence, b))
  }

  /** Round trip: a detection whose box is sent as a four-element list is rebuilt
      as itself exactly when it is valid. */
  lemma ParseDetectionRoundTrip(d: Detection)
    ensures var r := ParseDetection(d.fruitId, d.fruitClass, d.confidence, BoxAsItems(d.bbox));
            && (r.Success? <==> ValidDetection(d))
            && (r.Success? ==> r.value == d)
  {
    ParseBoxItemsRoundTrip(d.bbox);
  }

  /** Building a defect: confidence within [0, 1]. */
  function ParseDefect(kind: string, confidence: real): (r: Result<DefectInfo, string>)
    ensures r.Success? <==> ValidConfidence(confidence)
    ensures r.Success? ==> r.value == DefectInfo(kind, confidence)
  {
    if ValidConfidence(confidence) then Success(DefectInfo(kind, confidence))
    else Failure("confidence out of range")
  }

  /** Every defect of a list has a confidence within [0, 1]: what building each
      of them guarantees. */
  predicate ValidDefects(ds: seq<DefectInfo>)
  {
    forall k :: 0 <= k < |ds| ==> ValidConfidence(ds[k].confidence)
  }

  /** A list of defects that could each be built from their own fields is valid. */
  lemma BuiltDefectsValid(ds: seq<DefectInfo>)
    requires forall k :: 0 <= k < |ds| ==> ParseDefect(ds[k].kind, ds[k].confidence).Success?
    ensures ValidDefects(ds)
  {
  }

  /** Building a weight reading: grams must be non-negative. */
  function ParseReading(grams: real, timestampMs: int): (r: Result<WeightReading, string>)
    ensures r.Success? <==> grams >= 0.0
    ensures r.Success? ==> r.value == WeightReading(grams, timestampMs)
  {
    if grams >= 0.0 then Success(WeightReading(grams, timestampMs))
    else Failure("grams must be non-negative")
  }

  predicate ValidDetection(d: Detection)
  {
    ValidConfidence(d.confidence) && ValidBox(d.bbox)
  }

  // ---------------------------------------------------------------------------
  // Scan payloads

  /** One fruit of the published payload. Its confidence carries no bound of its own. */
  datatype FruitSummary = FruitSummary(
    fruitId: string, fruitClass: string, confidence: real, bbox: BoundingBox, defects: seq<DefectInfo>)

  /** The payload sent to the UI and the main server. The session id and
      wall-clock timestamp are not modelled. */
  datatype ScanResult = ScanResult(imageId: string, weightGrams: real, fruits: seq<FruitSummary>)

  datatype CaptureResponse = CaptureResponse(imageId: string, imageUrl: Option<string>, imagePath: Option<string>)

  /** Python truthiness of an optional string: present and non-empty. */
  predicate Given(s: Option<string>)
  {
    s.Some? && |s.value| > 0
  }

  /** `resolved_path`: the local path is preferred, then the URL; neither is an error. */
  function ResolvedPath(c: CaptureResponse): (r: Result<string, string>)
    ensures Given(c.imagePath) ==> r == Success(c.imagePath.value)
    ensures !Given(c.imagePath) && Given(c.imageUrl) ==> r == Success(c.imageUrl.value)
    ensures r.Failure? <==> !Given(c.imagePath) && !Given(c.imageUrl)
    ensures r.Success? ==> |r.value| > 0
  {
    if Given(c.imagePath) then Success(c.imagePath.value)
    else if Given(c.imageUrl) then Success(c.imageUrl.value)
    else Failure("Camera did not provide image location")
  }

  // ---------------------------------------------------------------------------
  // State-machine decisions

  datatype ScanState = Idle | Active

  /** The three transition labels a decision may carry. */
  datatype Transition = NoChange | IdleToActive | ActiveToIdle

  function TransitionLabel(t: Transition): (s: string)
    ensures s in {"IDLE->ACTIVE", "ACTIVE->IDLE", "NONE"}
    ensures (s == "NONE") <==> t == NoChange
  {
    match t
    case NoChange => "NONE"
    case IdleToActive => "IDLE->ACTIVE"
    case ActiveToIdle => "ACTIVE->IDLE"
  }

  datatype ScanDecision = ScanDecision(state: ScanState, scanRequested: bool, transition: Transition)

  /** A decision built with only its state given: no scan, and the label takes
      its default, the literal "NONE". */
  function DefaultDecision(state: ScanState): (d: ScanDecision)
    ensures d.state == state && !d.scanRequested && d.transition == NoChange
    ensures TransitionLabel(d.transition) == "NONE"
  {
    ScanDecision(state, false, NoChange)
  }
}
