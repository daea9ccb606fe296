/** The element extractor of extraction/extractor.py: its constructor, the
    input checks of `extract` and the conversion of detector elements into
    the paper's element records, which keeps the confident ones in order. */
module Extractor {
  import opened Wrappers
  import opened Paths
  import opened Seqs
  import opened Models
  import PdfProcessor

  /** The extractor's settings; nothing updates them after construction. */
  datatype PaperExtractor = PaperExtractor(confidenceThreshold: real, outputDirectory: Path)

  const DefaultConfidenceThreshold := 0.75
  /** `Path("./extracted")`. */
  const DefaultOutputDirectory := Path(false, ["extracted"])

  /** `PaperExtractor.__init__`: the threshold must lie in [0, 1]; a missing
      output directory becomes `./extracted`. */
  function NewPaperExtractor(confidenceThreshold: real, outputDirectory: Option<Path>): (r: Result<PaperExtractor>)
    ensures r.Ok? <==> 0.0 <= confidenceThreshold <= 1.0
    ensures r.Ok? ==> r.value.confidenceThreshold == confidenceThreshold
    ensures r.Ok? && outputDirectory.Some? ==> r.value.outputDirectory == outputDirectory.value
    ensures r.Ok? && outputDirectory.None? ==> r.value.outputDirectory == Path(false, ["extracted"])
    ensures r.Err? ==> r == Err(ValueError, "confidence_threshold must be in range [0.0, 1.0]")
  {
    if !(0.0 <= confidenceThreshold <= 1.0) then
      Err(ValueError, "confidence_threshold must be in range [0.0, 1.0]")
    else Ok(PaperExtractor(confidenceThreshold, outputDirectory.GetOr(DefaultOutputDirectory)))
  }

  /** The element types asked for, all three when none are named. */
  function RequestedTypes(elementTypes: Option<seq<ElementType>>): (ts: seq<ElementType>)
    ensures elementTypes.Some? ==> ts == elementTypes.value
    ensures elementTypes.None? ==> |ts| == 3 && FIGURE in ts && TABLE in ts && EQUATION in ts
  {
    if elementTypes.Some? then elementTypes.value else [FIGURE, TABLE, EQUATION]
  }

  /** `extract`: the path must exist, be a regular file and carry a `.pdf`
      suffix in any case. The detector is not wired in, so a path that
      passes the checks yields no elements; the requested types are
      computed and not used further. */
  function Extract(x: PaperExtractor, paperPath: Path, entry: PdfProcessor.FileEntry,
                   elementTypes: Option<seq<ElementType>>): (r: Result<seq<ExtractedElement>>)
    ensures r.Ok? <==> entry.RegularFile? && PdfProcessor.HasPdfSuffix(paperPath)
    ensures r.Ok? ==> r.value == []
    ensures entry.Missing? ==> r == Err(FileNotFoundError, "Paper file not found: " + ToStr(paperPath))
    ensures entry.Directory? ==> r == Err(ValueError, "Paper path is not a file: " + ToStr(paperPath))
    ensures entry.RegularFile? && !PdfProcessor.HasPdfSuffix(paperPath) ==>
              r == Err(ValueError, "Paper file must be PDF: " + ToStr(paperPath))
  {
    if !PdfProcessor.Exists(entry) then Err(FileNotFoundError, "Paper file not found: " + ToStr(paperPath))
    else if !PdfProcessor.IsFile(entry) then Err(ValueError, "Paper path is not a file: " + ToStr(paperPath))
    else if !PdfProcessor.HasPdfSuffix(paperPath) then Err(ValueError, "Paper file must be PDF: " + ToStr(paperPath))
    else
      var _ := RequestedTypes(elementTypes);
      Ok([])
  }

  // ------------------------------------------------------ converting elements

  /** A detector's bounding box, before the model's own checks. */
  datatype DetectorBox = DetectorBox(x: real, y: real, width: real, height: real)

  /** An element as the detector reports it. Its output file name is taken
      as already parsed into a path, absent when the detector gave none. */
  datatype DetectorElement = DetectorElement(
    elementType: ElementType,
    pageNumber: int,
    boundingBox: DetectorBox,
    confidenceScore: real,
    sequenceNumber: int,
    outputFilename: Option<Path>,
    caption: Option<string>)

  /** The detector elements `_convert_elements` keeps. */
  function ConfidentTest(threshold: real): DetectorElement -> bool {
    (e: DetectorElement) => e.confidenceScore >= threshold
  }

  function Kept(threshold: real, ds: seq<DetectorElement>): seq<DetectorElement> {
    Filter(ds, ConfidentTest(threshold))
  }

  /** The record a kept element becomes, under the identifier drawn for it. */
  function AsElement(e: DetectorElement, id: Uuid): ExtractedElement {
    ExtractedElement(id, e.elementType, e.pageNumber,
                     BoundingBox(e.boundingBox.x, e.boundingBox.y, e.boundingBox.width, e.boundingBox.height),
                     e.confidenceScore, e.sequenceNumber, e.outputFilename, e.caption)
  }

  /** What the bounding-box and element constructors admit. */
  predicate Convertible(e: DetectorElement) {
    && e.boundingBox.x >= 0.0 && e.boundingBox.y >= 0.0
    && e.boundingBox.width >= 0.0 && e.boundingBox.height >= 0.0
    && 0.0 <= e.confidenceScore <= 1.0 && e.pageNumber >= 1
  }

  /** One conversion: the bounding box is built first, then the element;
      either constructor's ValueError propagates. */
  function ConvertOne(e: DetectorElement, id: Uuid): (r: Result<ExtractedElement>)
    ensures r.Ok? <==> Convertible(e)
    ensures r.Ok? ==> r.value == AsElement(e, id) && ValidElement(r.value)
    ensures r.Err? ==> r.kind == ValueError
  {
    var b := e.boundingBox;
    match NewBoundingBox(b.x, b.y, b.width, b.height)
    case Err(k, m) => Err(k, m)
    case Ok(bbox) =>
      NewExtractedElement(id, e.elementType, e.pageNumber, bbox, e.confidenceScore,
                          e.sequenceNumber, e.outputFilename, e.caption)
  }

  /** Converting the kept elements in order, the i-th under identifier
      `newId(i)`; the first failure ends the conversion. */
  function ConvertAll(kept: seq<DetectorElement>, newId: nat -> Uuid): Result<seq<ExtractedElement>>
    decreases |kept|
  {
    if kept == [] then Ok([])
    else
      match ConvertAll(kept[..|kept| - 1], newId)
      case Err(k, m) => Err(k, m)
      case Ok(done) =>
        match ConvertOne(kept[|kept| - 1], newId(|kept| - 1))
        case Err(k, m) => Err(k, m)
        case Ok(e) => Ok(done + [e])
  }

  /** The conversion succeeds exactly when every kept element passes the
      constructors' checks, and then it is the kept elements, one for one
      and in order, with their page, box, confidence and sequence number. */
  lemma {:induction false} ConvertAllResult(kept: seq<DetectorElement>, newId: nat -> Uuid)
    ensures ConvertAll(kept, newId).Ok? <==> forall j | 0 <= j < |kept| :: Convertible(kept[j])
    ensures ConvertAll(kept, newId).Ok? ==>
              var out := ConvertAll(kept, newId).value;
              |out| == |kept| && forall j | 0 <= j < |kept| :: out[j] == AsElement(kept[j], newId(j))
    ensures ConvertAll(kept, newId).Err? ==> ConvertAll(kept, newId).kind == ValueError
    decreases |kept|
  {
    if kept != [] {
      var init := kept[..|kept| - 1];
      ConvertAllResult(init, newId);
      assert forall j | 0 <= j < |init| :: init[j] == kept[j];
    }
  }

  /** Once the conversion has failed, later elements do not change the error. */
  lemma {:induction false} ConvertAllErrStays(a: seq<DetectorElement>, b: seq<DetectorElement>, newId: nat -> Uuid)
    requires ConvertAll(a, newId).Err?
    ensures ConvertAll(a + b, newId) == ConvertAll(a, newId)
    decreases |b|
  {
    if b == [] {
      assert a + b == a;
    } else {
      var init := b[..|b| - 1];
      assert (a + b)[..|a + b| - 1] == a + init;
      ConvertAllErrStays(a, init, newId);
    }
  }

  /** The kept prefix grows by the next element exactly when it is confident. */
  lemma KeptSnoc(threshold: real, ds: seq<DetectorElement>, i: nat)
    requires i < |ds|
    ensures Kept(threshold, ds[..i + 1]) ==
              if ds[i].confidenceScore >= threshold then Kept(threshold, ds[..i]) + [ds[i]]
              else Kept(threshold, ds[..i])
  {
    assert ds[..i + 1] == ds[..i] + [ds[i]];
    FilterAppend(ds[..i], [ds[i]], ConfidentTest(threshold));
  }

  /** Converting one more kept element. */
  lemma ConvertSnoc(kept: seq<DetectorElement>, e: DetectorElement, newId: nat -> Uuid, done: seq<ExtractedElement>)
    requires ConvertAll(kept, newId) == Ok(done)
    ensures ConvertAll(kept + [e], newId) ==
              match ConvertOne(e, newId(|done|))
              case Err(k, m) => Err(k, m)
              case Ok(x) => Ok(done + [x])
  {
    ConvertAllResult(kept, newId);
    assert (kept + [e])[..|kept + [e]| - 1] == kept;
  }

  /** A failure on a prefix of the input is the failure of the whole. */
  lemma ConvertFailsEarly(threshold: real, ds: seq<DetectorElement>, i: nat, newId: nat -> Uuid)
    requires i <= |ds| && ConvertAll(Kept(threshold, ds[..i]), newId).Err?
    ensures ConvertAll(Kept(threshold, ds), newId) == ConvertAll(Kept(threshold, ds[..i]), newId)
  {
    assert ds == ds[..i] + ds[i..];
    FilterAppend(ds[..i], ds[i..], ConfidentTest(threshold));
    ConvertAllErrStays(Kept(threshold, ds[..i]), Kept(threshold, ds[i..]), newId);
  }

  /** `_convert_elements`: skips the elements below the threshold and
      converts the others in order, drawing a fresh identifier for each. */
  method ConvertElements(x: PaperExtractor, ds: seq<DetectorElement>, newId: nat -> Uuid)
    returns (r: Result<seq<ExtractedElement>>)
    ensures r == ConvertAll(Kept(x.confidenceThreshold, ds), newId)
  {
    var extracted: seq<ExtractedElement> := [];
    for i := 0 to |ds|
      invariant ConvertAll(Kept(x.confidenceThreshold, ds[..i]), newId) == Ok(extracted)
    {
      var elem := ds[i];
      KeptSnoc(x.confidenceThreshold, ds, i);
      if elem.confidenceScore < x.confidenceThreshold {
        continue;
      }
      ConvertSnoc(Kept(x.confidenceThreshold, ds[..i]), elem, newId, extracted);
      var b := elem.boundingBox;
      var bbox := NewBoundingBox(b.x, b.y, b.width, b.height);
      var element: Result<ExtractedElement>;
      if bbox.Err? {
        element := Err(bbox.kind, bbox.message);
      } else {
        element := NewExtractedElement(newId(|extracted|), elem.elementType, elem.pageNumber, bbox.value,
                                       elem.confidenceScore, elem.sequenceNumber, elem.outputFilename, elem.caption);
      }
      if element.Err? {
        r := Err(element.kind, element.message);
        ConvertFailsEarly(x.confidenceThreshold, ds, i + 1, newId);
        return;
      }
      extracted := extracted + [element.value];
    }
    assert ds[..|ds|] == ds;
    r := Ok(extracted);
  }

  /** What `_convert_elements` promises: the result holds exactly the
      elements at or above the threshold, in input order, each keeping its
      page, box, confidence and sequence number; it fails only when one of
      them breaks a constructor's check. */
  lemma ConvertElementsKeepsConfident(x: PaperExtractor, ds: seq<DetectorElement>, newId: nat -> Uuid)
    ensures var r := ConvertAll(Kept(x.confidenceThreshold, ds), newId);
            var kept := Kept(x.confidenceThreshold, ds);
            && (r.Ok? <==> forall j | 0 <= j < |kept| :: Convertible(kept[j]))
            && (r.Ok? ==> |r.value| == |kept| && forall j | 0 <= j < |kept| :: r.value[j] == AsElement(kept[j], newId(j)))
            && (forall e | e in kept :: e in ds && e.confidenceScore >= x.confidenceThreshold)
            && (forall e | e in ds && e.confidenceScore >= x.confidenceThreshold :: e in kept)
            && IsSubseq(kept, ds)
  {
    ConvertAllResult(Kept(x.confidenceThreshold, ds), newId);
  }
}
