/** The paper-side entities of core/models.py: element types, bounding
    boxes, sections, extracted elements and the `Paper` record whose text
    fields the generation service fills in. Slides and presentations are in
    module PresentationModels. */
module Models {
  import opened Wrappers
  import opened Paths
  import ExtractionResult

  datatype ElementType = FIGURE | TABLE | EQUATION

  /** The enum's `.value`. */
  function ElementTypeValue(t: ElementType): (v: string)
    ensures v != ""
  {
    match t
    case FIGURE => "figure"
    case TABLE => "table"
    case EQUATION => "equation"
  }

  /** Element identity (`uuid.UUID`): only compared, never inspected. */
  type Uuid = nat

  /** Coordinates are floats in the source, kept as `real`. */
  datatype BoundingBox = BoundingBox(x: real, y: real, width: real, height: real)

  /** `BoundingBox.__post_init__`: every coordinate is non-negative. */
  function NewBoundingBox(x: real, y: real, width: real, height: real): (r: Result<BoundingBox>)
    ensures r.Ok? <==> !(x < 0.0 || y < 0.0 || width < 0.0 || height < 0.0)
    ensures r.Ok? ==> r.value == BoundingBox(x, y, width, height)
    ensures r.Err? ==> r.kind == ValueError
  {
    if x < 0.0 || y < 0.0 || width < 0.0 || height < 0.0 then
      Err(ValueError, "Bounding box coordinates must be non-negative")
    else Ok(BoundingBox(x, y, width, height))
  }

  datatype ExtractedElement = ExtractedElement(
    uuid: Uuid,
    elementType: ElementType,
    pageNumber: int,
    boundingBox: BoundingBox,
    confidenceScore: real,
    sequenceNumber: int,
    outputFilename: Option<Path>,
    caption: Option<string>)

  /** What `ExtractedElement.__post_init__` admits. */
  predicate ValidElement(e: ExtractedElement) {
    0.0 <= e.confidenceScore <= 1.0 && e.pageNumber >= 1
  }

  /** `ExtractedElement.__post_init__`: the confidence check runs first. */
  function NewExtractedElement(
    uuid: Uuid, elementType: ElementType, pageNumber: int, boundingBox: BoundingBox,
    confidenceScore: real, sequenceNumber: int, outputFilename: Option<Path>, caption: Option<string>
  ): (r: Result<ExtractedElement>)
    ensures r.Ok? <==> 0.0 <= confidenceScore <= 1.0 && pageNumber >= 1
    ensures r.Ok? ==> ValidElement(r.value)
    ensures r.Ok? ==> r.value == ExtractedElement(uuid, elementType, pageNumber, boundingBox, confidenceScore,
                                                  sequenceNumber, outputFilename, caption)
    ensures r.Err? ==> r.kind == ValueError
    ensures !(0.0 <= confidenceScore <= 1.0) ==> r == Err(ValueError, "confidence_score must be in range [0.0, 1.0]")
  {
    if !(0.0 <= confidenceScore <= 1.0) then Err(ValueError, "confidence_score must be in range [0.0, 1.0]")
    else if pageNumber < 1 then Err(ValueError, "page_number must be > 0")
    else Ok(ExtractedElement(uuid, elementType, pageNumber, boundingBox, confidenceScore,
                             sequenceNumber, outputFilename, caption))
  }

  /** A logical section of a paper. The source types `elements` as a list
      of UUIDs but the slide organizer reads each entry's element type, so
      the model stores the elements themselves. */
  datatype PaperSection = PaperSection(
    title: string,
    content: string,
    level: int,
    pageStart: int,
    pageEnd: int,
    elements: seq<ExtractedElement>)

  /** What `PaperSection.__post_init__` admits. */
  predicate ValidSection(s: PaperSection) {
    s.title != "" && s.level >= 1 && s.pageStart <= s.pageEnd
  }

  /** `PaperSection.__post_init__`, checks in source order. */
  function NewPaperSection(title: string, content: string, level: int, pageStart: int, pageEnd: int,
                           elements: seq<ExtractedElement>): (r: Result<PaperSection>)
    ensures r.Ok? <==> title != "" && level >= 1 && pageStart <= pageEnd
    ensures r.Ok? ==> ValidSection(r.value)
    ensures r.Ok? ==> r.value == PaperSection(title, content, level, pageStart, pageEnd, elements)
    ensures r.Err? ==> r.kind == ValueError
    ensures title == "" ==> r.message == "Section title must not be empty"
    ensures title != "" && level < 1 ==> r.message == "Section level must be >= 1"
    ensures title != "" && level >= 1 && pageStart > pageEnd ==> r.message == "page_start must be <= page_end"
  {
    if title == "" then Err(ValueError, "Section title must not be empty")
    else if level < 1 then Err(ValueError, "Section level must be >= 1")
    else if pageStart > pageEnd then Err(ValueError, "page_start must be <= page_end")
    else Ok(PaperSection(title, content, level, pageStart, pageEnd, elements))
  }

  /** An input paper. The file checks of its constructor are not modelled;
      the text fields are updated in place by the generation service. */
  class Paper {
    const filePath: Path
    var title: Option<string>
    var authors: seq<string>
    var paperAbstract: Option<string>
    var sections: seq<PaperSection>
    var textContent: Option<string>
    var textExtractionResult: Option<ExtractionResult.TextExtractionResult>
    var tokenCount: Option<int>
    var wasTruncated: bool
    var extractedElements: seq<ExtractedElement>

    /** A paper as the dataclass builds it: no text, no extraction result. */
    constructor (filePath: Path, title: Option<string>, authors: seq<string>, sections: seq<PaperSection>)
      ensures this.filePath == filePath && this.title == title && this.authors == authors
      ensures this.sections == sections && this.paperAbstract == None
      ensures textContent == None && textExtractionResult == None
      ensures tokenCount == None && !wasTruncated && extractedElements == []
    {
      this.filePath := filePath;
      this.title := title;
      this.authors := authors;
      this.paperAbstract := None;
      this.sections := sections;
      this.textContent := None;
      this.textExtractionResult := None;
      this.tokenCount := None;
      this.wasTruncated := false;
      this.extractedElements := [];
    }

    /** `text_extraction_status`: NOT_ATTEMPTED until a result is stored. */
    function TextExtractionStatus(): (s: ExtractionResult.ExtractionStatus)
      reads this
      ensures textExtractionResult.None? ==> s == ExtractionResult.NOT_ATTEMPTED
      ensures textExtractionResult.Some? ==> s == textExtractionResult.value.status
    {
      if textExtractionResult.None? then ExtractionResult.NOT_ATTEMPTED
      else textExtractionResult.value.status
    }

    /** `has_text_content`: non-empty text backed by a successful result;
        it implies the status reads SUCCESS or PARTIAL. */
    function HasTextContent(): (b: bool)
      reads this
      ensures b <==> textContent.Some? && textContent.value != [] && textExtractionResult.Some?
                     && ExtractionResult.IsSuccessful(textExtractionResult.value)
      ensures b ==> TextExtractionStatus() == ExtractionResult.SUCCESS
                    || TextExtractionStatus() == ExtractionResult.PARTIAL
      ensures TextExtractionStatus() == ExtractionResult.NOT_ATTEMPTED ==> !b
    {
      textContent.Some? && |textContent.value| > 0
      && textExtractionResult.Some? && ExtractionResult.IsSuccessful(textExtractionResult.value)
    }
  }
}
