/** Paper preparation in services/generation_service.py: build the paper,
    pick the extraction settings, run the text extractor when extraction is
    enabled and keep its text only when it succeeded. Extraction problems
    never escape; the paper then simply has no text. */
module Generation {
  import opened Wrappers
  import opened Paths
  import opened Config
  import opened Models
  import opened ExtractionResult
  import opened TextSanitizer
  import opened TextExtractor

  /** What calling the text extractor does: it completes on the document the
      backend opened (or failed to open) in the given time, or an exception
      escapes it, which `prepare_paper` catches. */
  datatype ExtractorRun = Completed(doc: Document, elapsed: real) | Crashed(message: string)

  /** The settings used: the ones given, or else the application's. */
  function EffectiveConfig(app: AppConfiguration, given: Option<TextExtractionConfig>): (c: TextExtractionConfig)
    ensures given.Some? ==> c == given.value
    ensures given.None? ==> c == app.textExtraction
  {
    if given.None? then app.textExtraction else given.value
  }

  /** The extraction result the prepared paper keeps, if any. */
  function StoredResult(cfg: TextExtractionConfig, path: Path, run: ExtractorRun): (r: Option<TextExtractionResult>)
    ensures r.Some? ==> cfg.enabled && run.Completed? && IsSuccessful(r.value)
                        && r.value == ExtractionOf(ToStr(path), run.doc, cfg, run.elapsed)
    ensures (cfg.enabled && run.Completed? && IsSuccessful(ExtractionOf(ToStr(path), run.doc, cfg, run.elapsed)))
            ==> r.Some?
  {
    if !cfg.enabled then None
    else match run
      case Crashed(_) => None
      case Completed(doc, elapsed) =>
        var result := ExtractionOf(ToStr(path), doc, cfg, elapsed);
        if IsSuccessful(result) then Some(result) else None
  }

  /** End to end: the paper ends up with text exactly when extraction is
      enabled, the extractor completed on a document it could open, some
      page of it has text and that text survives sanitisation. A backend
      failure never leaves a result behind. */
  lemma {:induction false} StoredText(cfg: TextExtractionConfig, path: Path, run: ExtractorRun)
    ensures var r := StoredResult(cfg, path, run);
            (r.Some? && Truthy(r.value.textContent)) <==>
              && cfg.enabled && run.Completed? && run.doc.Opened?
              && (exists i | 0 <= i < |run.doc.pages| :: PageText(run.doc.pages[i]) != [])
              && Sanitized(RawText(run.doc.pages), cfg) != []
    ensures run.Completed? && run.doc.Raised? ==> StoredResult(cfg, path, run) == None
  {
    if cfg.enabled && run.Completed? {
      match run.doc
      case Opened(pages) => OpenedOutcome(ToStr(path), pages, cfg, run.elapsed);
      case Raised(failure) => RaisedOutcome(ToStr(path), failure, cfg, run.elapsed);
    }
  }

  class GenerationService {
    const config: AppConfiguration

    constructor (config: AppConfiguration)
      ensures this.config == config
    {
      this.config := config;
    }

    /** `prepare_paper`: a fresh paper for the path, whose text and
        extraction result are set only by a successful extraction. */
    method PreparePaper(pdfPath: Path, extractionConfig: Option<TextExtractionConfig>, run: ExtractorRun)
      returns (paper: Paper)
      ensures fresh(paper)
      ensures paper.filePath == pdfPath && paper.title == None && paper.authors == []
      ensures paper.sections == [] && paper.paperAbstract == None && paper.extractedElements == []
      ensures paper.textExtractionResult == StoredResult(EffectiveConfig(config, extractionConfig), pdfPath, run)
      ensures paper.textContent ==
                if paper.textExtractionResult.Some? then paper.textExtractionResult.value.textContent else None
      ensures !EffectiveConfig(config, extractionConfig).enabled || run.Crashed? ==>
                paper.textContent == None && paper.TextExtractionStatus() == NOT_ATTEMPTED
      ensures paper.HasTextContent() <==>
                var r := StoredResult(EffectiveConfig(config, extractionConfig), pdfPath, run);
                r.Some? && Truthy(r.value.textContent)
    {
      paper := new Paper(pdfPath, None, [], []);
      var cfg := if extractionConfig.None? then config.textExtraction else extractionConfig.value;
      if !cfg.enabled {
        return;
      }
      match run
      case Crashed(_) =>
        // The exception is logged and swallowed.
      case Completed(doc, elapsed) =>
        var result := TextExtractor.Extract(ToStr(pdfPath), doc, cfg, elapsed);
        if IsSuccessful(result) {
          paper.textContent := result.textContent;
          paper.textExtractionResult := Some(result);
        }
    }
  }
}
