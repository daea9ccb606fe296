# paperdeck core, modelled in Dafny

paperdeck turns a technical paper (a PDF) into a LaTeX beamer presentation.
This project models the core of that pipeline and proves properties of it:

- the data model: papers, sections, extracted elements, slides and presentations;
- the configuration records and their validators;
- the PDF checks, text extraction, sanitisation and structure parsing;
- element extraction;
- the prompt templates and their library;
- the organisation of a paper into slides;
- LaTeX escaping and figure rendering;
- the LLM request context;
- the AI request and response records;
- the paper preparation step of the generation service.

One Dafny module models each source file:

| module | file |
|---|---|
| `Models` | paper side of `core/models.py` |
| `PresentationModels` | slides and presentations of `core/models.py` |
| `Config` | `core/config.py` |
| `LatexGenerator` | `generation/latex_generator.py` |
| `Organizer` | `generation/slide_organizer.py` |
| `Prompts` | `prompts/manager.py` |
| `PdfProcessor` | `extraction/pdf_processor.py` |
| `Extractor` | `extraction/extractor.py` |
| `TextExtractor` | `extraction/text_extractor.py` |
| `TextSanitizer` | `extraction/text_sanitizer.py` |
| `TextParser` | `extraction/text_parser.py` |
| `Generation` | `services/generation_service.py` |
| `LlmRequestContext` | `models/llm_request_context.py` |
| `ExtractionResult` | `models/extraction_result.py` |
| `AIService` | `ai/service.py` |

Shared helper modules:

- `Wrappers` holds `Option`, `Result` and the exception kinds.
- `Strings` holds the Python `str` operations the code uses.
- `Paths` holds the part of `pathlib` the code relies on.
- `Seqs` holds list filtering and sub-lists.

How the source becomes Dafny:

- A constructor whose `__post_init__` raises becomes a function returning a `Result`. It checks in source order and returns the source's message for each failure. Where a message prints a Python set, the model fixes one order of its elements (see "## Left out").
- Objects whose fields the source updates in place are classes: `Paper`, `Slide`, `Presentation` and `PromptLibrary`. Their updating methods carry `modifies` clauses and state the whole new state. `SlideOrganizer` and `GenerationService` are classes too, because the source's are; their methods change no fields, so they have no `modifies` clause.
- Loops become methods proved against a specification function.
- Regular expressions become hand-written predicates and scanners over ASCII character classes.
- The PDF backend, the clock and the element detector are not modelled. What they return or raise is an input to the model.

## Model

| member | source | states |
|---|---|---|
| Models.NewBoundingBox | src/paperdeck/core/models.py:61-64 | accepted exactly when no coordinate is negative; a rejection is a ValueError |
| Models.NewExtractedElement | src/paperdeck/core/models.py:101-106 | accepted exactly when the confidence is in [0, 1] and the page is at least 1; the confidence is checked first |
| Models.NewPaperSection | src/paperdeck/core/models.py:78-85 | accepted exactly when the title is non-empty, the level is at least 1 and the pages are ordered; the first failed check, in source order, gives its message |
| Models.Paper.constructor | src/paperdeck/core/models.py:147-165 | a new paper has no text, no extraction result and no elements |
| Models.Paper.TextExtractionStatus | src/paperdeck/core/models.py:187-193 | NOT_ATTEMPTED until a result is stored, then that result's status |
| Models.Paper.HasTextContent | src/paperdeck/core/models.py:176-185 | true exactly for non-empty text backed by a successful result, which implies status SUCCESS or PARTIAL |
| PresentationModels.ElementLatex | src/paperdeck/core/models.py:263-283 | a figure renders with the figure generator; an equation renders as a placeholder comment; a table fails with AttributeError |
| PresentationModels.ElementsLatexFails | src/paperdeck/core/models.py:238-258 | a list of elements fails to render exactly when it contains a table |
| PresentationModels.ItemLineAt | src/paperdeck/core/models.py:233-237 | every item gets its own `\item` line, after the lines of the items before it |
| PresentationModels.FrameShape | src/paperdeck/core/models.py:227-261 | without stored code, a slide renders as one frame opened with its title and closed by `\end{frame}` |
| PresentationModels.WithElementKeeps | src/paperdeck/core/models.py:285-301 | after `add_element` the new reference is the last one; a non-mixed slide keeps its old content under `text` |
| PresentationModels.Slide.New | src/paperdeck/core/models.py:213-216 | an empty title is rejected with its message; otherwise a fresh slide with the given fields |
| PresentationModels.Slide.ToLatex | src/paperdeck/core/models.py:218-261 | the item and element loops compute the slide's frame, or the first element's error |
| PresentationModels.Slide.AddElement | src/paperdeck/core/models.py:285-301 | the slide becomes mixed and gains the reference; its other fields are unchanged |
| PresentationModels.ContentLatex | src/paperdeck/core/models.py:240-258 | the element loop yields the blocks in order, or the first error |
| PresentationModels.ReorderingIsPermutation | src/paperdeck/core/models.py:373-376 | an accepted order names every slide index exactly once |
| PresentationModels.ReorderedDistinct | src/paperdeck/core/models.py:378 | reordering distinct slides leaves them distinct |
| PresentationModels.Presentation.New | src/paperdeck/core/models.py:318-323 | no slides is rejected before an empty title; otherwise a fresh, uncompiled presentation with no cached code |
| PresentationModels.Presentation.ToLatex | src/paperdeck/core/models.py:325-357 | returns the cached document when there is one; otherwise the preamble, every slide and the document end, which is then cached; nothing else changes |
| PresentationModels.Presentation.AddSlide | src/paperdeck/core/models.py:359-365 | exactly one slide is appended; every other field is unchanged |
| PresentationModels.Presentation.ReorderSlides | src/paperdeck/core/models.py:367-382 | a wrong length or a non-permutation is rejected with its message and changes nothing; otherwise slide k is old slide newOrder[k], renumbered k when the slides are distinct; every other field of the presentation and of its slides is unchanged |
| PresentationModels.Presentation.CompileToPdf | src/paperdeck/core/models.py:384-399 | reports failure and leaves the status NOT_COMPILED; every other field is unchanged |
| PresentationModels.RenderSlides | src/paperdeck/core/models.py:351-352 | the slide loop renders each slide followed by a newline, or stops at the first error |
| PresentationModels.Renumber | src/paperdeck/core/models.py:380-382 | each slide is numbered by its last position, so distinct slides get 0..n-1; nothing else changes |
| Config.NewExtractionConfiguration | src/paperdeck/core/config.py:27-47 | accepted exactly when the threshold is in [0, 1], some element type is given, the padding is non-negative and any page limit is positive |
| Config.DefaultExtractionConfigurationValid | src/paperdeck/core/config.py:18-25 | the dataclass defaults pass the guard |
| Config.NewAIServiceConfiguration | src/paperdeck/core/config.py:65-81 | accepted exactly when the default provider is known and keyed if it is a cloud provider, retries are non-negative and the timeout is positive |
| Config.ValidateProvider | src/paperdeck/core/config.py:83-104 | True for a configured provider; an unknown provider or a missing key is a ValueError |
| Config.DefaultProviderValidates | src/paperdeck/core/config.py:65-104 | an accepted configuration validates its own default provider |
| Config.AvailableInputFraction | src/paperdeck/core/config.py:133-136 | adds up to 1 with the reserved fraction; strictly between 0 and 1 when that fraction is |
| Config.TextConfigErrorsListViolations | src/paperdeck/core/config.py:138-161 | the list of violated rules' messages is empty exactly when every rule holds; each message is in it exactly when its rule fails; at most five |
| Config.Validate | src/paperdeck/core/config.py:138-161 | the loop's list is the violated rules' messages in the order the checks run, so each message is present exactly when its rule fails |
| Config.DefaultTextConfigValid | src/paperdeck/core/config.py:111-131 | the defaults satisfy every rule and leave 0.75 of the context for input |
| Config.NormalizeLogLevel | src/paperdeck/core/config.py:188-194 | accepted exactly when the upper-cased level is known; the result is that level and equals the input up to case |
| Config.NormalizeLogLevelStable | src/paperdeck/core/config.py:188-194 | normalising is idempotent, and spellings that differ only in case normalise alike |
| Config.NewAppConfiguration | src/paperdeck/core/config.py:177-194 | accepted exactly when the log level is known; the stored level is upper-cased |
| ExtractionResult.IsSuccessful | src/paperdeck/models/extraction_result.py:34-37 | true exactly for SUCCESS and PARTIAL |
| ExtractionResult.ReductionPct | src/paperdeck/models/extraction_result.py:39-45 | 0 for empty raw text; between 0 and 100 when the clean text is no longer than the raw text |
| ExtractionResult.StatusErrorsListViolations | src/paperdeck/models/extraction_result.py:60-70 | a result is not both SUCCESS and FAILED, so at most two status messages are listed, each exactly when its invariant fails |
| ExtractionResult.ExtractionErrorsListViolations | src/paperdeck/models/extraction_result.py:48-83 | the list of violated invariants' messages is empty exactly when the result is consistent; each message is in it exactly when its invariant fails; at most five |
| ExtractionResult.ValidateExtractionResult | src/paperdeck/models/extraction_result.py:48-83 | the list is the violated invariants' messages in the order the checks run, so it is empty exactly when the result is consistent |
| LatexGenerator.EscapeLatex | src/paperdeck/generation/latex_generator.py:31-60 | the loop over the escape table computes `escape_latex` as written |
| LatexGenerator.EscapeLatexPerChar | src/paperdeck/generation/latex_generator.py:17-60 | for text without the placeholder, the staged replacements equal escaping each character on its own, so nothing is escaped twice |
| LatexGenerator.EscapeSpecialChar | src/paperdeck/generation/latex_generator.py:17-28 | each special character alone becomes its table escape |
| LatexGenerator.EscapedIsGuarded | src/paperdeck/generation/latex_generator.py:31-60 | in the escaped text every `&`, `%`, `$`, `#` and `_` follows a backslash |
| LatexGenerator.FormatGraphicsPath | src/paperdeck/generation/latex_generator.py:263-290 | the path has no backslash; it is relative to the output directory exactly when the figure lies under it, and absolute otherwise |
| LatexGenerator.FigureLatex | src/paperdeck/generation/latex_generator.py:225-261 | a figure without a file renders as a placeholder comment naming its number |
| LatexGenerator.FigureLatexShape | src/paperdeck/generation/latex_generator.py:250-261 | a figure with a file is a figure environment with the includegraphics line, and a caption only when there is one |
| Prompts.HasBalancedBraces | src/paperdeck/prompts/manager.py:49-66 | the counter loop answers exactly whether the braces are balanced |
| Prompts.BalancedConcat | src/paperdeck/prompts/manager.py:49-66 | two balanced texts in a row are balanced |
| Prompts.BalancedWrap | src/paperdeck/prompts/manager.py:49-66 | a balanced text inside braces is balanced |
| Prompts.CloseFirstUnbalanced | src/paperdeck/prompts/manager.py:64-65 | a closing brace before any opening one unbalances the text |
| Prompts.FindNamesSpec | src/paperdeck/prompts/manager.py:77-79 | the scan finds exactly the `{name}` placeholders at or after its start |
| Prompts.ExtractPlaceholders | src/paperdeck/prompts/manager.py:68-80 | the placeholder names of the text, each once |
| Prompts.NewPromptTemplate | src/paperdeck/prompts/manager.py:25-47 | accepted exactly when the name is non-empty, the braces balance and the style and detail level are known; the placeholders are extracted when none are given |
| Prompts.Validate | src/paperdeck/prompts/manager.py:108-126 | valid exactly when balanced and at most 10000 characters; the brace message comes first |
| Prompts.ValidateConstructed | src/paperdeck/prompts/manager.py:25-47 | an accepted template fails validation only by its length |
| Prompts.Render | src/paperdeck/prompts/manager.py:82-106 | the content unchanged without a context or placeholders; otherwise each key replaced in turn |
| Prompts.RenderKeepsUnmatched | src/paperdeck/prompts/manager.py:100-104 | a placeholder with no context entry survives rendering |
| Prompts.RenderUnmatchedContext | src/paperdeck/prompts/manager.py:100-104 | rendering changes nothing when no key occurs |
| Prompts.PromptLibrary.constructor | src/paperdeck/prompts/manager.py:129-135 | a new library is empty |
| Prompts.PromptLibrary.ListTemplates | src/paperdeck/prompts/manager.py:154-160 | every template once, in insertion order |
| Prompts.PromptLibrary.AddTemplate | src/paperdeck/prompts/manager.py:217-234 | a taken name or an invalid template is refused with its message and changes nothing; otherwise the template is added last |
| Prompts.PromptLibrary.RemoveTemplate | src/paperdeck/prompts/manager.py:238-254 | a missing name is a KeyError and a builtin a ValueError, both changing nothing; otherwise exactly that template is removed |
| Prompts.PromptLibrary.ValidateAll | src/paperdeck/prompts/manager.py:258-267 | one validation result per template name |
| Organizer.SlideTypeOf | src/paperdeck/generation/slide_organizer.py:151-167 | the slide type has the same value as the element type |
| Organizer.BatchesFlatten | src/paperdeck/generation/slide_organizer.py:129-130 | the batches together give back the list |
| Organizer.BatchCount | src/paperdeck/generation/slide_organizer.py:129-130 | there are ceil(n / size) batches |
| Organizer.PartitionBySize | src/paperdeck/generation/slide_organizer.py:102-115 | every element is large or small exactly once |
| Organizer.OrganizeElementsViews | src/paperdeck/generation/slide_organizer.py:81-149 | nothing for no elements; a zero batch size fails as `range` does |
| Organizer.OrganizeElementsCount | src/paperdeck/generation/slide_organizer.py:117-147 | L + ceil(S / max) slides, where L counts the large elements and S the small ones |
| Organizer.OrganizeElementsContents | src/paperdeck/generation/slide_organizer.py:117-147 | the slides hold the large elements, then the small ones, each exactly once |
| Organizer.OrganizeElementsNegative | src/paperdeck/generation/slide_organizer.py:129 | a negative batch size leaves only the large elements' slides |
| Organizer.ElementSlidesLayout | src/paperdeck/generation/slide_organizer.py:266-305 | the element slides hold every element once, in batches |
| Organizer.SectionContents | src/paperdeck/generation/slide_organizer.py:210-264 | a section's slides hold each of its elements exactly once |
| Organizer.SectionWithoutElements | src/paperdeck/generation/slide_organizer.py:250-262 | a section with content but no elements gets its text slide |
| Organizer.TitleSlideView | src/paperdeck/generation/slide_organizer.py:169-186 | a paper without a title cannot have a title slide; otherwise the title over the authors line |
| Organizer.OutlineItems | src/paperdeck/generation/slide_organizer.py:188-208 | the non-empty section titles, in order |
| Organizer.OrganizeViews | src/paperdeck/generation/slide_organizer.py:43-79 | the title slide first when asked for, then the outline, then every section's slides |
| Organizer.SlideOrganizer.constructor | src/paperdeck/generation/slide_organizer.py:23-41 | the organiser keeps the four settings it is given |
| Organizer.SlideOrganizer.Default | src/paperdeck/generation/slide_organizer.py:23-29 | the defaults: two elements per slide, title and outline slides, a threshold of 200 |
| Organizer.SlideOrganizer.CreateTitleSlide | src/paperdeck/generation/slide_organizer.py:169-186 | the slide `TitleSlideView` describes, or the empty-title error |
| Organizer.SlideOrganizer.CreateOutlineSlide | src/paperdeck/generation/slide_organizer.py:188-208 | an itemised "Outline" slide listing the non-empty section titles |
| Organizer.SlideOrganizer.OrganizeElements | src/paperdeck/generation/slide_organizer.py:81-149 | the three loops build the slides `OrganizeElementsViews` describes |
| Organizer.SlideOrganizer.CreateElementSlides | src/paperdeck/generation/slide_organizer.py:266-305 | the batch loop builds the slides `ElementSlideViews` describes |
| Organizer.SlideOrganizer.CreateSectionSlides | src/paperdeck/generation/slide_organizer.py:210-264 | fails exactly for a zero batch size; otherwise the slides `SectionViews` describes |
| Organizer.SlideOrganizer.OrganizeSlides | src/paperdeck/generation/slide_organizer.py:52-67 | the section loop builds the slides `OrganizeViews` describes |
| Organizer.SlideOrganizer.Organize | src/paperdeck/generation/slide_organizer.py:43-79 | a presentation of those slides, titled by the paper or "Untitled" and authored by the first author or "Unknown" |
| TextExtractor.KeptColumns | src/paperdeck/extraction/text_extractor.py:195-200 | the column texts with visible content, in order |
| TextExtractor.ExtractPageText | src/paperdeck/extraction/text_extractor.py:166-207 | the column loop computes the page text |
| TextExtractor.CollectPageTexts | src/paperdeck/extraction/text_extractor.py:65-69 | the non-empty page texts, in page order |
| TextExtractor.ErrorMessage | src/paperdeck/extraction/text_extractor.py:103-164 | the message for each exception, in handler order |
| TextExtractor.Extract | src/paperdeck/extraction/text_extractor.py:42-164 | computes the result `ExtractionOf` describes |
| TextExtractor.OpenedOutcome | src/paperdeck/extraction/text_extractor.py:74-101 | an opened document gives SUCCESS with the sanitised text exactly when some page has text |
| TextExtractor.RaisedOutcome | src/paperdeck/extraction/text_extractor.py:103-164 | every backend failure gives a FAILED result with no text and a message |
| TextExtractor.ExtractionConsistent | src/paperdeck/extraction/text_extractor.py:42-164 | every result passes `validate_extraction_result` except a SUCCESS whose sanitised text is empty: a result is consistent exactly when it is not such a SUCCESS |
| TextSanitizer.RemoveDoiLines | src/paperdeck/extraction/text_sanitizer.py:77-82 | keeps exactly the lines that are not DOI lines, in order |
| TextSanitizer.RemoveArxivLines | src/paperdeck/extraction/text_sanitizer.py:84-89 | keeps exactly the lines that are not arXiv lines, in order |
| TextSanitizer.RemovePageXOfY | src/paperdeck/extraction/text_sanitizer.py:91-96 | keeps exactly the lines that are not "Page x of y", in order |
| TextSanitizer.RemoveShortLines | src/paperdeck/extraction/text_sanitizer.py:112-117 | keeps exactly the blank lines and the long enough ones |
| TextSanitizer.RemoveStandalonePageNumbers | src/paperdeck/extraction/text_sanitizer.py:98-110 | the loop drops exactly the bare numbers |
| TextSanitizer.RemoveShortLinesPreserveNumbers | src/paperdeck/extraction/text_sanitizer.py:119-131 | the loop keeps the blank lines, the numbers and the long enough lines |
| TextSanitizer.CountStrippedLines | src/paperdeck/extraction/text_sanitizer.py:139-144 | counts how many lines strip to each non-blank form |
| TextSanitizer.RemoveRepeatedLines | src/paperdeck/extraction/text_sanitizer.py:133-165 | keeps the blank lines, the unique lines and the first copy of each repeated line |
| TextSanitizer.FirstOccurrencesProperties | src/paperdeck/extraction/text_sanitizer.py:133-165 | the result is an ordered sub-list with the same stripped forms, no non-blank form twice and every blank line |
| TextSanitizer.NormalizeWhitespaceProperties | src/paperdeck/extraction/text_sanitizer.py:167-187 | no surrounding whitespace, no tab or double space, every line trimmed, never longer |
| TextSanitizer.Sanitize | src/paperdeck/extraction/text_sanitizer.py:34-75 | computes the staged filter; empty text stays empty |
| TextSanitizer.SanitizedLinesSubseq | src/paperdeck/extraction/text_sanitizer.py:48-67 | the surviving lines are an ordered sub-list of the input's lines |
| TextSanitizer.SanitizedNeverLonger | src/paperdeck/extraction/text_sanitizer.py:34-75 | the sanitised text is never longer than the raw text |
| TextSanitizer.SanitizedIsNormalized | src/paperdeck/extraction/text_sanitizer.py:69-75 | the sanitised text and each of its lines are stripped and compact |
| TextSanitizer.HeaderPatternsRemoved | src/paperdeck/extraction/text_sanitizer.py:52-67 | with header removal on, no DOI, arXiv or page-of line survives |
| TextSanitizer.DoiLineKeptWhenDisabled | src/paperdeck/extraction/text_sanitizer.py:52-63 | with header removal off, a long enough DOI line survives |
| TextSanitizer.PageNumbersAndShortLinesRemoved | src/paperdeck/extraction/text_sanitizer.py:57-60 | with page-number removal on, no bare number and no short non-blank line survives |
| TextParser.AuthorNamesWellFormed | src/paperdeck/extraction/text_parser.py:101-104 | the split author names are non-empty, trimmed and comma-free |
| TextParser.ExtractMetadata | src/paperdeck/extraction/text_parser.py:69-115 | the loop finds the title, the authors and the body offset `MetadataOf` describes |
| TextParser.TitleIsFirstLongLine | src/paperdeck/extraction/text_parser.py:86-95 | the title is the first of the first ten lines longer than 20 characters |
| TextParser.AuthorsFromOneLine | src/paperdeck/extraction/text_parser.py:97-110 | the authors come from one author-list line, or from name-like lines one by one |
| TextParser.BodyOffsetBounds | src/paperdeck/extraction/text_parser.py:112-113 | the offset is 0 without a title and never passes the end of the text |
| TextParser.MatchesAreHeadings | src/paperdeck/extraction/text_parser.py:20-43 | every match starts a line and is a heading there |
| TextParser.SectionTitleIsHeadingWord | src/paperdeck/extraction/text_parser.py:147-152 | a section title is one of the heading words, as written in the text |
| TextParser.SectionOfWellFormed | src/paperdeck/extraction/text_parser.py:166-172 | every section built passes the `PaperSection` guard |
| TextParser.ParseSections | src/paperdeck/extraction/text_parser.py:117-175 | the loop builds the sections `SectionsOf` describes |
| TextParser.SectionsOfShape | src/paperdeck/extraction/text_parser.py:127-175 | with no heading, one "Content" section for long text; otherwise one section per heading whose content is long enough, at most 5000 characters |
| TextParser.Parse | src/paperdeck/extraction/text_parser.py:45-67 | short text gives nothing; otherwise the metadata, then the sections of the body |
| PdfProcessor.ValidatePdf | src/paperdeck/extraction/pdf_processor.py:11-38 | valid exactly for a readable regular file with a `.pdf` suffix in any case whose bytes start with `%PDF-` |
| PdfProcessor.IsEncrypted | src/paperdeck/extraction/pdf_processor.py:41-61 | true exactly when `/Encrypt` occurs in the first 4096 bytes, which implies it occurs in the file |
| PdfProcessor.CountBytesBound | src/paperdeck/extraction/pdf_processor.py:80-84 | non-overlapping occurrences fit in the file side by side |
| PdfProcessor.GetPageCount | src/paperdeck/extraction/pdf_processor.py:64-90 | 0 for an invalid file; otherwise the marker balance floored at 0, never more than the `/Type /Page` markers |
| PdfProcessor.PageCountBound | src/paperdeck/extraction/pdf_processor.py:64-90 | the page count times 11 never exceeds the file's length |
| PdfProcessor.GetPdfMetadata | src/paperdeck/extraction/pdf_processor.py:93-131 | the six keys, all with no value |
| PdfProcessor.CheckPdfReadability | src/paperdeck/extraction/pdf_processor.py:134-163 | true exactly when the file is a valid, unencrypted PDF; otherwise the first failed check's message |
| PdfProcessor.ReadErrorsUnreachable | src/paperdeck/extraction/pdf_processor.py:150-161 | for a file that does not change between opens, the read-error messages never appear |
| Extractor.NewPaperExtractor | src/paperdeck/extraction/extractor.py:29-44 | accepted exactly when the threshold is in [0, 1]; the output directory defaults to `extracted` |
| Extractor.RequestedTypes | src/paperdeck/extraction/extractor.py:76-77 | the named types, or all three |
| Extractor.Extract | src/paperdeck/extraction/extractor.py:46-102 | a missing path, a non-file and a non-PDF suffix are rejected with their messages; otherwise no elements |
| Extractor.ConvertOne | src/paperdeck/extraction/extractor.py:134-199 | succeeds exactly when the box and the element pass their guards; a failure is a ValueError |
| Extractor.ConvertAllResult | src/paperdeck/extraction/extractor.py:118-201 | succeeds exactly when every kept element converts, and then it is those elements one for one |
| Extractor.ConvertElements | src/paperdeck/extraction/extractor.py:118-201 | the loop skips the low-confidence elements and converts the rest in order |
| Extractor.ConvertElementsKeepsConfident | src/paperdeck/extraction/extractor.py:131-132 | a successful result holds exactly the confident elements |
| Generation.EffectiveConfig | src/paperdeck/services/generation_service.py:69-70 | the given settings, or else the application's |
| Generation.StoredResult | src/paperdeck/services/generation_service.py:73-118 | a result is stored only when extraction is enabled, the extractor completed and it succeeded |
| Generation.StoredText | src/paperdeck/services/generation_service.py:73-118 | the paper ends up with text exactly when extraction is enabled, completed on an opened document with some page text, and the text survives sanitisation |
| Generation.GenerationService.PreparePaper | src/paperdeck/services/generation_service.py:40-120 | a fresh paper whose text and result come only from a successful extraction; when disabled or crashed it has no text and status NOT_ATTEMPTED |
| LlmRequestContext.IncludesFullText | src/paperdeck/models/llm_request_context.py:40-43 | true exactly when the text is present and non-empty |
| LlmRequestContext.TotalInputTokens | src/paperdeck/models/llm_request_context.py:45-52 | the text's token count plus a fixed 300 |
| LlmRequestContext.IsWithinContextLimit | src/paperdeck/models/llm_request_context.py:54-57 | the token count plus 300 fits the available input |
| LlmRequestContext.ErrorsListViolations | src/paperdeck/models/llm_request_context.py:60-97 | each message is listed exactly when its rule fails; the list is empty exactly when every rule holds |
| LlmRequestContext.ValidateLlmRequestContext | src/paperdeck/models/llm_request_context.py:60-97 | the checks accumulate one message per violated rule, in source order |
| AIService.NewAIRequest | src/paperdeck/ai/service.py:12-34 | accepted exactly when the prompt is non-empty, 1 <= max_tokens <= 128000 and 0 <= temperature <= 2; each failure has its message, in order |
| AIService.DefaultRequest | src/paperdeck/ai/service.py:18-20 | the defaults pass every check, so only an empty prompt is refused |
| AIService.NewAIResponse | src/paperdeck/ai/service.py:37-50 | accepted exactly when the content is non-empty |

## Left out

- File-system access, the clock, logging and the PDF and detection backends are not modelled. Their answers are inputs: `Document`, `FileEntry`, `ExtractorRun`, the elapsed time and the detector elements.
- Jinja2 templating (`get_jinja_env`, `generate_document`, `generate_from_template`, `generate_from_string`, `_build_context`) is left out. So are the LLM stack, the CLI, `load_from_file`, `save_to_file` and `AppConfiguration.validate`. All of these are I/O, or calls into libraries this model does not include.
- `PromptLibrary.__post_init__`, `get_template` and `_load_template_from_file` read the file system and are not part of this model.
- Paper's `__post_init__` file checks are not modelled (`Models.Paper.constructor`). A paper is built from a path.
- Generation.GenerationService.PreparePaper: returns a paper even where `Paper(file_path=pdf_path)` at src/paperdeck/services/generation_service.py:66 raises, that is for a missing path, a path that is not a file, or a path without a `.pdf` suffix, because the `Paper` file checks are not modelled.
- `Paths.Suffix` and `Paths.RelativeTo` cover `pathlib` only for parsed POSIX paths. `expanduser` is not modelled.
- `_extract_placeholders` returns `list(set(...))`, whose order is unspecified. `Prompts.ExtractPlaceholders` promises the names once each, not their order.
- `Prompts.RenderKeepsUnmatched` requires brace-free context keys. A key containing braces could create a placeholder by replacement.
- `escape_latex(None)` is not modelled, because strings are never absent here.
- `Presentation.to_latex`'s cache is modelled. The cost of regenerating is not.
- `generate_table_latex` does not exist in the source. Rendering a table element therefore fails with an AttributeError, which `PresentationModels.ElementLatex` models as an error result.
- The final `else` branch of `_generate_element_latex` cannot be reached: `ElementType` has three members.
- A negative `max_elements_per_slide` is modelled as Python's empty `range`. A zero one raises, as `range` does.
- Subclass fields of elements (`image_format`, `rows`, `columns`, `data`, `latex_code`, `is_numbered`) are not modelled.
- `uuid4()` is modelled as a caller-supplied function `newId`.
- The `metadata` dictionary of `AIResponse` is not modelled.
- The detector's `output_filename` is taken as an already-parsed path. An empty name becomes no path.
- The PDF file is treated as unchanging between the opens of one check. This makes the read-error branches of `check_pdf_readability` unreachable (`PdfProcessor.ReadErrorsUnreachable`).
- The 8 KB header that `get_pdf_metadata` reads is never used, so the model ignores it.
- `_map_element_types` and the detection library are not modelled. `Extractor.Extract` reproduces the source's result for a valid PDF, which is always an empty list.
- The extractor crashing inside `prepare_paper` is modelled as the input `ExtractorRun.Crashed`.
- `sanitize` is not idempotent and can leave runs of three newlines, because it collapses newlines before stripping lines. No idempotence is claimed.
- Slide sequence numbers follow the code (`2p` for the p-th batch slide). One unit test (tests/unit/test_generation.py:228-229) expects otherwise.
- Real numbers stand in for Python floats, so rounding is not modelled.
- Config.NewAIServiceConfiguration, Config.NormalizeLogLevel and Prompts.NewPromptTemplate: the messages that print a Python set list its elements in the order of the source's set literal. Python prints a set in an order that can change from run to run (string hashing is randomised), so the source fixes no order.
- Strings.IsDigit, Strings.Lower, Strings.Upper, TextSanitizer.IsWordChar, TextParser.IsLetter and TextParser.LowerRun are ASCII only. Python's `\d`, `\w`, `re.IGNORECASE` and `str.upper` are Unicode-aware, so the members built on them differ on non-ASCII input, as the next four lines show.
- TextSanitizer.RemoveStandalonePageNumbers: keeps a line of non-ASCII digits such as "٣" or "３", which `^\d+$` in the source removes as a page number.
- TextSanitizer.RemoveDoiLines: keeps a line such as "DOI: 10.1000/é", which the source removes because its `\w` matches "é".
- Config.NormalizeLogLevel: rejects "ınfo" (dotless i), which the source accepts because Python upper-cases it to "INFO".
- TextParser.ExtractMetadata and TextParser.ParseSections: the case-insensitive heading and author patterns do not fold "ſ", "ı" or the Kelvin sign "K" to "s", "i" and "k" as `re.IGNORECASE` does.
