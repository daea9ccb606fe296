/** Whole-document text extraction (extraction/text_extractor.py): page texts
    are collected, joined, sanitised and wrapped in a TextExtractionResult,
    and every failure of the PDF backend becomes a FAILED result with a
    message chosen from the exception. The backend itself is not modelled:
    what it would return or raise is an input. */
module TextExtractor {
  import opened Wrappers
  import opened Seqs
  import opened Strings
  import opened Config
  import opened ExtractionResult
  import opened TextSanitizer

  /** One page as the backend presents it: its plain text, and the texts of
      its column blocks in backend order (`None` when asking for the
      blocks raised, `Some([])` when the page has none). */
  datatype Page = Page(text: string, columns: Option<seq<string>>)

  /** What opening or reading the document raised. */
  datatype Failure =
    | FileNotFound
    | Runtime(message: string)
    | Unexpected(message: string)

  /** The backend's answer for a path: the pages, or the exception. */
  datatype Document = Opened(pages: seq<Page>) | Raised(failure: Failure)

  /** `text and text.strip()`: a column that holds something visible. */
  predicate HasText(t: string) {
    t != [] && Strip(t) != []
  }

  predicate NonEmptyText(t: string) {
    t != []
  }

  /** The column texts kept for a page: the visible ones, in order. */
  function KeptColumns(columns: seq<string>): (kept: seq<string>)
    ensures IsSubseq(kept, columns)
    ensures forall t | t in kept :: HasText(t)
    ensures forall t | t in columns && HasText(t) :: t in kept
  {
    Filter(columns, HasText)
  }

  /** `_extract_page_text`: the page text itself when the page has no
      column blocks or reading them failed, else the visible column texts,
      one per line. */
  function PageText(page: Page): string {
    match page.columns
    case None => page.text
    case Some(columns) => if columns == [] then page.text else Join(KeptColumns(columns), "\n")
  }

  /** `_extract_page_text`, column loop included. */
  method ExtractPageText(page: Page) returns (text: string)
    ensures text == PageText(page)
  {
    if page.columns.None? {
      return page.text;
    }
    var columns := page.columns.value;
    if columns == [] {
      return page.text;
    }
    var columnTexts: seq<string> := [];
    var i := 0;
    while i < |columns|
      invariant i <= |columns|
      invariant columnTexts == Filter(columns[..i], HasText)
    {
      var t := columns[i];
      assert columns[..i + 1][..i] == columns[..i];
      if t != [] && Strip(t) != [] {
        columnTexts := columnTexts + [t];
      }
      i := i + 1;
    }
    assert columns[..|columns|] == columns;
    text := Join(columnTexts, "\n");
  }

  /** The text of every page, in page order. */
  function PageTexts(pages: seq<Page>): (texts: seq<string>)
    ensures |texts| == |pages|
    ensures forall i | 0 <= i < |pages| :: texts[i] == PageText(pages[i])
  {
    seq(|pages|, i requires 0 <= i < |pages| => PageText(pages[i]))
  }

  /** The page texts that are kept: the non-empty ones, in page order. */
  function KeptPageTexts(pages: seq<Page>): (parts: seq<string>)
    ensures IsSubseq(parts, PageTexts(pages))
    ensures forall t | t in parts :: t != []
    ensures forall i | 0 <= i < |pages| && PageText(pages[i]) != [] :: PageText(pages[i]) in parts
  {
    Filter(PageTexts(pages), NonEmptyText)
  }

  /** The raw document text: the kept page texts separated by blank lines. */
  function RawText(pages: seq<Page>): string {
    Join(KeptPageTexts(pages), "\n\n")
  }

  const NoTextMessage := "No text content extracted from PDF"
  const FileNotFoundPrefix := "File not found: "
  const EncryptedPrefix := "PDF is encrypted: "
  const ExtractingPrefix := "Error extracting text: "
  const UnexpectedPrefix := "Unexpected error: "

  /** A runtime error message that mentions encryption, in any case. */
  predicate SaysEncrypted(message: string) {
    Contains(Lower(message), "encrypt")
  }

  /** A runtime error message that mentions a missing file, in any case. */
  predicate SaysMissing(message: string) {
    Contains(Lower(message), "no such file") || Contains(Lower(message), "not found")
  }

  /** The message for a failure, in the order the handlers test it: a
      runtime error mentioning encryption (any case) is reported as such
      before one that mentions a missing file. */
  function ErrorMessage(path: string, failure: Failure): (msg: string)
    ensures failure.FileNotFound? ==> msg == FileNotFoundPrefix + path
    ensures failure.Runtime? && SaysEncrypted(failure.message) ==>
      msg == EncryptedPrefix + failure.message
    ensures failure.Runtime? && !SaysEncrypted(failure.message) && SaysMissing(failure.message) ==>
      msg == FileNotFoundPrefix + path
    ensures failure.Runtime? && !SaysEncrypted(failure.message) && !SaysMissing(failure.message) ==>
      msg == ExtractingPrefix + failure.message
    ensures failure.Unexpected? ==> msg == UnexpectedPrefix + failure.message
    ensures msg != []
  {
    match failure
    case FileNotFound => FileNotFoundPrefix + path
    case Runtime(message) =>
      var lower := Lower(message);
      if Contains(lower, "encrypt") then EncryptedPrefix + message
      else if Contains(lower, "no such file") || Contains(lower, "not found") then FileNotFoundPrefix + path
      else ExtractingPrefix + message
    case Unexpected(message) => UnexpectedPrefix + message
  }

  /** A FAILED result: no text, zero lengths, the message and page count given. */
  function Failed(message: string, pageCount: int, elapsed: real): TextExtractionResult {
    TextExtractionResult(FAILED, None, 0, 0, pageCount, elapsed, Some(message), [])
  }

  /** What `extract` returns for a document, given the elapsed time the
      clock reports. */
  function ExtractionOf(path: string, doc: Document, config: TextExtractionConfig, elapsed: real): TextExtractionResult {
    match doc
    case Raised(failure) => Failed(ErrorMessage(path, failure), 0, elapsed)
    case Opened(pages) =>
      var raw := RawText(pages);
      if raw == [] then Failed(NoTextMessage, |pages|, elapsed)
      else
        var clean := Sanitized(raw, config);
        TextExtractionResult(SUCCESS, Some(clean), |raw|, |clean|, |pages|, elapsed, None, [])
  }

  /** `extract`: read every page, join, sanitise, and classify failures. */
  method Extract(path: string, doc: Document, config: TextExtractionConfig, elapsed: real)
    returns (result: TextExtractionResult)
    ensures result == ExtractionOf(path, doc, config, elapsed)
  {
    match doc
    case Raised(failure) =>
      var message := ErrorMessage(path, failure);
      result := Failed(message, 0, elapsed);
    case Opened(pages) =>
      var pageCount := |pages|;
      var texts := CollectPageTexts(pages);
      var raw := Join(texts, "\n\n");
      var clean := Sanitize(raw, config);
      if raw == [] {
        result := Failed(NoTextMessage, pageCount, elapsed);
      } else {
        result := TextExtractionResult(SUCCESS, Some(clean), |raw|, |clean|, pageCount, elapsed, None, []);
      }
  }

  /** The page loop of `extract`: each page's text, kept when non-empty. */
  method CollectPageTexts(pages: seq<Page>) returns (texts: seq<string>)
    ensures texts == KeptPageTexts(pages)
  {
    texts := [];
    var i := 0;
    while i < |pages|
      invariant i <= |pages|
      invariant texts == Filter(PageTexts(pages)[..i], NonEmptyText)
    {
      var pageText := ExtractPageText(pages[i]);
      assert PageTexts(pages)[..i + 1][..i] == PageTexts(pages)[..i];
      if pageText != [] {
        texts := texts + [pageText];
      }
      i := i + 1;
    }
    assert PageTexts(pages)[..|pages|] == PageTexts(pages);
  }

  /** An opened document yields SUCCESS exactly when some page has text; the
      page count is always the document's, the clean text is the sanitised
      raw text and never longer than it. */
  lemma OpenedOutcome(path: string, pages: seq<Page>, config: TextExtractionConfig, elapsed: real)
    ensures var r := ExtractionOf(path, Opened(pages), config, elapsed);
      && r.pageCount == |pages|
      && (r.status == SUCCESS <==> exists i | 0 <= i < |pages| :: PageText(pages[i]) != [])
      && (r.status == SUCCESS ==>
            r.textContent == Some(Sanitized(RawText(pages), config))
            && r.rawTextLength == |RawText(pages)|
            && r.cleanTextLength == |Sanitized(RawText(pages), config)| <= r.rawTextLength
            && r.errorMessage == None)
      && (r.status != SUCCESS ==> r == Failed(NoTextMessage, |pages|, elapsed))
  {
    RawTextEmpty(pages);
    SanitizedNeverLonger(RawText(pages), config);
  }

  /** The raw text is empty exactly when no page has any text. */
  lemma RawTextEmpty(pages: seq<Page>)
    ensures RawText(pages) == [] <==> forall i | 0 <= i < |pages| :: PageText(pages[i]) == []
  {
    var parts := KeptPageTexts(pages);
    if parts != [] {
      assert parts[0] in parts;
      JoinStartsWithFirst(parts, "\n\n");
      SubseqMembers(parts, PageTexts(pages));
      assert parts[0] in PageTexts(pages);
    }
  }

  /** A join begins with its first part. */
  lemma JoinStartsWithFirst(parts: seq<string>, sep: string)
    requires parts != []
    ensures |Join(parts, sep)| >= |parts[0]|
  {
  }

  /** Every failure of the backend is a FAILED result without text, with
      zero lengths, page count zero and a non-empty message. */
  lemma RaisedOutcome(path: string, failure: Failure, config: TextExtractionConfig, elapsed: real)
    ensures var r := ExtractionOf(path, Raised(failure), config, elapsed);
      && r.status == FAILED && r.textContent == None
      && r.rawTextLength == 0 && r.cleanTextLength == 0 && r.pageCount == 0
      && r.errorMessage == Some(ErrorMessage(path, failure))
      && Truthy(r.errorMessage)
  {
  }

  /** `extract` always returns a result that passes
      `validate_extraction_result`, except a SUCCESS whose sanitised text
      came out empty, given a non-negative elapsed time. */
  lemma ExtractionConsistent(path: string, doc: Document, config: TextExtractionConfig, elapsed: real)
    requires elapsed >= 0.0
    ensures var r := ExtractionOf(path, doc, config, elapsed);
      Consistent(r) <==> (r.status == SUCCESS ==> r.textContent != Some([]))
  {
    if doc.Opened? {
      OpenedOutcome(path, doc.pages, config, elapsed);
    }
  }
}
