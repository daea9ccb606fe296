/** The outcome of one PDF text extraction (models/extraction_result.py):
    its status, the derived success flag and reduction percentage, and the
    consistency validator. */
module ExtractionResult {
  import opened Wrappers
  import opened Seqs

  datatype ExtractionStatus = SUCCESS | PARTIAL | FAILED | NOT_ATTEMPTED

  /** `extraction_time_seconds` is a wall-clock float, kept as a `real`. */
  datatype TextExtractionResult = TextExtractionResult(
    status: ExtractionStatus,
    textContent: Option<string>,
    rawTextLength: int,
    cleanTextLength: int,
    pageCount: int,
    extractionTimeSeconds: real,
    errorMessage: Option<string>,
    warnings: seq<string>)

  /** Python truthiness of an optional string: present and non-empty. */
  predicate Truthy(o: Option<string>) {
    o.Some? && o.value != ""
  }

  /** `is_successful`: the extraction produced usable text. */
  function IsSuccessful(r: TextExtractionResult): (ok: bool)
    ensures ok <==> r.status != FAILED && r.status != NOT_ATTEMPTED
  {
    r.status == SUCCESS || r.status == PARTIAL
  }

  /** `sanitization_reduction_pct`: the share of the raw text that
      sanitisation removed, in percent. */
  function ReductionPct(r: TextExtractionResult): (pct: real)
    ensures r.rawTextLength == 0 ==> pct == 0.0
    ensures r.rawTextLength != 0 ==>
      pct * (r.rawTextLength as real) == ((r.rawTextLength - r.cleanTextLength) as real) * 100.0
    ensures 0 <= r.cleanTextLength <= r.rawTextLength ==> 0.0 <= pct <= 100.0
  {
    if r.rawTextLength == 0 then 0.0
    else
      var raw := r.rawTextLength as real;
      var pct := ((r.rawTextLength - r.cleanTextLength) as real / raw) * 100.0;
      assert pct * raw == ((r.rawTextLength - r.cleanTextLength) as real) * 100.0;
      pct
  }

  /** The example the source's tests use: 1000 characters cleaned to 800 is a
      20 percent reduction. */
  lemma ReductionExample(r: TextExtractionResult)
    requires r.rawTextLength == 1000 && r.cleanTextLength == 800
    ensures ReductionPct(r) == 20.0
  {
    assert ReductionPct(r) * 1000.0 == 200.0 * 100.0;
  }

  const MsgSuccessNeedsText := "SUCCESS status " + "requires non-empty text_content"
  const MsgSuccessHasError := "SUCCESS status " + "should not have error_message"
  const MsgFailedNeedsError := "FAILED status " + "requires error_message"
  const MsgFailedHasText := "FAILED status " + "should not have text_content"
  const MsgNegativeTime := "extraction_time_seconds " + "must be non-negative"
  const MsgNegativePages := "page_count " + "must be non-negative"
  const MsgCleanExceedsRaw := "clean_text_length " + "cannot exceed raw_text_length"

  /** The invariants a well-formed result keeps, stated positively. */
  predicate Consistent(r: TextExtractionResult) {
    && (r.status == SUCCESS ==> Truthy(r.textContent) && !Truthy(r.errorMessage))
    && (r.status == FAILED ==> Truthy(r.errorMessage) && !Truthy(r.textContent))
    && r.extractionTimeSeconds >= 0.0
    && r.pageCount >= 0
    && r.cleanTextLength <= r.rawTextLength
  }

  /** The messages of the two status checks, in the order they run. */
  function StatusErrors(r: TextExtractionResult): seq<string> {
    When(r.status == SUCCESS && !Truthy(r.textContent), MsgSuccessNeedsText)
    + When(r.status == SUCCESS && Truthy(r.errorMessage), MsgSuccessHasError)
    + When(r.status == FAILED && !Truthy(r.errorMessage), MsgFailedNeedsError)
    + When(r.status == FAILED && Truthy(r.textContent), MsgFailedHasText)
  }

  /** The messages for the violated invariants, in the order
      `validate_extraction_result` checks them. */
  function ExtractionErrors(r: TextExtractionResult): seq<string> {
    StatusErrors(r)
    + When(r.extractionTimeSeconds < 0.0, MsgNegativeTime)
    + When(r.pageCount < 0, MsgNegativePages)
    + When(r.cleanTextLength > r.rawTextLength, MsgCleanExceedsRaw)
  }

  /** A result is not both SUCCESS and FAILED, so at most two status
      messages are listed, each exactly when its invariant is violated. */
  lemma StatusErrorsListViolations(r: TextExtractionResult)
    ensures |StatusErrors(r)| <= 2
    ensures StatusErrors(r) == [] <==>
      (r.status == SUCCESS ==> Truthy(r.textContent) && !Truthy(r.errorMessage))
      && (r.status == FAILED ==> Truthy(r.errorMessage) && !Truthy(r.textContent))
    ensures MsgSuccessNeedsText in StatusErrors(r) <==> r.status == SUCCESS && !Truthy(r.textContent)
    ensures MsgSuccessHasError in StatusErrors(r) <==> r.status == SUCCESS && Truthy(r.errorMessage)
    ensures MsgFailedNeedsError in StatusErrors(r) <==> r.status == FAILED && !Truthy(r.errorMessage)
    ensures MsgFailedHasText in StatusErrors(r) <==> r.status == FAILED && Truthy(r.textContent)
    ensures MsgNegativeTime !in StatusErrors(r) && MsgNegativePages !in StatusErrors(r)
    ensures MsgCleanExceedsRaw !in StatusErrors(r)
  {
    // The two messages of each status differ after the status word; the
    // others differ in their first characters.
    assert MsgSuccessNeedsText[15] == 'r' && MsgSuccessHasError[15] == 's';
    assert MsgFailedNeedsError[14] == 'r' && MsgFailedHasText[14] == 's';
    assert MsgSuccessNeedsText[0] == 'S' && MsgSuccessHasError[0] == 'S';
    assert MsgFailedNeedsError[0] == 'F' && MsgFailedHasText[0] == 'F';
    assert MsgNegativeTime[0] == 'e' && MsgNegativePages[0] == 'p' && MsgCleanExceedsRaw[0] == 'c';
  }

  /** Each message is listed exactly when its invariant is violated, the list
      is empty exactly when the result is consistent, and at most five
      messages are listed. */
  lemma ExtractionErrorsListViolations(r: TextExtractionResult)
    ensures ExtractionErrors(r) == [] <==> Consistent(r)
    ensures MsgSuccessNeedsText in ExtractionErrors(r) <==> r.status == SUCCESS && !Truthy(r.textContent)
    ensures MsgSuccessHasError in ExtractionErrors(r) <==> r.status == SUCCESS && Truthy(r.errorMessage)
    ensures MsgFailedNeedsError in ExtractionErrors(r) <==> r.status == FAILED && !Truthy(r.errorMessage)
    ensures MsgFailedHasText in ExtractionErrors(r) <==> r.status == FAILED && Truthy(r.textContent)
    ensures MsgNegativeTime in ExtractionErrors(r) <==> r.extractionTimeSeconds < 0.0
    ensures MsgNegativePages in ExtractionErrors(r) <==> r.pageCount < 0
    ensures MsgCleanExceedsRaw in ExtractionErrors(r) <==> r.cleanTextLength > r.rawTextLength
    ensures |ExtractionErrors(r)| <= 5
  {
    StatusErrorsListViolations(r);
    assert MsgNegativeTime[0] == 'e' && MsgNegativePages[0] == 'p' && MsgCleanExceedsRaw[0] == 'c';
    var l5 := StatusErrors(r) + When(r.extractionTimeSeconds < 0.0, MsgNegativeTime);
    assert MsgNegativePages !in l5 && MsgCleanExceedsRaw !in l5;
  }

  /** `validate_extraction_result`: one message per violated invariant, in
      the order the checks run. */
  method ValidateExtractionResult(r: TextExtractionResult) returns (errors: seq<string>)
    ensures errors == ExtractionErrors(r)
    ensures errors == [] <==> Consistent(r)
    ensures MsgSuccessNeedsText in errors <==> r.status == SUCCESS && !Truthy(r.textContent)
    ensures MsgSuccessHasError in errors <==> r.status == SUCCESS && Truthy(r.errorMessage)
    ensures MsgFailedNeedsError in errors <==> r.status == FAILED && !Truthy(r.errorMessage)
    ensures MsgFailedHasText in errors <==> r.status == FAILED && Truthy(r.textContent)
    ensures MsgNegativeTime in errors <==> r.extractionTimeSeconds < 0.0
    ensures MsgNegativePages in errors <==> r.pageCount < 0
    ensures MsgCleanExceedsRaw in errors <==> r.cleanTextLength > r.rawTextLength
    ensures |errors| <= 5
  {
    errors := [];
    if r.status == SUCCESS {
      if !Truthy(r.textContent) {
        errors := errors + [MsgSuccessNeedsText];
      }
      if Truthy(r.errorMessage) {
        errors := errors + [MsgSuccessHasError];
      }
    }
    ghost var e2 := When(r.status == SUCCESS && !Truthy(r.textContent), MsgSuccessNeedsText)
                    + When(r.status == SUCCESS && Truthy(r.errorMessage), MsgSuccessHasError);
    assert errors == e2;
    if r.status == FAILED {
      if !Truthy(r.errorMessage) {
        errors := errors + [MsgFailedNeedsError];
      }
      if Truthy(r.textContent) {
        errors := errors + [MsgFailedHasText];
      }
    }
    ghost var e4 := e2 + When(r.status == FAILED && !Truthy(r.errorMessage), MsgFailedNeedsError)
                    + When(r.status == FAILED && Truthy(r.textContent), MsgFailedHasText);
    assert errors == e4 == StatusErrors(r);
    if r.extractionTimeSeconds < 0.0 {
      errors := errors + [MsgNegativeTime];
    }
    ghost var e5 := e4 + When(r.extractionTimeSeconds < 0.0, MsgNegativeTime);
    assert errors == e5;
    if r.pageCount < 0 {
      errors := errors + [MsgNegativePages];
    }
    ghost var e6 := e5 + When(r.pageCount < 0, MsgNegativePages);
    assert errors == e6;
    if r.cleanTextLength > r.rawTextLength {
      errors := errors + [MsgCleanExceedsRaw];
    }
    ExtractionErrorsListViolations(r);
  }
}
