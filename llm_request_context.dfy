/** The context sent to a language model for one presentation
    (models/llm_request_context.py): the token estimate, the context-window
    check and the validator that lists every violated rule. */
module LlmRequestContext {
  import opened Wrappers
  import opened Strings
  import opened Seqs
  import ExtractionResult

  datatype LLMRequestContext = LLMRequestContext(
    paperTitle: Option<string>,
    paperAuthors: seq<string>,
    paperAbstract: Option<string>,
    paperText: Option<string>,
    paperTextTokenCount: Option<int>,
    promptTemplate: string,
    beamerTheme: string,
    maxSlides: Option<int>,
    figureCount: int,
    tableCount: int,
    equationCount: int,
    maxContextTokens: int,
    reservedOutputTokens: int,
    availableInputTokens: int)

  /** The fixed estimates for the metadata and the prompt. */
  const MetadataTokens := 100
  const PromptTokens := 200

  /** `includes_full_text`: the text is present and non-empty. */
  function IncludesFullText(c: LLMRequestContext): (b: bool)
    ensures b <==> ExtractionResult.Truthy(c.paperText)
  {
    c.paperText.Some? && |c.paperText.value| > 0
  }

  /** `total_input_tokens`: the fixed overhead plus the text's token count,
      a missing count counting as zero. */
  function TotalInputTokens(c: LLMRequestContext): (n: int)
    ensures c.paperTextTokenCount.None? ==> n == 300
    ensures c.paperTextTokenCount.Some? ==> n - c.paperTextTokenCount.value == 300
    ensures c.paperTextTokenCount.Some? && c.paperTextTokenCount.value >= 0 ==> n >= 300
  {
    MetadataTokens + PromptTokens + c.paperTextTokenCount.GetOr(0)
  }

  /** `is_within_context_limit`. */
  function IsWithinContextLimit(c: LLMRequestContext): (b: bool)
    ensures b <==> c.paperTextTokenCount.GetOr(0) + 300 <= c.availableInputTokens
  {
    TotalInputTokens(c) <= c.availableInputTokens
  }

  const MsgReservedPositive := "reserved_output_tokens must be positive"
  // The longer messages are written in two pieces so that the verifier can
  // read their first characters.
  const MsgReservedExceeds := "reserved_output_tokens " + "cannot exceed max_context_tokens"
  const MsgNoContent := "Either paper_title " + "or paper_text must be provided"

  function MismatchMessage(c: LLMRequestContext): (m: string)
    ensures m != [] && m[0] == 'a'
  {
    var head := "available_input_tokens " + "mismatch: expected ";
    var m := head + (IntToString(c.maxContextTokens - c.reservedOutputTokens)
                     + ", got " + IntToString(c.availableInputTokens));
    assert m[0] == head[0];
    m
  }

  function OverLimitMessage(c: LLMRequestContext): (m: string)
    ensures m != [] && m[0] == 'I'
  {
    var head := "Input tokens (";
    var m := head + (IntToString(TotalInputTokens(c)) + ") exceed available ("
                     + IntToString(c.availableInputTokens) + ")");
    assert m[0] == head[0];
    m
  }

  /** The five messages are told apart by one character each. */
  lemma MessagesDistinct(mismatch: string, overLimit: string)
    requires mismatch != [] && mismatch[0] == 'a' && overLimit != [] && overLimit[0] == 'I'
    ensures mismatch != MsgReservedPositive && mismatch != MsgReservedExceeds && mismatch != MsgNoContent
    ensures overLimit != MsgReservedPositive && overLimit != MsgReservedExceeds && overLimit != MsgNoContent
    ensures overLimit != mismatch && MsgReservedPositive != MsgNoContent && MsgReservedExceeds != MsgNoContent
    ensures MsgReservedPositive != MsgReservedExceeds
  {
    assert MsgReservedPositive[23] != MsgReservedExceeds[23];
    assert MsgReservedPositive[0] == 'r' && MsgReservedExceeds[0] == 'r' && MsgNoContent[0] == 'E';
  }

  /** Every rule the validator checks, stated positively. */
  predicate ValidContext(c: LLMRequestContext) {
    && c.reservedOutputTokens > 0
    && c.reservedOutputTokens < c.maxContextTokens
    && c.availableInputTokens == c.maxContextTokens - c.reservedOutputTokens
    && IsWithinContextLimit(c)
    && (ExtractionResult.Truthy(c.paperTitle) || ExtractionResult.Truthy(c.paperText))
  }

  /** The messages for the violated rules, in the order the checks run. */
  function Errors(c: LLMRequestContext): seq<string> {
    When(c.reservedOutputTokens <= 0, MsgReservedPositive)
    + When(c.reservedOutputTokens >= c.maxContextTokens, MsgReservedExceeds)
    + When(c.availableInputTokens != c.maxContextTokens - c.reservedOutputTokens, MismatchMessage(c))
    + When(!IsWithinContextLimit(c), OverLimitMessage(c))
    + When(!ExtractionResult.Truthy(c.paperTitle) && !ExtractionResult.Truthy(c.paperText), MsgNoContent)
  }

  /** Each message is listed exactly when its rule is violated, and the list
      is empty exactly when every rule holds. */
  lemma ErrorsListViolations(c: LLMRequestContext)
    ensures Errors(c) == [] <==> ValidContext(c)
    ensures MsgReservedPositive in Errors(c) <==> c.reservedOutputTokens <= 0
    ensures MsgReservedExceeds in Errors(c) <==> c.reservedOutputTokens >= c.maxContextTokens
    ensures MismatchMessage(c) in Errors(c) <==> c.availableInputTokens != c.maxContextTokens - c.reservedOutputTokens
    ensures OverLimitMessage(c) in Errors(c) <==> !IsWithinContextLimit(c)
    ensures MsgNoContent in Errors(c) <==> !ExtractionResult.Truthy(c.paperTitle) && !ExtractionResult.Truthy(c.paperText)
    ensures |Errors(c)| <= 5
  {
    var mismatch, overLimit := MismatchMessage(c), OverLimitMessage(c);
    MessagesDistinct(mismatch, overLimit);
    FiveRules(c.reservedOutputTokens <= 0, MsgReservedPositive,
              c.reservedOutputTokens >= c.maxContextTokens, MsgReservedExceeds,
              c.availableInputTokens != c.maxContextTokens - c.reservedOutputTokens, mismatch,
              !IsWithinContextLimit(c), overLimit,
              !ExtractionResult.Truthy(c.paperTitle) && !ExtractionResult.Truthy(c.paperText), MsgNoContent);
  }

  /** `validate_llm_request_context`: one message per violated rule, in
      source order; the violations accumulate. */
  method ValidateLlmRequestContext(c: LLMRequestContext) returns (errors: seq<string>)
    ensures errors == Errors(c)
    ensures errors == [] <==> ValidContext(c)
    ensures MsgReservedPositive in errors <==> c.reservedOutputTokens <= 0
    ensures MsgReservedExceeds in errors <==> c.reservedOutputTokens >= c.maxContextTokens
    ensures MismatchMessage(c) in errors <==> c.availableInputTokens != c.maxContextTokens - c.reservedOutputTokens
    ensures OverLimitMessage(c) in errors <==> !IsWithinContextLimit(c)
    ensures MsgNoContent in errors <==> !ExtractionResult.Truthy(c.paperTitle) && !ExtractionResult.Truthy(c.paperText)
  {
    errors := [];
    if c.reservedOutputTokens <= 0 {
      errors := errors + [MsgReservedPositive];
    }
    ghost var e1 := When(c.reservedOutputTokens <= 0, MsgReservedPositive);
    assert errors == e1;
    if c.reservedOutputTokens >= c.maxContextTokens {
      errors := errors + [MsgReservedExceeds];
    }
    ghost var e2 := e1 + When(c.reservedOutputTokens >= c.maxContextTokens, MsgReservedExceeds);
    assert errors == e2;
    var expectedAvailable := c.maxContextTokens - c.reservedOutputTokens;
    if c.availableInputTokens != expectedAvailable {
      errors := errors + [MismatchMessage(c)];
    }
    ghost var e3 := e2 + When(c.availableInputTokens != expectedAvailable, MismatchMessage(c));
    assert errors == e3;
    if !IsWithinContextLimit(c) {
      errors := errors + [OverLimitMessage(c)];
    }
    ghost var e4 := e3 + When(!IsWithinContextLimit(c), OverLimitMessage(c));
    assert errors == e4;
    if !(c.paperTitle.Some? && |c.paperTitle.value| > 0) && !(c.paperText.Some? && |c.paperText.value| > 0) {
      errors := errors + [MsgNoContent];
    }
    ErrorsListViolations(c);
  }

  /** A context whose window arithmetic is consistent, whose text fits and
      which names its paper passes validation. */
  lemma ConsistentContextValid(c: LLMRequestContext)
    requires 0 < c.reservedOutputTokens < c.maxContextTokens
    requires c.availableInputTokens == c.maxContextTokens - c.reservedOutputTokens
    requires c.paperTextTokenCount.GetOr(0) + 300 <= c.availableInputTokens
    requires c.paperTitle.Some? && c.paperTitle.value != ""
    ensures ValidContext(c)
  {
  }
}
