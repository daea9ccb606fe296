/** The configuration records of core/config.py and their validation: the
    element-extraction and AI-service guards, the text-extraction settings
    with their error-list validator, and the application log level. */
module Config {
  import opened Wrappers
  import opened Strings
  import opened Paths
  import opened Models
  import opened Seqs

  // ------------------------------------------------- ExtractionConfiguration

  datatype ExtractionConfiguration = ExtractionConfiguration(
    confidenceThreshold: real,
    elementTypes: seq<ElementType>,
    boundaryPadding: int,
    maxPages: Option<int>,
    outputDirectory: Path,
    overwriteExisting: bool)

  const AllElementTypes: seq<ElementType> := [FIGURE, TABLE, EQUATION]

  /** `ExtractionConfiguration.__post_init__`, checks in source order. The
      subset check cannot fail: every `ElementType` is one of the three. */
  function NewExtractionConfiguration(
    confidenceThreshold: real, elementTypes: seq<ElementType>, boundaryPadding: int,
    maxPages: Option<int>, outputDirectory: Path, overwriteExisting: bool
  ): (r: Result<ExtractionConfiguration>)
    ensures r.Ok? <==> 0.0 <= confidenceThreshold <= 1.0 && elementTypes != [] && boundaryPadding >= 0
                       && (maxPages.Some? ==> maxPages.value >= 1)
    ensures r.Ok? ==> r.value == ExtractionConfiguration(confidenceThreshold, elementTypes, boundaryPadding,
                                                         maxPages, outputDirectory, overwriteExisting)
    ensures r.Err? ==> r.kind == ValueError
  {
    if !(0.0 <= confidenceThreshold <= 1.0) then Err(ValueError, "confidence_threshold must be in range [0.0, 1.0]")
    else if elementTypes == [] then Err(ValueError, "element_types must not be empty")
    else if boundaryPadding < 0 then Err(ValueError, "boundary_padding must be >= 0")
    else if maxPages.Some? && maxPages.value < 1 then Err(ValueError, "max_pages must be > 0 if specified")
    else Ok(ExtractionConfiguration(confidenceThreshold, elementTypes, boundaryPadding, maxPages,
                                    outputDirectory, overwriteExisting))
  }

  const DefaultExtractionConfiguration :=
    ExtractionConfiguration(0.75, AllElementTypes, 5, None, Path(false, ["extracted"]), false)

  /** The dataclass defaults pass their own guard. */
  lemma DefaultExtractionConfigurationValid()
    ensures NewExtractionConfiguration(0.75, AllElementTypes, 5, None, Path(false, ["extracted"]), false)
            == Ok(DefaultExtractionConfiguration)
  {
  }

  // ------------------------------------------------- AIServiceConfiguration

  datatype AIServiceConfiguration = AIServiceConfiguration(
    defaultProvider: string,
    openaiApiKey: Option<string>,
    anthropicApiKey: Option<string>,
    ollamaBaseUrl: string,
    lmstudioBaseUrl: string,
    maxRetries: int,
    timeoutSeconds: int,
    rateLimits: map<string, int>)

  predicate KnownProvider(p: string) {
    p in {"openai", "anthropic", "ollama", "lmstudio"}
  }

  /** The providers that need an API key. */
  predicate CloudProvider(p: string) {
    p == "openai" || p == "anthropic"
  }

  /** The key `getattr(self, f"{provider}_api_key")` reads for a cloud provider. */
  function ApiKey(c: AIServiceConfiguration, provider: string): Option<string>
    requires CloudProvider(provider)
  {
    if provider == "openai" then c.openaiApiKey else c.anthropicApiKey
  }

  /** Python truthiness of an optional string. */
  predicate Present(o: Option<string>) {
    o.Some? && o.value != ""
  }

  /** A provider is usable: known, and keyed when it is a cloud provider. */
  predicate ProviderConfigured(c: AIServiceConfiguration, provider: string) {
    KnownProvider(provider) && (CloudProvider(provider) ==> Present(ApiKey(c, provider)))
  }

  /** `AIServiceConfiguration.__post_init__`, checks in source order. */
  function NewAIServiceConfiguration(c: AIServiceConfiguration): (r: Result<AIServiceConfiguration>)
    ensures r.Ok? <==> ProviderConfigured(c, c.defaultProvider) && c.maxRetries >= 0 && c.timeoutSeconds >= 1
    ensures r.Ok? ==> r.value == c
    ensures r.Err? ==> r.kind == ValueError
    ensures !KnownProvider(c.defaultProvider) ==> r.Err?
  {
    if !KnownProvider(c.defaultProvider) then Err(ValueError, "default_provider must be in " + "{'openai', 'anthropic', 'ollama', 'lmstudio'}")
    else if CloudProvider(c.defaultProvider) && !Present(ApiKey(c, c.defaultProvider)) then
      Err(ValueError, "API key required for default_provider '" + c.defaultProvider + "'")
    else if c.maxRetries < 0 then Err(ValueError, "max_retries must be >= 0")
    else if c.timeoutSeconds < 1 then Err(ValueError, "timeout_seconds must be > 0")
    else Ok(c)
  }

  /** `validate_provider`: True for a configured provider, ValueError otherwise. */
  function ValidateProvider(c: AIServiceConfiguration, provider: string): (r: Result<bool>)
    ensures r.Ok? <==> ProviderConfigured(c, provider)
    ensures r.Ok? ==> r.value
    ensures r.Err? ==> r.kind == ValueError
    ensures !KnownProvider(provider) ==> r == Err(ValueError, "Unknown provider: " + provider)
  {
    if !KnownProvider(provider) then Err(ValueError, "Unknown provider: " + provider)
    else if CloudProvider(provider) && !Present(ApiKey(c, provider)) then
      Err(ValueError, "API key required for provider '" + provider + "'")
    else Ok(true)
  }

  /** A configuration that passed its guard accepts its own default provider. */
  lemma DefaultProviderValidates(c: AIServiceConfiguration)
    requires NewAIServiceConfiguration(c).Ok?
    ensures ValidateProvider(c, c.defaultProvider) == Ok(true)
  {
  }

  const DefaultAIServiceConfiguration := AIServiceConfiguration(
    "ollama", None, None, "http://localhost:11434", "http://localhost:1234", 3, 60,
    map["openai" := 20, "anthropic" := 15, "ollama" := 100, "lmstudio" := 100])

  // --------------------------------------------------- TextExtractionConfig

  datatype TextExtractionConfig = TextExtractionConfig(
    enabled: bool,
    headerMargin: int,
    footerMargin: int,
    removeImageText: bool,
    removePageNumbers: bool,
    removeHeadersFooters: bool,
    minLineLength: int,
    maxTokens: Option<int>,
    reserveOutputFraction: real,
    truncationStrategy: string,
    timeoutSeconds: real,
    cacheExtractedText: bool)

  const DefaultTextExtractionConfig :=
    TextExtractionConfig(true, 50, 50, true, true, true, 3, None, 0.25, "end", 30.0, false)

  /** `available_input_fraction`: what the reserved output fraction leaves. */
  function AvailableInputFraction(c: TextExtractionConfig): (f: real)
    ensures f + c.reserveOutputFraction == 1.0
    ensures 0.0 < c.reserveOutputFraction < 1.0 ==> 0.0 < f < 1.0
  {
    1.0 - c.reserveOutputFraction
  }

  const MsgMargins := "Margins must be non-negative"
  const MsgReserve := "Reserve fraction must be between 0 and 1"
  const MsgStrategyPrefix := "Invalid truncation strategy: "
  const MsgTimeout := "Timeout must be positive"
  const MsgMinLine := "min_line_length must be non-negative"

  predicate KnownStrategy(s: string) {
    s in {"end", "middle", "priority_sections"}
  }

  /** Every rule `validate` checks, stated positively. */
  predicate ValidTextConfig(c: TextExtractionConfig) {
    && c.headerMargin >= 0 && c.footerMargin >= 0
    && 0.0 < c.reserveOutputFraction < 1.0
    && KnownStrategy(c.truncationStrategy)
    && c.timeoutSeconds > 0.0
    && c.minLineLength >= 0
  }

  /** The messages for the violated rules, in the order `validate` checks
      them. */
  function TextConfigErrors(c: TextExtractionConfig): seq<string> {
    When(c.headerMargin < 0 || c.footerMargin < 0, MsgMargins)
    + When(!(0.0 < c.reserveOutputFraction < 1.0), MsgReserve)
    + When(!KnownStrategy(c.truncationStrategy), MsgStrategyPrefix + c.truncationStrategy)
    + When(c.timeoutSeconds <= 0.0, MsgTimeout)
    + When(c.minLineLength < 0, MsgMinLine)
  }

  /** Each message is listed exactly when its rule is violated, and the list
      is empty exactly when every rule holds. */
  lemma TextConfigErrorsListViolations(c: TextExtractionConfig)
    ensures TextConfigErrors(c) == [] <==> ValidTextConfig(c)
    ensures MsgMargins in TextConfigErrors(c) <==> c.headerMargin < 0 || c.footerMargin < 0
    ensures MsgReserve in TextConfigErrors(c) <==> !(0.0 < c.reserveOutputFraction < 1.0)
    ensures MsgStrategyPrefix + c.truncationStrategy in TextConfigErrors(c) <==> !KnownStrategy(c.truncationStrategy)
    ensures MsgTimeout in TextConfigErrors(c) <==> c.timeoutSeconds <= 0.0
    ensures MsgMinLine in TextConfigErrors(c) <==> c.minLineLength < 0
    ensures |TextConfigErrors(c)| <= 5
  {
    var strategy := MsgStrategyPrefix + c.truncationStrategy;
    // The messages differ in their first characters (the strategy message
    // starts with "Invalid", the last one with a lower-case letter).
    assert strategy[0] == 'I' && MsgMargins[0] == 'M' && MsgReserve[0] == 'R';
    assert MsgTimeout[0] == 'T' && MsgMinLine[0] == 'm';
    FiveRules(c.headerMargin < 0 || c.footerMargin < 0, MsgMargins,
              !(0.0 < c.reserveOutputFraction < 1.0), MsgReserve,
              !KnownStrategy(c.truncationStrategy), strategy,
              c.timeoutSeconds <= 0.0, MsgTimeout,
              c.minLineLength < 0, MsgMinLine);
  }

  /** `TextExtractionConfig.validate`: one message per violated rule, in
      source order; the violations accumulate. */
  method Validate(c: TextExtractionConfig) returns (errors: seq<string>)
    ensures errors == TextConfigErrors(c)
    ensures errors == [] <==> ValidTextConfig(c)
    ensures MsgMargins in errors <==> c.headerMargin < 0 || c.footerMargin < 0
    ensures MsgReserve in errors <==> !(0.0 < c.reserveOutputFraction < 1.0)
    ensures MsgStrategyPrefix + c.truncationStrategy in errors <==> !KnownStrategy(c.truncationStrategy)
    ensures MsgTimeout in errors <==> c.timeoutSeconds <= 0.0
    ensures MsgMinLine in errors <==> c.minLineLength < 0
    ensures |errors| <= 5
  {
    errors := [];
    if c.headerMargin < 0 || c.footerMargin < 0 {
      errors := errors + [MsgMargins];
    }
    ghost var e1 := When(c.headerMargin < 0 || c.footerMargin < 0, MsgMargins);
    assert errors == e1;
    if !(0.0 < c.reserveOutputFraction < 1.0) {
      errors := errors + [MsgReserve];
    }
    ghost var e2 := e1 + When(!(0.0 < c.reserveOutputFraction < 1.0), MsgReserve);
    assert errors == e2;
    if !KnownStrategy(c.truncationStrategy) {
      errors := errors + [MsgStrategyPrefix + c.truncationStrategy];
    }
    ghost var e3 := e2 + When(!KnownStrategy(c.truncationStrategy), MsgStrategyPrefix + c.truncationStrategy);
    assert errors == e3;
    if c.timeoutSeconds <= 0.0 {
      errors := errors + [MsgTimeout];
    }
    ghost var e4 := e3 + When(c.timeoutSeconds <= 0.0, MsgTimeout);
    assert errors == e4;
    if c.minLineLength < 0 {
      errors := errors + [MsgMinLine];
    }
    TextConfigErrorsListViolations(c);
  }

  /** The defaults satisfy every rule, so `validate` reports nothing for them. */
  lemma DefaultTextConfigValid()
    ensures ValidTextConfig(DefaultTextExtractionConfig)
    ensures AvailableInputFraction(DefaultTextExtractionConfig) == 0.75
  {
  }

  // ------------------------------------------------------- AppConfiguration

  datatype AppConfiguration = AppConfiguration(
    aiServices: AIServiceConfiguration,
    promptLibraryPath: Path,
    defaultPrompt: string,
    defaultTheme: string,
    outputDirectory: Path,
    logLevel: string,
    extractionConfig: ExtractionConfiguration,
    textExtraction: TextExtractionConfig)

  predicate KnownLogLevel(level: string) {
    level in {"DEBUG", "INFO", "WARNING", "ERROR", "CRITICAL"}
  }

  /** The log-level part of `AppConfiguration.__post_init__`: accepted
      whatever its case, and stored upper-cased. */
  function NormalizeLogLevel(level: string): (r: Result<string>)
    ensures r.Ok? <==> KnownLogLevel(Upper(level))
    ensures r.Ok? ==> KnownLogLevel(r.value) && |r.value| == |level| && EqualsIgnoreCase(r.value, level)
    ensures r.Err? ==> r.kind == ValueError
  {
    var up := Upper(level);
    if !KnownLogLevel(up) then Err(ValueError, "log_level must be in " + "{'DEBUG', 'INFO', 'WARNING', 'ERROR', 'CRITICAL'}")
    else
      UpperLowerAgree(level);
      Ok(up)
  }

  /** Upper-casing does not change what a case-insensitive comparison sees. */
  lemma UpperLowerAgree(s: string)
    ensures Lower(Upper(s)) == Lower(s)
  {
    assert forall i | 0 <= i < |s| :: LowerChar(UpperChar(s[i])) == LowerChar(s[i]);
  }

  /** Normalising an accepted level again changes nothing, and two spellings
      that differ only in case are treated alike. */
  lemma {:induction false} NormalizeLogLevelStable(a: string, b: string)
    requires NormalizeLogLevel(a).Ok?
    requires EqualsIgnoreCase(a, b)
    ensures NormalizeLogLevel(NormalizeLogLevel(a).value) == NormalizeLogLevel(a)
    ensures NormalizeLogLevel(b) == NormalizeLogLevel(a)
  {
    UpperOfLowerEqual(a, b);
    UpperIdempotent(a);
  }

  lemma UpperIdempotent(s: string)
    ensures Upper(Upper(s)) == Upper(s)
  {
    assert forall i | 0 <= i < |s| :: UpperChar(UpperChar(s[i])) == UpperChar(s[i]);
  }

  /** Strings with the same lower case have the same upper case. */
  lemma UpperOfLowerEqual(a: string, b: string)
    requires Lower(a) == Lower(b)
    ensures Upper(a) == Upper(b)
  {
    forall i | 0 <= i < |a| ensures UpperChar(a[i]) == UpperChar(b[i]) {
      assert LowerChar(a[i]) == LowerChar(b[i]);
    }
  }

  /** `AppConfiguration.__post_init__` apart from the home-directory
      expansion of its two paths. */
  function NewAppConfiguration(c: AppConfiguration): (r: Result<AppConfiguration>)
    ensures r.Ok? <==> KnownLogLevel(Upper(c.logLevel))
    ensures r.Ok? ==> r.value == c.(logLevel := Upper(c.logLevel)) && KnownLogLevel(r.value.logLevel)
  {
    match NormalizeLogLevel(c.logLevel)
    case Ok(level) => Ok(c.(logLevel := level))
    case Err(k, m) => Err(k, m)
  }

  const DefaultAppConfiguration := AppConfiguration(
    DefaultAIServiceConfiguration, Path(false, ["~", ".paperdeck", "prompts"]), "default", "Madrid",
    Path(false, ["paperdeck_output"]), "INFO", DefaultExtractionConfiguration, DefaultTextExtractionConfig)
}
