/** The request and response records every AI provider exchanges
    (ai/service.py) and the checks their constructors make. */
module AIService {
  import opened Wrappers

  datatype AIRequest = AIRequest(
    prompt: string,
    model: string,
    maxTokens: int,
    temperature: real,
    systemInstructions: Option<string>)

  const DefaultMaxTokens := 4096
  const DefaultTemperature := 0.7
  /** The largest output a request may ask for. */
  const MaxOutputTokens := 128000

  /** What `AIRequest.__post_init__` admits. */
  predicate ValidRequest(r: AIRequest) {
    r.prompt != "" && 1 <= r.maxTokens <= MaxOutputTokens && 0.0 <= r.temperature <= 2.0
  }

  /** `AIRequest(...)`: the prompt, then the token bounds, then the
      temperature range; the first violated rule raises ValueError. */
  function NewAIRequest(prompt: string, model: string, maxTokens: int, temperature: real,
                        systemInstructions: Option<string>): (r: Result<AIRequest>)
    ensures r.Ok? <==> prompt != "" && 1 <= maxTokens <= 128000 && 0.0 <= temperature <= 2.0
    ensures r.Ok? ==> ValidRequest(r.value)
                      && r.value == AIRequest(prompt, model, maxTokens, temperature, systemInstructions)
    ensures r.Err? ==> r.kind == ValueError
    ensures prompt == "" ==> r.message == "prompt must not be empty"
    ensures prompt != "" && maxTokens < 1 ==> r.message == "max_tokens must be > 0"
    ensures prompt != "" && maxTokens > 128000 ==> r.message == "max_tokens must be <= 128000"
    ensures prompt != "" && 1 <= maxTokens <= 128000 && !(0.0 <= temperature <= 2.0) ==>
              r.message == "temperature must be in range [0.0, 2.0]"
  {
    if prompt == [] then Err(ValueError, "prompt must not be empty")
    else if maxTokens < 1 then Err(ValueError, "max_tokens must be > 0")
    else if maxTokens > MaxOutputTokens then Err(ValueError, "max_tokens must be <= 128000")
    else if !(0.0 <= temperature && temperature <= 2.0) then
      Err(ValueError, "temperature must be in range [0.0, 2.0]")
    else Ok(AIRequest(prompt, model, maxTokens, temperature, systemInstructions))
  }

  /** A request built from a prompt and a model alone takes the defaults,
      which pass every check. */
  function DefaultRequest(prompt: string, model: string): (r: Result<AIRequest>)
    ensures r.Ok? <==> prompt != ""
    ensures r.Ok? ==> r.value.maxTokens == 4096 && r.value.temperature == 0.7
                      && r.value.systemInstructions == None
  {
    NewAIRequest(prompt, model, DefaultMaxTokens, DefaultTemperature, None)
  }

  /** The check is only about the fields' values: a valid request rebuilt
      from its own fields is accepted unchanged. */
  lemma RequestRoundTrip(r: AIRequest)
    requires ValidRequest(r)
    ensures NewAIRequest(r.prompt, r.model, r.maxTokens, r.temperature, r.systemInstructions) == Ok(r)
  {
  }

  /** The provider's answer; `metadata` (a dictionary of arbitrary values)
      is not modelled. */
  datatype AIResponse = AIResponse(
    content: string,
    model: string,
    tokensUsed: Option<int>,
    finishReason: Option<string>)

  /** `AIResponse.__post_init__`: a response carries content. */
  function NewAIResponse(content: string, model: string, tokensUsed: Option<int>,
                         finishReason: Option<string>): (r: Result<AIResponse>)
    ensures r.Ok? <==> content != ""
    ensures r.Ok? ==> r.value == AIResponse(content, model, tokensUsed, finishReason)
    ensures r.Err? ==> r == Err(ValueError, "content must not be empty for successful responses")
  {
    if content == [] then Err(ValueError, "content must not be empty for successful responses")
    else Ok(AIResponse(content, model, tokensUsed, finishReason))
  }
}
