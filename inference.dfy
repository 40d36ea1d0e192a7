/** The request the service sends to the Azure AI Inference endpoint, the
    completion it gets back, and the configuration read at start-up. The
    network call itself is not modelled: the endpoint is a `Client`, a function
    from request to completion. */
module Inference {
  import opened Wrappers

  datatype Role = SystemRole | UserRole

  datatype ChatMessage = ChatMessage(role: Role, content: string)

  /** `client.complete(messages=..., model=..., max_tokens=...)`. */
  datatype Request = Request(messages: seq<ChatMessage>, model: string, maxTokens: nat)

  /** The content of `response.choices[0].message`, or the exception the call
      raised. */
  datatype Completion = Completed(content: string) | Failed(message: string)

  type Client = Request -> Completion

  /** The three environment values `function_app.py` reads at import time. */
  datatype Config = Config(endpoint: string, modelName: string, key: string)

  datatype StartupError = MissingCredentials

  const MaxTokens: nat := 500

  /** Python truthiness of `os.getenv(...)`: set and not empty. */
  predicate Present(value: Option<string>) {
    value.Some? && value.value != ""
  }

  /** Start-up: `ValueError` unless all three values are present. */
  function LoadConfig(endpoint: Option<string>, modelName: Option<string>, key: Option<string>)
    : (r: Result<Config, StartupError>)
    ensures r.Success? <==> Present(endpoint) && Present(modelName) && Present(key)
    ensures r.Success? ==>
      r.value.endpoint == endpoint.value && r.value.modelName == modelName.value && r.value.key == key.value
  {
    if !Present(endpoint) || !Present(key) || !Present(modelName) then Failure(MissingCredentials)
    else Success(Config(endpoint.value, modelName.value, key.value))
  }

  /** Every system message comes before every user message. */
  predicate SystemFirst(r: Request) {
    forall i, j ::
      (0 <= i < |r.messages| && 0 <= j < |r.messages|
       && r.messages[i].role == SystemRole && r.messages[j].role == UserRole) ==> i < j
  }

  /** The two-message prompt both handlers send: one system instruction, then
      the user's content, to the configured model with a 500-token cap. */
  function Prompt(cfg: Config, instruction: string, userContent: string): (r: Request)
    ensures |r.messages| == 2
    ensures r.messages[0] == ChatMessage(SystemRole, instruction)
    ensures r.messages[1] == ChatMessage(UserRole, userContent)
    ensures SystemFirst(r)
    ensures r.model == cfg.modelName && r.maxTokens == MaxTokens
    ensures forall i :: 0 <= i < |r.messages| && r.messages[i].role == UserRole ==>
      r.messages[i].content == userContent
  {
    Request([ChatMessage(SystemRole, instruction), ChatMessage(UserRole, userContent)], cfg.modelName, MaxTokens)
  }
}
