/** The two POST handlers of `function_app.py`, `process_file` and
    `chat_with_ai`, as functions from their input and the inference endpoint
    to the response FastAPI sends: a JSON body with status 200, or the
    `HTTPException` the handler raises. */
module Handlers {
  import opened Wrappers
  import opened Text
  import opened Errors
  import opened Extractor
  import opened Inference
  import opened Sanitizer

  /** `{"summary": ...}` or `{"response": ...}`. */
  datatype Body = SummaryBody(summary: string) | ChatBody(response: string)

  type Response = Result<Body, Exc>

  /** The status code FastAPI answers with. */
  function Status(r: Response): int {
    match r
    case Success(_) => 200
    case Failure(HttpException(status, _)) => status
    case Failure(_) => 500
  }

  datatype Route = ProcessFileRoute | ChatRoute

  /** The handlers' `except HTTPException: raise` followed by
      `except Exception as e: raise HTTPException(500, ...)`. */
  function Reraise(route: Route, r: Response): (out: Response)
    ensures out.Failure? ==> out.error.HttpException?
    ensures r.Success? || r.error.HttpException? ==> out == r
    ensures r.Failure? && !r.error.HttpException? ==>
      out == Failure(HttpException(500, if route == ProcessFileRoute then ProcessingFailed(r.error) else ChatFailed(r.error)))
  {
    match r
    case Success(_) => r
    case Failure(HttpException(_, _)) => r
    case Failure(e) =>
      Failure(HttpException(500, match route case ProcessFileRoute => ProcessingFailed(e) case ChatRoute => ChatFailed(e)))
  }

  const SummaryInstruction: string := "You are a helpful assistant. Summarize the text provided."
  const SummaryPrefix: string := "Resumen del texto: "
  const ChatInstruction: string := "You are a helpful AI assistant."

  function SummaryRequest(cfg: Config, text: string): Request {
    Prompt(cfg, SummaryInstruction, SummaryPrefix + text)
  }

  /** The `try` block of `process_file`. */
  function ProcessFileTry(cfg: Config, u: Upload, parsers: Parsers, client: Client): (r: Response)
    ensures r.Failure? && r.error.HttpException? ==> r.error.status == 500
    ensures r.Success? ==> r.value.SummaryBody? && r.value.summary != []
    ensures r.Success? ==> !IsSpace(r.value.summary[0]) && !IsSpace(r.value.summary[|r.value.summary| - 1])
  {
    var extracted := ExtractText(u, parsers);
    if extracted.Failure? then Failure(extracted.error)
    else
      match client(SummaryRequest(cfg, extracted.value))
      case Failed(m) => Failure(InferenceError(m))
      case Completed(raw) =>
        var summary := Sanitize(raw);
        if summary == [] then Failure(HttpException(500, EmptySummary))
        else Success(SummaryBody(summary))
  }

  /** `POST /process-file/`. Every failure is an `HTTPException` with status
      500: the 400 for an unsupported format never reaches the caller. */
  function ProcessFile(cfg: Config, u: Upload, parsers: Parsers, client: Client): (r: Response)
    ensures r.Failure? ==> r.error.HttpException? && Status(r) == 500
    ensures r.Success? ==> r.value.SummaryBody? && r.value.summary != []
    ensures r.Success? ==> !IsSpace(r.value.summary[0]) && !IsSpace(r.value.summary[|r.value.summary| - 1])
  {
    Reraise(ProcessFileRoute, ProcessFileTry(cfg, u, parsers, client))
  }

  /** The `message` field of the JSON object `/chat` receives. */
  datatype MessageField = Absent | Str(value: string) | NotText

  function ChatRequest(cfg: Config, message: string): Request {
    Prompt(cfg, ChatInstruction, message)
  }

  /** The `try` block of `chat_with_ai`: `user_input.get("message", "")`,
      whose `.strip()` raises unless the value is a string. */
  function ChatTry(cfg: Config, field: MessageField, client: Client): (r: Response)
    ensures r.Failure? && r.error.HttpException? ==> r.error.status == 400
    ensures r.Success? ==> r.value.ChatBody?
  {
    match field
    case NotText => Failure(AttributeError)
    case Absent => Converse(cfg, "", client)
    case Str(given) => Converse(cfg, given, client)
  }

  /** The rest of the `try` block: refuse a blank message, otherwise ask the
      model and trim its answer. */
  function Converse(cfg: Config, given: string, client: Client): (r: Response)
    ensures r.Failure? && r.error.HttpException? ==> r.error.status == 400
    ensures r.Success? ==> r.value.ChatBody?
  {
    var message := Trim(given);
    if message == [] then Failure(HttpException(400, EmptyMessage))
    else
      match client(ChatRequest(cfg, message))
      case Failed(m) => Failure(InferenceError(m))
      case Completed(raw) => Success(ChatBody(Trim(raw)))
  }

  /** `POST /chat`. */
  function Chat(cfg: Config, field: MessageField, client: Client): (r: Response)
    ensures r.Failure? ==> r.error.HttpException? && (Status(r) == 400 || Status(r) == 500)
    ensures r.Success? ==> r.value.ChatBody?
  {
    Reraise(ChatRoute, ChatTry(cfg, field, client))
  }

  // ---------------------------------------------------------------------
  // process_file

  /** An unsupported extension gives 500, with the 400 as its cause, and the
      model is not asked. */
  lemma {:induction false} UnsupportedFileIs500(cfg: Config, u: Upload, parsers: Parsers, client: Client)
    requires Extension(u.filename) !in {"pdf", "docx", "txt"}
    ensures ProcessFile(cfg, u, parsers, client)
      == Failure(HttpException(500, ExtractionFailed(HttpException(400, UnsupportedFormat))))
  {
    UnsupportedIs500(u, parsers);
  }

  /** A failed extraction is passed through exactly as `extract_text_from_file`
      raised it, whatever the model would have answered. */
  lemma {:induction false} ExtractionErrorPassedThrough(cfg: Config, u: Upload, parsers: Parsers, c1: Client, c2: Client)
    requires ExtractText(u, parsers).Failure?
    ensures ProcessFile(cfg, u, parsers, c1) == Failure(ExtractText(u, parsers).error)
    ensures ProcessFile(cfg, u, parsers, c1) == ProcessFile(cfg, u, parsers, c2)
  {
  }

  /** Once the text is extracted: the summary request embeds it, a failed call
      gives 500, an empty clean-up gives 500, and otherwise the summary is
      exactly the cleaned-up completion. */
  lemma {:induction false} SummaryOutcome(cfg: Config, u: Upload, parsers: Parsers, client: Client, text: string)
    requires ExtractText(u, parsers) == Success(text)
    ensures SummaryRequest(cfg, text).messages[1] == ChatMessage(UserRole, SummaryPrefix + text)
    ensures client(SummaryRequest(cfg, text)).Failed? ==>
      ProcessFile(cfg, u, parsers, client)
        == Failure(HttpException(500, ProcessingFailed(InferenceError(client(SummaryRequest(cfg, text)).message))))
    ensures client(SummaryRequest(cfg, text)).Completed? ==>
      var summary := Sanitize(client(SummaryRequest(cfg, text)).content);
      ProcessFile(cfg, u, parsers, client)
        == if summary == [] then Failure(HttpException(500, EmptySummary)) else Success(SummaryBody(summary))
  {
    match client(SummaryRequest(cfg, text))
    case Failed(m) =>
      assert ProcessFileTry(cfg, u, parsers, client) == Failure(InferenceError(m));
    case Completed(raw) =>
      var summary := Sanitize(raw);
      assert ProcessFileTry(cfg, u, parsers, client)
        == if summary == [] then Failure(HttpException(500, EmptySummary)) else Success(SummaryBody(summary));
  }

  /** 200 exactly when text is extracted, the model answers, and something is
      left after the clean-up. */
  lemma {:induction false} ProcessFileSucceedsIff(cfg: Config, u: Upload, parsers: Parsers, client: Client)
    ensures ProcessFile(cfg, u, parsers, client).Success? <==>
      ExtractText(u, parsers).Success?
      && client(SummaryRequest(cfg, ExtractText(u, parsers).value)).Completed?
      && Sanitize(client(SummaryRequest(cfg, ExtractText(u, parsers).value)).content) != []
  {
  }

  // ---------------------------------------------------------------------
  // chat_with_ai

  /** A missing, empty or all-whitespace message gives 400 and the model is
      not asked. */
  lemma {:induction false} BlankMessageIs400(cfg: Config, field: MessageField, client: Client)
    requires field.Absent? || (field.Str? && AllSpace(field.value))
    ensures Chat(cfg, field, client) == Failure(HttpException(400, EmptyMessage))
  {
    var given := if field.Str? then field.value else "";
    TrimEmptyIff(given);
    assert Converse(cfg, given, client) == Failure(HttpException(400, EmptyMessage));
  }

  /** A `message` that is not a string makes `.strip()` raise, which the
      catch-all turns into a 500. */
  lemma {:induction false} NonStringMessageIs500(cfg: Config, client: Client)
    ensures Chat(cfg, NotText, client) == Failure(HttpException(500, ChatFailed(AttributeError)))
  {
  }

  /** Otherwise the trimmed message is the user content of the request. */
  lemma {:induction false} ChatRequestCarriesMessage(cfg: Config, message: string)
    requires !AllSpace(message)
    ensures Trim(message) != []
    ensures ChatRequest(cfg, Trim(message)).messages[1] == ChatMessage(UserRole, Trim(message))
  {
    TrimEmptyIff(message);
  }

  /** A failed call to the model gives 500. */
  lemma {:induction false} ChatModelFailureIs500(cfg: Config, message: string, client: Client, m: string)
    requires !AllSpace(message)
    requires client(ChatRequest(cfg, Trim(message))) == Failed(m)
    ensures Chat(cfg, Str(message), client) == Failure(HttpException(500, ChatFailed(InferenceError(m))))
  {
    ConverseAsks(cfg, message, client);
    ChatOfText(cfg, message, client);
  }

  /** The reply is the completion trimmed and nothing more: no `<think>` span
      is removed. */
  lemma {:induction false} ChatReplyTrimmed(cfg: Config, message: string, client: Client, raw: string)
    requires !AllSpace(message)
    requires client(ChatRequest(cfg, Trim(message))) == Completed(raw)
    ensures Chat(cfg, Str(message), client) == Success(ChatBody(Trim(raw)))
  {
    ConverseAsks(cfg, message, client);
    ChatOfText(cfg, message, client);
  }

  /** A message that is not blank is put to the model. */
  lemma {:induction false} ConverseAsks(cfg: Config, message: string, client: Client)
    requires !AllSpace(message)
    ensures Converse(cfg, message, client)
      == match client(ChatRequest(cfg, Trim(message)))
         case Failed(m) => Failure(InferenceError(m))
         case Completed(raw) => Success(ChatBody(Trim(raw)))
  {
    TrimEmptyIff(message);
  }

  /** A string `message` goes straight to the validation and the call. */
  lemma {:induction false} ChatOfText(cfg: Config, message: string, client: Client)
    ensures Chat(cfg, Str(message), client) == Reraise(ChatRoute, Converse(cfg, message, client))
  {
  }
}
