/** Requests and answers of the two POST endpoints on concrete inputs, with
    the model's answer fixed by a precondition on the client. */
module HandlerExamples {
  import opened Wrappers
  import opened Text
  import opened Errors
  import opened Extractor
  import opened Inference
  import opened Sanitizer
  import opened SanitizerExamples
  import opened Handlers

  /** `{"message": ""}` is refused with 400. */
  lemma {:induction false} EmptyChatMessage(cfg: Config, client: Client)
    ensures Chat(cfg, Str(""), client) == Failure(HttpException(400, EmptyMessage))
  {
    BlankMessageIs400(cfg, Str(""), client);
  }

  /** `{"message": "Hello"}` with the model answering `Hi there`. */
  lemma {:induction false} HelloChat(cfg: Config, client: Client)
    requires client(ChatRequest(cfg, "Hello")) == Completed("Hi there")
    ensures Chat(cfg, Str("Hello"), client) == Success(ChatBody("Hi there"))
  {
    assert !IsSpace("Hello"[0]);
    TrimKeeps("Hello");
    TrimKeeps("Hi there");
    ChatReplyTrimmed(cfg, "Hello", client, "Hi there");
  }

  /** The chat reply keeps a `<think>` span that the summary would lose. */
  lemma {:induction false} ChatReplyKeepsReasoning(cfg: Config, client: Client)
    requires client(ChatRequest(cfg, "Hello")) == Completed("<think>why</think>Hi")
    ensures Chat(cfg, Str("Hello"), client) == Success(ChatBody("<think>why</think>Hi"))
    ensures Sanitize("<think>why</think>Hi") == "Hi"
  {
    var raw := "<think>why</think>Hi";
    assert !IsSpace("Hello"[0]);
    TrimKeeps("Hello");
    assert raw[0] == '<' && raw[|raw| - 1] == 'i';
    TrimKeeps(raw);
    ChatReplyTrimmed(cfg, "Hello", client, raw);
    ReasoningDropped("<think>why</think>Hi");
  }

  lemma {:induction false} TxtExtension()
    ensures Extension("notes.txt") == "txt"
  {
    assert "notes.txt" == "notes" + "." + "txt";
    ExtensionAfterLastDot("notes", "txt");
    assert Lower("txt") == "txt";
  }

  lemma {:induction false} XyzExtension()
    ensures Extension("report.xyz") == "xyz"
  {
    assert "report.xyz" == "report" + "." + "xyz";
    ExtensionAfterLastDot("report", "xyz");
    assert Lower("xyz") == "xyz";
  }

  /** A `.txt` upload reading `hello world`, with the model's reasoning
      removed from the summary. */
  lemma {:induction false} TxtSummary(cfg: Config, content: Bytes, parsers: Parsers, client: Client)
    requires parsers.decodeUtf8(content) == Success("hello world")
    requires client(SummaryRequest(cfg, "hello world")) == Completed("<think>why</think>Hi")
    ensures ProcessFile(cfg, Upload("notes.txt", content), parsers, client) == Success(SummaryBody("Hi"))
  {
    var u := Upload("notes.txt", content);
    TxtExtension();
    TxtText(u, parsers, "hello world");
    ReasoningDropped("<think>why</think>Hi");
    SummaryOutcome(cfg, u, parsers, client, "hello world");
  }

  /** `report.xyz` gets 500, not 400: the refusal is wrapped by the
      extractor's own catch-all. */
  lemma {:induction false} XyzUpload(cfg: Config, content: Bytes, parsers: Parsers, client: Client)
    ensures ProcessFile(cfg, Upload("report.xyz", content), parsers, client)
      == Failure(HttpException(500, ExtractionFailed(HttpException(400, UnsupportedFormat))))
  {
    XyzExtension();
    UnsupportedFileIs500(cfg, Upload("report.xyz", content), parsers, client);
  }
}
