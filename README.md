# DeepSeek document summariser and chat: a Dafny model

`deepseek_function/function_app.py` is an Azure Functions app built on FastAPI.
It exposes two POST endpoints in front of an Azure AI Inference chat model:

- `POST /process-file/` takes an uploaded PDF, DOCX or TXT file and extracts its text. It asks the model for a summary, removes, in one left-to-right pass, each `<think>` up to the nearest `</think>` after it, and returns `{"summary": …}`.
- `POST /chat` takes `{"message": …}`, forwards the trimmed message to the model, and returns `{"response": …}` with the answer trimmed.

This project models the pure core of that file, as functions over values:

- `Extractor` covers `extract_text_from_file`. It chooses the format by the extension, builds the text by joining pages or paragraphs with spaces, and has its own catch-all that turns every error into a 500.
- `Sanitizer` covers the clean-up of the summary. The `re.sub` with a non-greedy `DOTALL` pattern is written out as the scan the `re` module performs.
- `Handlers` covers the two endpoints. This includes input validation, the request sent to the model, and how every exception becomes a status code.
- `Inference` covers the configuration read at start-up and the shape of the requests.

The layers below are parameters, not models:

- The inference endpoint is a function `Client` from a request to a completion.
- PyPDF2, python-docx and UTF-8 decoding are the functions inside `Parsers`.

`Text` holds Python's `str.strip`, `str.lower`, `split(".")[-1]` and `" ".join`. `Errors` holds the exceptions and the HTTP error details. `SanitizerExamples` and `HandlerExamples` work through concrete inputs.

## Behaviour worth knowing

- **Unsupported extension gives 500.** For an unsupported extension, line 60 raises `HTTPException(status_code=400)` inside the `try` of `extract_text_from_file`. The `except Exception` at lines 62-63 catches it, because `HTTPException` is an `Exception`, and raises an `HTTPException(status_code=500)` in its place. `process_file` passes that 500 through unchanged (lines 88-89). So `report.xyz` is answered with 500, and the detail embeds the 400 (`Extractor.UnsupportedIs500`, `Handlers.UnsupportedFileIs500`, `HandlerExamples.XyzUpload`).
- **The clean-up is not idempotent.** One pass of `re.sub` can join the text around a removed span into a new `<think>`. `"<thi<think>x</think>nk>y</think>"` becomes `"<think>y</think>"`, and a second pass gives `""` (`SanitizerExamples.SanitizeNotIdempotent`).

## Model

| member | source | states |
|---|---|---|
| Text.Trim | deepseek_function/function_app.py:80 | `strip()` leaves a result no longer than its input that neither starts nor ends with Python whitespace |
| Text.TrimSlice | deepseek_function/function_app.py:80 | the stripped string is a contiguous piece of the input, and only whitespace lies before and after it |
| Text.TrimKeeps | deepseek_function/function_app.py:81 | a string with no whitespace at either end is left unchanged by `strip()` |
| Text.TrimIdempotent | deepseek_function/function_app.py:80-81 | stripping twice is the same as stripping once |
| Text.TrimEmptyIff | deepseek_function/function_app.py:97-98 | `strip()` gives `""` exactly when every character is whitespace |
| Text.Lower | deepseek_function/function_app.py:44 | `lower()` keeps the length and maps each character on its own |
| Text.AfterLast | deepseek_function/function_app.py:44 | `split(".")[-1]` holds no dot, is a suffix of the string, and is either the whole string or preceded by a dot |
| Text.AfterLastNoSeparator | deepseek_function/function_app.py:44 | a string without the separator is its own last piece |
| Text.AfterLastSplit | deepseek_function/function_app.py:44 | the last piece is exactly what follows the last separator, whatever precedes it |
| Text.Join | deepseek_function/function_app.py:50-54 | `" ".join` of no pieces is `""`; otherwise the text starts with the first piece and ends with the last (the lemmas below fix the length and the separators) |
| Text.JoinLength | deepseek_function/function_app.py:50 | `" ".join` of n > 0 pieces has the pieces' total length plus n-1 |
| Text.JoinSeparators | deepseek_function/function_app.py:54 | the joined text has exactly n-1 more spaces than the pieces together: one separator between neighbours |
| Text.JoinAppend | deepseek_function/function_app.py:50 | joining a concatenation of two non-empty lists is the two joins with one space between |
| Extractor.Extension | deepseek_function/function_app.py:44 | the extension has no dot, is a suffix of the lower-cased name, and is either the whole name or preceded by a dot |
| Extractor.ExtensionAfterLastDot | deepseek_function/function_app.py:44 | the extension of `stem.ext` is `ext` lower-cased, whatever dots `stem` holds |
| Extractor.NoDotExtension | deepseek_function/function_app.py:44 | a name without a dot is its own extension, lower-cased |
| Extractor.PageTexts | deepseek_function/function_app.py:50 | one text per page, and a page without text counts as `""` |
| Extractor.Read | deepseek_function/function_app.py:48-60 | the dispatch on the format: only an unsupported format raises an `HTTPException`, and that is the 400 `UnsupportedFormat`; a decoding error comes only from the TXT branch and a library error only from the PDF or DOCX branch |
| Extractor.ExtractText | deepseek_function/function_app.py:41-63 | every failure is an `HTTPException` 500 with the extraction detail, and a success implies the extension is `pdf`, `docx` or `txt` |
| Extractor.FormatCases | deepseek_function/function_app.py:48-59 | the branch taken is `pdf`, `docx` or `txt` exactly when the extension is that word, and otherwise the unsupported branch |
| Extractor.ExtractSucceedsIff | deepseek_function/function_app.py:48-63 | text comes out if and only if the extension is supported and the library for it succeeds |
| Extractor.UnsupportedIs500 | deepseek_function/function_app.py:59-63 | an unsupported extension is answered with 500, wrapping the 400 `UnsupportedFormat` |
| Extractor.PdfFailureIs500 | deepseek_function/function_app.py:48-50 | a PDF the library cannot read is answered with 500, wrapping the library's error |
| Extractor.DocxFailureIs500 | deepseek_function/function_app.py:52-54 | a DOCX the library cannot read is answered with 500, wrapping the library's error |
| Extractor.PdfText | deepseek_function/function_app.py:48-50 | a readable PDF gives exactly its page texts joined by single spaces, `""` for no pages, and n-1 separators |
| Extractor.DocxText | deepseek_function/function_app.py:52-54 | a readable DOCX gives exactly its paragraphs joined by single spaces, `""` for no paragraphs, and n-1 separators |
| Extractor.TxtText | deepseek_function/function_app.py:56-57 | a TXT file gives exactly its UTF-8 decoding |
| Extractor.TxtDecodeFailureIs500 | deepseek_function/function_app.py:56-63 | content that is not valid UTF-8 is answered with 500, wrapping the decoding error |
| Sanitizer.FindClose | deepseek_function/function_app.py:81 | a `</think>` found from a position lies at or after that position and fits inside the text |
| Sanitizer.FindCloseNearest | deepseek_function/function_app.py:81 | the search finds the nearest `</think>` at or after the start position, and finds none only when there is none |
| Sanitizer.RemoveSpans | deepseek_function/function_app.py:81 | the substitution never lengthens the text |
| Sanitizer.Sanitize | deepseek_function/function_app.py:80-81 | the summary is no longer than the completion and is trimmed at both ends |
| Sanitizer.CopyPrefix | deepseek_function/function_app.py:81 | text in which no `<think>` starts is copied unchanged, and the scan continues after it |
| Sanitizer.SpanAtStart | deepseek_function/function_app.py:81 | `<think>` followed by the NEAREST `</think>` is dropped, markers included, and the scan continues on the rest as a text of its own |
| Sanitizer.LeadingSpanDropped | deepseek_function/function_app.py:81 | a completion that starts with a reasoning span becomes the text after it, provided that text holds no further `<think>` |
| Sanitizer.SpanRemoved | deepseek_function/function_app.py:81 | for a non-greedy, left-to-right match: the leftmost `<think>` up to the nearest `</think>` is removed, the text before it is kept, and the rest is scanned again |
| Sanitizer.UnclosedKept | deepseek_function/function_app.py:81 | a `<think>` with no `</think>` after it is kept, together with everything that follows |
| Sanitizer.NoOpenKept | deepseek_function/function_app.py:81 | a text without `<think>` passes the substitution unchanged |
| Sanitizer.NoCloseKept | deepseek_function/function_app.py:81 | a text without `</think>` passes the substitution unchanged |
| Sanitizer.NoMarkerOnlyTrims | deepseek_function/function_app.py:80-81 | without `<think>` the clean-up is just `strip()` |
| SanitizerExamples.HiddenSpanRemoved | deepseek_function/function_app.py:81 | `A<think>hidden</think>B` becomes `AB` |
| SanitizerExamples.MultiLineSpanRemoved | deepseek_function/function_app.py:81 | with `DOTALL`, a span crossing a line break is removed, and the remaining newline is stripped |
| SanitizerExamples.ReasoningDropped | deepseek_function/function_app.py:81 | leading reasoning is removed and the answer is kept |
| SanitizerExamples.UnclosedLeftInPlace | deepseek_function/function_app.py:81 | `A<think>open` comes out unchanged |
| SanitizerExamples.SanitizeNotIdempotent | deepseek_function/function_app.py:80-81 | one pass turns `<thi<think>x</think>nk>y</think>` into `<think>y</think>`, which a second pass empties: the clean-up is not idempotent |
| Inference.LoadConfig | deepseek_function/function_app.py:14-20 | start-up succeeds if and only if endpoint, model name and key are all set and non-empty, and keeps them unchanged |
| Inference.Prompt | deepseek_function/function_app.py:71-78 | exactly two messages are sent, the system instruction and the user content, with the system message first; the request names the configured model with a 500-token cap |
| Handlers.Reraise | deepseek_function/function_app.py:88-91 | an `HTTPException` passes through unchanged, and any other exception becomes a 500 wrapping it |
| Handlers.ProcessFile | deepseek_function/function_app.py:65-91 | every error is an `HTTPException` 500, and a success is a non-empty summary with no whitespace at either end |
| Handlers.UnsupportedFileIs500 | deepseek_function/function_app.py:59-63 | whatever the model would answer, an unsupported file gets 500 with the wrapped 400 |
| Handlers.ExtractionErrorPassedThrough | deepseek_function/function_app.py:69 | an extraction error reaches the caller exactly as the extractor raised it, and the outcome does not depend on the model |
| Handlers.SummaryOutcome | deepseek_function/function_app.py:71-86 | the request carries `Resumen del texto: ` and the text; a failed call gives 500; an empty cleaned-up answer gives 500 `EmptySummary`; otherwise the summary is the cleaned-up answer |
| Handlers.ProcessFileSucceedsIff | deepseek_function/function_app.py:69-86 | 200 if and only if extraction succeeds, the model answers, and the cleaned-up answer is not empty |
| Handlers.Chat | deepseek_function/function_app.py:93-115 | every error is an `HTTPException` with status 400 or 500, and a success is a chat reply |
| Handlers.BlankMessageIs400 | deepseek_function/function_app.py:97-99 | a missing, empty or all-whitespace message gives 400 `EmptyMessage`, whatever the model would answer |
| Handlers.NonStringMessageIs500 | deepseek_function/function_app.py:97 | a `message` that is not a string makes `.strip()` raise, and the catch-all answers 500 |
| Handlers.ChatRequestCarriesMessage | deepseek_function/function_app.py:97-102 | a message with a non-whitespace character is sent to the model trimmed |
| Handlers.ChatModelFailureIs500 | deepseek_function/function_app.py:104-115 | a failed call to the model gives 500 with the chat detail |
| Handlers.ChatReplyTrimmed | deepseek_function/function_app.py:110 | the reply is the model's answer trimmed, with no `<think>` removal |
| HandlerExamples.EmptyChatMessage | deepseek_function/function_app.py:97-99 | `{"message": ""}` gives 400 |
| HandlerExamples.HelloChat | deepseek_function/function_app.py:97-110 | `Hello`, answered with `Hi there`, gives 200 `{"response": "Hi there"}` |
| HandlerExamples.ChatReplyKeepsReasoning | deepseek_function/function_app.py:110 | a chat reply keeps the `<think>` span that the summary's clean-up would remove |
| HandlerExamples.TxtSummary | deepseek_function/function_app.py:56-86 | `notes.txt` containing `hello world` and answered with reasoning followed by `Hi` gives 200 `{"summary": "Hi"}` |
| HandlerExamples.XyzUpload | deepseek_function/function_app.py:59-63 | `report.xyz` gives 500 with the wrapped 400 |

## Left out

- The call to Azure AI Inference (`client.complete`, lines 74-78 and 104-108) is not modelled. It is the parameter `Client`, and a raised exception or a missing `choices[0].message.content` becomes `Failed`.
- PyPDF2, python-docx and UTF-8 decoding (lines 49, 53 and 57) are not modelled. They are the parameters in `Parsers`, and a document the libraries reject is a `Failure`.
- Reading and closing the uploaded stream (lines 45-46) is not modelled. An upload is its name and its bytes.
- Environment access (lines 14-16) is left out. The values are the `Option` arguments of `LoadConfig`, and `Config` is passed to the handlers explicitly.
- The construction of the client (line 23) is left out, because it is library code.
- The FastAPI application, the CORS middleware (lines 26-35), the ASGI adapter (line 118) and `async` execution are left out: transport and concurrency.
- The `GET /` endpoint (lines 37-39) is left out. It returns a constant message and has no logic.
- The request rejections FastAPI makes before a handler runs are left out. These are a body that is not a JSON object, a missing upload, and an upload without a file name.
- The exact `detail` texts, with their emoji, Spanish wording and `str(e)` formatting, are modelled by kind (`Errors.Detail`) and the wrapped exception value, not as strings.
- Text.Lower: lower-cases only ASCII `A`-`Z`, not the full Unicode case mapping of `str.lower`. The mapping matters only when a non-ASCII name could lower-case to `pdf`, `docx` or `txt`; no non-ASCII character lower-cases to one of their letters.
- Text.Trim: Dafny strings hold characters, so the model covers only strings without lone surrogates.
- Sanitizer.Sanitize: its contract states only length and trimming. The full behaviour of the scan is stated by `Sanitizer.SpanRemoved`, `Sanitizer.UnclosedKept`, `Sanitizer.NoOpenKept` and `Sanitizer.NoMarkerOnlyTrims`.
