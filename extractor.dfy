/** `extract_text_from_file`: choose a format from the file name's extension
    and turn the uploaded bytes into text. The PDF and DOCX libraries and the
    UTF-8 decoder are not modelled; their results are given by `Parsers`. */
module Extractor {
  import opened Wrappers
  import opened Text
  import opened Errors

  newtype byte = x: int | 0 <= x < 256
  type Bytes = seq<byte>

  /** An uploaded file: its name and its content. */
  datatype Upload = Upload(filename: string, content: Bytes)

  /** What the libraries make of the bytes. `pdfPages` gives the result of
      `page.extract_text()` for each page of `PyPDF2.PdfReader(content).pages`
      (`None` where a page has no text layer); `docxParagraphs` gives
      `para.text` for each paragraph of `docx.Document(content)`; `decodeUtf8`
      is `content.decode("utf-8")`. A `Failure` is the library raising. */
  datatype Parsers = Parsers(
    pdfPages: Bytes -> Result<seq<Option<string>>, string>,
    docxParagraphs: Bytes -> Result<seq<string>, string>,
    decodeUtf8: Bytes -> Result<string, string>)

  /** The formats the service reads. */
  datatype Format = Pdf | Docx | Txt

  /** `filename.lower().split(".")[-1]`. */
  function Extension(filename: string): (ext: string)
    ensures '.' !in ext
    ensures |ext| <= |filename| && ext == Lower(filename)[|filename| - |ext|..]
    ensures |ext| < |filename| ==> filename[|filename| - |ext| - 1] == '.'
  {
    var lower := Lower(filename);
    var ext := AfterLast(lower, '.');
    if |ext| < |filename| then
      var k := |filename| - |ext| - 1;
      assert lower[k] == '.' && lower[k] == LowerChar(filename[k]);
      ext
    else ext
  }

  function FormatOf(ext: string): Option<Format> {
    if ext == "pdf" then Some(Pdf)
    else if ext == "docx" then Some(Docx)
    else if ext == "txt" then Some(Txt)
    else None
  }

  /** `page.extract_text() or ""`. */
  function PageText(page: Option<string>): string {
    match page
    case Some(text) => text
    case None => ""
  }

  function PageTexts(pages: seq<Option<string>>): (texts: seq<string>)
    ensures |texts| == |pages|
    ensures forall i :: 0 <= i < |pages| ==> texts[i] == PageText(pages[i])
  {
    if pages == [] then [] else [PageText(pages[0])] + PageTexts(pages[1..])
  }

  /** The statements inside the `try` block: the extension decides the format. */
  function ExtractTry(u: Upload, parsers: Parsers): Result<string, Exc> {
    Read(FormatOf(Extension(u.filename)), u.content, parsers)
  }

  /** The `if`/`elif` chain on the extension; any other extension raises
      `HTTPException(400)`. */
  function Read(format: Option<Format>, content: Bytes, parsers: Parsers): (r: Result<string, Exc>)
    ensures (r.Failure? && r.error.HttpException?) <==> format.None?
    ensures format.None? ==> r == Failure(HttpException(400, UnsupportedFormat))
    ensures r.Failure? && r.error.DecodeError? ==> format == Some(Txt)
    ensures r.Failure? && r.error.ParserError? ==> format == Some(Pdf) || format == Some(Docx)
  {
    match format
    case None => Failure(HttpException(400, UnsupportedFormat))
    case Some(Pdf) =>
      (match parsers.pdfPages(content)
       case Success(pages) => Success(Join(PageTexts(pages)))
       case Failure(m) => Failure(ParserError(m)))
    case Some(Docx) =>
      (match parsers.docxParagraphs(content)
       case Success(paragraphs) => Success(Join(paragraphs))
       case Failure(m) => Failure(ParserError(m)))
    case Some(Txt) =>
      (match parsers.decodeUtf8(content)
       case Success(text) => Success(text)
       case Failure(m) => Failure(DecodeError(m)))
  }

  /** `extract_text_from_file`: the `except Exception` around the whole body
      catches every error, the `HTTPException(400)` for an unsupported format
      included, and raises it again as an `HTTPException(500)`. */
  function ExtractText(u: Upload, parsers: Parsers): (r: Result<string, Exc>)
    ensures r.Failure? ==> r.error.HttpException? && r.error.status == 500
    ensures r.Failure? ==> r.error.detail.ExtractionFailed?
    ensures r.Success? ==> Extension(u.filename) in {"pdf", "docx", "txt"}
  {
    match ExtractTry(u, parsers)
    case Success(text) => Success(text)
    case Failure(e) => Failure(HttpException(500, ExtractionFailed(e)))
  }

  /** A name without a dot is its own extension, lower-cased; so it is read
      only when it is exactly `pdf`, `docx` or `txt` in some letter case. */
  lemma {:induction false} NoDotExtension(filename: string)
    requires '.' !in filename
    ensures Extension(filename) == Lower(filename)
  {
  }

  /** The extension is the lower-cased text after the last dot, whatever
      comes before it: `notes.final.TXT` has extension `txt`. */
  lemma {:induction false} ExtensionAfterLastDot(stem: string, ext: string)
    requires '.' !in ext
    ensures Extension(stem + "." + ext) == Lower(ext)
  {
    LowerConcat(stem + ".", ext);
    LowerConcat(stem, ".");
    assert Lower(".") == ".";
    assert '.' !in Lower(ext);
    AfterLastSplit(Lower(stem), '.', Lower(ext));
  }

  /** Text comes out exactly when the extension is one of the three and the
      library for it succeeds. */
  lemma {:induction false} ExtractSucceedsIff(u: Upload, parsers: Parsers)
    ensures ExtractText(u, parsers).Success? <==>
      (Extension(u.filename) == "pdf" && parsers.pdfPages(u.content).Success?)
      || (Extension(u.filename) == "docx" && parsers.docxParagraphs(u.content).Success?)
      || (Extension(u.filename) == "txt" && parsers.decodeUtf8(u.content).Success?)
  {
    var ext := Extension(u.filename);
    FormatCases(ext);
    var r := ExtractTry(u, parsers);
    assert ExtractText(u, parsers).Success? == r.Success?;
    match FormatOf(ext)
    case None =>
      assert r.Failure?;
    case Some(Pdf) =>
      assert r.Success? == parsers.pdfPages(u.content).Success?;
    case Some(Docx) =>
      assert r.Success? == parsers.docxParagraphs(u.content).Success?;
    case Some(Txt) =>
      assert r.Success? == parsers.decodeUtf8(u.content).Success?;
  }

  lemma {:induction false} FormatCases(ext: string)
    ensures FormatOf(ext) == Some(Pdf) <==> ext == "pdf"
    ensures FormatOf(ext) == Some(Docx) <==> ext == "docx"
    ensures FormatOf(ext) == Some(Txt) <==> ext == "txt"
    ensures FormatOf(ext) == None <==> ext !in {"pdf", "docx", "txt"}
  {
  }

  /** Any other extension is reported as a 500 whose cause is the 400 the
      `try` block raised. */
  lemma {:induction false} UnsupportedIs500(u: Upload, parsers: Parsers)
    requires Extension(u.filename) !in {"pdf", "docx", "txt"}
    ensures ExtractText(u, parsers)
      == Failure(HttpException(500, ExtractionFailed(HttpException(400, UnsupportedFormat))))
  {
    var ext := Extension(u.filename);
    assert FormatOf(ext) == None;
    assert ExtractTry(u, parsers) == Read(None, u.content, parsers);
  }

  /** A PDF the library cannot read is reported as a 500 carrying the
      library's error. */
  lemma {:induction false} PdfFailureIs500(u: Upload, parsers: Parsers, m: string)
    requires Extension(u.filename) == "pdf" && parsers.pdfPages(u.content) == Failure(m)
    ensures ExtractText(u, parsers) == Failure(HttpException(500, ExtractionFailed(ParserError(m))))
  {
    var ext := Extension(u.filename);
    assert FormatOf(ext) == Some(Pdf);
    var r := Read(Some(Pdf), u.content, parsers);
    assert r == Failure(ParserError(m));
    assert ExtractTry(u, parsers) == r;
  }

  /** Likewise for a DOCX document. */
  lemma {:induction false} DocxFailureIs500(u: Upload, parsers: Parsers, m: string)
    requires Extension(u.filename) == "docx" && parsers.docxParagraphs(u.content) == Failure(m)
    ensures ExtractText(u, parsers) == Failure(HttpException(500, ExtractionFailed(ParserError(m))))
  {
    var ext := Extension(u.filename);
    assert FormatOf(ext) == Some(Docx);
    var r := Read(Some(Docx), u.content, parsers);
    assert r == Failure(ParserError(m));
    assert ExtractTry(u, parsers) == r;
  }

  /** PDF text: the page texts, a missing one read as "", joined by single
      spaces; no pages give "", n pages give n - 1 separators. */
  lemma {:induction false} PdfText(u: Upload, parsers: Parsers, pages: seq<Option<string>>)
    requires Extension(u.filename) == "pdf" && parsers.pdfPages(u.content) == Success(pages)
    ensures ExtractText(u, parsers) == Success(Join(PageTexts(pages)))
    ensures pages == [] ==> ExtractText(u, parsers).value == ""
    ensures pages != [] ==>
      |ExtractText(u, parsers).value| == TotalLength(PageTexts(pages)) + |pages| - 1
      && Count(ExtractText(u, parsers).value, ' ') == TotalCount(PageTexts(pages), ' ') + |pages| - 1
  {
    var ext := Extension(u.filename);
    assert FormatOf(ext) == Some(Pdf);
    var r := Read(Some(Pdf), u.content, parsers);
    assert r == Success(Join(PageTexts(pages)));
    assert ExtractTry(u, parsers) == r;
    if pages != [] {
      JoinLength(PageTexts(pages));
      JoinSeparators(PageTexts(pages));
    }
  }

  /** DOCX text: the paragraph texts joined the same way. */
  lemma {:induction false} DocxText(u: Upload, parsers: Parsers, paragraphs: seq<string>)
    requires Extension(u.filename) == "docx" && parsers.docxParagraphs(u.content) == Success(paragraphs)
    ensures ExtractText(u, parsers) == Success(Join(paragraphs))
    ensures paragraphs == [] ==> ExtractText(u, parsers).value == ""
    ensures paragraphs != [] ==>
      |ExtractText(u, parsers).value| == TotalLength(paragraphs) + |paragraphs| - 1
      && Count(ExtractText(u, parsers).value, ' ') == TotalCount(paragraphs, ' ') + |paragraphs| - 1
  {
    var ext := Extension(u.filename);
    assert FormatOf(ext) == Some(Docx);
    var r := Read(Some(Docx), u.content, parsers);
    assert r == Success(Join(paragraphs));
    assert ExtractTry(u, parsers) == r;
    if paragraphs != [] {
      JoinLength(paragraphs);
      JoinSeparators(paragraphs);
    }
  }

  /** A TXT file is its content decoded as UTF-8 ... */
  lemma {:induction false} TxtText(u: Upload, parsers: Parsers, text: string)
    requires Extension(u.filename) == "txt" && parsers.decodeUtf8(u.content) == Success(text)
    ensures ExtractText(u, parsers) == Success(text)
  {
    var ext := Extension(u.filename);
    assert FormatOf(ext) == Some(Txt);
    var r := Read(Some(Txt), u.content, parsers);
    assert r == Success(text);
    assert ExtractTry(u, parsers) == r;
  }

  /** ... and content that is not UTF-8 is reported as a 500. */
  lemma {:induction false} TxtDecodeFailureIs500(u: Upload, parsers: Parsers, m: string)
    requires Extension(u.filename) == "txt" && parsers.decodeUtf8(u.content) == Failure(m)
    ensures ExtractText(u, parsers) == Failure(HttpException(500, ExtractionFailed(DecodeError(m))))
  {
    var ext := Extension(u.filename);
    assert FormatOf(ext) == Some(Txt);
    var r := Read(Some(Txt), u.content, parsers);
    assert r == Failure(DecodeError(m));
    assert ExtractTry(u, parsers) == r;
  }
}
