/**
  The four extraction methods. Each backend is abstract: what it does to a
  document is given as data, and each method turns every exception its
  `except Exception` catches into a text with a method-specific prefix, so
  that no method ever fails.
 */
module Extractors {
  import opened Outcomes
  import opened PageAssembly
  import opened QualityGate

  /**
    What a backend does with a document: it opens it and yields one outcome
    per page (PDF page or rasterised image), or an exception caught by the
    method's outer `except Exception` ends it with a message.
   */
  datatype Opening = Opened(pages: seq<PageOutcome>) | OpenError(message: string)

  /**
    What the pdftotext call does: the tool's output file is read back, or an
    `Exception` (tool missing, non-zero exit, unreadable output) is caught
    inside `extract_with_pdftotext`, or something that is not an `Exception`
    escapes it and reaches the caller.
   */
  datatype ToolRun = ToolOutput(output: string) | ToolError(message: string) | Interrupted

  const PyPdf2Prefix: string := "PyPDF2 extraction error: "
  const PyMuPdfPrefix: string := "PyMuPDF extraction error: "
  const OcrPrefix: string := "OCR extraction error: "
  const PdfToTextPrefix: string := "pdftotext extraction error: "

  /** What `extract_with_pypdf2` returns: the kept pages joined, or the prefixed error message. */
  function PyPdf2Text(doc: Opening): string {
    match doc
    case OpenError(m) => PyPdf2Prefix + m
    case Opened(pages) => Join(NewLine, KeptPages(pages))
  }

  /**
    What a keep-every-page method (PyMuPDF, OCR) returns, with its own error
    prefix: every page joined, or the prefixed message of the document's or
    the first failing page's exception.
   */
  function EveryPageText(prefix: string, doc: Opening): string {
    match doc
    case OpenError(m) => prefix + m
    case Opened(pages) =>
      match CollectAll(pages)
      case Success(texts) => Join(NewLine, texts)
      case Failure(m) => prefix + m
  }

  /** `s` begins with `p`. */
  predicate StartsWith(s: string, p: string) {
    |p| <= |s| && s[..|p|] == p
  }

  /** True when the document, or one of its pages, raises. */
  predicate FailsSomewhere(doc: Opening) {
    doc.OpenError? || exists i :: 0 <= i < |doc.pages| && doc.pages[i].PageError?
  }

  /**
    PyPDF2's text is empty exactly when the document opened and no page was
    kept; a failure of the document gives a text starting with its prefix.
   */
  lemma PyPdf2TextEmptiness(doc: Opening)
    ensures PyPdf2Text(doc) == "" <==> doc.Opened? && KeptPages(doc.pages) == []
    ensures doc.OpenError? ==> StartsWith(PyPdf2Text(doc), PyPdf2Prefix)
  {
    match doc
    case OpenError(m) =>
      assert (PyPdf2Prefix + m)[..|PyPdf2Prefix|] == PyPdf2Prefix;
    case Opened(pages) =>
      JoinEnds(NewLine, KeptPages(pages));
  }

  /**
    A keep-every-page method (PyMuPDF, OCR) gives a text starting with its
    prefix when the document or any page raises; otherwise its text is
    empty exactly when the document has at most one page and that page is
    blank.
   */
  lemma EveryPageTextShape(prefix: string, doc: Opening)
    ensures FailsSomewhere(doc) ==> StartsWith(EveryPageText(prefix, doc), prefix)
    ensures !FailsSomewhere(doc) ==>
              (EveryPageText(prefix, doc) == "" <==>
               |doc.pages| <= 1 && forall i :: 0 <= i < |doc.pages| ==> doc.pages[i] == PageText(""))
  {
    match doc
    case OpenError(m) =>
      assert (prefix + m)[..|prefix|] == prefix;
    case Opened(pages) =>
      match CollectAll(pages)
      case Failure(m) =>
        assert (prefix + m)[..|prefix|] == prefix;
      case Success(texts) =>
        JoinEnds(NewLine, texts);
  }

  /**
    What the call `extract_with_pdftotext(pdf_path)` gives its caller: a
    text, or `None` when it raised. Only an escaping non-`Exception` makes it
    raise, and only an empty output file makes its text empty.
   */
  function PdfToTextCall(run: ToolRun): (r: Option<string>)
    ensures r.None? <==> run.Interrupted?
    ensures r == Some("") ==> run == ToolOutput("")
  {
    match run
    case ToolOutput(o) => Some(o)
    case ToolError(m) => Some(PdfToTextPrefix + m)
    case Interrupted => None
  }

  /** `extract_with_pypdf2`: unreadable and empty pages are skipped; any other exception becomes an error text. */
  method ExtractWithPyPdf2(doc: Opening) returns (text: string)
    ensures text == PyPdf2Text(doc)
  {
    match doc {
      case OpenError(m) =>
        text := PyPdf2Prefix + m;
      case Opened(pages) =>
        text := AssembleReadablePages(pages);
    }
  }

  /** `extract_with_pymupdf`: every page is kept; any exception, on any page, becomes an error text. */
  method ExtractWithPyMuPdf(doc: Opening) returns (text: string)
    ensures text == EveryPageText(PyMuPdfPrefix, doc)
  {
    text := ExtractEveryPage(PyMuPdfPrefix, doc);
  }

  /** `extract_with_ocr`: every image's text is kept; any exception, on any image, becomes an error text. */
  method ExtractWithOcr(doc: Opening) returns (text: string)
    ensures text == EveryPageText(OcrPrefix, doc)
  {
    text := ExtractEveryPage(OcrPrefix, doc);
  }

  /** The body shared by `extract_with_pymupdf` and `extract_with_ocr`. */
  method ExtractEveryPage(prefix: string, doc: Opening) returns (text: string)
    ensures text == EveryPageText(prefix, doc)
  {
    match doc {
      case OpenError(m) =>
        text := prefix + m;
      case Opened(pages) =>
        var collected := CollectEveryPage(pages);
        match collected {
          case Success(allText) => text := Join(NewLine, allText);
          case Failure(m) => text := prefix + m;
        }
    }
  }

  /**
    No method lets an exception through: a failure of the whole document
    gives a non-empty text made of the method's prefix and the message.
   */
  lemma FailureBecomesText(m: string)
    ensures PyPdf2Text(OpenError(m)) == PyPdf2Prefix + m != ""
    ensures EveryPageText(PyMuPdfPrefix, OpenError(m)) == PyMuPdfPrefix + m != ""
    ensures EveryPageText(OcrPrefix, OpenError(m)) == OcrPrefix + m != ""
    ensures PdfToTextCall(ToolError(m)) == Some(PdfToTextPrefix + m)
  {
  }

  /** A document on which PyPDF2 can read no page at all gives the empty text, not an error. */
  lemma UnreadablePagesGiveEmptyText(pages: seq<PageOutcome>)
    requires forall i :: 0 <= i < |pages| ==> pages[i].PageError?
    ensures PyPdf2Text(Opened(pages)) == ""
  {
    KeptPagesNoneReadable(pages);
  }

  /**
    PyPDF2 keeps a page as it comes: with every page readable and non-empty,
    the result is the pages' texts with one line break between neighbours.
   */
  lemma {:induction false} PyPdf2JoinsReadablePages(pages: seq<PageOutcome>, k: nat)
    requires 0 < k < |pages|
    requires forall i :: 0 <= i < |pages| ==> pages[i].PageText? && pages[i].text != ""
    ensures PyPdf2Text(Opened(pages)) == PyPdf2Text(Opened(pages[..k])) + NewLine + PyPdf2Text(Opened(pages[k..]))
  {
    assert pages == pages[..k] + pages[k..];
    KeptPagesAppend(pages[..k], pages[k..]);
    KeptPagesAllReadable(pages[..k]);
    KeptPagesAllReadable(pages[k..]);
    JoinAppend(NewLine, KeptPages(pages[..k]), KeptPages(pages[k..]));
  }

  /**
    PyMuPDF and OCR keep empty pages: a document of `n` blank pages gives
    `n - 1` line breaks, which the quality gate rejects.
   */
  lemma BlankPagesGiveLineBreaks(prefix: string, pages: seq<PageOutcome>)
    requires pages != []
    requires forall i :: 0 <= i < |pages| ==> pages[i] == PageText("")
    ensures EveryPageText(prefix, Opened(pages)) == Repeat('\n', |pages| - 1)
    ensures !IsTextMeaningful(Some(EveryPageText(prefix, Opened(pages))))
  {
    var texts := CollectAll(pages).value;
    assert texts == seq(|pages|, _ => "");
    JoinOfEmptyPages(|pages|);
    var breaks := Repeat('\n', |pages| - 1);
    StripAllWhitespace(breaks);
    StripLength(breaks);
  }

  /** On PyMuPDF and OCR a single page that raises costs the whole document, with that page's message. */
  lemma OnePageErrorFailsDocument(prefix: string, pages: seq<PageOutcome>, k: nat, m: string)
    requires k < |pages|
    requires forall i :: 0 <= i < k ==> pages[i].PageText?
    requires pages[k] == PageError(m)
    ensures EveryPageText(prefix, Opened(pages)) == prefix + m
  {
  }
}
