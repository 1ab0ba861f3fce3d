/**
  `extract_text_with_multiple_methods`: the extractors are tried in a fixed
  order, cheapest first, and the first text that passes the quality gate is
  returned. When none passes, the last text computed is returned, or the
  sentinel message when that text is empty.
 */
module Orchestrator {
  import opened Outcomes
  import opened QualityGate
  import opened Extractors

  /** The extraction methods, by name. */
  datatype Extractor = PyPdf2 | PyMuPdf | Ocr | PdfToText

  /** The escalation order. */
  const EscalationOrder: seq<Extractor> := [PyPdf2, PyMuPdf, Ocr, PdfToText]

  /** What the caller gets when every attempt failed the gate and the last text was empty. */
  const Sentinel: string := "Could not extract text from this PDF."

  /** One PDF, as the four backends see it. */
  datatype Document = Document(pyPdf2: Opening, pyMuPdf: Opening, ocr: Opening, pdfToText: ToolRun)

  /** The gate as the orchestrator applies it, always to a string. */
  predicate Passes(text: string) {
    IsTextMeaningful(Some(text))
  }

  /** Python's `text or "Could not extract text from this PDF."`: never empty, and a non-empty text is kept. */
  function OrSentinel(text: string): (r: string)
    ensures r != ""
    ensures text != "" ==> r == text
  {
    if text == "" then Sentinel else text
  }

  /**
    The texts computed when every method runs, in escalation order; the
    pdftotext text is missing when that call raised, because `text` then
    keeps the OCR text.
   */
  function Candidates(doc: Document): (cands: seq<string>)
    ensures 3 <= |cands| <= 4
    ensures cands[0] == PyPdf2Text(doc.pyPdf2)
    ensures cands[1] == EveryPageText(PyMuPdfPrefix, doc.pyMuPdf)
    ensures cands[2] == EveryPageText(OcrPrefix, doc.ocr)
    ensures |cands| == 4 <==> !doc.pdfToText.Interrupted?
    ensures |cands| == 4 ==> Some(cands[3]) == PdfToTextCall(doc.pdfToText)
  {
    [PyPdf2Text(doc.pyPdf2), EveryPageText(PyMuPdfPrefix, doc.pyMuPdf), EveryPageText(OcrPrefix, doc.ocr)] +
    match PdfToTextCall(doc.pdfToText)
    case Some(t) => [t]
    case None => []
  }

  /**
    The selection policy over the texts computed in order: the first one
    that passes the gate wins; if none does, the last one, or the sentinel
    in its place when it is empty. The result is never empty.
   */
  function Select(cands: seq<string>): (r: string)
    requires cands != []
    ensures r != ""
    ensures forall k :: 0 <= k < |cands| && Passes(cands[k]) && (forall j :: 0 <= j < k ==> !Passes(cands[j])) ==>
              r == cands[k]
    ensures (forall k :: 0 <= k < |cands| ==> !Passes(cands[k])) ==> r == OrSentinel(cands[|cands| - 1])
  {
    if Passes(cands[0]) then cands[0]
    else if |cands| == 1 then OrSentinel(cands[0])
    else
      var rest := cands[1..];
      assert forall k :: 1 <= k < |cands| ==> rest[k - 1] == cands[k];
      assert rest[|rest| - 1] == cands[|cands| - 1];
      Select(rest)
  }

  /**
    How many extractors the cascade calls, given the texts computed in
    order: up to and including the first of the first three texts that
    passes the gate, and all four when none of them does (pdftotext is
    called even when the call then raises).
   */
  function CallCount(cands: seq<string>): (n: nat)
    requires 3 <= |cands| <= 4
    ensures 1 <= n <= 4
  {
    if Passes(cands[0]) then 1
    else if Passes(cands[1]) then 2
    else if Passes(cands[2]) then 3
    else 4
  }

  /**
    The calls stop at the first text that passes: every earlier text failed
    the gate, and when the cascade stops before pdftotext, the text that
    stopped it passes.
   */
  lemma CallsStopAtFirstPass(cands: seq<string>)
    requires 3 <= |cands| <= 4
    ensures forall k :: 0 <= k < CallCount(cands) - 1 ==> !Passes(cands[k])
    ensures CallCount(cands) < 4 ==> Passes(cands[CallCount(cands) - 1])
  {
  }

  /**
    `extract_text_with_multiple_methods`. Besides the text it returns
    `invoked`, the extractors it called, in order: the escalation order up
    to the first text that passes the gate.
   */
  method ExtractTextWithMultipleMethods(doc: Document) returns (text: string, invoked: seq<Extractor>)
    ensures text == Select(Candidates(doc))
    ensures invoked == EscalationOrder[..CallCount(Candidates(doc))]
  {
    ghost var cands := Candidates(doc);

    text := ExtractWithPyPdf2(doc.pyPdf2);
    invoked := EscalationOrder[..1];
    if Passes(text) {
      return;
    }

    text := ExtractWithPyMuPdf(doc.pyMuPdf);
    invoked := EscalationOrder[..2];
    assert cands[1..][0] == text;
    if Passes(text) {
      return;
    }

    text := ExtractWithOcr(doc.ocr);
    invoked := EscalationOrder[..3];
    assert cands[1..][1..][0] == text;
    if Passes(text) {
      return;
    }

    invoked := EscalationOrder;
    var called := PdfToTextCall(doc.pdfToText);
    if called.Some? {
      text := called.value;
      assert cands[1..][1..][1..] == [text];
      if Passes(text) {
        return;
      }
    } else {
      assert cands[1..][1..] == [text];
    }
    text := OrSentinel(text);
  }

  /**
    The selection over the cascade's three or four texts, unfolded into the
    straight-line tests of the source.
   */
  lemma SelectCascade(cands: seq<string>)
    requires 3 <= |cands| <= 4
    ensures Select(cands) ==
              if Passes(cands[0]) then cands[0]
              else if Passes(cands[1]) then cands[1]
              else if Passes(cands[2]) then cands[2]
              else if |cands| == 3 then OrSentinel(cands[2])
              else if Passes(cands[3]) then cands[3]
              else OrSentinel(cands[3])
  {
    assert cands[1..][0] == cands[1];
    assert cands[1..][1..][0] == cands[2];
    if |cands| == 4 {
      assert cands[1..][1..][1..] == [cands[3]];
    } else {
      assert cands[1..][1..] == [cands[2]];
    }
  }

  /** The sentinel can never pass the gate, so a result equal to it means no text passed. */
  lemma SentinelFails()
    ensures !Passes(Sentinel)
  {
  }

  /**
    When nothing passes, the sentinel is returned exactly when the last text
    computed is empty (or is, by chance, the sentinel itself).
   */
  lemma SentinelOnlyForEmptyLastText(cands: seq<string>)
    requires cands != []
    ensures Select(cands) == Sentinel <==>
              (forall k :: 0 <= k < |cands| ==> !Passes(cands[k])) &&
              (cands[|cands| - 1] == "" || cands[|cands| - 1] == Sentinel)
  {
  }

  /**
    If the pdftotext call raises after the first three texts failed the
    gate, the OCR text is what is returned (or the sentinel, when it is empty).
   */
  lemma InterruptedToolKeepsOcrText(doc: Document)
    requires doc.pdfToText.Interrupted?
    requires !Passes(PyPdf2Text(doc.pyPdf2)) && !Passes(EveryPageText(PyMuPdfPrefix, doc.pyMuPdf)) && !Passes(EveryPageText(OcrPrefix, doc.ocr))
    ensures Select(Candidates(doc)) == OrSentinel(EveryPageText(OcrPrefix, doc.ocr))
  {
    SelectCascade(Candidates(doc));
  }

  /**
    When pdftotext is missing or fails with an ordinary exception after the
    first three texts failed the gate, its error text is returned as it is,
    whether or not it passes the gate itself: the sentinel is not reached.
   */
  lemma FailedToolReturnsItsErrorText(doc: Document, m: string)
    requires doc.pdfToText == ToolError(m)
    requires !Passes(PyPdf2Text(doc.pyPdf2)) && !Passes(EveryPageText(PyMuPdfPrefix, doc.pyMuPdf)) && !Passes(EveryPageText(OcrPrefix, doc.ocr))
    ensures Select(Candidates(doc)) == PdfToTextPrefix + m
    ensures Select(Candidates(doc)) != Sentinel
  {
    SelectCascade(Candidates(doc));
    SentinelFails();
  }

  /**
    Error texts are not special-cased: when PyPDF2 cannot open the document
    and its exception message alone has more than `Threshold` non-whitespace
    characters, the error text itself is the result.
   */
  lemma LongErrorTextPasses(doc: Document, m: string)
    requires doc.pyPdf2 == OpenError(m)
    requires CountNonWhitespace(m) > Threshold
    ensures Select(Candidates(doc)) == PyPdf2Prefix + m
  {
    CountAppend(PyPdf2Prefix, m);
    assert Passes(Candidates(doc)[0]);
  }

  /**
    A document on which PyPDF2 reads no page gives an empty first text,
    which fails the gate, so the cascade escalates past PyPDF2.
   */
  lemma UnreadableDocumentEscalates(doc: Document)
    requires doc.pyPdf2.Opened?
    requires forall i :: 0 <= i < |doc.pyPdf2.pages| ==> doc.pyPdf2.pages[i].PageError?
    ensures Candidates(doc)[0] == "" && !Passes(Candidates(doc)[0])
    ensures Select(Candidates(doc)) == Select(Candidates(doc)[1..])
  {
    UnreadablePagesGiveEmptyText(doc.pyPdf2.pages);
  }
}
