# PDF text extraction cascade

A Dafny model of the text-extraction core of the EduMancer web app
(`app.py`). An uploaded PDF is turned into plain text by trying four
extraction methods in a fixed order, cheapest first: PyPDF2, PyMuPDF, OCR
(pdf2image + pytesseract) and the `pdftotext` command-line tool. The first
text that passes the quality gate `is_text_meaningful` is returned. A text
passes when more than 100 characters remain after all whitespace is deleted.
If no text passes, the last text computed is returned, or the sentinel
`"Could not extract text from this PDF."` when that text is empty.

The model has four modules, one per component, plus a small wrapper module:

- `QualityGate` (`quality_gate.dfy`): the gate. `IsWhitespace` fixes the
  character class that Python's `\s` matches in a `str` pattern (the
  characters for which `str.isspace()` holds). `StripWhitespace` is the
  regex substitution and `CountNonWhitespace` is an independent reference
  count.
- `PageAssembly` (`page_assembly.dfy`): the per-page loops and
  `"\n".join`. A page is abstract, `PageText(text)` or
  `PageError(message)`. `AssembleReadablePages` is PyPDF2's loop, which
  skips pages. `CollectEveryPage` is the loop shared by PyMuPDF and OCR,
  which keeps every page. Both are methods with loop invariants, proved
  against the functions `KeptPages` and `CollectAll`.
- `Extractors` (`extractors.dfy`): the four `extract_with_*` functions.
  Each backend's behaviour on a document is data: `Opened(pages)` or
  `OpenError(message)`, where `OpenError` stands for any exception caught
  by the method's outer `except Exception`. For pdftotext it is
  `ToolOutput`, `ToolError` or `Interrupted`. `Interrupted` is an exception
  that is not an `Exception` and so escapes `extract_with_pdftotext`; the
  caller's bare `except:` then catches it.
- `Orchestrator` (`orchestrator.dfy`): `extract_text_with_multiple_methods`.
  `Select` is the selection policy over the list of computed texts.
  `ExtractTextWithMultipleMethods` is the straight-line code with its early
  returns, proved equal to `Select` over `Candidates(doc)`. It also returns
  `invoked`, the extractors it called in order: the escalation order cut
  at `CallCount`, which stops at the first text that passes the gate.

Error texts are ordinary candidates, as in the code: they go through the
gate like any other text, and only an empty last text yields the sentinel.

Behaviour of `app.py` worth knowing:

- PyMuPDF and OCR do not tolerate a single page's failure. The first page
  (or image) that raises ends the method with an error text
  (`app.py:155-161`, `app.py:170-177`). Only PyPDF2 skips failing pages
  (`app.py:140-145`). See `Extractors.OnePageErrorFailsDocument`.
- When the `pdftotext` binary is missing, `extract_with_pdftotext` catches
  the exception and returns `"pdftotext extraction error: ..."`. If nothing
  passed the gate, that error text is the result, not the sentinel. See
  `Orchestrator.FailedToolReturnsItsErrorText`.
- The function returns only a text. There is no method tag and no success
  flag. The `invoked` output of the model is a trace of calls, not a value
  the code returns.
- The fallback is "last computed text", not the longest text and not the
  last non-empty text. An empty pdftotext output therefore gives the
  sentinel even when an earlier method gave a non-empty text that failed
  the gate.

## Model

| member | source | states |
|---|---|---|
| QualityGate.WhitespaceClass | app.py:195 | the class `\s` matches (the `str.isspace()` characters) contains space, tab, line feed, carriage return, vertical tab and form feed, and no ASCII letter or digit |
| QualityGate.StripWhitespace | app.py:195 | the substituted text is no longer than the input and contains no whitespace character |
| QualityGate.StripAppend | app.py:195 | the substitution is applied piecewise: stripping a concatenation is the concatenation of the stripped parts |
| QualityGate.StripLength | app.py:195-196 | the length measured by the gate equals the number of non-whitespace characters (reference count) |
| QualityGate.StripAllWhitespace | app.py:195 | a text made only of whitespace strips to the empty text |
| QualityGate.StripIdempotent | app.py:195 | stripping an already stripped text changes nothing |
| QualityGate.CountAppend | app.py:195-196 | non-whitespace counts add up over concatenation |
| QualityGate.IsTextMeaningful | app.py:189-196 | the gate accepts exactly a present text with more than 100 non-whitespace characters |
| QualityGate.RejectsNoneAndEmpty | app.py:191-192 | `None` and the empty string are rejected |
| QualityGate.ThresholdIsStrict | app.py:196 | a text with exactly 100 non-whitespace characters fails; adding one non-whitespace character makes it pass |
| QualityGate.WhitespaceDoesNotMatter | app.py:191-196 | inserting or deleting a block of whitespace anywhere never changes the verdict, including around an empty text |
| PageAssembly.JoinEnds | app.py:146 | `"\n".join` of no parts is empty; otherwise the text starts with the first part and ends with the last, and with several parts a separator follows the first and precedes the last (also app.py:159, 175) |
| PageAssembly.JoinAppend | app.py:146 | joining splits at any point into two joined halves with exactly one `"\n"` between them |
| PageAssembly.JoinLength | app.py:146 | the joined text's length is the parts' total length plus one separator per gap |
| PageAssembly.JoinOfEmptyPages | app.py:159 | `n` empty page texts join to exactly `n - 1` line breaks |
| PageAssembly.KeptPages | app.py:139-145 | PyPDF2 keeps at most one text per page and never an empty one |
| PageAssembly.KeptPagesAppend | app.py:139-145 | the page filter works page by page and keeps page order across any split of the document |
| PageAssembly.KeptPagesAllReadable | app.py:141-143 | when every page yields a non-empty text, all of them are kept, in page order |
| PageAssembly.KeptPagesNoneReadable | app.py:140-145 | when every page raises or is empty, nothing is kept |
| PageAssembly.CollectAll | app.py:155-157 | PyMuPDF/OCR collection succeeds exactly when no page raises, and then holds every page's text in order; otherwise it carries the message of a page that raised with all earlier pages readable |
| PageAssembly.FailureIsSticky | app.py:155-157 | once a page has raised, later pages do not change the outcome |
| PageAssembly.AssembleReadablePages | app.py:138-146 | PyPDF2's loop returns the kept pages joined with `"\n"` |
| PageAssembly.CollectEveryPage | app.py:154-157 | the keep-every-page loop returns exactly the collection, stopping at the first page that raises |
| Extractors.PyPdf2TextEmptiness | app.py:133-148 | `extract_with_pypdf2` returns the empty text exactly when the document opened and no page was kept; a failure of the document gives a text starting with `"PyPDF2 extraction error: "` |
| Extractors.EveryPageTextShape | app.py:150-177 | `extract_with_pymupdf` and `extract_with_ocr` return a text starting with their prefix when the document or any page raises; otherwise the text is empty exactly when there is at most one page and it is blank |
| Extractors.PdfToTextCall | app.py:123-128 | the pdftotext call raises only on an escaping non-`Exception`, and its text is empty only when the tool's output is empty |
| Extractors.ExtractWithPyPdf2 | app.py:133-148 | `extract_with_pypdf2` returns the kept pages joined, or `"PyPDF2 extraction error: "` plus the message |
| Extractors.ExtractWithPyMuPdf | app.py:150-161 | `extract_with_pymupdf` returns every page joined, or `"PyMuPDF extraction error: "` plus the message |
| Extractors.ExtractWithOcr | app.py:163-177 | `extract_with_ocr` returns every image's text joined, or `"OCR extraction error: "` plus the message |
| Extractors.ExtractEveryPage | app.py:152-161 | the shared keep-every-page body returns the joined texts or the prefixed error message |
| Extractors.FailureBecomesText | app.py:147-148 | no extractor propagates an `Exception`: each one turns it into a non-empty, method-prefixed text (also app.py:160-161, 176-177, 186-187) |
| Extractors.UnreadablePagesGiveEmptyText | app.py:139-146 | a document whose pages all raise under PyPDF2 gives the empty text, not an error |
| Extractors.PyPdf2JoinsReadablePages | app.py:139-146 | with every page readable, PyPDF2's text is the first pages' text, one `"\n"`, then the rest |
| Extractors.BlankPagesGiveLineBreaks | app.py:155-159 | PyMuPDF/OCR keep blank pages: `n` blank pages give `n - 1` line breaks, which the gate rejects |
| Extractors.OnePageErrorFailsDocument | app.py:155-161 | under PyMuPDF/OCR, the first page that raises makes the whole result that page's prefixed error text |
| Orchestrator.Candidates | app.py:106-124 | the texts computed are PyPDF2's, PyMuPDF's and OCR's, then pdftotext's exactly when that call did not raise |
| Orchestrator.OrSentinel | app.py:131 | `text or "Could not extract text from this PDF."` is never empty and keeps a non-empty text |
| Orchestrator.Select | app.py:106-131 | the first text in order that passes the gate is returned; if none passes, the last text or the sentinel in place of an empty one; the result is never empty |
| Orchestrator.ExtractTextWithMultipleMethods | app.py:100-131 | the result is the selection over the computed texts, and the extractors invoked are the escalation order up to `CallCount` of those texts |
| Orchestrator.CallCount | app.py:106-124 | between one and four extractors are called |
| Orchestrator.CallsStopAtFirstPass | app.py:106-124 | every text computed before the last call failed the gate, and a cascade that stops before pdftotext stops on a text that passes |
| Orchestrator.SelectCascade | app.py:106-131 | over three or four texts, the selection is the source's chain of gate tests with early returns, ending in the last text or the sentinel |
| Orchestrator.SentinelFails | app.py:131 | the sentinel itself cannot pass the gate |
| Orchestrator.SentinelOnlyForEmptyLastText | app.py:123-131 | the sentinel is returned exactly when nothing passes and the last text is empty (or is the sentinel itself) |
| Orchestrator.InterruptedToolKeepsOcrText | app.py:123-131 | if the pdftotext call raises after three failures, the OCR text (or the sentinel for an empty one) is returned |
| Orchestrator.FailedToolReturnsItsErrorText | app.py:123-131 | after three failures, a failing or missing pdftotext tool makes its error text the result, whether or not that text passes the gate; the sentinel is not reached |
| Orchestrator.LongErrorTextPasses | app.py:106-110 | error texts are not special-cased: a PyPDF2 error message with more than 100 non-whitespace characters is itself the result |
| Orchestrator.UnreadableDocumentEscalates | app.py:106-113 | a document PyPDF2 reads no page of gives an empty first text that fails the gate, so the cascade moves past PyPDF2 |

## Left out

- The Flask routes `home` and `analyze` (`app.py:17-98`): request handling, upload saving, directory creation and file removal are I/O.
- The Gemini configuration, chat call and prompt text (`app.py:45-92`): a foreign service call and fixed prompt literals.
- The internals of PyPDF2, PyMuPDF, `pdf2image.convert_from_path` and `pytesseract.image_to_string`: foreign libraries, modelled only as per-page outcomes.
- `subprocess.run` and `tempfile.NamedTemporaryFile` in `extract_with_pdftotext` (`app.py:182-185`): process and temporary-file I/O; only "returns a text or raises" is kept.
- Resource release (`doc.close()` outside a `finally`, `app.py:158`): file-handle lifetime is not expressible in a value model.
- An exception that is not an `Exception` (for example a keyboard interrupt) where it escapes: in PyPDF2 outside its per-page `try`, anywhere in PyMuPDF and OCR, and in the gate calls at `app.py:109`, `app.py:114` and `app.py:119`, it would leave `extract_text_with_multiple_methods` altogether. The two bare `except:` clauses are modelled: the per-page one in PyPDF2 (`app.py:144`) skips the page, as `PageError` does, and the one around the pdftotext call (`app.py:127`) gives `Interrupted`.
- PyPDF2's `extract_text()` returning `None`: the code treats it as the empty text (`if page_text:`), and the model gives such a page as `PageText("")`.
- Where in its body an extractor's outer exception is raised: the result is the same error text wherever it happens, so `OpenError` stands for all of them.
- Running the cascade twice on the same document: the model is a function of the backends' behaviour, so repeated calls agree by construction; OCR nondeterminism is outside the model.
- `static/script.js`: browser UI and network code.
