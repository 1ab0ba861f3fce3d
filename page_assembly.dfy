/**
  The per-page assembly shared by the extractors: page texts are gathered
  into a list in page order and the list is joined with `"\n"`.
  Pages are abstract: each one either yields a text or raises.
 */
module PageAssembly {
  import opened Outcomes

  /** What the backend does for one page: it yields a text (possibly empty) or raises with a message. */
  datatype PageOutcome = PageText(text: string) | PageError(message: string)

  const NewLine: string := "\n"

  /** `sep.join(parts)`: the parts in order with one `sep` between each consecutive pair. */
  function Join(sep: string, parts: seq<string>): string {
    if |parts| == 0 then ""
    else if |parts| == 1 then parts[0]
    else parts[0] + sep + Join(sep, parts[1..])
  }

  /**
    Joining nothing gives the empty text; otherwise the text starts with the
    first part and ends with the last, and with several parts a separator
    follows the first part and precedes the last.
   */
  lemma {:induction false} JoinEnds(sep: string, parts: seq<string>)
    ensures parts == [] ==> Join(sep, parts) == ""
    ensures parts != [] ==> var r, first, last := Join(sep, parts), parts[0], parts[|parts| - 1];
      |r| >= |first| && r[..|first|] == first && |r| >= |last| && r[|r| - |last|..] == last
    ensures |parts| >= 2 ==> var r, first, last := Join(sep, parts), parts[0], parts[|parts| - 1];
      |r| >= |first| + |sep| + |last| && r[|first|..|first| + |sep|] == sep && r[|r| - |last| - |sep|..|r| - |last|] == sep
  {
    if |parts| > 2 {
      JoinEnds(sep, parts[1..]);
    }
  }

  /** A list of several parts splits into two joined halves with exactly one separator between them. */
  lemma {:induction false} JoinAppend(sep: string, a: seq<string>, b: seq<string>)
    requires a != [] && b != []
    ensures Join(sep, a + b) == Join(sep, a) + sep + Join(sep, b)
  {
    if |a| == 1 {
      assert (a + b)[1..] == b;
    } else {
      assert (a + b)[1..] == a[1..] + b;
      JoinAppend(sep, a[1..], b);
    }
  }

  /** The joined text is as long as all parts together plus one separator per gap. */
  lemma {:induction false} JoinLength(sep: string, parts: seq<string>)
    requires parts != []
    ensures |Join(sep, parts)| == TotalLength(parts) + (|parts| - 1) * |sep|
  {
    if |parts| > 1 {
      JoinLength(sep, parts[1..]);
    }
  }

  /** The sum of the lengths of the parts. */
  function TotalLength(parts: seq<string>): nat {
    if parts == [] then 0 else |parts[0]| + TotalLength(parts[1..])
  }

  /** `n` copies of the character `c`. */
  function Repeat(c: char, n: nat): (r: string)
    ensures |r| == n && forall i :: 0 <= i < n ==> r[i] == c
  {
    if n == 0 then "" else [c] + Repeat(c, n - 1)
  }

  /** `n` empty pages kept in the list join to `n - 1` line breaks and nothing else. */
  lemma {:induction false} JoinOfEmptyPages(n: nat)
    requires n > 0
    ensures Join(NewLine, seq(n, _ => "")) == Repeat('\n', n - 1)
  {
    if n > 1 {
      var empties := seq(n, _ => "");
      assert empties[1..] == seq(n - 1, _ => "");
      JoinOfEmptyPages(n - 1);
    }
  }

  /**
    The pages PyPDF2 keeps, in page order: a page that raises or yields the
    empty text contributes nothing.
   */
  function KeptPages(pages: seq<PageOutcome>): (kept: seq<string>)
    ensures |kept| <= |pages|
    ensures forall i :: 0 <= i < |kept| ==> kept[i] != ""
  {
    if pages == [] then []
    else
      var last := pages[|pages| - 1];
      KeptPages(pages[..|pages| - 1]) + (if last.PageText? && last.text != "" then [last.text] else [])
  }

  /** Filtering is done page by page, so it distributes over any split of the document. */
  lemma {:induction false} KeptPagesAppend(a: seq<PageOutcome>, b: seq<PageOutcome>)
    ensures KeptPages(a + b) == KeptPages(a) + KeptPages(b)
  {
    if b == [] {
      assert a + b == a;
    } else {
      var init := b[..|b| - 1];
      assert (a + b)[..|a + b| - 1] == a + init;
      assert (a + b)[|a + b| - 1] == b[|b| - 1];
      KeptPagesAppend(a, init);
    }
  }

  /** When every page yields a non-empty text, PyPDF2 keeps all of them, in order. */
  lemma {:induction false} KeptPagesAllReadable(pages: seq<PageOutcome>)
    requires forall i :: 0 <= i < |pages| ==> pages[i].PageText? && pages[i].text != ""
    ensures |KeptPages(pages)| == |pages|
    ensures forall i :: 0 <= i < |pages| ==> KeptPages(pages)[i] == pages[i].text
  {
    if pages != [] {
      KeptPagesAllReadable(pages[..|pages| - 1]);
    }
  }

  /** When no page yields any text, nothing is kept. */
  lemma {:induction false} KeptPagesNoneReadable(pages: seq<PageOutcome>)
    requires forall i :: 0 <= i < |pages| ==> pages[i].PageError? || pages[i].text == ""
    ensures KeptPages(pages) == []
  {
    if pages != [] {
      KeptPagesNoneReadable(pages[..|pages| - 1]);
    }
  }

  /**
    The pages PyMuPDF and OCR collect: every page's text, empty or not, in
    page order; the first page that raises stops the whole collection with
    its message.
   */
  function CollectAll(pages: seq<PageOutcome>): (r: Result<seq<string>, string>)
    ensures r.Success? <==> forall i :: 0 <= i < |pages| ==> pages[i].PageText?
    ensures r.Success? ==> |r.value| == |pages| && forall i :: 0 <= i < |pages| ==> pages[i] == PageText(r.value[i])
    ensures r.Failure? ==> exists i :: 0 <= i < |pages| && pages[i] == PageError(r.error) &&
                                       forall j :: 0 <= j < i ==> pages[j].PageText?
  {
    if pages == [] then Success([])
    else
      var init := pages[..|pages| - 1];
      var last := pages[|pages| - 1];
      assert forall i :: 0 <= i < |init| ==> init[i] == pages[i];
      match CollectAll(init)
      case Failure(m) => Failure(m)
      case Success(texts) =>
        match last
        case PageText(t) => Success(texts + [t])
        case PageError(m) => Failure(m)
  }

  /** Once a prefix of the pages has failed, the later pages do not change the outcome. */
  lemma {:induction false} FailureIsSticky(pages: seq<PageOutcome>, k: nat)
    requires k <= |pages|
    requires CollectAll(pages[..k]).Failure?
    ensures CollectAll(pages) == CollectAll(pages[..k])
    decreases |pages| - k
  {
    if k < |pages| {
      var init := pages[..|pages| - 1];
      assert init[..k] == pages[..k];
      FailureIsSticky(init, k);
    } else {
      assert pages[..k] == pages;
    }
  }

  /**
    PyPDF2's loop: pages are visited in order, a page that raises or yields
    the empty text is skipped, and the kept texts are joined with `"\n"`.
   */
  method AssembleReadablePages(pages: seq<PageOutcome>) returns (text: string)
    ensures text == Join(NewLine, KeptPages(pages))
  {
    var allText: seq<string> := [];
    var i := 0;
    while i < |pages|
      invariant 0 <= i <= |pages|
      invariant allText == KeptPages(pages[..i])
    {
      assert pages[..i + 1][..i] == pages[..i];
      match pages[i] {
        case PageError(_) =>
        case PageText(pageText) =>
          if pageText != "" {
            allText := allText + [pageText];
          }
      }
      i := i + 1;
    }
    assert pages[..i] == pages;
    text := Join(NewLine, allText);
  }

  /**
    The loop of PyMuPDF and OCR: every page's text is appended in order; the
    first page that raises ends the loop with its message.
   */
  method CollectEveryPage(pages: seq<PageOutcome>) returns (r: Result<seq<string>, string>)
    ensures r == CollectAll(pages)
  {
    var allText: seq<string> := [];
    var i := 0;
    while i < |pages|
      invariant 0 <= i <= |pages|
      invariant CollectAll(pages[..i]) == Success(allText)
    {
      assert pages[..i + 1][..i] == pages[..i];
      match pages[i] {
        case PageError(m) =>
          FailureIsSticky(pages, i + 1);
          return Failure(m);
        case PageText(pageText) =>
          allText := allText + [pageText];
      }
      i := i + 1;
    }
    assert pages[..i] == pages;
    r := Success(allText);
  }
}
