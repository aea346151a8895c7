/**
 * The page loops of `extract_text_from_pdf` and `ocr_pdf`. The PDF reader, the rasterizer and
 * the OCR engine are not modelled: what they deliver for each page is an input.
 */
module Extraction {
  import opened Wrappers
  import opened Text

  /** What the PDF reader gives for one page: its text, or a failure (the call raised). */
  datatype PageText = Extracted(text: string) | PageFailed

  /** A document as the reader sees it; `None` when the file cannot be opened or parsed. */
  type Document = Option<seq<PageText>>

  /** A page that carries non-blank text. */
  predicate HasText(p: PageText) { p.Extracted? && Strip(p.text) != "" }

  // ---------------------------------------------------------------------------------------------
  // direct extraction

  /** What one page adds to the direct text: a non-blank page's text and a newline. */
  function PageContribution(p: PageText): string {
    if HasText(p) then p.text + "\n" else ""
  }

  /** The pages' contributions in page order. */
  function JoinedPages(pages: seq<PageText>): string
    decreases |pages|
  {
    if pages == [] then "" else JoinedPages(pages[..|pages| - 1]) + PageContribution(pages[|pages| - 1])
  }

  /** The text `extract_text_from_pdf` returns. */
  function DirectText(doc: Document): string {
    match doc
    case None => ""
    case Some(pages) => Strip(JoinedPages(pages))
  }

  /** `extract_text_from_pdf`: the page loop that keeps non-blank pages, then the strip. */
  method ExtractTextFromPdf(doc: Document) returns (text: string)
    ensures text == DirectText(doc)
  {
    if doc.None? {
      return "";
    }
    var pages := doc.value;
    var acc := "";
    var i := 0;
    while i < |pages|
      invariant 0 <= i <= |pages|
      invariant acc == JoinedPages(pages[..i])
    {
      JoinedPagesStep(pages, i);
      if pages[i].Extracted? {
        var pageText := pages[i].text;
        if Strip(pageText) != "" {
          acc := acc + pageText + "\n";
        }
      }
      i := i + 1;
    }
    assert pages[..|pages|] == pages;
    text := Strip(acc);
  }

  lemma {:induction false} JoinedPagesStep(pages: seq<PageText>, i: nat)
    requires i < |pages|
    ensures JoinedPages(pages[..i + 1]) == JoinedPages(pages[..i]) + PageContribution(pages[i])
  {
    assert pages[..i + 1][..i] == pages[..i];
  }

  /** Page order is kept: the text of a sequence of pages is the texts of its parts in order. */
  lemma {:induction false} JoinedPagesAppend(a: seq<PageText>, b: seq<PageText>)
    ensures JoinedPages(a + b) == JoinedPages(a) + JoinedPages(b)
    decreases |b|
  {
    if b == [] {
      assert a + b == a;
    } else {
      var b', last := b[..|b| - 1], b[|b| - 1];
      assert (a + b)[..|a + b| - 1] == a + b';
      assert (a + b)[|a + b| - 1] == last;
      calc {
        JoinedPages(a + b);
        JoinedPages(a + b') + PageContribution(last);
        { JoinedPagesAppend(a, b'); }
        JoinedPages(a) + JoinedPages(b') + PageContribution(last);
      }
    }
  }

  /** A failed page leaves no trace in the direct text. */
  lemma {:induction false} FailedPageIgnored(a: seq<PageText>, b: seq<PageText>)
    ensures JoinedPages(a + [PageFailed] + b) == JoinedPages(a + b)
  {
    JoinedPagesAppend(a + [PageFailed], b);
    JoinedPagesAppend(a, [PageFailed]);
    JoinedPagesAppend(a, b);
    assert [PageFailed][..0] == [];
  }

  /** The joined pages are blank iff no page has non-blank text. */
  lemma {:induction false} JoinedPagesBlank(pages: seq<PageText>)
    ensures IsBlank(JoinedPages(pages)) <==> forall k | 0 <= k < |pages| :: !HasText(pages[k])
    decreases |pages|
  {
    if pages != [] {
      var init := pages[..|pages| - 1];
      var last := pages[|pages| - 1];
      JoinedPagesBlank(init);
      BlankAppend(JoinedPages(init), PageContribution(last));
      if HasText(last) {
        BlankAppend(last.text, "\n");
      }
      assert forall k | 0 <= k < |init| :: init[k] == pages[k];
    }
  }

  /** Direct extraction yields nothing iff the document is unreadable or no page has text. */
  lemma {:induction false} DirectTextEmpty(doc: Document)
    ensures DirectText(doc) == "" <==> doc.None? || forall k | 0 <= k < |doc.value| :: !HasText(doc.value[k])
  {
    if doc.Some? {
      JoinedPagesBlank(doc.value);
    }
  }

  // ---------------------------------------------------------------------------------------------
  // OCR

  /**
   * What OCR gives for one rasterized page: the result with the primary settings and the result
   * with the alternative settings, each `None` where the call (or the preprocessing before it)
   * raised.
   */
  datatype OcrPage = OcrPage(primary: Option<string>, alternative: Option<string>)

  /**
   * The text a page contributes: the primary result when it is non-blank, otherwise the
   * alternative result when that is non-blank, otherwise nothing.
   */
  function PageOutcome(p: OcrPage): Option<string> {
    match p.primary
    case None => None
    case Some(t) =>
      if Strip(t) != "" then Some(t)
      else if p.alternative.Some? && Strip(p.alternative.value) != "" then p.alternative
      else None
  }

  /** The recognized pages' texts, each followed by a newline, in page order. */
  function OcrJoined(pages: seq<OcrPage>): string
    decreases |pages|
  {
    if pages == [] then ""
    else
      var last := PageOutcome(pages[|pages| - 1]);
      OcrJoined(pages[..|pages| - 1]) + (if last.Some? then last.value + "\n" else "")
  }

  /** The number of pages whose recognition succeeded. */
  function OcrSuccesses(pages: seq<OcrPage>): (n: nat)
    ensures n <= |pages|
    decreases |pages|
  {
    if pages == [] then 0
    else OcrSuccesses(pages[..|pages| - 1]) + (if PageOutcome(pages[|pages| - 1]).Some? then 1 else 0)
  }

  /** The text `ocr_pdf` returns, given the rasterized pages (`None` when rasterizing failed). */
  function OcrText(raster: Option<seq<OcrPage>>): string {
    match raster
    case None => ""
    case Some(pages) => if OcrSuccesses(pages) == 0 then "" else Strip(OcrJoined(pages))
  }

  /** The body of the OCR loop for one page: the primary result, else the alternative one. */
  method RecognizePage(page: OcrPage) returns (outcome: Option<string>)
    ensures outcome == PageOutcome(page)
  {
    outcome := None;
    if page.primary.Some? {
      var pageText := page.primary.value;
      if Strip(pageText) != "" {
        outcome := Some(pageText);
      } else if page.alternative.Some? {
        var altText := page.alternative.value;
        if Strip(altText) != "" {
          outcome := Some(altText);
        }
      }
    }
  }

  lemma {:induction false} OcrStep(pages: seq<OcrPage>, i: nat)
    requires i < |pages|
    ensures var o := PageOutcome(pages[i]);
      && OcrJoined(pages[..i + 1]) == OcrJoined(pages[..i]) + (if o.Some? then o.value + "\n" else "")
      && OcrSuccesses(pages[..i + 1]) == OcrSuccesses(pages[..i]) + (if o.Some? then 1 else 0)
  {
    assert pages[..i + 1][..i] == pages[..i];
  }

  /** `ocr_pdf`: the page loop with the retry under the alternative settings, then the verdict. */
  method OcrPdf(raster: Option<seq<OcrPage>>) returns (text: string)
    ensures text == OcrText(raster)
  {
    if raster.None? {
      return "";
    }
    var pages := raster.value;
    var acc := "";
    var successful := 0;
    var i := 0;
    while i < |pages|
      invariant 0 <= i <= |pages|
      invariant acc == OcrJoined(pages[..i])
      invariant successful == OcrSuccesses(pages[..i])
    {
      OcrStep(pages, i);
      var outcome := RecognizePage(pages[i]);
      if outcome.Some? {
        acc := acc + outcome.value + "\n";
        successful := successful + 1;
      }
      i := i + 1;
    }
    assert pages[..|pages|] == pages;
    if successful == 0 {
      return "";
    }
    text := Strip(acc);
  }

  /** The alternative settings are consulted only when the primary result is blank. */
  lemma {:induction false} AlternativeOnlyForBlankPrimary(t: string, alt1: Option<string>, alt2: Option<string>)
    requires Strip(t) != ""
    ensures PageOutcome(OcrPage(Some(t), alt1)) == PageOutcome(OcrPage(Some(t), alt2)) == Some(t)
  {
  }

  /** A page succeeds iff one of its two results is non-blank, the alternative only after a blank primary. */
  lemma {:induction false} PageSucceeds(p: OcrPage)
    ensures PageOutcome(p).Some? <==>
      p.primary.Some? && (Strip(p.primary.value) != "" || (p.alternative.Some? && Strip(p.alternative.value) != ""))
    ensures PageOutcome(p).Some? ==> Strip(PageOutcome(p).value) != ""
  {
  }

  /** The OCR text joined from recognized pages is blank iff no page succeeded. */
  lemma {:induction false} OcrJoinedBlank(pages: seq<OcrPage>)
    ensures IsBlank(OcrJoined(pages)) <==> OcrSuccesses(pages) == 0
    decreases |pages|
  {
    if pages != [] {
      var init := pages[..|pages| - 1];
      var last := PageOutcome(pages[|pages| - 1]);
      OcrJoinedBlank(init);
      if last.Some? {
        BlankAppend(OcrJoined(init), last.value + "\n");
        BlankAppend(last.value, "\n");
      } else {
        assert OcrJoined(pages) == OcrJoined(init) + "";
      }
    }
  }

  /** No success count is zero unless every page failed. */
  lemma {:induction false} OcrSuccessesZero(pages: seq<OcrPage>)
    ensures OcrSuccesses(pages) == 0 <==> forall k | 0 <= k < |pages| :: PageOutcome(pages[k]).None?
    decreases |pages|
  {
    if pages != [] {
      var init := pages[..|pages| - 1];
      OcrSuccessesZero(init);
      assert forall k | 0 <= k < |init| :: init[k] == pages[k];
    }
  }

  /** OCR yields "" iff rasterizing failed or no page was recognized. */
  lemma {:induction false} OcrTextEmpty(raster: Option<seq<OcrPage>>)
    ensures OcrText(raster) == "" <==>
      raster.None? || forall k | 0 <= k < |raster.value| :: PageOutcome(raster.value[k]).None?
  {
    if raster.Some? {
      OcrJoinedBlank(raster.value);
      OcrSuccessesZero(raster.value);
    }
  }
}
