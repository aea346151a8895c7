/**
 * The two text-quality heuristics: `_is_low_quality_extraction` on a candidate text, and the
 * counting logic of `_is_pdf_scanned` on the first pages of a document. Every ratio test is
 * stated as the integer inequality it is equivalent to for the lengths concerned.
 */
module Quality {
  import opened Wrappers
  import opened Text
  import opened Extraction

  // ---------------------------------------------------------------------------------------------
  // low-quality extraction

  /** The number of letters (`isalpha`, ASCII) in `s`. */
  function AlphaCount(s: string): (n: nat)
    ensures n <= |s|
    decreases |s|
  {
    if s == [] then 0 else AlphaCount(s[..|s| - 1]) + (if IsAlpha(s[|s| - 1]) then 1 else 0)
  }

  /** Occurrences of the three characters that mark a poor extraction: U+FFFD, backslash, bar. */
  function ProblemCount(s: string): nat {
    CountOccurrences(s, "\U{FFFD}") + CountOccurrences(s, "\\") + CountOccurrences(s, "|")
  }

  /**
   * `_is_low_quality_extraction`: under 50 characters once stripped, or fewer than 30% letters,
   * or more than 5% problem characters, both ratios taken over the unstripped length.
   */
  predicate IsLowQuality(text: string) {
    || |Strip(text)| < 50
    || (|text| > 0 && 10 * AlphaCount(text) < 3 * |text|)
    || 20 * ProblemCount(text) > |text|
  }

  lemma {:induction false} AlphaCountAppend(a: string, b: string)
    ensures AlphaCount(a + b) == AlphaCount(a) + AlphaCount(b)
    decreases |b|
  {
    if b == [] {
      assert a + b == a;
    } else {
      var b' := b[..|b| - 1];
      assert (a + b)[..|a + b| - 1] == a + b';
      assert (a + b)[|a + b| - 1] == b[|b| - 1];
      AlphaCountAppend(a, b');
    }
  }

  lemma {:induction false} AlphaCountOfLetters(s: string)
    requires forall k | 0 <= k < |s| :: IsAlpha(s[k])
    ensures AlphaCount(s) == |s|
    decreases |s|
  {
    if s != [] {
      AlphaCountOfLetters(s[..|s| - 1]);
    }
  }

  lemma {:induction false} AlphaCountOfBlank(s: string)
    requires IsBlank(s)
    ensures AlphaCount(s) == 0
    decreases |s|
  {
    if s != [] {
      AlphaCountOfBlank(s[..|s| - 1]);
    }
  }

  /** A text with none of the three problem characters has a problem count of zero. */
  lemma {:induction false} NoProblemCharacters(s: string)
    requires forall k | 0 <= k < |s| :: s[k] !in "\U{FFFD}\\|"
    ensures ProblemCount(s) == 0
  {
    NotContainsAbsent(s, "\U{FFFD}");
    NotContainsAbsent(s, "\\");
    NotContainsAbsent(s, "|");
  }

  /** A run of at least 50 letters is good-quality text. */
  lemma {:induction false} LettersAreGoodQuality(s: string)
    requires |s| >= 50
    requires forall k | 0 <= k < |s| :: IsAlpha(s[k])
    ensures !IsLowQuality(s)
  {
    AlphaCountOfLetters(s);
    NoProblemCharacters(s);
    assert !IsSpace(s[0]);
    assert Strip(s) == s;
  }

  /**
   * The letter ratio is taken over the unstripped text: at least 50 letters followed by enough
   * whitespace are judged low quality, though the stripped text is all letters.
   */
  lemma {:induction false} PaddingLowersQuality(letters: string, pad: string)
    requires forall k | 0 <= k < |letters| :: IsAlpha(letters[k])
    requires IsBlank(pad)
    requires 10 * |letters| < 3 * (|letters| + |pad|)
    ensures IsLowQuality(letters + pad)
  {
    AlphaCountOfLetters(letters);
    AlphaCountOfBlank(pad);
    AlphaCountAppend(letters, pad);
  }

  /** A text that opens with more bars than a twentieth of its length is low quality, however long. */
  lemma {:induction false} BarsMarkLowQuality(s: string, n: nat)
    requires n <= |s| < 20 * n
    requires forall k | 0 <= k < n :: s[k] == '|'
    ensures IsLowQuality(s)
  {
    CountOccurrencesPrefix(s, n);
  }

  /** A leading run of bars is counted in full in the whole string. */
  lemma {:induction false} CountOccurrencesPrefix(s: string, n: nat)
    requires n <= |s|
    requires forall k | 0 <= k < n :: s[k] == '|'
    ensures CountOccurrences(s, "|") >= n
    decreases n
  {
    if n > 0 {
      assert s[..1] == "|";
      CountOccurrencesPrefix(s[1..], n - 1);
    }
  }

  // ---------------------------------------------------------------------------------------------
  // scan detection

  /** A character `_is_pdf_scanned` counts as readable. */
  predicate IsReadable(c: char) { IsAlnum(c) || IsSpace(c) || c in ".,()-_:+=%" }

  /** The number of readable characters in `s`. */
  function ReadableCount(s: string): (n: nat)
    ensures n <= |s|
    decreases |s|
  {
    if s == [] then 0 else ReadableCount(s[..|s| - 1]) + (if IsReadable(s[|s| - 1]) then 1 else 0)
  }

  /** The substrings typical of OCR output, in the order they are counted. */
  const OcrIndicators: seq<string> := ["\U{FFFD}", "|", "\\", "//", "]]", "[[", "{{", "}}"]

  /** The summed non-overlapping counts of `indicators` in `s`. */
  function IndicatorCount(s: string, indicators: seq<string>): nat
    requires forall k | 0 <= k < |indicators| :: indicators[k] != []
  {
    if indicators == [] then 0
    else CountOccurrences(s, indicators[0]) + IndicatorCount(s, indicators[1..])
  }

  function ArtifactCount(s: string): nat {
    IndicatorCount(s, OcrIndicators)
  }

  /** The text of the sampled pages run together; failed pages contribute nothing. */
  function SampledText(pages: seq<PageText>): string
    decreases |pages|
  {
    if pages == [] then ""
    else
      var last := pages[|pages| - 1];
      SampledText(pages[..|pages| - 1]) + (if last.Extracted? then last.text else "")
  }

  /**
   * The heuristics applied to the sampled text: under 100 characters once stripped, or fewer than
   * half of its characters readable, or more than 2% of its length OCR artifacts.
   */
  predicate LooksScanned(t: string) {
    || |Strip(t)| < 100
    || (|t| > 0 && 2 * ReadableCount(t) < |t|)
    || 50 * ArtifactCount(t) > |t|
  }

  /** The number of leading pages sampled. */
  const SampledPages: nat := 3

  /** `_is_pdf_scanned`: an unreadable or empty document counts as scanned. */
  predicate ScanVerdict(doc: Document) {
    match doc
    case None => true
    case Some(pages) => |pages| == 0 || LooksScanned(SampledText(pages[..Min(SampledPages, |pages|)]))
  }

  /** The character loop over one sampled page, adding to the running counts. */
  method CountCharacters(pageText: string, readable0: nat, total0: nat) returns (readable: nat, total: nat)
    ensures readable == readable0 + ReadableCount(pageText)
    ensures total == total0 + |pageText|
  {
    readable, total := readable0, total0;
    var j := 0;
    while j < |pageText|
      invariant 0 <= j <= |pageText|
      invariant readable == readable0 + ReadableCount(pageText[..j])
      invariant total == total0 + j
    {
      assert pageText[..j + 1][..j] == pageText[..j];
      total := total + 1;
      if IsReadable(pageText[j]) {
        readable := readable + 1;
      }
      j := j + 1;
    }
    assert pageText[..|pageText|] == pageText;
  }

  /** The sampling loop with its character count, then the heuristics. */
  method IsPdfScanned(doc: Document) returns (scanned: bool)
    ensures scanned == ScanVerdict(doc)
  {
    if doc.None? {
      return true;
    }
    var pages := doc.value;
    if |pages| == 0 {
      return true;
    }
    var toSample := Min(SampledPages, |pages|);
    var totalText := "";
    var readable := 0;
    var total := 0;
    var i := 0;
    while i < toSample
      invariant 0 <= i <= toSample
      invariant totalText == SampledText(pages[..i])
      invariant readable == ReadableCount(totalText) && total == |totalText|
    {
      SampledTextStep(pages, i);
      if pages[i].Extracted? {
        var pageText := pages[i].text;
        ReadableCountAppend(totalText, pageText);
        totalText := totalText + pageText;
        readable, total := CountCharacters(pageText, readable, total);
      }
      i := i + 1;
    }
    if |Strip(totalText)| < 100 {
      return true;
    }
    if total > 0 && 2 * readable < total {
      return true;
    }
    var artifacts := ArtifactCount(totalText);
    if 50 * artifacts > |totalText| {
      return true;
    }
    return false;
  }

  lemma {:induction false} SampledTextStep(pages: seq<PageText>, i: nat)
    requires i < |pages|
    ensures SampledText(pages[..i + 1]) == SampledText(pages[..i]) + (if pages[i].Extracted? then pages[i].text else "")
  {
    assert pages[..i + 1][..i] == pages[..i];
  }

  lemma {:induction false} ReadableCountAppend(a: string, b: string)
    ensures ReadableCount(a + b) == ReadableCount(a) + ReadableCount(b)
    decreases |b|
  {
    if b == [] {
      assert a + b == a;
    } else {
      var b' := b[..|b| - 1];
      assert (a + b)[..|a + b| - 1] == a + b';
      assert (a + b)[|a + b| - 1] == b[|b| - 1];
      ReadableCountAppend(a, b');
    }
  }

  lemma {:induction false} ReadableCountOfAlnum(s: string)
    requires forall k | 0 <= k < |s| :: IsAlnum(s[k])
    ensures ReadableCount(s) == |s|
    decreases |s|
  {
    if s != [] {
      ReadableCountOfAlnum(s[..|s| - 1]);
    }
  }

  lemma {:induction false} IndicatorCountOfAlnum(s: string, indicators: seq<string>)
    requires forall k | 0 <= k < |indicators| :: indicators[k] != [] && !IsAlnum(indicators[k][0])
    requires forall k | 0 <= k < |s| :: IsAlnum(s[k])
    ensures IndicatorCount(s, indicators) == 0
    decreases |indicators|
  {
    if indicators != [] {
      NotContainsAbsent(s, indicators[0]);
      IndicatorCountOfAlnum(s, indicators[1..]);
    }
  }

  /** A sample of at least 100 letters and digits does not look scanned. */
  lemma {:induction false} AlnumTextIsSearchable(t: string)
    requires |t| >= 100
    requires forall k | 0 <= k < |t| :: IsAlnum(t[k])
    ensures !LooksScanned(t)
  {
    ReadableCountOfAlnum(t);
    IndicatorCountOfAlnum(t, OcrIndicators);
    assert !IsSpace(t[0]);
    assert Strip(t) == t;
  }

  /** Only the first three pages are sampled: pages after them never change the verdict. */
  lemma {:induction false} LaterPagesIgnored(pages: seq<PageText>, more: seq<PageText>)
    requires |pages| >= SampledPages
    ensures ScanVerdict(Some(pages + more)) == ScanVerdict(Some(pages))
  {
    assert (pages + more)[..SampledPages] == pages[..SampledPages];
  }

  lemma {:induction false} SampledTextAppend(a: seq<PageText>, b: seq<PageText>)
    ensures SampledText(a + b) == SampledText(a) + SampledText(b)
    decreases |b|
  {
    if b == [] {
      assert a + b == a;
    } else {
      var b', last := b[..|b| - 1], b[|b| - 1];
      assert (a + b)[..|a + b| - 1] == a + b';
      assert (a + b)[|a + b| - 1] == last;
      calc {
        SampledText(a + b);
        SampledText(a + b') + (if last.Extracted? then last.text else "");
        { SampledTextAppend(a, b'); }
        SampledText(a) + SampledText(b') + (if last.Extracted? then last.text else "");
      }
    }
  }

  /** A page that fails to extract is skipped: it adds nothing to the sampled text. */
  lemma {:induction false} FailedSampleSkipped(a: seq<PageText>, b: seq<PageText>)
    ensures SampledText(a + [PageFailed] + b) == SampledText(a + b)
  {
    SampledTextAppend(a + [PageFailed], b);
    SampledTextAppend(a, [PageFailed]);
    SampledTextAppend(a, b);
    assert [PageFailed][..0] == [];
  }
}
