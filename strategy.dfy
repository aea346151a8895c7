/**
 * The two entry points that choose between direct extraction and OCR and hand the chosen text to
 * the structuring: `process_pdf_to_excel` for one document and `process_multiple_pdfs_to_excel`
 * for a combined table. The file system is reduced to an "exists" flag per path, the document
 * name (`Path(pdf_path).stem`) is an input, and spreadsheet writing is left out: the result is
 * the table that would be written.
 */
module Strategy {
  import opened Wrappers
  import opened Text
  import opened Structuring
  import opened StructuringFacts
  import opened Sample
  import opened Extraction
  import opened Quality

  // ---------------------------------------------------------------------------------------------
  // one document

  /** The two exceptions `process_pdf_to_excel` raises. */
  datatype ProcessError = FileNotFound(path: string) | ValueError(message: string)

  /** The text chosen on the single-document path from the direct and the OCR text. */
  function SelectSingle(direct: string, ocr: string, useOcr: bool): string {
    if useOcr then ocr
    else if Strip(direct) != "" then
      if |Strip(direct)| > 50 && !IsLowQuality(direct) then direct
      else if Strip(ocr) != "" && 2 * |Strip(ocr)| > 3 * |Strip(direct)| then ocr
      else direct
    else ocr
  }

  const NoTextLead: string := "No text could be extracted from the PDF. "
  const OcrHint: string := "This might be a scanned PDF. Try using --ocr flag. "
  const InstallHint: string := "Ensure Tesseract and Poppler are properly installed."
  const NothingStructured: string := "No data could be structured from the extracted text"

  /** The message raised when no text was found; the OCR hint is given only when OCR was not forced. */
  function NoTextMessage(useOcr: bool): string {
    NoTextLead + (if useOcr then "" else OcrHint) + InstallHint
  }

  /**
   * `process_pdf_to_excel`: the table it writes (its length is the value returned), or the
   * exception it raises.
   */
  function ProcessPdfToExcel(path: string, fileExists: bool, pdfName: string, doc: Document,
                             raster: Option<seq<OcrPage>>, useOcr: bool): Result<seq<Row>, ProcessError>
  {
    if !fileExists then Err(FileNotFound(path))
    else
      var text := SelectSingle(DirectText(doc), OcrText(raster), useOcr);
      if Strip(text) == "" then Err(ValueError(NoTextMessage(useOcr)))
      else
        var structured := Structure(text, Some(pdfName));
        var rows := if structured == [] then SampleRows(pdfName) else structured;
        if rows == [] then Err(ValueError(NothingStructured)) else Ok(rows)
  }

  /** Forced OCR takes the OCR text, whatever direct extraction gives. */
  lemma {:induction false} ForcedOcrSelectsOcr(direct: string, ocr: string)
    ensures SelectSingle(direct, ocr, true) == ocr
    ensures SelectMulti(direct, ocr, true) == Selection(ocr, "forced_ocr")
  {
  }

  /**
   * The single-document choice: good direct text is kept; blank direct text gives way to OCR
   * outright; otherwise OCR wins only when it is non-blank and strictly more than 1.5 times longer.
   */
  lemma {:induction false} SingleSelection(direct: string, ocr: string)
    ensures Strip(direct) != "" && |Strip(direct)| > 50 && !IsLowQuality(direct) ==>
      SelectSingle(direct, ocr, false) == direct
    ensures Strip(direct) == "" ==> SelectSingle(direct, ocr, false) == ocr
    ensures Strip(direct) != "" && (|Strip(direct)| <= 50 || IsLowQuality(direct)) ==>
      (SelectSingle(direct, ocr, false) == ocr <==>
        ocr == direct || (Strip(ocr) != "" && 2 * |Strip(ocr)| > 3 * |Strip(direct)|))
  {
  }

  /** The 1.5 rule is strict: OCR text exactly 1.5 times as long does not replace the direct text. */
  lemma {:induction false} OcrRatioIsStrict(direct: string, ocr: string)
    requires Strip(direct) != "" && IsLowQuality(direct)
    requires 2 * |Strip(ocr)| == 3 * |Strip(direct)|
    ensures SelectSingle(direct, ocr, false) == direct
    ensures SelectMulti(direct, ocr, false) == Selection(direct, "text_extraction")
  {
  }

  /**
   * Both no-text messages open with the same lead and close with the installation hint; the one
   * for an unforced run also suggests the OCR flag, the one for a forced run has nothing between.
   */
  lemma {:induction false} NoTextMessageShape(useOcr: bool)
    ensures StartsWith(NoTextMessage(useOcr), NoTextLead) && EndsWith(NoTextMessage(useOcr), InstallHint)
    ensures !useOcr ==> Contains(NoTextMessage(useOcr), "--ocr")
    ensures useOcr ==> NoTextMessage(useOcr) == NoTextLead + InstallHint
  {
    var m := NoTextMessage(useOcr);
    assert m[..|NoTextLead|] == NoTextLead;
    assert m[|m| - |InstallHint|..] == InstallHint;
    if !useOcr {
      assert m[80..85] == OcrHint[39..44] == "--ocr";
      ContainsAt(m, "--ocr", 80);
    }
  }

  /**
   * A readable path raises ValueError iff the chosen text is blank; otherwise the table is the
   * structured table itself, 15 template rows and one row per contributing line, and the sample
   * fallback is never taken.
   */
  lemma {:induction false} SingleOutcome(path: string, pdfName: string, doc: Document,
                                         raster: Option<seq<OcrPage>>, useOcr: bool)
    ensures var text := SelectSingle(DirectText(doc), OcrText(raster), useOcr);
      var r := ProcessPdfToExcel(path, true, pdfName, doc, raster, useOcr);
      && (r.Err? <==> IsBlank(text))
      && (r.Err? ==> r.error == ValueError(NoTextMessage(useOcr)))
      && (r.Ok? ==> r.value == Structure(text, Some(pdfName))
                    && |r.value| == 15 + |ContributingLines(Lines(text))|)
  {
    var text := SelectSingle(DirectText(doc), OcrText(raster), useOcr);
    StructureEmptyIffBlank(text, Some(pdfName));
    if !IsBlank(text) {
      StructureLayout(text, Some(pdfName));
    }
  }

  /** A missing file raises FileNotFound and nothing else is looked at. */
  lemma {:induction false} MissingFileRaises(path: string, pdfName: string, doc: Document,
                                             raster: Option<seq<OcrPage>>, useOcr: bool)
    ensures ProcessPdfToExcel(path, false, pdfName, doc, raster, useOcr) == Err(FileNotFound(path))
  {
  }

  // ---------------------------------------------------------------------------------------------
  // several documents

  /** The text chosen on the combine path and the method processing recorded for it. */
  datatype Selection = Selection(text: string, processing: string)

  /** The combine-path choice: threshold 100, and OCR also wins outright over blank direct text. */
  function SelectMulti(direct: string, ocr: string, useOcr: bool): Selection {
    if useOcr then Selection(ocr, "forced_ocr")
    else if Strip(direct) != "" && |Strip(direct)| > 100 && !IsLowQuality(direct) then
      Selection(direct, "text_extraction")
    else if Strip(ocr) != "" then
      if Strip(direct) == "" || 2 * |Strip(ocr)| > 3 * |Strip(direct)| then Selection(ocr, "ocr_fallback")
      else Selection(direct, "text_extraction")
    else Selection(direct, "failed")
  }

  /** The combine-path method labels: which text each one stands for. */
  lemma {:induction false} MultiLabels(direct: string, ocr: string)
    ensures var s := SelectMulti(direct, ocr, false);
      && s.processing in {"text_extraction", "ocr_fallback", "failed"}
      && (s.processing == "text_extraction" ==> s.text == direct && Strip(direct) != "")
      && (s.processing == "ocr_fallback" ==> s.text == ocr && Strip(ocr) != "")
      && (s.processing == "failed" ==> s.text == direct && Strip(ocr) == "")
      && (Strip(direct) == "" && Strip(ocr) != "" ==> s == Selection(ocr, "ocr_fallback"))
  {
  }

  /** One path given to the combine path, with what its libraries would deliver. */
  datatype PdfInput = PdfInput(
    onDisk: bool,            // `os.path.exists(pdf_path)`
    name: string,            // `Path(pdf_path).stem`
    doc: Document,           // what the PDF reader gives
    raster: Option<seq<OcrPage>>,  // what rasterizing and OCR give
    fault: Option<string>    // an exception raised while processing the path, with its message
  )

  /** One `processing_summary` entry. */
  datatype Summary = Summary(file: string, status: string, processing: string, rows: nat,
                             textLength: nat, error: Option<string>)

  /** What one path adds: rows to the combined table and entries to the summary. */
  datatype FileResult = FileResult(rows: seq<Row>, summaries: seq<Summary>)

  /** The fallback for a path: the sample table, recorded under `status`. */
  function SampleResult(name: string, status: string, error: Option<string>): FileResult {
    var rows := SampleRows(name);
    if rows == [] then FileResult([], [])
    else FileResult(rows, [Summary(name, status, "fallback", |rows|, 0, error)])
  }

  /** The body of the combine loop for one path. */
  function FileOutcome(input: PdfInput, useOcr: bool): FileResult {
    if !input.onDisk then FileResult([], [])
    else if input.fault.Some? then SampleResult(input.name, "error_with_sample", input.fault)
    else
      var sel := SelectMulti(DirectText(input.doc), OcrText(input.raster), useOcr);
      if Strip(sel.text) != "" then
        var rows := Structure(sel.text, Some(input.name));
        if rows != [] then
          FileResult(rows, [Summary(input.name, "success", sel.processing, |rows|, |Strip(sel.text)|, None)])
        else SampleResult(input.name, "sample_data", None)
      else SampleResult(input.name, "failed_with_sample", None)
  }

  /** The per-path results joined in order: rows after rows, entries after entries. */
  function Gather(results: seq<FileResult>): FileResult
    decreases |results|
  {
    if results == [] then FileResult([], [])
    else
      var before := Gather(results[..|results| - 1]);
      var last := results[|results| - 1];
      FileResult(before.rows + last.rows, before.summaries + last.summaries)
  }

  /** The result of each path. */
  function Outcomes(inputs: seq<PdfInput>, useOcr: bool): (os: seq<FileResult>)
    ensures |os| == |inputs|
  {
    seq(|inputs|, k requires 0 <= k < |inputs| => FileOutcome(inputs[k], useOcr))
  }

  /** The rows and summaries of all paths, in input order. */
  function CombineAll(inputs: seq<PdfInput>, useOcr: bool): FileResult {
    Gather(Outcomes(inputs, useOcr))
  }

  /** The final tally of the summary. */
  datatype Counts = Counts(successful: nat, sampleData: nat, failed: nat)

  /** A status the tally counts under "with sample data". */
  predicate CountsAsSample(status: string) { Contains(status, "sample") || Contains(status, "error") }

  function Tally(summaries: seq<Summary>): Counts
    decreases |summaries|
  {
    if summaries == [] then Counts(0, 0, 0)
    else
      var c := Tally(summaries[..|summaries| - 1]);
      var status := summaries[|summaries| - 1].status;
      if status == "success" then Counts(c.successful + 1, c.sampleData, c.failed)
      else if CountsAsSample(status) then Counts(c.successful, c.sampleData + 1, c.failed)
      else Counts(c.successful, c.sampleData, c.failed + 1)
  }

  /** The combined table with its summary and the tally logged after it. */
  datatype Combined = Combined(rows: seq<Row>, summaries: seq<Summary>, counts: Counts)

  const NothingCombined: string := "No structured data could be created from any PDF"

  /** `process_multiple_pdfs_to_excel`: the combined table, or the ValueError it raises. */
  function CombineResult(inputs: seq<PdfInput>, useOcr: bool): Result<Combined, string> {
    var all := CombineAll(inputs, useOcr);
    if all.rows == [] then Err(NothingCombined)
    else Ok(Combined(all.rows, all.summaries, Tally(all.summaries)))
  }

  /** The sample fallback under a status, as `_generate_sample_attributes` and the summary append. */
  method SampleFallback(name: string, status: string, error: Option<string>) returns (r: FileResult)
    ensures r == SampleResult(name, status, error)
  {
    var rows := GenerateSampleAttributes(name);
    if rows == [] {
      return FileResult([], []);
    }
    r := FileResult(rows, [Summary(name, status, "fallback", |rows|, 0, error)]);
  }

  /** The combine loop body for one path, calling the extraction and structuring methods. */
  method ProcessOne(input: PdfInput, useOcr: bool) returns (r: FileResult)
    ensures r == FileOutcome(input, useOcr)
  {
    if !input.onDisk {
      return FileResult([], []);
    }
    if input.fault.Some? {
      r := SampleFallback(input.name, "error_with_sample", input.fault);
      return;
    }
    var text: string;
    var processing: string;
    if useOcr {
      text := OcrPdf(input.raster);
      processing := "forced_ocr";
    } else {
      text := ExtractTextFromPdf(input.doc);
      if Strip(text) != "" && |Strip(text)| > 100 && !IsLowQuality(text) {
        processing := "text_extraction";
      } else {
        var ocrText := OcrPdf(input.raster);
        if Strip(ocrText) != "" {
          if Strip(text) == "" || 2 * |Strip(ocrText)| > 3 * |Strip(text)| {
            text := ocrText;
            processing := "ocr_fallback";
          } else {
            processing := "text_extraction";
          }
        } else {
          processing := "failed";
        }
      }
    }
    assert Selection(text, processing) == SelectMulti(DirectText(input.doc), OcrText(input.raster), useOcr);
    if Strip(text) != "" {
      var rows := FormatTextToStructure(text, Some(input.name));
      if rows != [] {
        r := FileResult(rows, [Summary(input.name, "success", processing, |rows|, |Strip(text)|, None)]);
      } else {
        r := SampleFallback(input.name, "sample_data", None);
      }
    } else {
      r := SampleFallback(input.name, "failed_with_sample", None);
    }
  }

  /** The tally loop over the summary. */
  method CountStatuses(summaries: seq<Summary>) returns (c: Counts)
    ensures c == Tally(summaries)
  {
    var successful, sampleData, failed := 0, 0, 0;
    var i := 0;
    while i < |summaries|
      invariant 0 <= i <= |summaries|
      invariant Counts(successful, sampleData, failed) == Tally(summaries[..i])
    {
      assert summaries[..i + 1][..i] == summaries[..i];
      var status := summaries[i].status;
      if status == "success" {
        successful := successful + 1;
      } else if CountsAsSample(status) {
        sampleData := sampleData + 1;
      } else {
        failed := failed + 1;
      }
      i := i + 1;
    }
    assert summaries[..|summaries|] == summaries;
    c := Counts(successful, sampleData, failed);
  }

  lemma {:induction false} GatherStep(os: seq<FileResult>, i: nat)
    requires i < |os|
    ensures Gather(os[..i + 1]) == FileResult(Gather(os[..i]).rows + os[i].rows, Gather(os[..i]).summaries + os[i].summaries)
  {
    assert os[..i + 1][..i] == os[..i];
  }

  /** `process_multiple_pdfs_to_excel`: the loop over the paths, the check, then the tally. */
  method ProcessMultiplePdfsToExcel(inputs: seq<PdfInput>, useOcr: bool) returns (r: Result<Combined, string>)
    ensures r == CombineResult(inputs, useOcr)
  {
    var allRows: seq<Row> := [];
    var summaries: seq<Summary> := [];
    ghost var os := Outcomes(inputs, useOcr);
    var i := 0;
    while i < |inputs|
      invariant 0 <= i <= |inputs|
      invariant FileResult(allRows, summaries) == Gather(os[..i])
    {
      var one := ProcessOne(inputs[i], useOcr);
      GatherStep(os, i);
      allRows := allRows + one.rows;
      summaries := summaries + one.summaries;
      i := i + 1;
    }
    assert os[..|inputs|] == os;
    if allRows == [] {
      return Err(NothingCombined);
    }
    var counts := CountStatuses(summaries);
    r := Ok(Combined(allRows, summaries, counts));
  }

  // ---------------------------------------------------------------------------------------------
  // properties of the combine path

  /** Every summary status `FileOutcome` can produce. */
  predicate KnownStatus(status: string) {
    status in {"success", "sample_data", "error_with_sample", "failed_with_sample"}
  }

  /** The outcome of one path: a missing path adds nothing; an existing one adds rows and one entry. */
  lemma {:induction false} FileOutcomeShape(input: PdfInput, useOcr: bool)
    ensures var o := FileOutcome(input, useOcr);
      && (!input.onDisk ==> o == FileResult([], []))
      && (input.onDisk ==> o.rows != [] && |o.summaries| == 1 && o.summaries[0].file == input.name
                           && o.summaries[0].rows == |o.rows| && KnownStatus(o.summaries[0].status))
  {
    SampleRowsShape(input.name);
    if input.onDisk && input.fault.None? {
      var sel := SelectMulti(DirectText(input.doc), OcrText(input.raster), useOcr);
      StructureEmptyIffBlank(sel.text, Some(input.name));
    }
  }

  /**
   * The status of an existing path without a fault: "success" with the stripped text length when
   * the chosen text is non-blank, "failed_with_sample" and the sample table otherwise; a fault
   * gives "error_with_sample" and the sample table.
   */
  lemma {:induction false} FileStatus(input: PdfInput, useOcr: bool)
    requires input.onDisk
    ensures var o := FileOutcome(input, useOcr);
      var sel := SelectMulti(DirectText(input.doc), OcrText(input.raster), useOcr);
      && (input.fault.Some? ==>
            o.rows == SampleRows(input.name) && o.summaries[0].status == "error_with_sample")
      && (input.fault.None? && !IsBlank(sel.text) ==>
            o.rows == Structure(sel.text, Some(input.name))
            && o.summaries[0] == Summary(input.name, "success", sel.processing, |o.rows|, |Strip(sel.text)|, None))
      && (input.fault.None? && IsBlank(sel.text) ==>
            o.rows == SampleRows(input.name) && o.summaries[0].status == "failed_with_sample")
  {
    SampleRowsShape(input.name);
    if input.fault.None? {
      var sel := SelectMulti(DirectText(input.doc), OcrText(input.raster), useOcr);
      StructureEmptyIffBlank(sel.text, Some(input.name));
    }
  }

  lemma {:induction false} GatherAppend(a: seq<FileResult>, b: seq<FileResult>)
    ensures Gather(a + b) == FileResult(Gather(a).rows + Gather(b).rows, Gather(a).summaries + Gather(b).summaries)
    decreases |b|
  {
    if b == [] {
      assert a + b == a;
    } else {
      var b', last := b[..|b| - 1], b[|b| - 1];
      assert (a + b)[..|a + b| - 1] == a + b';
      assert (a + b)[|a + b| - 1] == last;
      GatherAppend(a, b');
    }
  }

  lemma {:induction false} OutcomesAppend(a: seq<PdfInput>, b: seq<PdfInput>, useOcr: bool)
    ensures Outcomes(a + b, useOcr) == Outcomes(a, useOcr) + Outcomes(b, useOcr)
  {
    var l, r := Outcomes(a + b, useOcr), Outcomes(a, useOcr) + Outcomes(b, useOcr);
    forall k | 0 <= k < |l| ensures l[k] == r[k] {
      if k < |a| { assert (a + b)[k] == a[k]; } else { assert (a + b)[k] == b[k - |a|]; }
    }
  }

  /** The combined table is the per-path tables concatenated in input order. */
  lemma {:induction false} CombineAllAppend(a: seq<PdfInput>, b: seq<PdfInput>, useOcr: bool)
    ensures CombineAll(a + b, useOcr).rows == CombineAll(a, useOcr).rows + CombineAll(b, useOcr).rows
    ensures CombineAll(a + b, useOcr).summaries == CombineAll(a, useOcr).summaries + CombineAll(b, useOcr).summaries
  {
    OutcomesAppend(a, b, useOcr);
    GatherAppend(Outcomes(a, useOcr), Outcomes(b, useOcr));
  }

  /** An empty result in the middle changes nothing. */
  lemma {:induction false} GatherSkipsEmpty(p: seq<FileResult>, q: seq<FileResult>)
    ensures Gather(p + [FileResult([], [])] + q) == Gather(p + q)
  {
    var e := [FileResult([], [])];
    GatherAppend(p + e, q);
    GatherAppend(p, e);
    GatherAppend(p, q);
    assert e[..0] == [];
  }

  /** A missing path is skipped: it adds neither rows nor a summary entry. */
  lemma {:induction false} MissingPathSkipped(a: seq<PdfInput>, x: PdfInput, b: seq<PdfInput>, useOcr: bool)
    requires !x.onDisk
    ensures CombineAll(a + [x] + b, useOcr) == CombineAll(a + b, useOcr)
  {
    OutcomesAppend(a + [x], b, useOcr);
    OutcomesAppend(a, [x], useOcr);
    OutcomesAppend(a, b, useOcr);
    assert Outcomes([x], useOcr) == [FileResult([], [])];
    GatherSkipsEmpty(Outcomes(a, useOcr), Outcomes(b, useOcr));
  }

  /** Every summary entry carries one of the known statuses. */
  predicate AllKnown(ss: seq<Summary>) { forall j | 0 <= j < |ss| :: KnownStatus(ss[j].status) }

  /** What every path's result satisfies. */
  predicate WellShaped(o: FileResult) { AllKnown(o.summaries) }

  lemma {:induction false} GatherShape(results: seq<FileResult>)
    requires forall k | 0 <= k < |results| :: WellShaped(results[k])
    ensures AllKnown(Gather(results).summaries)
    ensures Gather(results).rows == [] <==> forall k | 0 <= k < |results| :: results[k].rows == []
    decreases |results|
  {
    if results != [] {
      var init, last := results[..|results| - 1], results[|results| - 1];
      assert forall k | 0 <= k < |init| :: init[k] == results[k];
      GatherShape(init);
      var g := Gather(init);
      assert Gather(results).summaries == g.summaries + last.summaries;
      assert forall j | 0 <= j < |last.summaries| :: (g.summaries + last.summaries)[|g.summaries| + j] == last.summaries[j];
    }
  }

  lemma {:induction false} OutcomesShape(inputs: seq<PdfInput>, useOcr: bool)
    ensures forall k | 0 <= k < |inputs| ::
      WellShaped(Outcomes(inputs, useOcr)[k]) && (Outcomes(inputs, useOcr)[k].rows == [] <==> !inputs[k].onDisk)
  {
    forall k | 0 <= k < |inputs|
      ensures WellShaped(Outcomes(inputs, useOcr)[k]) && (Outcomes(inputs, useOcr)[k].rows == [] <==> !inputs[k].onDisk)
    {
      FileOutcomeShape(inputs[k], useOcr);
    }
  }

  /** Every summary status is a known one, and there are no rows iff no path exists. */
  lemma {:induction false} SummariesOfExisting(inputs: seq<PdfInput>, useOcr: bool)
    ensures AllKnown(CombineAll(inputs, useOcr).summaries)
    ensures CombineAll(inputs, useOcr).rows == [] <==> forall k | 0 <= k < |inputs| :: !inputs[k].onDisk
  {
    OutcomesShape(inputs, useOcr);
    GatherShape(Outcomes(inputs, useOcr));
  }

  /** The combine path raises ValueError iff none of the paths exists. */
  lemma {:induction false} CombineFailsIffNoFile(inputs: seq<PdfInput>, useOcr: bool)
    ensures CombineResult(inputs, useOcr).Err? <==> forall k | 0 <= k < |inputs| :: !inputs[k].onDisk
  {
    SummariesOfExisting(inputs, useOcr);
  }

  lemma {:induction false} KnownStatusCounts(status: string)
    requires KnownStatus(status)
    ensures status == "success" || CountsAsSample(status)
  {
    if status == "sample_data" {
      ContainsAt(status, "sample", 0);
    } else if status == "error_with_sample" {
      ContainsAt(status, "sample", 11);
    } else if status == "failed_with_sample" {
      ContainsAt(status, "sample", 12);
    }
  }

  lemma {:induction false} TallyOfKnown(summaries: seq<Summary>)
    requires AllKnown(summaries)
    ensures Tally(summaries).failed == 0
    ensures Tally(summaries).successful + Tally(summaries).sampleData == |summaries|
    decreases |summaries|
  {
    if summaries != [] {
      var init := summaries[..|summaries| - 1];
      assert forall k | 0 <= k < |init| :: init[k] == summaries[k];
      TallyOfKnown(init);
      KnownStatusCounts(summaries[|summaries| - 1].status);
    }
  }

  /**
   * The "completely failed" count is always zero: every entry is either a success or carries
   * the sample table, so successes and sample entries account for every summary.
   */
  lemma {:induction false} NothingCompletelyFails(inputs: seq<PdfInput>, useOcr: bool)
    requires CombineResult(inputs, useOcr).Ok?
    ensures var c := CombineResult(inputs, useOcr).value;
      c.counts.failed == 0 && c.counts.successful + c.counts.sampleData == |c.summaries|
  {
    SummariesOfExisting(inputs, useOcr);
    TallyOfKnown(CombineAll(inputs, useOcr).summaries);
  }
}
