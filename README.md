# PDF-to-Excel processor: a Dafny model of its decision and structuring logic

The processor (`PDFProcessor` in `pdf_to_excel.py`) turns instrument data sheets into an
11-column attribute table. For each document it:

- reads the text directly from the PDF, or falls back to OCR;
- judges the quality of what it read;
- derives a document reference and a functional location;
- emits a fixed 15-entry equipment template, followed by one `SPEC` row per technical line;
- when no text comes through, falls back to a fixed sample table;
- in batch mode, combines several documents into one table with a per-file summary.

The model covers these parts:

- **Structuring** (`Structuring`, `StructuringFacts`): `format_text_to_structure`.
  - It is a method built from phase methods: the reference scan, the location scan, the template loop and the SPEC loop.
  - It is proved equal to the specification function `Structure`.
  - The table's layout, the provenance of the reference and the location, and the contents of each SPEC row are proved as lemmas about `Structure`.
- **Patterns** (`Patterns`): hand-written matchers for the four fixed regular expressions.
  - The patterns are `P?(\d+[-.]){3}\d+`, `\d{2}-\d{2}-[A-Z]{4}-\d{4}`, `[A-Z]{2,}-\d+` and `\d+-\d+-[A-Z]+`, plus the `\d+` digit test.
  - Each pattern's language is defined by explicit cut points.
  - `re.search` is modelled by `Find`, which is proved to return the leftmost match and, among the matches starting there, the longest.
  - For these patterns, Python's greedy backtracking match is exactly that longest match.
- **Sample fallback** (`Sample`): `_generate_sample_attributes`.
- **Page aggregation** (`Extraction`): the page loops of `extract_text_from_pdf` and `ocr_pdf`.
  - The PDF reader, the rasterizer and the OCR engine are abstracted away.
  - Their per-page results are inputs: a page's text or a failure, and for OCR the primary and alternative results.
- **Quality heuristics** (`Quality`): `_is_low_quality_extraction`, and the counting logic of `_is_pdf_scanned`.
  - `_is_pdf_scanned` is defined in the source but never called by the processor.
- **Strategy** (`Strategy`): `process_pdf_to_excel` and `process_multiple_pdfs_to_excel`.
  - The single-document path is a function.
  - The combine path is a loop over the paths followed by the status tally.
- **Helpers**: `Text` holds the string operations; `Wrappers` holds `Option` and `Result`.

Modelling decisions:

- **Characters.**
  - Whitespace is Python's `str.isspace` set in full.
  - Digits, letters and case mapping are ASCII only: `\d`, `isdigit`, `isalpha`, `isalnum`, `upper` and `lower` on non-ASCII characters are not modelled.
  - So a non-ASCII letter counts as neither a letter nor a digit, and case mapping leaves it unchanged.
  - Strings are sequences of Unicode scalar values. A Python string can also hold a lone surrogate code point, which has no counterpart here.
- **Ratios.** Every floating-point ratio test is stated as the integer inequality it is equivalent to:
  - `alpha/len < 0.3` becomes `10·alpha < 3·len`;
  - `problem > len·0.05` becomes `20·problem > len`;
  - `readable/total < 0.5` becomes `2·readable < total`;
  - `artifacts > len·0.02` becomes `50·artifacts > len`;
  - `|ocr| > |direct|·1.5` becomes `2·|ocr| > 3·|direct|`.
  - The doubles nearest 0.3, 0.05 and 0.02 lie on the side of the real constant that keeps each test exact for every length below about 10^15.
- **Inputs.**
  - The file system is reduced to an "exists" flag per path.
  - The document name (`Path(pdf_path).stem`) is an input.
  - The results of the PDF libraries are inputs.
  - An exception raised while processing one path of the combine loop is an input (`PdfInput.fault`).
- **Results.** Writing the spreadsheet is not modelled. Both entry points return the table that would be written; the source returns its length.

Where the code and the prose description disagree, the model follows the code:

- The document reference taken from the document name gets a `-1` suffix unless it already ends in `-1`.
- The reference found in the text gets no suffix.
- The pattern `P?(\d+[-.]){3}\d+` takes exactly four digit groups, so a name with five groups loses its last one: `P11569-11-99-40-2619` gives the reference `P11569-11-99-40-1`, not `P11569-11-99-40-2619-1` (FifthGroupDropped).

## Model

| member | source | states |
|---|---|---|
| Text.StripIsTrim | pdf_to_excel.py:222 | `strip()`: the result is a slice of the input with only whitespace before and after it; it is empty iff the input is whitespace only, and otherwise neither starts nor ends with whitespace |
| Text.SplitOn | pdf_to_excel.py:226 | `split('\n')`: pieces contain no separator, and joining them with the separator gives back the input |
| Text.TokensSplitAtSpace | pdf_to_excel.py:337 | `split()` cuts at every whitespace character: the tokens of `a + [c] + b` for a whitespace `c` are those of `a` followed by those of `b` |
| Text.TokensOfWord | pdf_to_excel.py:337 | a non-empty run without whitespace is exactly one token |
| Text.TokensOfBlank | pdf_to_excel.py:337 | a whitespace-only string has no tokens (with the two rows above, this determines `split()` on every string) |
| Text.TokensCoverNonSpace | pdf_to_excel.py:337 | the tokens put together are exactly the input's non-whitespace characters, in order |
| Text.CountOccurrencesAppend | pdf_to_excel.py:568 | `count` of a one-character string adds up over a concatenation |
| Text.CountOccurrencesOfChar | pdf_to_excel.py:568 | one character counts 1 if it is the counted character and 0 otherwise (with the row above, the count is the number of positions holding the character) |
| Text.CountIsNonOverlapping | pdf_to_excel.py:532 | occurrences of a two-character indicator do not overlap: `"///".count("//")` is 1 and `"]]]]]".count("]]")` is 2 |
| Text.ZeroPad2 | pdf_to_excel.py:342 | `:02d`: digits whose decimal value is the number, exactly two of them below 100, with no leading zero beyond two, and the plain numeral from 10 on |
| Text.DecimalRoundTrip | pdf_to_excel.py:342 | the decimal numeral of n reads back as n |
| Patterns.RefBodyEndIsLongest | pdf_to_excel.py:230 | the reference-body scanner returns a match, and no longer match starts at the same place |
| Patterns.TagNumberEndIsLongest | pdf_to_excel.py:283 | the same for `[A-Z]{2,}-\d+` |
| Patterns.FigureCodeEndIsLongest | pdf_to_excel.py:284 | the same for `\d+-\d+-[A-Z]+` |
| Patterns.MatchAtIsLongest | pdf_to_excel.py:281-285 | for every pattern, the match at a position lies in the language and no longer one exists there |
| Patterns.FindIsLeftmostLongest | pdf_to_excel.py:236 | `re.search`: None iff no substring matches; otherwise the result is a matching substring, nothing matches further left, and nothing longer matches at its start |
| Patterns.FindWhole | pdf_to_excel.py:250-252 | a string that is itself in the language is found whole |
| Structuring.NonBlankStrippedAppend | pdf_to_excel.py:226 | the kept lines of consecutive pieces are those of each part, in order |
| Structuring.NonBlankStrippedOne | pdf_to_excel.py:226 | one piece is dropped when blank and otherwise kept stripped (with the row above, this determines the whole list) |
| Structuring.NameReference | pdf_to_excel.py:234-246 | the reference derived from a document name; its two cases are stated by NameReferenceShape and an instance by FifthGroupDropped |
| Structuring.DocumentReference | pdf_to_excel.py:229-256 | the REF column: the first match among the first 20 lines, else the name-derived reference, else the default; computed by ScanReference and stated by ReferenceDefault, ReferenceFromName and ReferenceFromText |
| Structuring.FirstReferenceIsFirst | pdf_to_excel.py:249-256 | the text reference is that of the first line with a match, with "P" in front, or none if no line matches |
| Structuring.LongMatchIsFirstLong | pdf_to_excel.py:288-292 | a line's location is the match of the first pattern, in list order, whose match is longer than 8 characters |
| Structuring.FunctionalLocationStep | pdf_to_excel.py:287-292 | adding a line with a long match makes that match the location; adding another line keeps the previous one |
| Structuring.FunctionalLocation | pdf_to_excel.py:278-292 | the location set by the last line with a qualifying match, else the default; computed by ScanLocation and stated by LastLocationWins and LocationDefault |
| Structuring.TemplateRows | pdf_to_excel.py:297-316 | at most one row per attribute, positions counted on from the first |
| Structuring.FirstNumberedIsFirst | pdf_to_excel.py:340-341 | the value token is the first token holding a digit; none iff no token holds one |
| Structuring.FindNumberedToken | pdf_to_excel.py:340-341 | the token loop returns the first token with a digit |
| Structuring.FindUnit | pdf_to_excel.py:347-351 | the unit loop with its `break` gives the line's unit |
| Structuring.ScanReference | pdf_to_excel.py:231-256 | the reference loop gives the document reference |
| Structuring.ScanLocation | pdf_to_excel.py:278-292 | the nested location loops, whose `break` leaves only the pattern loop, give the functional location of the last qualifying line |
| Structuring.EmitTemplate | pdf_to_excel.py:295-316 | the template loop gives the template rows and the next position |
| Structuring.LineSpec | pdf_to_excel.py:328-368 | one line's pass through the SPEC loop gives that line's row or none |
| Structuring.EmitSpecs | pdf_to_excel.py:319-372 | the SPEC loop appends the SPEC rows of all lines, positions continuing the count |
| Structuring.FormatTextToStructure | pdf_to_excel.py:209-375 | `format_text_to_structure` computes the table `Structure` describes |
| Structuring.Structure | pdf_to_excel.py:209-375 | the table `format_text_to_structure` returns; its layout is stated by StructureEmptyIffBlank, StructureParts and StructureLayout |
| StructuringFacts.TemplateRowsWithoutSkip | pdf_to_excel.py:297-316 | when no empty value falls on a multiple of 3, every attribute gives a row, and the k-th row has position pos+k |
| StructuringFacts.OnlyEnvironmentIsEmpty | pdf_to_excel.py:259-275 | the template has 15 entries; only ENVIRONT has an empty value |
| StructuringFacts.ShippedTemplateNeverSkips | pdf_to_excel.py:297-300 | with the shipped template the skip never fires: 15 rows at positions 1..15 in template order |
| StructuringFacts.SpecRowExists | pdf_to_excel.py:328-341 | a line gives a SPEC row iff it has no skip marker, its upper-cased form holds a keyword, and a token holds a digit |
| StructuringFacts.NumberedFieldsContents | pdf_to_excel.py:337-344 | value = first token with a digit; description = the tokens from two before it to two after, cut to 50 characters, then stripped |
| StructuringFacts.LineFieldsContents | pdf_to_excel.py:337-351 | a contributing line's fields are those of its tokens, with the line's unit |
| StructuringFacts.SpecRowContents | pdf_to_excel.py:353-365 | the SPEC row holds the fields, the shared columns, and "SPEC" plus digits whose value is the position: exactly two digits below position 100, the plain numeral from 10 on |
| StructuringFacts.SpecRowsAreContributingLines | pdf_to_excel.py:319-368 | the SPEC rows are the rows of the contributing lines, in line order, numbered consecutively |
| StructuringFacts.SpecRowsOfLength | pdf_to_excel.py:319-368 | one SPEC row per contributing line |
| StructuringFacts.FirstUnitAbsent | pdf_to_excel.py:347-351 | no unit iff no unit occurs in the lower-cased line |
| StructuringFacts.FirstUnitFound | pdf_to_excel.py:347-351 | a unit found is the first, in list order, that occurs in the lower-cased line |
| StructuringFacts.FirstUnitIsFirst | pdf_to_excel.py:347-351 | both of the above for any list of non-empty units |
| StructuringFacts.UnitOfIsFirst | pdf_to_excel.py:347-351 | the same for the shipped unit list [ppm, mA, VDC, °C, %, bar, psi] |
| StructuringFacts.StructureEmptyIffBlank | pdf_to_excel.py:222-224 | the table is empty iff the text is whitespace only |
| StructuringFacts.SpecRowsShape | pdf_to_excel.py:353-367 | every SPEC row has the shared columns, and positions run on from the first |
| StructuringFacts.StructureParts | pdf_to_excel.py:220-368 | a non-blank text gives the template rows followed by the SPEC rows from position 16 |
| StructuringFacts.JoinedShape | pdf_to_excel.py:302-365 | template and SPEC rows joined keep their shared columns and consecutive positions |
| StructuringFacts.StructureLayout | pdf_to_excel.py:295-367 | 15 + (number of contributing lines) rows; rows 1..15 are the template in order; row k has position k; every row has the same location, "FG-FGAS", "003", empty remarks and extras, and the same reference |
| StructuringFacts.NameReferenceShape | pdf_to_excel.py:234-246 | the name-derived reference always starts with "P" and ends with "-1": either the name's match completed, or "P" + name with '-' replaced by '.' + "-1" |
| StructuringFacts.FifthGroupDropped | pdf_to_excel.py:236-246 | the name P11569-11-99-40-2619 gives the reference P11569-11-99-40-1: the match stops after four digit groups and gets "-1" |
| StructuringFacts.ReferenceDefault | pdf_to_excel.py:231 | no name, or an empty one, and no match in the first 20 lines gives "P11569-11-99-40-2619-1" |
| StructuringFacts.ReferenceFromName | pdf_to_excel.py:234-246 | with a name and no match in the first 20 lines, the reference comes from the name |
| StructuringFacts.FirstReferenceAt | pdf_to_excel.py:249-256 | the first line with a match decides the text reference |
| StructuringFacts.ReferenceFromText | pdf_to_excel.py:249-256 | a match among the first 20 lines overrides the name: the first such match, with "P" in front |
| StructuringFacts.TextReferenceKeepsItsEnd | pdf_to_excel.py:252-255 | a reference found in the text gets no "-1": it ends in "-1" only when the match does |
| StructuringFacts.UnsuffixedReferenceBody | pdf_to_excel.py:230 | "1-2-3-4" is a reference that does not end in "-1" |
| StructuringFacts.LastLocationWins | pdf_to_excel.py:287-292 | the last line with a qualifying match sets the location, whatever earlier lines set |
| StructuringFacts.LocationDefault | pdf_to_excel.py:278 | with no qualifying line, the location is "11-18-XTGD-5403" |
| Sample.SampleRows | pdf_to_excel.py:795-860 | the sample table for a name; its contents are stated by SampleRowsShape |
| Sample.AppendNumbered | pdf_to_excel.py:841-857 | the sample loop gives the numbered rows |
| Sample.GenerateSampleAttributes | pdf_to_excel.py:795-860 | `_generate_sample_attributes` gives the sample table |
| Sample.SampleRowsShape | pdf_to_excel.py:809-857 | 15 rows at positions 1..15, location "11-18-XTGD-5404", the shared columns, the sample names and values, and a name-derived reference starting with "P" and ending with "-1" |
| Sample.EmptyNameReference | pdf_to_excel.py:809-817 | an empty name has no match and gives the reference "P-1" |
| Extraction.DirectText | pdf_to_excel.py:42-73 | the text direct extraction returns: the non-blank pages each followed by a newline, stripped, or "" for an unreadable file; characterized by DirectTextEmpty, JoinedPagesAppend and FailedPageIgnored |
| Extraction.ExtractTextFromPdf | pdf_to_excel.py:52-73 | the page loop and the strip compute the direct text; an unreadable file gives "" |
| Extraction.JoinedPagesAppend | pdf_to_excel.py:58-62 | page order is kept: the text of consecutive page runs is their texts in order |
| Extraction.FailedPageIgnored | pdf_to_excel.py:65-67 | a failing page adds nothing |
| Extraction.JoinedPagesBlank | pdf_to_excel.py:61-62 | the joined pages are blank iff no page has non-blank text |
| Extraction.DirectTextEmpty | pdf_to_excel.py:52-73 | direct extraction gives "" iff the file is unreadable or no page has non-blank text |
| Extraction.OcrText | pdf_to_excel.py:75-169 | the text OCR returns: the recognized pages each followed by a newline, stripped, or "" when rasterizing failed or no page was recognized; characterized by OcrTextEmpty and PageSucceeds |
| Extraction.OcrSuccesses | pdf_to_excel.py:140-153 | never more successful pages than pages |
| Extraction.RecognizePage | pdf_to_excel.py:124-159 | one page: the primary result if non-blank, else the alternative result if non-blank, else nothing |
| Extraction.OcrPdf | pdf_to_excel.py:120-169 | the OCR loop with its retry, then the zero-success check and the strip |
| Extraction.AlternativeOnlyForBlankPrimary | pdf_to_excel.py:140-152 | with a non-blank primary result, the alternative one is never used |
| Extraction.PageSucceeds | pdf_to_excel.py:140-156 | a page succeeds iff its primary result is non-blank, or it is blank and the alternative is non-blank; what it adds is non-blank |
| Extraction.OcrJoinedBlank | pdf_to_excel.py:140-153 | the OCR text is blank iff no page succeeded |
| Extraction.OcrSuccessesZero | pdf_to_excel.py:140-153 | the success count is zero iff every page failed |
| Extraction.OcrTextEmpty | pdf_to_excel.py:96-169 | OCR gives "" iff rasterizing failed or no page succeeded |
| Quality.IsLowQuality | pdf_to_excel.py:545-572 | `_is_low_quality_extraction`: under 50 stripped characters, letters under 30% of the length, or problem characters over 5% of it; stated by LettersAreGoodQuality, PaddingLowersQuality and BarsMarkLowQuality |
| Quality.AlphaCount | pdf_to_excel.py:559 | never more letters than characters |
| Quality.NoProblemCharacters | pdf_to_excel.py:567 | a text without U+FFFD, backslash or bar has no problem characters |
| Quality.LettersAreGoodQuality | pdf_to_excel.py:555-572 | a run of 50 or more letters is not low quality |
| Quality.PaddingLowersQuality | pdf_to_excel.py:559-565 | the letter ratio uses the unstripped length: letters padded with enough whitespace are low quality |
| Quality.BarsMarkLowQuality | pdf_to_excel.py:567-569 | more bars than a twentieth of the length make any text low quality |
| Quality.ReadableCount | pdf_to_excel.py:509-511 | never more readable characters than characters |
| Quality.CountCharacters | pdf_to_excel.py:509-511 | the character loop adds the page's readable count and its length to the running counts |
| Quality.LooksScanned | pdf_to_excel.py:518-537 | a sample looks scanned when under 100 stripped characters, readable characters under half, or artifacts over 2% of the length; stated by AlnumTextIsSearchable |
| Quality.IsPdfScanned | pdf_to_excel.py:491-543 | `_is_pdf_scanned`: the sampling loop and the heuristics give the scan verdict (unreadable or empty document, short sample, low readable ratio, too many artifacts) |
| Quality.AlnumTextIsSearchable | pdf_to_excel.py:518-537 | a sample of 100 or more letters and digits does not look scanned |
| Quality.LaterPagesIgnored | pdf_to_excel.py:498-502 | pages after the third never change the verdict |
| Quality.SampledTextAppend | pdf_to_excel.py:504-506 | the sampled text is the pages' texts in order |
| Quality.FailedSampleSkipped | pdf_to_excel.py:513-515 | a failing page adds nothing to the sample |
| Strategy.SelectSingle | pdf_to_excel.py:588-612 | the text the single-document path keeps; stated by ForcedOcrSelectsOcr, SingleSelection and OcrRatioIsStrict |
| Strategy.ProcessPdfToExcel | pdf_to_excel.py:574-636 | `process_pdf_to_excel`: FileNotFound, ValueError with the no-text message, or the structured table; stated by MissingFileRaises, SingleOutcome and NoTextMessageShape |
| Strategy.ForcedOcrSelectsOcr | pdf_to_excel.py:590-593 | forced OCR takes the OCR text on both paths, with the label forced_ocr on the combine path |
| Strategy.SingleSelection | pdf_to_excel.py:594-612 | direct text that is non-blank, over 50 characters and not low quality is kept; blank direct text gives way to OCR; otherwise OCR replaces it iff OCR is non-blank and strictly more than 1.5 times longer |
| Strategy.OcrRatioIsStrict | pdf_to_excel.py:606 | OCR text exactly 1.5 times as long does not replace the direct text on either path |
| Strategy.NoTextMessageShape | pdf_to_excel.py:616-619 | both no-text messages start with the same lead and end with the install hint; the unforced one suggests `--ocr`; the forced one has nothing in between |
| Strategy.SingleOutcome | pdf_to_excel.py:614-636 | for an existing file: ValueError iff the chosen text is blank; otherwise the table is the structured one, with 15 + (contributing lines) rows; the sample fallback is never reached |
| Strategy.MissingFileRaises | pdf_to_excel.py:583-584 | a missing file raises FileNotFound |
| Strategy.MultiLabels | pdf_to_excel.py:668-693 | text_extraction keeps non-blank direct text; ocr_fallback takes non-blank OCR text; failed keeps the direct text when OCR is blank; blank direct text with non-blank OCR is ocr_fallback |
| Strategy.SelectMulti | pdf_to_excel.py:664-693 | the text and the processing label of the combine path; stated by ForcedOcrSelectsOcr, MultiLabels and OcrRatioIsStrict |
| Strategy.FileOutcome | pdf_to_excel.py:650-762 | the rows and summary entry of one path; computed by ProcessOne and stated by FileOutcomeShape, FileStatus and MissingPathSkipped |
| Strategy.Tally | pdf_to_excel.py:775-788 | the success, sample and failed counts over the summary entries; computed by CountStatuses and stated by TallyOfKnown |
| Strategy.CombineResult | pdf_to_excel.py:647-793 | `process_multiple_pdfs_to_excel`: ValueError when nothing was combined, else the rows, the entries and the counts; computed by ProcessMultiplePdfsToExcel and stated by CombineFailsIffNoFile and NothingCompletelyFails |
| Strategy.SampleFallback | pdf_to_excel.py:711-720 | the sample table and its summary entry under the given status |
| Strategy.ProcessOne | pdf_to_excel.py:650-762 | the loop body for one path computes its rows and summary entry |
| Strategy.CountStatuses | pdf_to_excel.py:775-788 | the tally loop computes the success, sample and failed counts |
| Strategy.ProcessMultiplePdfsToExcel | pdf_to_excel.py:647-793 | the combine loop, the empty check and the tally give the combined result |
| Strategy.FileOutcomeShape | pdf_to_excel.py:650-762 | a missing path adds nothing; an existing one adds rows and exactly one entry, with its name, row count and one of four statuses |
| Strategy.FileStatus | pdf_to_excel.py:695-751 | a fault gives error_with_sample and the sample table; non-blank text gives success with the structured table and the stripped length; blank text gives failed_with_sample and the sample table |
| Strategy.CombineAllAppend | pdf_to_excel.py:700-743 | the combined rows and entries are those of the paths, concatenated in input order |
| Strategy.MissingPathSkipped | pdf_to_excel.py:651-653 | a missing path leaves no row and no summary entry |
| Strategy.SummariesOfExisting | pdf_to_excel.py:650-762 | every entry has a known status; there are no rows iff no path exists |
| Strategy.CombineFailsIffNoFile | pdf_to_excel.py:764-765 | the combine path raises ValueError iff none of the paths exists |
| Strategy.KnownStatusCounts | pdf_to_excel.py:783-786 | each of the four statuses is a success or contains "sample" |
| Strategy.TallyOfKnown | pdf_to_excel.py:779-788 | over known statuses the failed count is 0, and successes plus samples equal the entries |
| Strategy.NothingCompletelyFails | pdf_to_excel.py:775-790 | in any combined result, the "completely failed" count is 0 |

## Left out

- The PDF reader, the rasterizer and the OCR engine are foreign libraries. Instead, their per-page results are inputs:
  - PyPDF2 reading;
  - pdf2image conversion, including its internal threads;
  - the pdf2image import check;
  - pytesseract, including its configuration strings.
- `_preprocess_image_for_ocr`: pixel operations with floating-point enhancement factors. The page it produces is folded into the OCR inputs.
- `write_to_excel` and `_format_excel_sheet_attributes`: spreadsheet output and cell styling. The entry points return the table instead of its length.
- `batch_process` and `main`: directory globbing, directory creation, argument parsing, console output and exit codes.
- Logging, including the warning when fewer than half of the OCR pages succeed. It changes no result.
- `os.path.exists` and `Path(pdf_path).stem` are file-system and path operations. They are inputs.
- The per-line `try`/`except` in `format_text_to_structure` guards code that cannot raise on strings. It is not modelled.
- The combine path's "complete_failure" entry is not modelled. It is written only when `_generate_sample_attributes` raises, which it cannot do on a string name. Every other exception in the loop body is the input `PdfInput.fault`, assumed to happen before any row is added.
- The general `re` engine. Only the five fixed patterns are modelled.
- Non-ASCII digits, letters and case mapping.
- The other scripts of the repository: combine_excel.py, create_clean_combined.py, examine_sample.py, examine_excel.py, test_pdf_content.py and example_usage.py. They read and write spreadsheets or print diagnostics.
- CountOccurrences: for a substring of two or more characters (five of the eight OCR indicators) the count is given only by its definition, its bounds, "at least one iff it occurs", and the non-overlap examples; no general law relates it to the counts of the parts of a string, since an occurrence can straddle the cut.
- Strategy.NoTextMessageShape: the forced-OCR message's lack of the `--ocr` hint is stated as its exact composition (lead followed by install hint), not as "does not contain `--ocr`".
