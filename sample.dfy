/**
 * The fallback table used when a document yields no text (`_generate_sample_attributes`): a fixed
 * list of 15 attributes at a fixed location, with the reference derived from the document name.
 */
module Sample {
  import opened Text
  import opened Patterns
  import opened Structuring
  import opened StructuringFacts

  const SampleLocation: string := "11-18-XTGD-5404"

  const SampleAttributes: seq<Attribute> := [
    Attribute("NACC01", "\U{00B1}5", "Accuracy", "%"),
    Attribute("HSE-HAZ_AREA", "Zone 1", "Area Classification", ""),
    Attribute("CALR01", "0\U{2013}100", "Calibrated Range", "ppm"),
    Attribute("DETCOMM", "Modbus RTU", "Detector Communication", ""),
    Attribute("ENVIRONT", "IP65", "Environment Rating", ""),
    Attribute("ACFS01", "Fail to Safe", "Fail Safe State", ""),
    Attribute("POWREQ", "12-30 VDC", "Power Requirement", "V"),
    Attribute("TEMP01", "-20 to +60", "Operating Temperature", "\U{00B0}C"),
    Attribute("CERTIF", "ATEX Zone 1", "Certification", ""),
    Attribute("MFGR", "Honeywell", "Manufacturer", ""),
    Attribute("MODEL", "Gas Monitor", "Model/Type", ""),
    Attribute("CONN01", "1/2 NPT", "Connection", ""),
    Attribute("HOUSING", "Weatherproof", "Housing Type", ""),
    Attribute("DISPLAY", "LED Indicators", "Display Type", ""),
    Attribute("ALARM", "Relay Output", "Alarm Type", "")
  ]

  /** The attributes in order as rows numbered from 1, nothing skipped. */
  function NumberedRows(attrs: seq<Attribute>, loc: string, ref: string): (rows: seq<Row>)
    ensures |rows| == |attrs|
    ensures forall k | 0 <= k < |attrs| :: rows[k] == TemplateRow(attrs[k], k + 1, loc, ref)
  {
    seq(|attrs|, k requires 0 <= k < |attrs| => TemplateRow(attrs[k], k + 1, loc, ref))
  }

  /** The sample table for a document name. */
  function SampleRows(pdfName: string): seq<Row> {
    NumberedRows(SampleAttributes, SampleLocation, NameReference(pdfName))
  }

  /** The row loop: one row per attribute, with a position counter. */
  method AppendNumbered(attrs: seq<Attribute>, loc: string, ref: string) returns (rows: seq<Row>)
    ensures rows == NumberedRows(attrs, loc, ref)
  {
    rows := [];
    var pos := 1;
    var t := 0;
    while t < |attrs|
      invariant 0 <= t <= |attrs|
      invariant |rows| == t && pos == t + 1
      invariant forall k | 0 <= k < t :: rows[k] == TemplateRow(attrs[k], k + 1, loc, ref)
    {
      rows := rows + [TemplateRow(attrs[t], pos, loc, ref)];
      pos := pos + 1;
      t := t + 1;
    }
  }

  /** `_generate_sample_attributes(pdf_name)`. */
  method GenerateSampleAttributes(pdfName: string) returns (rows: seq<Row>)
    ensures rows == SampleRows(pdfName)
  {
    var ref := NameReference(pdfName);
    rows := AppendNumbered(SampleAttributes, SampleLocation, ref);
  }

  /**
   * The sample table has 15 rows at positions 1..15, all at "11-18-XTGD-5404" with the shared
   * columns, and a reference that starts with "P" and ends with "-1".
   */
  lemma {:induction false} SampleRowsShape(pdfName: string)
    ensures |SampleRows(pdfName)| == 15
    ensures forall k | 0 <= k < 15 ::
      && SampleRows(pdfName)[k].position == k + 1
      && SharedColumns(SampleRows(pdfName)[k], SampleLocation, NameReference(pdfName))
      && SampleRows(pdfName)[k].name == SampleAttributes[k].name
      && SampleRows(pdfName)[k].value == SampleAttributes[k].value
    ensures StartsWith(NameReference(pdfName), "P") && EndsWith(NameReference(pdfName), "-1")
  {
    NameReferenceShape(pdfName);
  }

  /** An empty name has no reference in it and gives "P-1". */
  lemma {:induction false} EmptyNameReference()
    ensures NameReference("") == "P-1"
  {
    assert forall i, j | 0 <= i <= j <= 0 :: !Matches(DocRefPattern, ""[i..j]) by {
      forall i, j | 0 <= i <= j <= 0 ensures !Matches(DocRefPattern, ""[i..j]) {
        assert ""[i..j] == "";
      }
    }
    FindIsLeftmostLongest(DocRefPattern, "");
  }
}
