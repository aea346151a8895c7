/**
 * Turning extracted text into the rows of the attribute table (`format_text_to_structure`).
 *
 * The text is cut into stripped non-blank lines. From the lines and the document's name come a
 * document reference (the REF column) and a functional location. Then the fixed equipment
 * template is emitted, followed by one SPEC row for each line that mentions a technical keyword
 * and holds a token with a digit. `Structure` states the whole table as a function of the text
 * and the name; the method FormatTextToStructure computes it with the source's loops.
 */
module Structuring {
  import opened Wrappers
  import opened Text
  import opened Patterns

  /** One row of the attribute table, in column order. */
  datatype Row = Row(
    location: string,     // functional location
    classNumber: string,
    classType: string,
    position: nat,
    name: string,         // characteristic name
    value: string,        // characteristic value
    description: string,
    unit: string,         // unit of measure
    remarks: string,
    additional: string,
    reference: string)    // document reference

  /** An entry of the equipment template: name, value, description and unit. */
  datatype Attribute = Attribute(name: string, value: string, description: string, unit: string)

  const DefaultReference: string := "P11569-11-99-40-2619-1"
  const DefaultLocation: string := "11-18-XTGD-5403"
  const ClassNumber: string := "FG-FGAS"
  const ClassType: string := "003"

  /** The common attributes of an instrument data sheet, emitted for every document. */
  const EquipmentAttributes: seq<Attribute> := [
    Attribute("NACC01", "\U{00B1}10", "Accuracy", "%"),
    Attribute("HSE-HAZ_AREA", "Hazardous Area", "Area Classification", ""),
    Attribute("CALR01", "0\U{2013}50", "Calibrated Range", "ppm"),
    Attribute("DETCOMM", "4\U{2013}20 mA (HART)", "Detector Communication", ""),
    Attribute("ENVIRONT", "", "Environment", ""),
    Attribute("ACFS01", "Warning, Alarm", "Fail Safe State", ""),
    Attribute("POWREQ", "24 VDC", "Power Requirement", "V"),
    Attribute("TEMP01", "-40 to +75", "Operating Temperature", "\U{00B0}C"),
    Attribute("CERTIF", "ATEX, IECEx", "Certification", ""),
    Attribute("MFGR", "TYCO", "Manufacturer", ""),
    Attribute("MODEL", "H2S Gas Detector", "Model/Type", ""),
    Attribute("CONN01", "M20 x 1.5", "Connection", ""),
    Attribute("HOUSING", "Explosion Proof", "Housing Type", ""),
    Attribute("DISPLAY", "LCD", "Display Type", ""),
    Attribute("ALARM", "Visual & Audible", "Alarm Type", "")
  ]

  /** Lines holding one of these (case-sensitively) are headers and produce no SPEC row. */
  const SkipMarkers: seq<string> := [
    "Sheet", "PETROLEUM", "CONTRACT", "TRANS", "Previous",
    "List of Attachments", "Project Manager", "file://",
    "Terms:", "F.O.B.", "Prices subject", "CONFIDENTIAL"
  ]

  /** A line is technical when its upper-cased form holds one of these. */
  const Keywords: seq<string> := [
    "PPM", "MA", "VDC", "TEMP", "PRESSURE", "RANGE", "ALARM",
    "ACCURACY", "DETECTOR", "GAS", "H2S", "ATEX", "IECEX"
  ]

  /** Units of measure, in the order they are tried. */
  const Units: seq<string> := ["ppm", "mA", "VDC", "\U{00B0}C", "%", "bar", "psi"]

  /** The patterns for a functional location, in the order they are tried on a line. */
  const LocationPatterns: seq<Pattern> := [LocationCodePattern, TagNumberPattern, FigureCodePattern]

  // ---------------------------------------------------------------------------------------------
  // Lines

  /** The stripped pieces that are not blank, in order. */
  function NonBlankStripped(pieces: seq<string>): (ls: seq<string>)
    ensures |ls| <= |pieces|
    ensures forall k | 0 <= k < |ls| :: ls[k] != []
  {
    if pieces == [] then []
    else if IsBlank(pieces[0]) then NonBlankStripped(pieces[1..])
    else [Strip(pieces[0])] + NonBlankStripped(pieces[1..])
  }

  /** Each piece is kept, stripped, unless it is blank; the pieces' order is kept. */
  lemma {:induction false} NonBlankStrippedAppend(a: seq<string>, b: seq<string>)
    ensures NonBlankStripped(a + b) == NonBlankStripped(a) + NonBlankStripped(b)
    decreases |a|
  {
    if a == [] {
      assert a + b == b;
    } else {
      assert (a + b)[0] == a[0];
      assert (a + b)[1..] == a[1..] + b;
      NonBlankStrippedAppend(a[1..], b);
    }
  }

  lemma {:induction false} NonBlankStrippedOne(p: string)
    ensures NonBlankStripped([p]) == if IsBlank(p) then [] else [Strip(p)]
  {
    assert [p][1..] == [];
  }

  /** `[line.strip() for line in text.split('\n') if line.strip()]`. */
  function Lines(text: string): seq<string> {
    NonBlankStripped(SplitOn(text, '\n'))
  }

  // ---------------------------------------------------------------------------------------------
  // Document reference

  function WithLeadingP(m: string): (r: string)
    ensures StartsWith(r, "P")
    ensures StartsWith(m, "P") ==> r == m
    ensures !StartsWith(m, "P") ==> r == "P" + m
  {
    if StartsWith(m, "P") then m else "P" + m
  }

  function WithTrailingOne(m: string): (r: string)
    ensures EndsWith(r, "-1")
    ensures EndsWith(m, "-1") ==> r == m
    ensures !EndsWith(m, "-1") ==> r == m + "-1"
  {
    if EndsWith(m, "-1") then m else m + "-1"
  }

  /**
   * The reference derived from a non-empty document name: its leftmost document-reference match,
   * with "P" in front and "-1" at the end when missing; without a match, "P", the name with
   * every '-' turned into '.', and "-1".
   */
  function NameReference(name: string): string {
    match Find(DocRefPattern, name)
    case Some(m) => WithTrailingOne(WithLeadingP(m))
    case None => "P" + ReplaceChar(name, '-', '.') + "-1"
  }

  /** `if pdf_name:` — a name is given and is not empty. */
  predicate HasName(pdfName: Option<string>) { pdfName.Some? && pdfName.value != [] }

  /** The reference before the text is consulted. */
  function InitialReference(pdfName: Option<string>): string {
    if HasName(pdfName) then NameReference(pdfName.value) else DefaultReference
  }

  /** The leftmost document-reference match of the first line that has one, with "P" in front. */
  function FirstReference(lines: seq<string>): Option<string> {
    if lines == [] then None
    else match Find(DocRefPattern, lines[0])
      case Some(m) => Some(WithLeadingP(m))
      case None => FirstReference(lines[1..])
  }

  /** FirstReference is None when no line has a match, and otherwise comes from the first that has. */
  lemma {:induction false} FirstReferenceIsFirst(lines: seq<string>)
    ensures FirstReference(lines).None? <==> forall k | 0 <= k < |lines| :: Find(DocRefPattern, lines[k]).None?
    ensures FirstReference(lines).Some? ==> exists k | 0 <= k < |lines| ::
      && Find(DocRefPattern, lines[k]).Some?
      && FirstReference(lines).value == WithLeadingP(Find(DocRefPattern, lines[k]).value)
      && forall k' | 0 <= k' < k :: Find(DocRefPattern, lines[k']).None?
  {
    if lines != [] && Find(DocRefPattern, lines[0]).None? {
      FirstReferenceIsFirst(lines[1..]);
      assert forall k | 1 <= k < |lines| :: lines[1..][k - 1] == lines[k];
      if FirstReference(lines).Some? {
        var k :| 0 <= k < |lines[1..]| && Find(DocRefPattern, lines[1..][k]).Some?
          && FirstReference(lines).value == WithLeadingP(Find(DocRefPattern, lines[1..][k]).value)
          && forall k' | 0 <= k' < k :: Find(DocRefPattern, lines[1..][k']).None?;
        assert lines[1..][k] == lines[k + 1];
      }
    }
  }

  /** The first twenty lines, where the text's own reference is looked for. */
  function Head(lines: seq<string>): seq<string> {
    lines[..Min(20, |lines|)]
  }

  /** The REF column: a reference in the first twenty lines overrides the one from the name. */
  function DocumentReference(lines: seq<string>, pdfName: Option<string>): string {
    match FirstReference(Head(lines))
    case Some(r) => r
    case None => InitialReference(pdfName)
  }

  // ---------------------------------------------------------------------------------------------
  // Functional location

  /** The leftmost match exists and is longer than 8 characters. */
  predicate IsLong(m: Option<string>) { m.Some? && |m.value| > 8 }

  /**
   * The leftmost match of the first pattern of `ps` whose leftmost match in `line` is longer than
   * 8 characters. A shorter match of a pattern is not looked past: the next pattern is tried.
   */
  function LongMatch(ps: seq<Pattern>, line: string): (r: Option<string>)
    ensures r.Some? ==> |r.value| > 8
  {
    if ps == [] then None
    else if IsLong(Find(ps[0], line)) then Find(ps[0], line)
    else LongMatch(ps[1..], line)
  }

  /** LongMatch takes the first pattern whose leftmost match is long, and is None when none is. */
  lemma {:induction false} LongMatchIsFirstLong(ps: seq<Pattern>, line: string)
    ensures LongMatch(ps, line).None? <==> forall k | 0 <= k < |ps| :: !IsLong(Find(ps[k], line))
    ensures LongMatch(ps, line).Some? ==> exists k | 0 <= k < |ps| ::
      && Find(ps[k], line) == LongMatch(ps, line)
      && forall k' | 0 <= k' < k :: !IsLong(Find(ps[k'], line))
  {
    LongMatchNone(ps, line);
    if LongMatch(ps, line).Some? {
      var k := LongMatchIndex(ps, line);
    }
  }

  lemma {:induction false} LongMatchNone(ps: seq<Pattern>, line: string)
    ensures LongMatch(ps, line).None? <==> forall k | 0 <= k < |ps| :: !IsLong(Find(ps[k], line))
  {
    if ps != [] && !IsLong(Find(ps[0], line)) {
      LongMatchNone(ps[1..], line);
      assert forall k | 1 <= k < |ps| :: ps[1..][k - 1] == ps[k];
    }
  }

  lemma {:induction false} LongMatchIndex(ps: seq<Pattern>, line: string) returns (k: nat)
    requires LongMatch(ps, line).Some?
    ensures k < |ps| && Find(ps[k], line) == LongMatch(ps, line)
    ensures forall k' | 0 <= k' < k :: !IsLong(Find(ps[k'], line))
  {
    if IsLong(Find(ps[0], line)) {
      k := 0;
    } else {
      var k1 := LongMatchIndex(ps[1..], line);
      k := k1 + 1;
      assert ps[1..][k1] == ps[k];
      forall k' | 0 <= k' < k ensures !IsLong(Find(ps[k'], line)) {
        if k' > 0 { assert ps[1..][k' - 1] == ps[k']; }
      }
    }
  }

  /** The location a line sets, if any. */
  function LineLocation(line: string): Option<string> {
    LongMatch(LocationPatterns, line)
  }

  /** The location after all of `lines` have been scanned: set by the last line that sets one. */
  function FunctionalLocation(lines: seq<string>): string {
    if lines == [] then DefaultLocation
    else match LineLocation(lines[|lines| - 1])
      case Some(m) => m
      case None => FunctionalLocation(lines[..|lines| - 1])
  }

  /** Scanning one more line: the location it sets, or the one so far. */
  lemma {:induction false} FunctionalLocationStep(lines: seq<string>, n: nat)
    requires n < |lines|
    ensures FunctionalLocation(lines[..n + 1]) ==
      if LineLocation(lines[n]).Some? then LineLocation(lines[n]).value else FunctionalLocation(lines[..n])
  {
    assert lines[..n + 1][..n] == lines[..n];
  }

  // ---------------------------------------------------------------------------------------------
  // Rows

  function TemplateRow(a: Attribute, pos: nat, loc: string, ref: string): Row {
    Row(loc, ClassNumber, ClassType, pos, a.name, a.value, a.description, a.unit, "", "", ref)
  }

  /**
   * The template rows from position `pos` on; an attribute with an empty value is dropped when
   * the position it would take is a multiple of 3, and then takes no position.
   */
  function TemplateRows(attrs: seq<Attribute>, pos: nat, loc: string, ref: string): (rows: seq<Row>)
    ensures |rows| <= |attrs|
    ensures forall k | 0 <= k < |rows| :: rows[k].position == pos + k
  {
    if attrs == [] then []
    else if attrs[0].value == [] && pos % 3 == 0 then TemplateRows(attrs[1..], pos, loc, ref)
    else [TemplateRow(attrs[0], pos, loc, ref)] + TemplateRows(attrs[1..], pos + 1, loc, ref)
  }

  /** A line that is not a header and mentions a technical keyword. */
  predicate IsTechnical(line: string) {
    !ContainsAny(line, SkipMarkers) && ContainsAny(ToUpper(line), Keywords)
  }

  /** Index of the first token with a digit in it. */
  function FirstNumbered(parts: seq<string>): (r: Option<nat>)
    ensures r.Some? ==> r.value < |parts|
  {
    if parts == [] then None
    else if HasNumber(parts[0]) then Some(0)
    else match FirstNumbered(parts[1..])
      case Some(i) => Some(i + 1)
      case None => None
  }

  /** FirstNumbered finds the first token with a digit, and is None when no token has one. */
  lemma {:induction false} FirstNumberedIsFirst(parts: seq<string>)
    ensures FirstNumbered(parts).None? <==> forall k | 0 <= k < |parts| :: !HasNumber(parts[k])
    ensures FirstNumbered(parts).Some? ==> FirstNumbered(parts).value < |parts| && HasNumber(parts[FirstNumbered(parts).value])
    ensures FirstNumbered(parts).Some? ==> forall k | 0 <= k < FirstNumbered(parts).value :: !HasNumber(parts[k])
  {
    if parts != [] && !HasNumber(parts[0]) {
      FirstNumberedIsFirst(parts[1..]);
      assert forall k | 1 <= k < |parts| :: parts[1..][k - 1] == parts[k];
    }
  }

  /** The first unit of `units` that occurs in `lowerLine`, compared in lower case; "" if none. */
  function FirstUnit(lowerLine: string, units: seq<string>): (u: string)
    ensures u == [] || exists k | 0 <= k < |units| :: u == units[k]
  {
    if units == [] then ""
    else if Contains(lowerLine, ToLower(units[0])) then units[0]
    else FirstUnit(lowerLine, units[1..])
  }

  /** The unit of measure a line mentions. */
  function UnitOf(line: string): string {
    FirstUnit(ToLower(line), Units)
  }

  /** `f"SPEC{pos:02d}"`. */
  function SpecName(pos: nat): string {
    "SPEC" + ZeroPad2(pos)
  }

  /** `parts[max(0, i-2):i+3]`: the token at `i` with up to two neighbours on each side. */
  function Window(parts: seq<string>, i: nat): seq<string>
    requires i < |parts|
  {
    parts[(if i < 2 then 0 else i - 2)..Min(i + 3, |parts|)]
  }

  /** The window joined by spaces, cut to 50 characters, then stripped. */
  function SpecDescription(parts: seq<string>, i: nat): string
    requires i < |parts|
  {
    Strip(Take(JoinWith(Window(parts, i), " "), 50))
  }

  /** What a technical line yields: a value, its description and the line's unit. */
  datatype SpecFields = SpecFields(value: string, description: string, unit: string)

  /** The fields a line yields, if it yields a SPEC row at all. */
  function LineFields(line: string): Option<SpecFields> {
    if !IsTechnical(line) then None else NumberedFields(Tokens(line), UnitOf(line))
  }

  /** The fields for the first token with a digit in `parts`, if there is one. */
  function NumberedFields(parts: seq<string>, unit: string): Option<SpecFields> {
    match FirstNumbered(parts)
    case None => None
    case Some(i) => Some(SpecFields(parts[i], SpecDescription(parts, i), unit))
  }

  /** The SPEC row a line contributes at position `pos`, if any. */
  function SpecRow(line: string, pos: nat, loc: string, ref: string): Option<Row> {
    match LineFields(line)
    case None => None
    case Some(f) => Some(Row(loc, ClassNumber, ClassType, pos, SpecName(pos), f.value, f.description, f.unit, "", "", ref))
  }

  /** The SPEC rows of `lines` from position `pos` on, one per contributing line, in order. */
  function SpecRows(lines: seq<string>, pos: nat, loc: string, ref: string): seq<Row> {
    if lines == [] then []
    else match SpecRow(lines[0], pos, loc, ref)
      case Some(r) => [r] + SpecRows(lines[1..], pos + 1, loc, ref)
      case None => SpecRows(lines[1..], pos, loc, ref)
  }

  /** The whole attribute table for `text` and the document name. */
  function Structure(text: string, pdfName: Option<string>): seq<Row> {
    if IsBlank(text) then []
    else
      var lines := Lines(text);
      var loc := FunctionalLocation(lines);
      var ref := DocumentReference(lines, pdfName);
      var template := TemplateRows(EquipmentAttributes, 1, loc, ref);
      template + SpecRows(lines, 1 + |template|, loc, ref)
  }

  // ---------------------------------------------------------------------------------------------
  // The procedure

  /** Index of the first token with a digit in it: the token loop with its `break`. */
  method FindNumberedToken(parts: seq<string>) returns (r: Option<nat>)
    ensures r == FirstNumbered(parts)
  {
    var i := 0;
    while i < |parts|
      invariant 0 <= i <= |parts|
      invariant forall k | 0 <= k < i :: !HasNumber(parts[k])
    {
      FirstNumberedIsFirst(parts);
      if HasNumber(parts[i]) {
        return Some(i);
      }
      i := i + 1;
    }
    FirstNumberedIsFirst(parts);
    return None;
  }

  /** The unit of measure of a line: the unit loop with its `break`. */
  method FindUnit(line: string) returns (u: string)
    ensures u == UnitOf(line)
  {
    var lower := ToLower(line);
    u := "";
    var k := 0;
    while k < |Units|
      invariant 0 <= k <= |Units|
      invariant UnitOf(line) == FirstUnit(lower, Units[k..])
    {
      if Contains(lower, ToLower(Units[k])) {
        u := Units[k];
        break;
      }
      assert Units[k..][1..] == Units[k + 1..];
      k := k + 1;
    }
  }

  /** The reference from the name, overridden by the first reference in the first 20 lines. */
  method ScanReference(lines: seq<string>, pdfName: Option<string>) returns (ref: string)
    ensures ref == DocumentReference(lines, pdfName)
  {
    ref := InitialReference(pdfName);
    var head := Head(lines);
    var h := 0;
    while h < |head|
      invariant 0 <= h <= |head|
      invariant FirstReference(head[h..]) == FirstReference(head)
      invariant ref == InitialReference(pdfName)
    {
      var m := Find(DocRefPattern, head[h]);
      if m.Some? {
        ref := WithLeadingP(m.value);
        return;
      }
      assert head[h..][1..] == head[h + 1..];
      h := h + 1;
    }
  }

  /** The functional location: every line is scanned, and `break` leaves only the pattern loop. */
  method ScanLocation(lines: seq<string>) returns (loc: string)
    ensures loc == FunctionalLocation(lines)
  {
    loc := DefaultLocation;
    var n := 0;
    while n < |lines|
      invariant 0 <= n <= |lines|
      invariant loc == FunctionalLocation(lines[..n])
    {
      var q := 0;
      while q < |LocationPatterns|
        invariant 0 <= q <= |LocationPatterns|
        invariant LineLocation(lines[n]) == LongMatch(LocationPatterns[q..], lines[n])
        invariant loc == FunctionalLocation(lines[..n])
      {
        var m := Find(LocationPatterns[q], lines[n]);
        if m.Some? && |m.value| > 8 {
          loc := m.value;
          break;
        }
        assert LocationPatterns[q..][1..] == LocationPatterns[q + 1..];
        q := q + 1;
      }
      FunctionalLocationStep(lines, n);
      n := n + 1;
    }
    assert lines[..n] == lines;
  }

  /** The template rows, numbered from 1; `pos` is the next free position. */
  method EmitTemplate(attrs: seq<Attribute>, loc: string, ref: string) returns (rows: seq<Row>, pos: nat)
    ensures rows == TemplateRows(attrs, 1, loc, ref)
    ensures pos == 1 + |rows|
  {
    rows := [];
    pos := 1;
    var t := 0;
    while t < |attrs|
      invariant 0 <= t <= |attrs|
      invariant pos == 1 + |rows|
      invariant rows + TemplateRows(attrs[t..], pos, loc, ref) == TemplateRows(attrs, 1, loc, ref)
    {
      var a := attrs[t];
      assert attrs[t..][1..] == attrs[t + 1..];
      if a.value == [] && pos % 3 == 0 {
        t := t + 1;
        continue;
      }
      ghost var rest := TemplateRows(attrs[t + 1..], pos + 1, loc, ref);
      assert rows + [TemplateRow(a, pos, loc, ref)] + rest == rows + ([TemplateRow(a, pos, loc, ref)] + rest);
      rows := rows + [TemplateRow(a, pos, loc, ref)];
      pos := pos + 1;
      t := t + 1;
    }
  }

  /** The body of the line loop: the SPEC row `line` contributes at position `pos`, if any. */
  method LineSpec(line: string, pos: nat, loc: string, ref: string) returns (r: Option<Row>)
    ensures r == SpecRow(line, pos, loc, ref)
  {
    if ContainsAny(line, SkipMarkers) {
      return None;
    }
    if !ContainsAny(ToUpper(line), Keywords) {
      return None;
    }
    var parts := Tokens(line);
    var i := FindNumberedToken(parts);
    if i.None? {
      return None;
    }
    var unit := FindUnit(line);
    return Some(Row(loc, ClassNumber, ClassType, pos, "SPEC" + ZeroPad2(pos), parts[i.value],
                    Strip(Take(JoinWith(Window(parts, i.value), " "), 50)), unit, "", "", ref));
  }

  /** The SPEC rows, appended to `rows0` from position `pos0` on. */
  method EmitSpecs(lines: seq<string>, loc: string, ref: string, rows0: seq<Row>, pos0: nat) returns (rows: seq<Row>)
    requires pos0 == 1 + |rows0|
    ensures rows == rows0 + SpecRows(lines, pos0, loc, ref)
  {
    rows := rows0;
    var pos := pos0;
    var rest := lines;
    while rest != []
      invariant pos == 1 + |rows|
      invariant rows + SpecRows(rest, pos, loc, ref) == rows0 + SpecRows(lines, pos0, loc, ref)
      decreases |rest|
    {
      var r := LineSpec(rest[0], pos, loc, ref);
      SpecRowsStep(rest, pos, loc, ref);
      if r.Some? {
        RowsAssoc(rows, [r.value], SpecRows(rest[1..], pos + 1, loc, ref));
        rows := rows + [r.value];
        pos := pos + 1;
      }
      rest := rest[1..];
    }
  }

  lemma {:induction false} SpecRowsStep(lines: seq<string>, pos: nat, loc: string, ref: string)
    requires lines != []
    ensures var r := SpecRow(lines[0], pos, loc, ref);
      SpecRows(lines, pos, loc, ref) ==
        if r.Some? then [r.value] + SpecRows(lines[1..], pos + 1, loc, ref) else SpecRows(lines[1..], pos, loc, ref)
  {
  }

  lemma {:induction false} RowsAssoc(a: seq<Row>, b: seq<Row>, c: seq<Row>)
    ensures a + b + c == a + (b + c)
  {
  }

  /** `format_text_to_structure(text, pdf_name)`. */
  method FormatTextToStructure(text: string, pdfName: Option<string>) returns (rows: seq<Row>)
    ensures rows == Structure(text, pdfName)
  {
    if IsBlank(text) {
      return [];
    }
    var lines := Lines(text);
    var ref := ScanReference(lines, pdfName);
    var loc := ScanLocation(lines);
    var template, pos := EmitTemplate(EquipmentAttributes, loc, ref);
    rows := EmitSpecs(lines, loc, ref, template, pos);
  }
}
