/**
 * What the attribute table looks like: its size and layout, the shared columns, which lines give
 * SPEC rows and what those rows hold, where the document reference and the functional location
 * come from.
 */
module StructuringFacts {
  import opened Wrappers
  import opened Text
  import opened Patterns
  import opened Structuring

  // ---------------------------------------------------------------------------------------------
  // The template

  /** When no empty value falls on a multiple of 3, every attribute gives a row, numbered on. */
  lemma {:induction false} TemplateRowsWithoutSkip(attrs: seq<Attribute>, pos: nat, loc: string, ref: string)
    requires forall k | 0 <= k < |attrs| :: attrs[k].value == [] ==> (pos + k) % 3 != 0
    ensures |TemplateRows(attrs, pos, loc, ref)| == |attrs|
    ensures forall k | 0 <= k < |attrs| :: TemplateRows(attrs, pos, loc, ref)[k] == TemplateRow(attrs[k], pos + k, loc, ref)
    decreases |attrs|
  {
    if attrs != [] {
      assert attrs[0].value == [] ==> pos % 3 != 0;
      forall k | 0 <= k < |attrs[1..]|
        ensures attrs[1..][k].value == [] ==> (pos + 1 + k) % 3 != 0
      {
        assert attrs[1..][k] == attrs[k + 1];
      }
      TemplateRowsWithoutSkip(attrs[1..], pos + 1, loc, ref);
      var tail := TemplateRows(attrs[1..], pos + 1, loc, ref);
      assert TemplateRows(attrs, pos, loc, ref) == [TemplateRow(attrs[0], pos, loc, ref)] + tail;
      forall k | 0 <= k < |attrs|
        ensures TemplateRows(attrs, pos, loc, ref)[k] == TemplateRow(attrs[k], pos + k, loc, ref)
      {
        if k > 0 {
          assert attrs[1..][k - 1] == attrs[k];
          assert tail[k - 1] == TemplateRow(attrs[k], pos + k, loc, ref);
        }
      }
    }
  }

  /** In the shipped template only ENVIRONT (the fifth entry) has an empty value. */
  lemma {:induction false} OnlyEnvironmentIsEmpty()
    ensures |EquipmentAttributes| == 15
    ensures forall k | 0 <= k < 15 :: EquipmentAttributes[k].value == [] <==> k == 4
  {
  }

  /**
   * With the shipped template the skip rule never fires: the only empty value is reached at
   * position 5, which is not a multiple of 3, so all 15 attributes give rows at positions 1..15.
   */
  lemma {:induction false} ShippedTemplateNeverSkips(loc: string, ref: string)
    ensures |TemplateRows(EquipmentAttributes, 1, loc, ref)| == 15
    ensures forall k | 0 <= k < 15 ::
      TemplateRows(EquipmentAttributes, 1, loc, ref)[k] == TemplateRow(EquipmentAttributes[k], k + 1, loc, ref)
  {
    OnlyEnvironmentIsEmpty();
    assert forall k | 0 <= k < 15 :: EquipmentAttributes[k].value == [] ==> (1 + k) % 3 != 0;
    TemplateRowsWithoutSkip(EquipmentAttributes, 1, loc, ref);
  }

  // ---------------------------------------------------------------------------------------------
  // SPEC rows

  /** A line gives a SPEC row: it is technical and one of its tokens holds a digit. */
  ghost predicate Contributes(line: string) {
    IsTechnical(line) && exists k | 0 <= k < |Tokens(line)| :: HasNumber(Tokens(line)[k])
  }

  /** The lines that give SPEC rows, in order. */
  ghost function ContributingLines(lines: seq<string>): seq<string> {
    if lines == [] then []
    else if Contributes(lines[0]) then [lines[0]] + ContributingLines(lines[1..])
    else ContributingLines(lines[1..])
  }

  lemma {:induction false} SpecRowExists(line: string, pos: nat, loc: string, ref: string)
    ensures SpecRow(line, pos, loc, ref).Some? <==> Contributes(line)
  {
    FirstNumberedIsFirst(Tokens(line));
  }

  /**
   * The fields for a token sequence with a digit somewhere: the first token with a digit as
   * value, and the tokens around it (at most 50 characters) as description.
   */
  lemma {:induction false} NumberedFieldsContents(parts: seq<string>, unit: string)
    requires exists k | 0 <= k < |parts| :: HasNumber(parts[k])
    ensures NumberedFields(parts, unit).Some?
    ensures var f := NumberedFields(parts, unit).value;
      && (exists i | 0 <= i < |parts| ::
            && f.value == parts[i] && HasNumber(parts[i])
            && (forall k | 0 <= k < i :: !HasNumber(parts[k]))
            && f.description == SpecDescription(parts, i))
      && |f.description| <= 50
      && f.unit == unit
  {
    FirstNumberedIsFirst(parts);
    var i := FirstNumbered(parts).value;
    var f := NumberedFields(parts, unit).value;
    assert f.value == parts[i] && f.description == SpecDescription(parts, i);
  }

  /** What a contributing line yields: the fields of its tokens, with the line's unit. */
  lemma {:induction false} LineFieldsContents(line: string)
    requires Contributes(line)
    ensures LineFields(line) == NumberedFields(Tokens(line), UnitOf(line))
    ensures LineFields(line).Some?
  {
    NumberedFieldsContents(Tokens(line), UnitOf(line));
  }

  /**
   * The SPEC row of a contributing line: the line's fields, "SPEC" and the two-digit position as
   * name, and the shared columns.
   */
  lemma {:induction false} SpecRowContents(line: string, pos: nat, loc: string, ref: string)
    requires Contributes(line)
    ensures LineFields(line).Some? && SpecRow(line, pos, loc, ref).Some?
    ensures var r := SpecRow(line, pos, loc, ref).value;
      var f := LineFields(line).value;
      && r == Row(loc, ClassNumber, ClassType, pos, r.name, f.value, f.description, f.unit, "", "", ref)
      && r.name[..4] == "SPEC" && |r.name| >= 6 && AllDigits(r.name[4..]) && DecimalValue(r.name[4..]) == pos
      && (pos < 100 ==> |r.name| == 6)
      && (pos >= 10 ==> r.name[4..] == Decimal(pos))
  {
    SpecRowExists(line, pos, loc, ref);
    var r := SpecRow(line, pos, loc, ref).value;
    assert r.name == SpecName(pos);
    assert r.name[4..] == ZeroPad2(pos);
  }

  /** The SPEC rows of contributing lines `cs`, numbered from `pos` on. */
  ghost function SpecRowsOf(cs: seq<string>, pos: nat, loc: string, ref: string): seq<Row>
    requires forall k | 0 <= k < |cs| :: Contributes(cs[k])
  {
    if cs == [] then []
    else
      SpecRowExists(cs[0], pos, loc, ref);
      [SpecRow(cs[0], pos, loc, ref).value] + SpecRowsOf(cs[1..], pos + 1, loc, ref)
  }

  lemma {:induction false} ContributingLinesContribute(lines: seq<string>)
    ensures forall k | 0 <= k < |ContributingLines(lines)| :: Contributes(ContributingLines(lines)[k])
    decreases |lines|
  {
    if lines != [] {
      ContributingLinesContribute(lines[1..]);
    }
  }

  /** SpecRows is the rows of the contributing lines, in their order, numbered from `pos` on. */
  lemma {:induction false} SpecRowsAreContributingLines(lines: seq<string>, pos: nat, loc: string, ref: string)
    ensures forall k | 0 <= k < |ContributingLines(lines)| :: Contributes(ContributingLines(lines)[k])
    ensures SpecRows(lines, pos, loc, ref) == SpecRowsOf(ContributingLines(lines), pos, loc, ref)
    decreases |lines|
  {
    ContributingLinesContribute(lines);
    if lines != [] {
      SpecRowExists(lines[0], pos, loc, ref);
      if Contributes(lines[0]) {
        SpecRowsAreContributingLines(lines[1..], pos + 1, loc, ref);
        var c := ContributingLines(lines);
        assert c[0] == lines[0] && c[1..] == ContributingLines(lines[1..]);
      } else {
        SpecRowsAreContributingLines(lines[1..], pos, loc, ref);
      }
    }
  }

  lemma {:induction false} SpecRowsOfLength(cs: seq<string>, pos: nat, loc: string, ref: string)
    requires forall k | 0 <= k < |cs| :: Contributes(cs[k])
    ensures |SpecRowsOf(cs, pos, loc, ref)| == |cs|
    decreases |cs|
  {
    if cs != [] {
      SpecRowsOfLength(cs[1..], pos + 1, loc, ref);
    }
  }

  lemma {:induction false} FirstUnitAbsent(lowerLine: string, units: seq<string>)
    requires forall k | 0 <= k < |units| :: units[k] != []
    ensures FirstUnit(lowerLine, units) == [] <==> forall k | 0 <= k < |units| :: !Contains(lowerLine, ToLower(units[k]))
    decreases |units|
  {
    if units != [] && !Contains(lowerLine, ToLower(units[0])) {
      FirstUnitAbsent(lowerLine, units[1..]);
      assert forall k | 1 <= k < |units| :: units[1..][k - 1] == units[k];
    }
  }

  lemma {:induction false} FirstUnitFound(lowerLine: string, units: seq<string>)
    ensures FirstUnit(lowerLine, units) != [] ==> exists k | 0 <= k < |units| ::
      && FirstUnit(lowerLine, units) == units[k] && Contains(lowerLine, ToLower(units[k]))
      && forall k' | 0 <= k' < k :: !Contains(lowerLine, ToLower(units[k']))
    decreases |units|
  {
    if units != [] && !Contains(lowerLine, ToLower(units[0])) {
      FirstUnitFound(lowerLine, units[1..]);
      if FirstUnit(lowerLine, units) != [] {
        var k :| 0 <= k < |units[1..]| && FirstUnit(lowerLine, units) == units[1..][k]
          && Contains(lowerLine, ToLower(units[1..][k]))
          && forall k' | 0 <= k' < k :: !Contains(lowerLine, ToLower(units[1..][k']));
        assert units[1..][k] == units[k + 1];
        assert forall k' | 1 <= k' < k + 1 :: units[1..][k' - 1] == units[k'];
      }
    }
  }

  /** The unit is the first of the units (in their order) found case-insensitively, else "". */
  lemma {:induction false} FirstUnitIsFirst(lowerLine: string, units: seq<string>)
    requires forall k | 0 <= k < |units| :: units[k] != []
    ensures FirstUnit(lowerLine, units) == [] <==> forall k | 0 <= k < |units| :: !Contains(lowerLine, ToLower(units[k]))
    ensures FirstUnit(lowerLine, units) != [] ==> exists k | 0 <= k < |units| ::
      && FirstUnit(lowerLine, units) == units[k] && Contains(lowerLine, ToLower(units[k]))
      && forall k' | 0 <= k' < k :: !Contains(lowerLine, ToLower(units[k']))
  {
    FirstUnitAbsent(lowerLine, units);
    FirstUnitFound(lowerLine, units);
  }

  lemma {:induction false} UnitOfIsFirst(line: string)
    ensures UnitOf(line) == [] <==> forall k | 0 <= k < |Units| :: !Contains(ToLower(line), ToLower(Units[k]))
    ensures UnitOf(line) != [] ==> exists k | 0 <= k < |Units| ::
      && UnitOf(line) == Units[k] && Contains(ToLower(line), ToLower(Units[k]))
      && forall k' | 0 <= k' < k :: !Contains(ToLower(line), ToLower(Units[k']))
  {
    FirstUnitIsFirst(ToLower(line), Units);
  }

  // ---------------------------------------------------------------------------------------------
  // The whole table

  /** The table is empty exactly when the text is whitespace only. */
  lemma {:induction false} StructureEmptyIffBlank(text: string, pdfName: Option<string>)
    ensures Structure(text, pdfName) == [] <==> IsBlank(text)
  {
    if !IsBlank(text) {
      var lines := Lines(text);
      ShippedTemplateNeverSkips(FunctionalLocation(lines), DocumentReference(lines, pdfName));
    }
  }

  /** A row carries the location, class number, class type, empty extras and reference. */
  predicate SharedColumns(r: Row, loc: string, ref: string) {
    && r.location == loc && r.reference == ref && r.classNumber == ClassNumber
    && r.classType == ClassType && r.remarks == [] && r.additional == []
  }

  /** Every SPEC row carries the shared columns and is numbered on from `pos`. */
  lemma {:induction false} SpecRowsShape(lines: seq<string>, pos: nat, loc: string, ref: string)
    ensures forall k | 0 <= k < |SpecRows(lines, pos, loc, ref)| ::
      SpecRows(lines, pos, loc, ref)[k].position == pos + k && SharedColumns(SpecRows(lines, pos, loc, ref)[k], loc, ref)
    decreases |lines|
  {
    if lines != [] {
      if SpecRow(lines[0], pos, loc, ref).Some? {
        SpecRowsShape(lines[1..], pos + 1, loc, ref);
      } else {
        SpecRowsShape(lines[1..], pos, loc, ref);
      }
    }
  }

  /** A non-blank text gives the shipped template's 15 rows followed by the SPEC rows from 16 on. */
  lemma {:induction false} StructureParts(text: string, pdfName: Option<string>)
    requires !IsBlank(text)
    ensures var lines := Lines(text);
      var loc := FunctionalLocation(lines);
      var ref := DocumentReference(lines, pdfName);
      && |TemplateRows(EquipmentAttributes, 1, loc, ref)| == 15
      && Structure(text, pdfName) == TemplateRows(EquipmentAttributes, 1, loc, ref) + SpecRows(lines, 16, loc, ref)
  {
    var lines := Lines(text);
    ShippedTemplateNeverSkips(FunctionalLocation(lines), DocumentReference(lines, pdfName));
  }

  lemma {:induction false} JoinedShape(template: seq<Row>, specs: seq<Row>, loc: string, ref: string)
    requires forall k | 0 <= k < |template| :: template[k].position == k + 1 && SharedColumns(template[k], loc, ref)
    requires forall k | 0 <= k < |specs| :: specs[k].position == |template| + 1 + k && SharedColumns(specs[k], loc, ref)
    ensures forall k | 0 <= k < |template + specs| ::
      (template + specs)[k].position == k + 1 && SharedColumns((template + specs)[k], loc, ref)
  {
    forall k | 0 <= k < |template + specs|
      ensures (template + specs)[k].position == k + 1 && SharedColumns((template + specs)[k], loc, ref)
    {
      if k >= |template| {
        assert (template + specs)[k] == specs[k - |template|];
      }
    }
  }

  /**
   * A non-blank text gives the 15 template rows in template order, then the SPEC rows of the
   * contributing lines in line order; the k-th row has position k, and all rows share the
   * location, class number, class type, empty remarks and additional info, and the reference.
   */
  lemma {:induction false} StructureLayout(text: string, pdfName: Option<string>)
    requires !IsBlank(text)
    ensures forall k | 0 <= k < |ContributingLines(Lines(text))| :: Contributes(ContributingLines(Lines(text))[k])
    ensures var rows := Structure(text, pdfName);
      var lines := Lines(text);
      var loc := FunctionalLocation(lines);
      var ref := DocumentReference(lines, pdfName);
      && |rows| == 15 + |ContributingLines(lines)|
      && (forall k | 0 <= k < 15 :: rows[k] == TemplateRow(EquipmentAttributes[k], k + 1, loc, ref))
      && rows[15..] == SpecRowsOf(ContributingLines(lines), 16, loc, ref)
      && (forall k | 0 <= k < |rows| :: rows[k].position == k + 1 && SharedColumns(rows[k], loc, ref))
  {
    var lines := Lines(text);
    var loc := FunctionalLocation(lines);
    var ref := DocumentReference(lines, pdfName);
    var template := TemplateRows(EquipmentAttributes, 1, loc, ref);
    var specs := SpecRows(lines, 16, loc, ref);
    StructureParts(text, pdfName);
    assert forall k | 0 <= k < 15 :: template[k] == TemplateRow(EquipmentAttributes[k], k + 1, loc, ref) by {
      ShippedTemplateNeverSkips(loc, ref);
    }
    assert specs == SpecRowsOf(ContributingLines(lines), 16, loc, ref) && |specs| == |ContributingLines(lines)| by {
      SpecRowsAreContributingLines(lines, 16, loc, ref);
      SpecRowsOfLength(ContributingLines(lines), 16, loc, ref);
    }
    SpecRowsShape(lines, 16, loc, ref);
    JoinedShape(template, specs, loc, ref);
    assert (template + specs)[15..] == specs;
    assert forall k | 0 <= k < 15 :: (template + specs)[k] == template[k];
  }

  // ---------------------------------------------------------------------------------------------
  // Document reference

  /** A name-derived reference always starts with "P" and ends with "-1". */
  lemma {:induction false} NameReferenceShape(name: string)
    ensures StartsWith(NameReference(name), "P") && EndsWith(NameReference(name), "-1")
    ensures Find(DocRefPattern, name).Some? ==>
      NameReference(name) == WithTrailingOne(WithLeadingP(Find(DocRefPattern, name).value))
    ensures Find(DocRefPattern, name).None? ==>
      NameReference(name) == "P" + ReplaceChar(name, '-', '.') + "-1"
  {
    var r := NameReference(name);
    if Find(DocRefPattern, name).None? {
      var u := ReplaceChar(name, '-', '.');
      assert r == ['P'] + u + "-1";
      assert r[..1] == "P";
      assert r[|r| - 2..] == "-1";
    }
  }

  /**
   * A name with five digit groups: the pattern takes exactly four groups, so the fifth is dropped
   * and "-1" is added.
   */
  lemma {:induction false} FifthGroupDropped()
    ensures NameReference("P11569-11-99-40-2619") == "P11569-11-99-40-1"
  {
    var s := "P11569-11-99-40-2619";
    FifthGroupRuns(s);
    FindAtStart(DocRefPattern, s);
    NameReferenceShape(s);
    FourGroupsCompleted(s);
  }

  /** The reference body of the name ends after its fourth digit group. */
  lemma {:induction false} FifthGroupRuns(s: string)
    requires s == "P11569-11-99-40-2619"
    ensures MatchAt(DocRefPattern, s, 0) == Some(15)
  {
    assert s[0] == 'P';
    assert s[1] == '1' && s[2] == '1' && s[3] == '5' && s[4] == '6' && s[5] == '9' && s[6] == '-';
    RunEndIs(s, 1, 6, DigitClass);
    assert s[7] == '1' && s[8] == '1' && s[9] == '-';
    RunEndIs(s, 7, 9, DigitClass);
    assert s[10] == '9' && s[11] == '9' && s[12] == '-';
    RunEndIs(s, 10, 12, DigitClass);
    assert s[13] == '4' && s[14] == '0' && s[15] == '-';
    RunEndIs(s, 13, 15, DigitClass);
    RefBodyEndOfRuns(s, 1, 6, 9, 12);
  }

  lemma {:induction false} FourGroupsCompleted(s: string)
    requires s == "P11569-11-99-40-2619"
    ensures WithTrailingOne(WithLeadingP(s[..15])) == "P11569-11-99-40-1"
  {
    var m := s[..15];
    assert m == "P11569-11-99-40";
    assert m[..1] == "P";
    assert m[|m| - 2..] == "40";
  }

  /** Without a name (or with an empty one) and without a reference in the text, the default. */
  lemma {:induction false} ReferenceDefault(lines: seq<string>, pdfName: Option<string>)
    requires !HasName(pdfName)
    requires forall k | 0 <= k < |lines| && k < 20 :: Find(DocRefPattern, lines[k]).None?
    ensures DocumentReference(lines, pdfName) == DefaultReference
  {
    FirstReferenceIsFirst(Head(lines));
  }

  /** Without a reference in the first 20 lines, the one from the name. */
  lemma {:induction false} ReferenceFromName(lines: seq<string>, name: string)
    requires name != []
    requires forall k | 0 <= k < |lines| && k < 20 :: Find(DocRefPattern, lines[k]).None?
    ensures DocumentReference(lines, Some(name)) == NameReference(name)
  {
    FirstReferenceIsFirst(Head(lines));
  }

  /** FirstReference at the first line with a match. */
  lemma {:induction false} FirstReferenceAt(ls: seq<string>, k: nat)
    requires k < |ls| && Find(DocRefPattern, ls[k]).Some?
    requires forall k' | 0 <= k' < k :: Find(DocRefPattern, ls[k']).None?
    ensures FirstReference(ls) == Some(WithLeadingP(Find(DocRefPattern, ls[k]).value))
    decreases k
  {
    if k > 0 {
      assert forall k' | 0 <= k' < k - 1 :: ls[1..][k'] == ls[k' + 1];
      FirstReferenceAt(ls[1..], k - 1);
    }
  }

  /**
   * The first line among the first 20 with a match fixes the reference, whatever the name: the
   * match with "P" in front when missing, and no "-1" added.
   */
  lemma {:induction false} ReferenceFromText(lines: seq<string>, pdfName: Option<string>, k: nat)
    requires k < |lines| && k < 20 && Find(DocRefPattern, lines[k]).Some?
    requires forall k' | 0 <= k' < k :: Find(DocRefPattern, lines[k']).None?
    ensures DocumentReference(lines, pdfName) == WithLeadingP(Find(DocRefPattern, lines[k]).value)
  {
    var head := Head(lines);
    assert forall j | 0 <= j < |head| :: head[j] == lines[j];
    FirstReferenceAt(head, k);
  }

  /**
   * A reference found in the text is not given a "-1" suffix: a line that is a reference body
   * `t` gives "P" + `t`, which ends in "-1" only when `t` does.
   */
  lemma {:induction false} TextReferenceKeepsItsEnd(t: string, pdfName: Option<string>)
    requires IsRefBody(t)
    ensures DocumentReference([t], pdfName) == "P" + t
    ensures EndsWith(DocumentReference([t], pdfName), "-1") <==> EndsWith(t, "-1")
  {
    TextReferenceOfBody(t, pdfName);
    DocRefStart(t);
    EndsWithAfterPrefix("P", t, "-1");
  }

  lemma {:induction false} TextReferenceOfBody(t: string, pdfName: Option<string>)
    requires IsRefBody(t)
    ensures DocumentReference([t], pdfName) == "P" + t
  {
    DocRefStart(t);
    FindWhole(DocRefPattern, t);
    ReferenceFromText([t], pdfName, 0);
  }

  /** A prefix does not change how a string at least as long as the suffix ends. */
  lemma {:induction false} EndsWithAfterPrefix(p: string, t: string, suffix: string)
    requires |suffix| <= |t|
    ensures EndsWith(p + t, suffix) <==> EndsWith(t, suffix)
  {
    assert (p + t)[|p + t| - |suffix|..] == t[|t| - |suffix|..];
  }

  /** "1-2-3-4" is a reference body that does not end in "-1". */
  lemma {:induction false} UnsuffixedReferenceBody()
    ensures IsRefBody("1-2-3-4") && !EndsWith("1-2-3-4", "-1")
  {
    assert RefBodyCuts("1-2-3-4", 1, 3, 5);
  }

  // ---------------------------------------------------------------------------------------------
  // Functional location

  /** The last line that sets a location decides it, though earlier lines set one too. */
  lemma {:induction false} LastLocationWins(lines: seq<string>, k: nat)
    requires k < |lines| && LineLocation(lines[k]).Some?
    requires forall k' | k < k' < |lines| :: LineLocation(lines[k']).None?
    ensures FunctionalLocation(lines) == LineLocation(lines[k]).value
    decreases |lines|
  {
    if k < |lines| - 1 {
      var init := lines[..|lines| - 1];
      assert forall k' | k < k' < |init| :: init[k'] == lines[k'];
      LastLocationWins(init, k);
    }
  }

  /** No line sets a location: the default. */
  lemma {:induction false} LocationDefault(lines: seq<string>)
    requires forall k | 0 <= k < |lines| :: LineLocation(lines[k]).None?
    ensures FunctionalLocation(lines) == DefaultLocation
    decreases |lines|
  {
    if lines != [] {
      var init := lines[..|lines| - 1];
      assert forall k | 0 <= k < |init| :: init[k] == lines[k];
      LocationDefault(init);
    }
  }
}
