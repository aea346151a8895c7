/**
 * Hand-written matchers for the fixed regular expressions of the structuring step, as
 * `re.search` uses them: the match that starts leftmost, and at that start the one the greedy
 * quantifiers produce.
 *
 *   DocRefPattern        P?(\d+[-.]){3}\d+          document reference
 *   LocationCodePattern  \d{2}-\d{2}-[A-Z]{4}-\d{4}  functional-location code
 *   TagNumberPattern     [A-Z]{2,}-\d+               tag number
 *   FigureCodePattern    \d+-\d+-[A-Z]+              figure code
 *
 * Each pattern's language is stated independently of its matcher, by the cut points between its
 * runs (`Matches`), and MatchAtIsLongest proves that the matcher finds the longest member of the
 * language at a given start. For these patterns the greedy match is the longest one: every run is
 * followed by a character outside its class, so backtracking never helps. Search then proves that
 * the match it returns starts leftmost. `\d` and `[A-Z]` are ASCII here (see Text).
 */
module Patterns {
  import opened Wrappers
  import opened Text

  datatype CharClass = DigitClass | UpperClass

  predicate InClass(c: char, k: CharClass) {
    match k
    case DigitClass => IsDigit(c)
    case UpperClass => IsUpper(c)
  }

  /** End of the longest run of characters of class `k` in `s` starting at `i`. */
  function RunEnd(s: string, i: nat, k: CharClass): (e: nat)
    requires i <= |s|
    ensures i <= e <= |s|
    ensures forall m | i <= m < e :: InClass(s[m], k)
    ensures e < |s| ==> !InClass(s[e], k)
    decreases |s| - i
  {
    if i < |s| && InClass(s[i], k) then RunEnd(s, i + 1, k) else i
  }

  lemma {:induction false} RunEndIs(s: string, i: nat, q: nat, k: CharClass)
    requires i <= q <= |s|
    requires forall m | i <= m < q :: InClass(s[m], k)
    requires q < |s| ==> !InClass(s[q], k)
    ensures RunEnd(s, i, k) == q
  {
  }

  lemma {:induction false} RunEndCovers(s: string, i: nat, q: nat, k: CharClass)
    requires i <= q <= |s|
    requires forall m | i <= m < q :: InClass(s[m], k)
    ensures q <= RunEnd(s, i, k)
  {
  }

  predicate IsRefSeparator(c: char) { c == '-' || c == '.' }

  /** `t[lo..hi]` is a non-empty run of class `k`. */
  ghost predicate Run(t: string, lo: int, hi: int, k: CharClass) {
    0 <= lo < hi <= |t| && forall m | lo <= m < hi :: InClass(t[m], k)
  }

  // ---------------------------------------------------------------------------------------------
  // The languages, by cut points

  /** `(\d+[-.]){3}\d+` with its separators at `a`, `b` and `c`. */
  ghost predicate RefBodyCuts(t: string, a: int, b: int, c: int) {
    && Run(t, 0, a, DigitClass) && a < |t| && IsRefSeparator(t[a])
    && Run(t, a + 1, b, DigitClass) && b < |t| && IsRefSeparator(t[b])
    && Run(t, b + 1, c, DigitClass) && c < |t| && IsRefSeparator(t[c])
    && Run(t, c + 1, |t|, DigitClass)
  }

  ghost predicate IsRefBody(t: string) {
    exists a, b, c :: RefBodyCuts(t, a, b, c)
  }

  /** `P?(\d+[-.]){3}\d+`. */
  ghost predicate IsDocRef(t: string) {
    IsRefBody(t) || (|t| > 0 && t[0] == 'P' && IsRefBody(t[1..]))
  }

  /** `\d{2}-\d{2}-[A-Z]{4}-\d{4}`. */
  predicate IsLocationCode(t: string) {
    && |t| == 15
    && IsDigit(t[0]) && IsDigit(t[1]) && t[2] == '-'
    && IsDigit(t[3]) && IsDigit(t[4]) && t[5] == '-'
    && IsUpper(t[6]) && IsUpper(t[7]) && IsUpper(t[8]) && IsUpper(t[9]) && t[10] == '-'
    && IsDigit(t[11]) && IsDigit(t[12]) && IsDigit(t[13]) && IsDigit(t[14])
  }

  /** `[A-Z]{2,}-\d+` with its dash at `h`. */
  ghost predicate TagCuts(t: string, h: int) {
    Run(t, 0, h, UpperClass) && 2 <= h < |t| && t[h] == '-' && Run(t, h + 1, |t|, DigitClass)
  }

  ghost predicate IsTagNumber(t: string) {
    exists h :: TagCuts(t, h)
  }

  /** `\d+-\d+-[A-Z]+` with its dashes at `a` and `b`. */
  ghost predicate FigureCuts(t: string, a: int, b: int) {
    && Run(t, 0, a, DigitClass) && a < |t| && t[a] == '-'
    && Run(t, a + 1, b, DigitClass) && b < |t| && t[b] == '-'
    && Run(t, b + 1, |t|, UpperClass)
  }

  ghost predicate IsFigureCode(t: string) {
    exists a, b :: FigureCuts(t, a, b)
  }

  datatype Pattern = DocRefPattern | LocationCodePattern | TagNumberPattern | FigureCodePattern

  /** `t` is in the language of `p` (the whole of `t`, as `re.fullmatch` would say). */
  ghost predicate Matches(p: Pattern, t: string) {
    match p
    case DocRefPattern => IsDocRef(t)
    case LocationCodePattern => IsLocationCode(t)
    case TagNumberPattern => IsTagNumber(t)
    case FigureCodePattern => IsFigureCode(t)
  }

  // ---------------------------------------------------------------------------------------------
  // The matchers: where the greedy match starting at `i` ends

  /** `(\d+[-.]){3}\d+` at `i`. */
  function RefBodyEnd(s: string, i: nat): Option<nat>
    requires i <= |s|
  {
    var e1 := RunEnd(s, i, DigitClass);
    if e1 == i || e1 == |s| || !IsRefSeparator(s[e1]) then None else
    var e2 := RunEnd(s, e1 + 1, DigitClass);
    if e2 == e1 + 1 || e2 == |s| || !IsRefSeparator(s[e2]) then None else
    var e3 := RunEnd(s, e2 + 1, DigitClass);
    if e3 == e2 + 1 || e3 == |s| || !IsRefSeparator(s[e3]) then None else
    var e4 := RunEnd(s, e3 + 1, DigitClass);
    if e4 == e3 + 1 then None else Some(e4)
  }

  function TagNumberEnd(s: string, i: nat): Option<nat>
    requires i <= |s|
  {
    var u := RunEnd(s, i, UpperClass);
    if u < i + 2 || u == |s| || s[u] != '-' then None else
    var d := RunEnd(s, u + 1, DigitClass);
    if d == u + 1 then None else Some(d)
  }

  function FigureCodeEnd(s: string, i: nat): Option<nat>
    requires i <= |s|
  {
    var e1 := RunEnd(s, i, DigitClass);
    if e1 == i || e1 == |s| || s[e1] != '-' then None else
    var e2 := RunEnd(s, e1 + 1, DigitClass);
    if e2 == e1 + 1 || e2 == |s| || s[e2] != '-' then None else
    var e3 := RunEnd(s, e2 + 1, UpperClass);
    if e3 == e2 + 1 then None else Some(e3)
  }

  function MatchAt(p: Pattern, s: string, i: nat): Option<nat>
    requires i <= |s|
  {
    match p
    case DocRefPattern => if i < |s| && s[i] == 'P' then RefBodyEnd(s, i + 1) else RefBodyEnd(s, i)
    case LocationCodePattern => if i + 15 <= |s| && IsLocationCode(s[i..i + 15]) then Some(i + 15) else None
    case TagNumberPattern => TagNumberEnd(s, i)
    case FigureCodePattern => FigureCodeEnd(s, i)
  }

  // ---------------------------------------------------------------------------------------------
  // The matchers find the longest match at their start

  lemma {:induction false} RunInSlice(s: string, i: nat, j: nat, lo: int, hi: int, k: CharClass)
    requires i <= j <= |s| && Run(s[i..j], lo, hi, k)
    ensures i + hi <= j
    ensures forall m | i + lo <= m < i + hi :: InClass(s[m], k)
  {
    forall m | i + lo <= m < i + hi ensures InClass(s[m], k) {
      assert s[m] == s[i..j][m - i];
    }
  }

  lemma {:induction false} RunFromSlice(s: string, i: nat, j: nat, lo: int, hi: int, k: CharClass)
    requires 0 <= lo < hi && i + hi <= j <= |s|
    requires forall m | i + lo <= m < i + hi :: InClass(s[m], k)
    ensures Run(s[i..j], lo, hi, k)
  {
    forall m | lo <= m < hi ensures InClass(s[i..j][m], k) {
      assert s[i..j][m] == s[i + m];
    }
  }

  /** Where the runs of a match of RefBodyEnd end. */
  lemma {:induction false} RefBodyEndRuns(s: string, i: nat) returns (p: nat, q: nat, r: nat)
    requires i <= |s| && RefBodyEnd(s, i).Some?
    ensures RefBodyIn(s, i, p, q, r, RefBodyEnd(s, i).value)
  {
    p := RunEnd(s, i, DigitClass);
    q := RunEnd(s, p + 1, DigitClass);
    r := RunEnd(s, q + 1, DigitClass);
  }

  /** A reference body located in `s` is a reference body once cut out. */
  lemma {:induction false} RefBodyInSlice(s: string, i: nat, p: nat, q: nat, r: nat, j: nat)
    requires RefBodyIn(s, i, p, q, r, j)
    ensures IsRefBody(s[i..j])
  {
    var t := s[i..j];
    RunFromSlice(s, i, j, 0, p - i, DigitClass);
    RunFromSlice(s, i, j, p - i + 1, q - i, DigitClass);
    RunFromSlice(s, i, j, q - i + 1, r - i, DigitClass);
    RunFromSlice(s, i, j, r - i + 1, j - i, DigitClass);
    assert t[p - i] == s[p] && t[q - i] == s[q] && t[r - i] == s[r];
    assert RefBodyCuts(t, p - i, q - i, r - i);
  }

  lemma {:induction false} RefBodyEndSound(s: string, i: nat)
    requires i <= |s|
    ensures RefBodyEnd(s, i).Some? ==> i <= RefBodyEnd(s, i).value <= |s| && IsRefBody(s[i..RefBodyEnd(s, i).value])
  {
    if RefBodyEnd(s, i).Some? {
      var p, q, r := RefBodyEndRuns(s, i);
      RefBodyInSlice(s, i, p, q, r, RefBodyEnd(s, i).value);
    }
  }

  /** RefBodyEnd read off from where its four runs end. */
  lemma {:induction false} RefBodyEndOfRuns(s: string, i: nat, e1: nat, e2: nat, e3: nat)
    requires i < e1 < |s| && RunEnd(s, i, DigitClass) == e1 && IsRefSeparator(s[e1])
    requires e1 + 1 < e2 < |s| && RunEnd(s, e1 + 1, DigitClass) == e2 && IsRefSeparator(s[e2])
    requires e2 + 1 < e3 < |s| && RunEnd(s, e2 + 1, DigitClass) == e3 && IsRefSeparator(s[e3])
    requires e3 + 1 < RunEnd(s, e3 + 1, DigitClass)
    ensures RefBodyEnd(s, i) == Some(RunEnd(s, e3 + 1, DigitClass))
  {
  }

  /** `s[i..j]` has the shape of a reference body with its separators at `p`, `q` and `r`. */
  ghost predicate RefBodyIn(s: string, i: nat, p: nat, q: nat, r: nat, j: nat) {
    && i < p && p + 1 < q && q + 1 < r && r + 1 < j <= |s|
    && (forall m | i <= m < p :: IsDigit(s[m])) && IsRefSeparator(s[p])
    && (forall m | p + 1 <= m < q :: IsDigit(s[m])) && IsRefSeparator(s[q])
    && (forall m | q + 1 <= m < r :: IsDigit(s[m])) && IsRefSeparator(s[r])
    && r + 1 < j && (forall m | r + 1 <= m < j :: IsDigit(s[m]))
  }

  lemma {:induction false} RefBodyEndCovers(s: string, i: nat, p: nat, q: nat, r: nat, j: nat)
    requires RefBodyIn(s, i, p, q, r, j)
    ensures RefBodyEnd(s, i).Some? && j <= RefBodyEnd(s, i).value
  {
    RunEndIs(s, i, p, DigitClass);
    RunEndIs(s, p + 1, q, DigitClass);
    RunEndIs(s, q + 1, r, DigitClass);
    RunEndCovers(s, r + 1, j, DigitClass);
    RefBodyEndOfRuns(s, i, p, q, r);
  }

  lemma {:induction false} RefBodyEndComplete(s: string, i: nat, j: nat)
    requires i <= j <= |s| && IsRefBody(s[i..j])
    ensures RefBodyEnd(s, i).Some? && j <= RefBodyEnd(s, i).value
  {
    var t := s[i..j];
    var a, b, c :| RefBodyCuts(t, a, b, c);
    assert s[i + a] == t[a] && s[i + b] == t[b] && s[i + c] == t[c];
    RunInSlice(s, i, j, 0, a, DigitClass);
    RunInSlice(s, i, j, a + 1, b, DigitClass);
    RunInSlice(s, i, j, b + 1, c, DigitClass);
    RunInSlice(s, i, j, c + 1, |t|, DigitClass);
    assert RefBodyIn(s, i, i + a, i + b, i + c, j);
    RefBodyEndCovers(s, i, i + a, i + b, i + c, j);
  }

  lemma {:induction false} RefBodyEndIsLongest(s: string, i: nat)
    requires i <= |s|
    ensures RefBodyEnd(s, i).Some? ==> i <= RefBodyEnd(s, i).value <= |s| && IsRefBody(s[i..RefBodyEnd(s, i).value])
    ensures forall j | i <= j <= |s| && IsRefBody(s[i..j]) :: RefBodyEnd(s, i).Some? && j <= RefBodyEnd(s, i).value
  {
    RefBodyEndSound(s, i);
    forall j | i <= j <= |s| && IsRefBody(s[i..j])
      ensures RefBodyEnd(s, i).Some? && j <= RefBodyEnd(s, i).value
    {
      RefBodyEndComplete(s, i, j);
    }
  }

  lemma {:induction false} TagNumberEndIsLongest(s: string, i: nat)
    requires i <= |s|
    ensures TagNumberEnd(s, i).Some? ==> i <= TagNumberEnd(s, i).value <= |s| && IsTagNumber(s[i..TagNumberEnd(s, i).value])
    ensures forall j | i <= j <= |s| && IsTagNumber(s[i..j]) :: TagNumberEnd(s, i).Some? && j <= TagNumberEnd(s, i).value
  {
    var u := RunEnd(s, i, UpperClass);
    if u >= i + 2 && u < |s| && s[u] == '-' {
      var d := RunEnd(s, u + 1, DigitClass);
      if d != u + 1 {
        RunFromSlice(s, i, d, 0, u - i, UpperClass);
        RunFromSlice(s, i, d, u - i + 1, d - i, DigitClass);
        assert s[i..d][u - i] == s[u];
        assert TagCuts(s[i..d], u - i);
      }
    }
    forall j | i <= j <= |s| && IsTagNumber(s[i..j])
      ensures TagNumberEnd(s, i).Some? && j <= TagNumberEnd(s, i).value
    {
      var t := s[i..j];
      var h :| TagCuts(t, h);
      RunInSlice(s, i, j, 0, h, UpperClass);
      RunInSlice(s, i, j, h + 1, |t|, DigitClass);
      assert s[i + h] == t[h];
      RunEndIs(s, i, i + h, UpperClass);
      RunEndCovers(s, i + h + 1, j, DigitClass);
    }
  }

  lemma {:induction false} FigureCodeEndSound(s: string, i: nat)
    requires i <= |s|
    ensures FigureCodeEnd(s, i).Some? ==> i <= FigureCodeEnd(s, i).value <= |s| && IsFigureCode(s[i..FigureCodeEnd(s, i).value])
  {
    var e1 := RunEnd(s, i, DigitClass);
    if e1 != i && e1 < |s| && s[e1] == '-' {
      var e2 := RunEnd(s, e1 + 1, DigitClass);
      if e2 != e1 + 1 && e2 < |s| && s[e2] == '-' {
        var e3 := RunEnd(s, e2 + 1, UpperClass);
        if e3 != e2 + 1 {
          var t := s[i..e3];
          RunFromSlice(s, i, e3, 0, e1 - i, DigitClass);
          RunFromSlice(s, i, e3, e1 - i + 1, e2 - i, DigitClass);
          RunFromSlice(s, i, e3, e2 - i + 1, e3 - i, UpperClass);
          assert t[e1 - i] == s[e1] && t[e2 - i] == s[e2];
          assert FigureCuts(t, e1 - i, e2 - i);
        }
      }
    }
  }

  lemma {:induction false} FigureCodeEndComplete(s: string, i: nat, j: nat)
    requires i <= j <= |s| && IsFigureCode(s[i..j])
    ensures FigureCodeEnd(s, i).Some? && j <= FigureCodeEnd(s, i).value
  {
    var t := s[i..j];
    var a, b :| FigureCuts(t, a, b);
    RunInSlice(s, i, j, 0, a, DigitClass);
    RunInSlice(s, i, j, a + 1, b, DigitClass);
    RunInSlice(s, i, j, b + 1, |t|, UpperClass);
    assert s[i + a] == t[a] && s[i + b] == t[b];
    RunEndIs(s, i, i + a, DigitClass);
    RunEndIs(s, i + a + 1, i + b, DigitClass);
    RunEndCovers(s, i + b + 1, j, UpperClass);
  }

  lemma {:induction false} FigureCodeEndIsLongest(s: string, i: nat)
    requires i <= |s|
    ensures FigureCodeEnd(s, i).Some? ==> i <= FigureCodeEnd(s, i).value <= |s| && IsFigureCode(s[i..FigureCodeEnd(s, i).value])
    ensures forall j | i <= j <= |s| && IsFigureCode(s[i..j]) :: FigureCodeEnd(s, i).Some? && j <= FigureCodeEnd(s, i).value
  {
    FigureCodeEndSound(s, i);
    forall j | i <= j <= |s| && IsFigureCode(s[i..j])
      ensures FigureCodeEnd(s, i).Some? && j <= FigureCodeEnd(s, i).value
    {
      FigureCodeEndComplete(s, i, j);
    }
  }

  lemma {:induction false} DocRefStart(t: string)
    requires IsRefBody(t)
    ensures |t| >= 7 && t[0] != 'P'
  {
    var a, b, c :| RefBodyCuts(t, a, b, c);
  }

  /** The document-reference match at a 'P': the optional 'P' is taken. */
  lemma {:induction false} DocRefAtP(s: string, i: nat)
    requires i < |s| && s[i] == 'P'
    ensures RefBodyEnd(s, i + 1).Some? ==> i + 1 <= RefBodyEnd(s, i + 1).value <= |s| && IsDocRef(s[i..RefBodyEnd(s, i + 1).value])
    ensures forall j | i <= j <= |s| && IsDocRef(s[i..j]) :: RefBodyEnd(s, i + 1).Some? && j <= RefBodyEnd(s, i + 1).value
  {
    RefBodyEndIsLongest(s, i + 1);
    forall j | i <= j <= |s| && IsDocRef(s[i..j])
      ensures RefBodyEnd(s, i + 1).Some? && j <= RefBodyEnd(s, i + 1).value
    {
      var t := s[i..j];
      if IsRefBody(t) { DocRefStart(t); }
      assert t[1..] == s[i + 1..j];
    }
    if RefBodyEnd(s, i + 1).Some? {
      var e := RefBodyEnd(s, i + 1).value;
      assert s[i..e][1..] == s[i + 1..e];
    }
  }

  /** The document-reference match elsewhere: a reference body. */
  lemma {:induction false} DocRefNotAtP(s: string, i: nat)
    requires i <= |s| && !(i < |s| && s[i] == 'P')
    ensures RefBodyEnd(s, i).Some? ==> i <= RefBodyEnd(s, i).value <= |s| && IsDocRef(s[i..RefBodyEnd(s, i).value])
    ensures forall j | i <= j <= |s| && IsDocRef(s[i..j]) :: RefBodyEnd(s, i).Some? && j <= RefBodyEnd(s, i).value
  {
    RefBodyEndIsLongest(s, i);
    forall j | i <= j <= |s| && IsDocRef(s[i..j])
      ensures IsRefBody(s[i..j])
    {
      if j > i {
        assert s[i..j][0] == s[i];
      }
    }
  }

  /** The match at `i`, if any, is in the language, and no longer piece starting at `i` is. */
  lemma {:induction false} MatchAtIsLongest(p: Pattern, s: string, i: nat)
    requires i <= |s|
    ensures MatchAt(p, s, i).Some? ==> i <= MatchAt(p, s, i).value <= |s| && Matches(p, s[i..MatchAt(p, s, i).value])
    ensures forall j | i <= j <= |s| && Matches(p, s[i..j]) :: MatchAt(p, s, i).Some? && j <= MatchAt(p, s, i).value
  {
    match p
    case DocRefPattern =>
      if i < |s| && s[i] == 'P' { DocRefAtP(s, i); } else { DocRefNotAtP(s, i); }
    case LocationCodePattern =>
    case TagNumberPattern => TagNumberEndIsLongest(s, i);
    case FigureCodePattern => FigureCodeEndIsLongest(s, i);
  }

  // ---------------------------------------------------------------------------------------------
  // Leftmost search

  datatype Span = Span(start: nat, end: nat)

  /** `re.search(p, s[i..])`, as positions in `s`. */
  function SearchFrom(p: Pattern, s: string, i: nat): (r: Option<Span>)
    requires i <= |s|
    ensures r.Some? ==> i <= r.value.start <= r.value.end <= |s| && Matches(p, s[r.value.start..r.value.end])
    ensures r.Some? ==> forall j | r.value.end < j <= |s| :: !Matches(p, s[r.value.start..j])
    ensures forall i', j | i <= i' <= j <= |s| && Matches(p, s[i'..j]) :: r.Some? && r.value.start <= i'
    decreases |s| - i
  {
    MatchAtIsLongest(p, s, i);
    match MatchAt(p, s, i)
    case Some(e) => Some(Span(i, e))
    case None => if i == |s| then None else SearchFrom(p, s, i + 1)
  }

  /**
   * `re.search(p, s)`: the piece of `s` in the language of `p` that starts leftmost, and among
   * those starting there the longest; `None` when no piece of `s` is in the language.
   */
  function Search(p: Pattern, s: string): (r: Option<Span>)
    ensures r.None? ==> forall i, j | 0 <= i <= j <= |s| :: !Matches(p, s[i..j])
    ensures r.Some? ==> r.value.start <= r.value.end <= |s| && Matches(p, s[r.value.start..r.value.end])
    ensures r.Some? ==> forall i, j | 0 <= i < r.value.start && i <= j <= |s| :: !Matches(p, s[i..j])
    ensures r.Some? ==> forall j | r.value.end < j <= |s| :: !Matches(p, s[r.value.start..j])
  {
    SearchFrom(p, s, 0)
  }

  /** `re.search(p, s).group()`, or `None` when there is no match. */
  function Find(p: Pattern, s: string): Option<string> {
    match Search(p, s)
    case Some(sp) => Some(s[sp.start..sp.end])
    case None => None
  }

  /** Find returns the leftmost, then longest, piece of `s` in the language, or None if there is none. */
  lemma {:induction false} FindIsLeftmostLongest(p: Pattern, s: string)
    ensures Find(p, s).None? <==> forall i, j | 0 <= i <= j <= |s| :: !Matches(p, s[i..j])
    ensures Find(p, s).Some? ==> exists i, j | 0 <= i <= j <= |s| ::
      && Find(p, s).value == s[i..j] && Matches(p, s[i..j])
      && (forall i', j' | 0 <= i' < i && i' <= j' <= |s| :: !Matches(p, s[i'..j']))
      && (forall j' | j < j' <= |s| :: !Matches(p, s[i..j']))
  {
    var r := Search(p, s);
    if r.None? {
    } else {
      assert Matches(p, s[r.value.start..r.value.end]);
    }
  }

  /** When all of `s` is in the language, Find returns all of `s`. */
  lemma {:induction false} FindWhole(p: Pattern, s: string)
    requires Matches(p, s)
    ensures Find(p, s) == Some(s)
  {
    var r := Search(p, s);
    assert s[0..|s|] == s;
    assert r.Some? && r.value.start == 0;
    assert r.value.end == |s|;
  }

  /** A match at the very start is the one found. */
  lemma {:induction false} FindAtStart(p: Pattern, s: string)
    requires MatchAt(p, s, 0).Some?
    ensures MatchAt(p, s, 0).value <= |s|
    ensures Find(p, s) == Some(s[..MatchAt(p, s, 0).value])
  {
    MatchAtIsLongest(p, s, 0);
    assert SearchFrom(p, s, 0) == Some(Span(0, MatchAt(p, s, 0).value));
  }

  /** `re.search(r'\d+', t)` succeeds: `t` holds a digit. */
  predicate HasNumber(t: string) {
    exists k | 0 <= k < |t| :: IsDigit(t[k])
  }
}
