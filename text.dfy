/**
 * The Python string operations the processor relies on (`strip`, `split`, `split('\n')`, `upper`,
 * `lower`, `in`, `count`, `replace`, `startswith`, `endswith`, `" ".join`, `[:n]`, `:02d`),
 * written over explicit character classes.
 *
 * `IsSpace` is Python's `str.isspace` set in full. Digits, letters and case mapping are ASCII
 * only: Python's `\d`, `isdigit`, `isalpha`, `upper` and `lower` also act on non-ASCII
 * characters, which this model treats as neither digits nor letters and leaves unchanged by case
 * mapping.
 */
module Text {

  /** Python's `str.isspace`: the ASCII controls 9-13 and 28-31, space, and the Unicode spaces. */
  predicate IsSpace(c: char) {
    || c == ' '
    || ('\t' <= c <= '\r')
    || ('\U{1C}' <= c <= '\U{1F}')
    || c == '\U{85}' || c == '\U{A0}' || c == '\U{1680}'
    || ('\U{2000}' <= c <= '\U{200A}')
    || c == '\U{2028}' || c == '\U{2029}' || c == '\U{202F}' || c == '\U{205F}' || c == '\U{3000}'
  }

  predicate IsDigit(c: char) { '0' <= c <= '9' }

  predicate IsUpper(c: char) { 'A' <= c <= 'Z' }

  predicate IsLower(c: char) { 'a' <= c <= 'z' }

  predicate IsAlpha(c: char) { IsUpper(c) || IsLower(c) }

  predicate IsAlnum(c: char) { IsAlpha(c) || IsDigit(c) }

  function UpperChar(c: char): char { if IsLower(c) then (c as int - 32) as char else c }

  function LowerChar(c: char): char { if IsUpper(c) then (c as int + 32) as char else c }

  /** `s.upper()` over ASCII. */
  function ToUpper(s: string): string { seq(|s|, k requires 0 <= k < |s| => UpperChar(s[k])) }

  /** `s.lower()` over ASCII. */
  function ToLower(s: string): string { seq(|s|, k requires 0 <= k < |s| => LowerChar(s[k])) }

  /** `s.replace(a, b)` for one-character `a` and `b`. */
  function ReplaceChar(s: string, a: char, b: char): string {
    seq(|s|, k requires 0 <= k < |s| => if s[k] == a then b else s[k])
  }

  predicate StartsWith(s: string, prefix: string) { |prefix| <= |s| && s[..|prefix|] == prefix }

  predicate EndsWith(s: string, suffix: string) { |suffix| <= |s| && s[|s| - |suffix|..] == suffix }

  /** `s[:n]`. */
  function Take(s: string, n: nat): string { if n <= |s| then s[..n] else s }

  // ---------------------------------------------------------------------------------------------
  // strip

  predicate IsBlank(s: string) { forall k | 0 <= k < |s| :: IsSpace(s[k]) }

  /** A concatenation is blank iff both parts are. */
  lemma {:induction false} BlankAppend(a: string, b: string)
    ensures IsBlank(a + b) <==> IsBlank(a) && IsBlank(b)
  {
    if IsBlank(a) && IsBlank(b) {
      forall k | 0 <= k < |a + b| ensures IsSpace((a + b)[k]) {
        if k < |a| { assert (a + b)[k] == a[k]; } else { assert (a + b)[k] == b[k - |a|]; }
      }
    }
    if IsBlank(a + b) {
      forall k | 0 <= k < |a| ensures IsSpace(a[k]) { assert (a + b)[k] == a[k]; }
      forall k | 0 <= k < |b| ensures IsSpace(b[k]) { assert (a + b)[|a| + k] == b[k]; }
    }
  }

  /** Length of the leading run of whitespace. */
  function LeadingSpaces(s: string): (n: nat)
    ensures n <= |s|
    ensures forall k | 0 <= k < n :: IsSpace(s[k])
    ensures n < |s| ==> !IsSpace(s[n])
  {
    if |s| == 0 || !IsSpace(s[0]) then 0 else 1 + LeadingSpaces(s[1..])
  }

  /** Start of the trailing run of whitespace. */
  function TrailingStart(s: string): (n: nat)
    ensures n <= |s|
    ensures forall k | n <= k < |s| :: IsSpace(s[k])
    ensures 0 < n ==> !IsSpace(s[n - 1])
  {
    if |s| == 0 || !IsSpace(s[|s| - 1]) then |s| else TrailingStart(s[..|s| - 1])
  }

  /** `s.strip()`: `s` without its leading and trailing whitespace. */
  function Strip(s: string): (r: string)
    ensures |r| <= |s|
    ensures r == [] <==> IsBlank(s)
    ensures r != [] ==> !IsSpace(r[0]) && !IsSpace(r[|r| - 1])
  {
    var i := LeadingSpaces(s);
    if i == |s| then [] else s[i..TrailingStart(s)]
  }

  /**
   * What `strip()` returns, in full: a slice of `s` with only whitespace around it, empty iff `s`
   * is blank, and otherwise neither starting nor ending with whitespace.
   */
  lemma {:induction false} StripIsTrim(s: string)
    ensures Strip(s) == [] <==> IsBlank(s)
    ensures Strip(s) != [] ==> !IsSpace(Strip(s)[0]) && !IsSpace(Strip(s)[|Strip(s)| - 1])
    ensures exists i, j | 0 <= i <= j <= |s| :: Strip(s) == s[i..j] && IsBlank(s[..i]) && IsBlank(s[j..])
  {
    var i := LeadingSpaces(s);
    if i == |s| {
      assert Strip(s) == s[0..0] && s[..0] == [] && s[0..] == s;
    } else {
      var j := TrailingStart(s);
      assert IsBlank(s[..i]) by {
        forall k | 0 <= k < i ensures IsSpace(s[..i][k]) { assert s[..i][k] == s[k]; }
      }
      assert IsBlank(s[j..]) by {
        forall k | 0 <= k < |s| - j ensures IsSpace(s[j..][k]) { assert s[j..][k] == s[j + k]; }
      }
      assert Strip(s) == s[i..j];
    }
  }

  // ---------------------------------------------------------------------------------------------
  // join and split

  /** `sep.join(parts)`. */
  function JoinWith(parts: seq<string>, sep: string): string {
    if |parts| == 0 then []
    else if |parts| == 1 then parts[0]
    else parts[0] + sep + JoinWith(parts[1..], sep)
  }

  function Concat(parts: seq<string>): string {
    if parts == [] then [] else parts[0] + Concat(parts[1..])
  }

  /** Index of the first occurrence of `c` in `s`. */
  function IndexOf(s: string, c: char): (i: nat)
    requires c in s
    ensures i < |s| && s[i] == c && c !in s[..i]
  {
    if s[0] == c then 0
    else
      var i := IndexOf(s[1..], c);
      assert s[..i + 1] == [s[0]] + s[1..][..i];
      1 + i
  }

  /** `s.split(sep)` for a one-character separator: the pieces between separators, empty ones included. */
  function SplitOn(s: string, sep: char): (parts: seq<string>)
    ensures |parts| > 0
    ensures forall k | 0 <= k < |parts| :: sep !in parts[k]
    ensures JoinWith(parts, [sep]) == s
    decreases |s|
  {
    if sep !in s then [s]
    else
      var i := IndexOf(s, sep);
      var rest := SplitOn(s[i + 1..], sep);
      assert ([s[..i]] + rest)[1..] == rest;
      assert s[..i] + [sep] + s[i + 1..] == s;
      [s[..i]] + rest
  }

  /** Index of the first whitespace character of `s` at or after `i`, or `|s|` if there is none. */
  function NextSpace(s: string, i: nat): (e: nat)
    requires i <= |s|
    ensures i <= e <= |s|
    ensures forall k | i <= k < e :: !IsSpace(s[k])
    ensures e < |s| ==> IsSpace(s[e])
    decreases |s| - i
  {
    if i == |s| || IsSpace(s[i]) then i else NextSpace(s, i + 1)
  }

  /** The characters of `s` that are not whitespace, in order. */
  function NonSpace(s: string): string {
    if s == [] then [] else (if IsSpace(s[0]) then [] else [s[0]]) + NonSpace(s[1..])
  }

  lemma {:induction false} NonSpaceAppend(a: string, b: string)
    ensures NonSpace(a + b) == NonSpace(a) + NonSpace(b)
  {
    if a != [] {
      var head := if IsSpace(a[0]) then [] else [a[0]];
      assert (a + b)[0] == a[0];
      assert (a + b)[1..] == a[1..] + b;
      NonSpaceAppend(a[1..], b);
      assert NonSpace(a + b) == head + (NonSpace(a[1..]) + NonSpace(b));
      assert NonSpace(a) == head + NonSpace(a[1..]);
    } else {
      assert a + b == b;
    }
  }

  lemma {:induction false} NonSpaceOfBlank(s: string)
    requires IsBlank(s)
    ensures NonSpace(s) == []
  {
    if s != [] { NonSpaceOfBlank(s[1..]); }
  }

  lemma {:induction false} NonSpaceOfWord(s: string)
    requires forall k | 0 <= k < |s| :: !IsSpace(s[k])
    ensures NonSpace(s) == s
  {
    if s != [] { NonSpaceOfWord(s[1..]); }
  }

  /**
   * `s.split()`: the maximal runs of non-whitespace characters, each non-empty and free of
   * whitespace (TokensCoverNonSpace: together they are the non-whitespace characters of `s`).
   */
  function Tokens(s: string): (ts: seq<string>)
    ensures forall k | 0 <= k < |ts| :: ts[k] != [] && forall m | 0 <= m < |ts[k]| :: !IsSpace(ts[k][m])
    decreases |s|
  {
    var a := LeadingSpaces(s);
    if a == |s| then []
    else
      var b := NextSpace(s, a);
      [s[a..b]] + Tokens(s[b..])
  }

  /** A blank stretch followed by a word: only the word survives `NonSpace`. */
  lemma {:induction false} NonSpaceAfterBlank(s: string, a: nat, b: nat)
    requires a <= b <= |s|
    requires forall k | 0 <= k < a :: IsSpace(s[k])
    requires forall k | a <= k < b :: !IsSpace(s[k])
    ensures NonSpace(s) == s[a..b] + NonSpace(s[b..])
  {
    var lead, word, tail := s[..a], s[a..b], s[b..];
    assert s == lead + word + tail;
    NonSpaceAppend(lead + word, tail);
    NonSpaceAppend(lead, word);
    assert IsBlank(lead) by {
      forall k | 0 <= k < |lead| ensures IsSpace(lead[k]) { assert lead[k] == s[k]; }
    }
    NonSpaceOfBlank(lead);
    assert forall k | 0 <= k < |word| :: !IsSpace(word[k]) by {
      forall k | 0 <= k < |word| ensures !IsSpace(word[k]) { assert word[k] == s[a + k]; }
    }
    NonSpaceOfWord(word);
  }

  lemma {:induction false} TokensCoverNonSpace(s: string)
    ensures Concat(Tokens(s)) == NonSpace(s)
    decreases |s|
  {
    var a := LeadingSpaces(s);
    if a == |s| {
      NonSpaceOfBlank(s);
    } else {
      var b := NextSpace(s, a);
      TokensCoverNonSpace(s[b..]);
      NonSpaceAfterBlank(s, a, b);
      var ts := Tokens(s);
      assert ts == [s[a..b]] + Tokens(s[b..]);
      assert ts[1..] == Tokens(s[b..]);
    }
  }

  /**
   * A blank stretch, a word and a rest that starts with whitespace (or is empty): the word is the
   * first token, and the rest gives the others.
   */
  lemma {:induction false} TokensUnfold(s: string, lead: string, word: string, rest: string)
    requires s == lead + word + rest && IsBlank(lead)
    requires word != [] && forall k | 0 <= k < |word| :: !IsSpace(word[k])
    requires rest != [] ==> IsSpace(rest[0])
    ensures Tokens(s) == [word] + Tokens(rest)
  {
    var a, b := |lead|, |lead| + |word|;
    assert forall k | 0 <= k < a :: s[k] == lead[k];
    assert forall k | a <= k < b :: s[k] == word[k - a];
    assert b < |s| ==> s[b] == rest[0];
    assert !IsSpace(s[a]);
    assert forall k | 0 <= k < a :: IsSpace(s[k]);
    assert LeadingSpaces(s) == a;
    assert forall k | a <= k < b :: !IsSpace(s[k]);
    assert NextSpace(s, a) == b;
    assert s[a..b] == word;
    assert s[b..] == rest;
  }

  /** A blank string has no tokens. */
  lemma {:induction false} TokensOfBlank(s: string)
    requires IsBlank(s)
    ensures Tokens(s) == []
  {
    assert LeadingSpaces(s) == |s|;
  }

  /** Where the first token of a non-blank string starts and ends. */
  lemma {:induction false} FirstWord(s: string) returns (lead: string, word: string, rest: string)
    requires !IsBlank(s)
    ensures s == lead + word + rest && IsBlank(lead)
    ensures word != [] && forall k | 0 <= k < |word| :: !IsSpace(word[k])
    ensures rest != [] ==> IsSpace(rest[0])
    ensures |rest| < |s|
  {
    var a := LeadingSpaces(s);
    var k :| 0 <= k < |s| && !IsSpace(s[k]);
    assert a <= k;
    var b := NextSpace(s, a);
    lead, word, rest := s[..a], s[a..b], s[b..];
    assert s == lead + word + rest;
    assert forall k | 0 <= k < |lead| :: lead[k] == s[k];
    assert forall k | 0 <= k < |word| :: word[k] == s[a + k];
  }

  /** Leading whitespace does not change the tokens. */
  lemma {:induction false} TokensDropBlank(lead: string, s: string)
    requires IsBlank(lead)
    ensures Tokens(lead + s) == Tokens(s)
  {
    if IsBlank(s) {
      BlankAppend(lead, s);
      TokensOfBlank(s);
      TokensOfBlank(lead + s);
    } else {
      var lead', word, rest := FirstWord(s);
      BlankAppend(lead, lead');
      assert lead + s == (lead + lead') + word + rest;
      TokensUnfold(lead + s, lead + lead', word, rest);
      TokensUnfold(s, lead', word, rest);
    }
  }

  lemma {:induction false} Regroup(a: string, lead: string, word: string, rest: string, c: char, b: string)
    requires a == lead + word + rest
    requires IsSpace(c) && (rest != [] ==> IsSpace(rest[0]))
    ensures a + [c] + b == lead + word + (rest + [c] + b)
    ensures IsSpace((rest + [c] + b)[0])
  {
  }

  /** `split()` cuts at every whitespace character: the tokens on each side, in order. */
  lemma {:induction false} TokensSplitAtSpace(a: string, c: char, b: string)
    requires IsSpace(c)
    ensures Tokens(a + [c] + b) == Tokens(a) + Tokens(b)
    decreases |a|
  {
    if IsBlank(a) {
      SplitBlank(a, c, b);
    } else {
      var lead, word, rest := FirstWord(a);
      TokensSplitAtSpace(rest, c, b);
      SplitWord(a, lead, word, rest, c, b);
    }
  }

  lemma {:induction false} SplitBlank(a: string, c: char, b: string)
    requires IsSpace(c) && IsBlank(a)
    ensures Tokens(a + [c] + b) == Tokens(a) + Tokens(b)
  {
    TokensOfBlank(a);
    BlankAppend(a, [c]);
    TokensDropBlank(a + [c], b);
  }

  lemma {:induction false} SplitWord(a: string, lead: string, word: string, rest: string, c: char, b: string)
    requires a == lead + word + rest && IsBlank(lead) && IsSpace(c)
    requires word != [] && forall k | 0 <= k < |word| :: !IsSpace(word[k])
    requires rest != [] ==> IsSpace(rest[0])
    requires Tokens(rest + [c] + b) == Tokens(rest) + Tokens(b)
    ensures Tokens(a + [c] + b) == Tokens(a) + Tokens(b)
  {
    Regroup(a, lead, word, rest, c, b);
    TokensUnfold(a + [c] + b, lead, word, rest + [c] + b);
    TokensUnfold(a, lead, word, rest);
    TokensAssoc([word], Tokens(rest), Tokens(b));
  }

  lemma {:induction false} TokensAssoc(x: seq<string>, y: seq<string>, z: seq<string>)
    ensures x + (y + z) == (x + y) + z
  {
  }

  /** A non-empty word without whitespace is a single token. */
  lemma {:induction false} TokensOfWord(w: string)
    requires w != [] && forall k | 0 <= k < |w| :: !IsSpace(w[k])
    ensures Tokens(w) == [w]
  {
    assert w == [] + w + [];
    TokensUnfold(w, [], w, []);
    TokensOfBlank([]);
  }

  // ---------------------------------------------------------------------------------------------
  // substring search and counting

  /** `t in s` for strings. */
  predicate Contains(s: string, t: string)
    decreases |s|
  {
    |t| <= |s| && (s[..|t|] == t || Contains(s[1..], t))
  }

  lemma {:induction false} ContainsAt(s: string, t: string, i: nat)
    requires i + |t| <= |s| && s[i..i + |t|] == t
    ensures Contains(s, t)
    decreases i
  {
    if i > 0 {
      assert s[1..][i - 1..i - 1 + |t|] == s[i..i + |t|];
      ContainsAt(s[1..], t, i - 1);
    }
  }

  lemma {:induction false} ContainsWitness(s: string, t: string) returns (i: nat)
    requires Contains(s, t)
    ensures i + |t| <= |s| && s[i..i + |t|] == t
    decreases |s|
  {
    if s[..|t|] == t {
      i := 0;
    } else {
      var j := ContainsWitness(s[1..], t);
      assert s[1..][j..j + |t|] == s[j + 1..j + 1 + |t|];
      i := j + 1;
    }
  }

  /** A string in which the first character of `t` never appears does not contain `t`. */
  lemma {:induction false} NotContainsAbsent(s: string, t: string)
    requires |t| > 0
    requires t[0] !in s
    ensures !Contains(s, t)
    decreases |s|
  {
    if |t| <= |s| {
      assert s[..|t|][0] == s[0];
      NotContainsAbsent(s[1..], t);
    }
  }

  /** Some entry of `ts` occurs in `s`: `any(t in s for t in ts)`. */
  predicate ContainsAny(s: string, ts: seq<string>) {
    exists k | 0 <= k < |ts| :: Contains(s, ts[k])
  }

  /** `s.count(t)` for a non-empty `t`: occurrences counted left to right without overlap. */
  function CountOccurrences(s: string, t: string): (n: nat)
    requires |t| > 0
    ensures n * |t| <= |s|
    ensures n > 0 <==> Contains(s, t)
    decreases |s|
  {
    if |s| < |t| then 0
    else if s[..|t|] == t then
      var n := CountOccurrences(s[|t|..], t);
      assert (n + 1) * |t| == n * |t| + |t|;
      n + 1
    else
      CountOccurrences(s[1..], t)
  }

  /**
   * For a one-character `t` the count is the number of positions holding it: it adds up over a
   * concatenation, and a single character counts once or not at all.
   */
  lemma {:induction false} CountOccurrencesAppend(a: string, b: string, t: string)
    requires |t| == 1
    ensures CountOccurrences(a + b, t) == CountOccurrences(a, t) + CountOccurrences(b, t)
    decreases |a|
  {
    if a == [] {
      assert a + b == b;
    } else {
      assert (a + b)[..1] == a[..1];
      assert (a + b)[1..] == a[1..] + b;
      CountOccurrencesAppend(a[1..], b, t);
    }
  }

  /** Occurrences are not counted twice: a match resumes after the end of the previous one. */
  lemma {:induction false} CountIsNonOverlapping()
    ensures CountOccurrences("///", "//") == 1
    ensures CountOccurrences("]]]]]", "]]") == 2
  {
    assert "///"[..2] == "//" && "///"[2..] == "/";
    var s := "]]]]]";
    assert s[..2] == "]]" && s[2..] == "]]]";
    assert s[2..][..2] == "]]" && s[2..][2..] == "]";
  }

  lemma {:induction false} CountOccurrencesOfChar(c: char, t: string)
    requires |t| == 1
    ensures CountOccurrences([c], t) == if [c] == t then 1 else 0
  {
    assert [c][..1] == [c] && [c][1..] == [];
  }

  // ---------------------------------------------------------------------------------------------
  // decimal numerals

  function DigitChar(d: nat): char
    requires d < 10
  {
    ('0' as int + d) as char
  }

  function DigitValue(c: char): nat
    requires IsDigit(c)
  {
    c as int - '0' as int
  }

  predicate AllDigits(s: string) { forall k | 0 <= k < |s| :: IsDigit(s[k]) }

  /** The number a string of decimal digits spells. */
  function DecimalValue(s: string): nat
    requires AllDigits(s)
  {
    if s == [] then 0 else 10 * DecimalValue(s[..|s| - 1]) + DigitValue(s[|s| - 1])
  }

  /** `str(n)`: the decimal numeral of `n`, without leading zeros. */
  function Decimal(n: nat): (r: string)
    ensures r != [] && AllDigits(r)
    ensures n >= 10 ==> |r| >= 2
    ensures n < 100 ==> |r| <= 2
    ensures |r| > 1 ==> r[0] != '0'
  {
    if n < 10 then [DigitChar(n)] else Decimal(n / 10) + [DigitChar(n % 10)]
  }

  lemma {:induction false} DecimalRoundTrip(n: nat)
    ensures DecimalValue(Decimal(n)) == n
  {
    if n >= 10 {
      DecimalRoundTrip(n / 10);
      var r := Decimal(n);
      assert r[..|r| - 1] == Decimal(n / 10);
    }
  }

  /** `f"{n:02d}"`: the decimal numeral of `n`, padded on the left with zeros to two characters. */
  function ZeroPad2(n: nat): (r: string)
    ensures |r| >= 2 && AllDigits(r)
    ensures DecimalValue(r) == n
    ensures n < 100 ==> |r| == 2
    ensures |r| > 2 ==> r[0] != '0'
    ensures n >= 10 ==> r == Decimal(n)
  {
    DecimalRoundTrip(n);
    if n < 10 then "0" + Decimal(n) else Decimal(n)
  }
}
