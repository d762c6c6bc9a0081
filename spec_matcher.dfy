/**
 * The specification-matching engine of lib/engines/spec-matcher.ts, up to
 * the scoring of one catalog SKU: value normaliser, number extractor, value
 * comparator with its synonym table, parameter aligner and match scorer.
 * The ranking over a whole catalog is in module Ranker.
 */
module SpecMatcher {
  import opened Wrappers
  import opened JsText
  import opened Seqs
  import opened Schemas

  // ---------------------------------------------------------------- normaliser

  /** normalizeValue: lower-cased, trimmed, every whitespace run replaced by one space. */
  function NormalizeValue(value: string): string {
    CollapseSpaces(Trim(ToLower(value)))
  }

  /** The normal form is lower case, has no outer whitespace and only single spaces inside. */
  lemma NormalizeValueShape(value: string)
    ensures IsLowerCase(NormalizeValue(value))
    ensures var r := NormalizeValue(value);
      r == [] || (!IsSpace(r[0]) && !IsSpace(r[|r| - 1]))
    ensures var r := NormalizeValue(value);
      forall i :: 0 <= i < |r| && IsSpace(r[i]) ==> r[i] == ' '
    ensures var r := NormalizeValue(value);
      forall i :: 0 <= i < |r| - 1 ==> !(IsSpace(r[i]) && IsSpace(r[i + 1]))
  {
    var lower := ToLower(value);
    var trimmed := Trim(lower);
    TrimSpec(lower);
    TrimLowerCase(lower);
    CollapseSpacesSpec(trimmed);
    CollapseLowerCase(trimmed);
  }

  /** Text that is already trimmed and single-spaced normalises to its lower-case form. */
  lemma NormalizeTidy(value: string)
    requires value == [] || (!IsSpace(value[0]) && !IsSpace(value[|value| - 1]))
    requires forall i :: 0 <= i < |value| && IsSpace(value[i]) ==> value[i] == ' '
    requires forall i :: 0 <= i < |value| - 1 ==> !(IsSpace(value[i]) && IsSpace(value[i + 1]))
    ensures NormalizeValue(value) == ToLower(value)
  {
    var lower := ToLower(value);
    TrimOfTrimmed(lower);
    CollapseOfCollapsed(lower);
  }

  /** Case, outer whitespace and an inner tab are normalised away: "  Copper\tCable " is "copper cable". */
  lemma NormalizeExample(value: string)
    requires value == "  Copper\tCable "
    ensures NormalizeValue(value) == "copper cable"
  {
    LowerExample(value);
    TrimExample("  copper\tcable ");
    CollapseExample("copper\tcable");
  }

  lemma LowerExample(value: string)
    requires value == "  Copper\tCable "
    ensures ToLower(value) == "  copper\tcable "
  {
  }

  lemma TrimExample(lower: string)
    requires lower == "  copper\tcable "
    ensures Trim(lower) == "copper\tcable"
  {
    assert lower == "  " + "copper\tcable" + " ";
    TrimAround("  ", "copper\tcable", " ");
  }

  lemma CollapseExample(trimmed: string)
    requires trimmed == "copper\tcable"
    ensures CollapseSpaces(trimmed) == "copper cable"
  {
    assert trimmed == "copper" + "\t" + "cable";
    CollapseWords("copper", "\t", "cable");
  }

  /** A non-empty run of characters none of which is whitespace. */
  predicate IsWord(w: string) {
    w != [] && forall i :: 0 <= i < |w| ==> !IsSpace(w[i])
  }

  /** Two words joined by one space normalise to the two words lower-cased. */
  lemma NormalizeTwoWords(w1: string, w2: string, lower1: string, lower2: string)
    requires IsWord(w1) && IsWord(w2)
    requires ToLower(w1) == lower1 && ToLower(w2) == lower2
    ensures NormalizeValue(w1 + " " + w2) == lower1 + " " + lower2
  {
    var v := w1 + " " + w2;
    assert forall i :: 0 <= i < |v| && IsSpace(v[i]) ==> i == |w1|;
    NormalizeTidy(v);
    assert ToLower(v) == ToLower(w1) + " " + ToLower(w2);
  }

  /** Normalising is idempotent. */
  lemma {:induction false} NormalizeIdempotent(value: string)
    ensures NormalizeValue(NormalizeValue(value)) == NormalizeValue(value)
  {
    var n := NormalizeValue(value);
    NormalizeValueShape(value);
    ToLowerOfLowerCase(n);
    TrimOfTrimmed(n);
    CollapseOfCollapsed(n);
  }

  // ---------------------------------------------------------- number extractor

  /** Length of the run of digits at the front of `s`. */
  function DigitRun(s: string): (n: nat)
    ensures n <= |s|
    ensures forall i :: 0 <= i < n ==> IsDigit(s[i])
    ensures n < |s| ==> !IsDigit(s[n])
  {
    if s != [] && IsDigit(s[0]) then 1 + DigitRun(s[1..]) else 0
  }

  function DigitValue(c: char): nat
    requires IsDigit(c)
  {
    c as int - '0' as int
  }

  /** The number a string of decimal digits denotes. */
  function DigitsValue(d: string): nat
    requires forall i :: 0 <= i < |d| ==> IsDigit(d[i])
  {
    if d == [] then 0 else 10 * DigitsValue(d[..|d| - 1]) + DigitValue(d[|d| - 1])
  }

  function Pow10(n: nat): (r: nat)
    ensures r > 0
  {
    if n == 0 then 1 else 10 * Pow10(n - 1)
  }

  /**
   * parseFloat of the match of /\d+\.?\d*&zwj;/ that starts at the front of `s`:
   * the digits, then, after an optional ".", the fraction digits.
   */
  function ParseLeadingDecimal(s: string): real
  {
    var k := DigitRun(s);
    var whole := DigitsValue(s[..k]) as real;
    if k < |s| && s[k] == '.' then
      var f := DigitRun(s[k + 1..]);
      whole + DigitsValue(s[k + 1..][..f]) as real / Pow10(f) as real
    else
      whole
  }

  /** extractNumericValue: the first decimal number in the text, if any digit occurs. */
  function ExtractNumericValue(value: string): Option<real> {
    if value == [] then None
    else if IsDigit(value[0]) then Some(ParseLeadingDecimal(value))
    else ExtractNumericValue(value[1..])
  }

  /** There is a number exactly when some digit occurs, and it is never negative. */
  lemma {:induction false} ExtractNumericValueSpec(value: string)
    ensures ExtractNumericValue(value).None? <==> forall i :: 0 <= i < |value| ==> !IsDigit(value[i])
    ensures ExtractNumericValue(value).Some? ==> ExtractNumericValue(value).value >= 0.0
    decreases |value|
  {
    if value != [] && !IsDigit(value[0]) {
      ExtractNumericValueSpec(value[1..]);
      assert forall i :: 1 <= i < |value| ==> value[i] == value[1..][i - 1];
    }
  }

  /** The number is read from the first digit of the text on. */
  lemma {:induction false} ExtractAtFirstDigit(value: string, i: nat)
    requires i < |value| && IsDigit(value[i])
    requires forall j :: 0 <= j < i ==> !IsDigit(value[j])
    ensures ExtractNumericValue(value) == Some(ParseLeadingDecimal(value[i..]))
  {
    if i > 0 {
      ExtractAtFirstDigit(value[1..], i - 1);
      assert value[1..][i - 1..] == value[i..];
    }
  }

  lemma {:induction false} DigitRunOfDigits(d: string, tail: string)
    requires forall i :: 0 <= i < |d| ==> IsDigit(d[i])
    requires tail == [] || !IsDigit(tail[0])
    ensures DigitRun(d + tail) == |d|
  {
    if d != [] {
      DigitRunOfDigits(d[1..], tail);
      assert (d + tail)[1..] == d[1..] + tail;
    }
  }

  /** A digit run not followed by "." parses to its integer value. */
  lemma WholeNumber(d: string, tail: string)
    requires d != [] && forall i :: 0 <= i < |d| ==> IsDigit(d[i])
    requires tail == [] || (!IsDigit(tail[0]) && tail[0] != '.')
    ensures ParseLeadingDecimal(d + tail) == DigitsValue(d) as real
  {
    DigitRunOfDigits(d, tail);
    assert (d + tail)[..|d|] == d;
  }

  /** A digit run, ".", and a (possibly empty) run of fraction digits parse to the decimal they spell. */
  lemma DecimalNumber(d: string, f: string, tail: string)
    requires d != [] && forall i :: 0 <= i < |d| ==> IsDigit(d[i])
    requires forall i :: 0 <= i < |f| ==> IsDigit(f[i])
    requires tail == [] || !IsDigit(tail[0])
    ensures ParseLeadingDecimal(d + "." + f + tail)
         == DigitsValue(d) as real + DigitsValue(f) as real / Pow10(|f|) as real
  {
    var rest := f + tail;
    var s := d + ['.'] + rest;
    assert d + "." + f + tail == s;
    DigitRunOfDigits(d, ['.'] + rest);
    assert d + ['.'] + rest == d + (['.'] + rest);
    assert s[..|d|] == d;
    assert s[|d|] == '.';
    assert s[|d| + 1..] == rest;
    DigitRunOfDigits(f, tail);
    assert rest[..|f|] == f;
  }

  lemma ExtractDecimalExample(v: string)
    requires v == "98.5"
    ensures ExtractNumericValue(v) == Some(98.5)
  {
    assert v == "98" + "." + "5" + "";
    DecimalNumber("98", "5", "");
    assert "98"[..1] == "9";
  }

  lemma Digits7098(d: string)
    requires d == "7098"
    ensures forall i :: 0 <= i < |d| ==> IsDigit(d[i])
    ensures DigitsValue(d) == 7098
  {
    var d1, d2, d3 := d[..1], d[..2], d[..3];
    assert d1 == d2[..1] && d2 == d3[..2] && d3 == d[..3];
    assert DigitsValue(d1) == 7;
    assert DigitsValue(d2) == 70;
    assert DigitsValue(d3) == 709;
  }

  lemma ExtractSkipsTextExample(v: string)
    requires v == "IS 7098"
    ensures ExtractNumericValue(v) == Some(7098.0)
  {
    ExtractAtFirstDigit(v, 3);
    var d := v[3..];
    assert d == "7098";
    Digits7098(d);
    assert d == d + "";
    WholeNumber(d, "");
  }

  lemma ExtractStopsAtTextExample(v: string)
    requires v == "3 Core"
    ensures ExtractNumericValue(v) == Some(3.0)
  {
    assert v == "3" + " Core";
    WholeNumber("3", " Core");
  }

  // ------------------------------------------------------------ value comparator

  function Abs(x: real): real {
    if x < 0.0 then -x else x
  }

  /**
   * The 5 % test relative to the requirement's number, written without
   * division; a requirement number of 0 fails (JavaScript's NaN and Infinity).
   */
  predicate WithinTolerance(rfpNum: real, oemNum: real) {
    rfpNum > 0.0 && 20.0 * Abs(rfpNum - oemNum) <= rfpNum
  }

  /** The division-free test is the source's |r - o| / r <= 0.05, i.e. o within 95 %..105 % of r. */
  lemma ToleranceIsRelativeDifference(rfpNum: real, oemNum: real)
    ensures WithinTolerance(rfpNum, oemNum)
        <==> rfpNum > 0.0 && Abs(rfpNum - oemNum) / rfpNum <= 0.05
    ensures WithinTolerance(rfpNum, oemNum)
        <==> rfpNum > 0.0 && 0.95 * rfpNum <= oemNum <= 1.05 * rfpNum
  {
    if rfpNum > 0.0 {
      var d := Abs(rfpNum - oemNum);
      assert d / rfpNum * rfpNum == d;
      assert d / rfpNum <= 0.05 <==> d <= 0.05 * rfpNum;
    }
  }

  /** The synonym classes: a class name and its normalised variants. */
  const Synonyms: seq<(string, seq<string>)> := [
    ("xlpe", ["cross-linked polyethylene", "xlpe", "cross linked polyethylene"]),
    ("pvc", ["polyvinyl chloride", "pvc"]),
    ("lszh", ["low smoke zero halogen", "lszh", "ls0h"]),
    ("aluminum", ["aluminium", "aluminum", "al"]),
    ("copper", ["copper", "cu"]),
    ("onan", ["oil natural air natural", "onan"])
  ]

  /** Some class of `table` lists both strings (the source's loop over the table's entries). */
  function SameSynonymClass(a: string, b: string, table: seq<(string, seq<string>)>): bool {
    if table == [] then false
    else if a in table[0].1 && b in table[0].1 then true
    else SameSynonymClass(a, b, table[1..])
  }

  /** The table search answers whether any class lists both strings. */
  lemma {:induction false} SameSynonymClassSpec(a: string, b: string, table: seq<(string, seq<string>)>)
    ensures SameSynonymClass(a, b, table) <==> exists k :: 0 <= k < |table| && a in table[k].1 && b in table[k].1
    decreases |table|
  {
    if table != [] {
      SameSynonymClassSpec(a, b, table[1..]);
      assert forall k :: 1 <= k < |table| ==> table[k] == table[1..][k - 1];
    }
  }

  /** valuesMatch; `parameter` is accepted but never consulted. */
  function ValuesMatch(rfpValue: string, oemValue: string, parameter: string): bool {
    var rfpNorm := NormalizeValue(rfpValue);
    var oemNorm := NormalizeValue(oemValue);
    if rfpNorm == oemNorm then
      true
    else
      var rfpNum := ExtractNumericValue(rfpValue);
      var oemNum := ExtractNumericValue(oemValue);
      if rfpNum.Some? && oemNum.Some? then
        WithinTolerance(rfpNum.value, oemNum.value)
      else
        SameSynonymClass(rfpNorm, oemNorm, Synonyms)
  }

  /**
   * The three rules, first applicable wins: equal normalised forms match;
   * otherwise two numbers match iff the catalog's lies within 5 % of the
   * requirement's; otherwise the two normalised forms must share a synonym
   * class. The parameter name never matters.
   */
  lemma ValuesMatchRules(rfpValue: string, oemValue: string, parameter: string, other: string)
    ensures NormalizeValue(rfpValue) == NormalizeValue(oemValue) ==> ValuesMatch(rfpValue, oemValue, parameter)
    ensures NormalizeValue(rfpValue) != NormalizeValue(oemValue)
            && ExtractNumericValue(rfpValue).Some? && ExtractNumericValue(oemValue).Some? ==>
              (ValuesMatch(rfpValue, oemValue, parameter) <==>
                 var r := ExtractNumericValue(rfpValue).value;
                 var o := ExtractNumericValue(oemValue).value;
                 r > 0.0 && 0.95 * r <= o <= 1.05 * r)
    ensures NormalizeValue(rfpValue) != NormalizeValue(oemValue)
            && (ExtractNumericValue(rfpValue).None? || ExtractNumericValue(oemValue).None?) ==>
              (ValuesMatch(rfpValue, oemValue, parameter) <==>
                 exists k :: 0 <= k < |Synonyms|
                   && NormalizeValue(rfpValue) in Synonyms[k].1 && NormalizeValue(oemValue) in Synonyms[k].1)
    ensures ValuesMatch(rfpValue, oemValue, parameter) == ValuesMatch(rfpValue, oemValue, other)
  {
    SameSynonymClassSpec(NormalizeValue(rfpValue), NormalizeValue(oemValue), Synonyms);
    var rn, on := ExtractNumericValue(rfpValue), ExtractNumericValue(oemValue);
    if rn.Some? && on.Some? {
      ToleranceIsRelativeDifference(rn.value, on.value);
    }
  }

  /** Every value matches itself, whatever its case and spacing. */
  lemma ValuesMatchReflexive(value: string, parameter: string)
    ensures ValuesMatch(value, value, parameter)
    ensures ValuesMatch(value, ToLower(value), parameter)
  {
    assert ToLower(ToLower(value)) == ToLower(value);
  }

  /** The decision of valuesMatch once the normalised forms differ and both numbers are known. */
  lemma MatchByNumbers(rfpValue: string, oemValue: string, parameter: string, r: real, o: real)
    requires NormalizeValue(rfpValue) != NormalizeValue(oemValue)
    requires ExtractNumericValue(rfpValue) == Some(r) && ExtractNumericValue(oemValue) == Some(o)
    ensures ValuesMatch(rfpValue, oemValue, parameter) == WithinTolerance(r, o)
  {
  }

  /** The decision of valuesMatch once the normalised forms differ and the requirement has no number. */
  lemma MatchBySynonyms(rfpValue: string, oemValue: string, parameter: string)
    requires NormalizeValue(rfpValue) != NormalizeValue(oemValue)
    requires ExtractNumericValue(rfpValue).None?
    ensures ValuesMatch(rfpValue, oemValue, parameter)
        == SameSynonymClass(NormalizeValue(rfpValue), NormalizeValue(oemValue), Synonyms)
  {
  }

  // Facts about the literal values of the examples below, one literal per
  // lemma so that each proof stays small.

  /** A tidy value made of a digit run and a unit tail: its normal form and its number. */
  lemma NumericLiteral(value: string, lower: string, digits: string, tail: string, n: nat)
    requires value == digits + tail
    requires digits != [] && forall i :: 0 <= i < |digits| ==> IsDigit(digits[i])
    requires tail == [] || (!IsDigit(tail[0]) && tail[0] != '.')
    requires DigitsValue(digits) == n
    requires value == [] || (!IsSpace(value[0]) && !IsSpace(value[|value| - 1]))
    requires forall i :: 0 <= i < |value| && IsSpace(value[i]) ==> value[i] == ' '
    requires forall i :: 0 <= i < |value| - 1 ==> !(IsSpace(value[i]) && IsSpace(value[i + 1]))
    requires ToLower(value) == lower
    ensures NormalizeValue(value) == lower
    ensures ExtractNumericValue(value) == Some(n as real)
  {
    NormalizeTidy(value);
    WholeNumber(digits, tail);
  }

  /** A tidy value without digits: its normal form, and no number. */
  lemma WordLiteral(value: string, lower: string)
    requires forall i :: 0 <= i < |value| ==> !IsDigit(value[i])
    requires value == [] || (!IsSpace(value[0]) && !IsSpace(value[|value| - 1]))
    requires forall i :: 0 <= i < |value| && IsSpace(value[i]) ==> value[i] == ' '
    requires forall i :: 0 <= i < |value| - 1 ==> !(IsSpace(value[i]) && IsSpace(value[i + 1]))
    requires ToLower(value) == lower
    ensures NormalizeValue(value) == lower
    ensures ExtractNumericValue(value).None?
  {
    NormalizeTidy(value);
    ExtractNumericValueSpec(value);
  }

  lemma Literal100kV(v: string)
    requires v == "100 kV"
    ensures NormalizeValue(v) == "100 kv" && ExtractNumericValue(v) == Some(100.0)
  {
    assert DigitsValue("100") == 100 by { assert "100"[..2] == "10" && "10"[..1] == "1"; }
    NumericLiteral(v, "100 kv", "100", " kV", 100);
  }

  lemma Literal104kV(v: string)
    requires v == "104 kV"
    ensures NormalizeValue(v) == "104 kv" && ExtractNumericValue(v) == Some(104.0)
  {
    assert DigitsValue("104") == 104 by { assert "104"[..2] == "10" && "10"[..1] == "1"; }
    NumericLiteral(v, "104 kv", "104", " kV", 104);
  }

  lemma Literal106kV(v: string)
    requires v == "106 kV"
    ensures NormalizeValue(v) == "106 kv" && ExtractNumericValue(v) == Some(106.0)
  {
    assert DigitsValue("106") == 106 by { assert "106"[..2] == "10" && "10"[..1] == "1"; }
    NumericLiteral(v, "106 kv", "106", " kV", 106);
  }

  lemma Literal100(v: string)
    requires v == "100"
    ensures NormalizeValue(v) == "100" && ExtractNumericValue(v) == Some(100.0)
  {
    assert DigitsValue("100") == 100 by { assert "100"[..2] == "10" && "10"[..1] == "1"; }
    NumericLiteral(v, "100", "100", "", 100);
  }

  lemma Literal95(v: string)
    requires v == "95"
    ensures NormalizeValue(v) == "95" && ExtractNumericValue(v) == Some(95.0)
  {
    assert DigitsValue("95") == 95 by { assert "95"[..1] == "9"; }
    NumericLiteral(v, "95", "95", "", 95);
  }

  lemma Literal0(v: string)
    requires v == "0"
    ensures NormalizeValue(v) == "0" && ExtractNumericValue(v) == Some(0.0)
  {
    NumericLiteral(v, "0", "0", "", 0);
  }

  lemma Literal0Point0(w: string)
    requires w == "0.0"
    ensures NormalizeValue(w) == "0.0" && ExtractNumericValue(w) == Some(0.0)
  {
    NormalizeTidy(w);
    assert w == "0" + "." + "0" + "";
    DecimalNumber("0", "0", "");
  }

  lemma ToleranceExamples(r: string, a: string, b: string)
    requires r == "100 kV" && a == "104 kV" && b == "106 kV"
    ensures ValuesMatch(r, a, "Voltage Rating")
    ensures !ValuesMatch(r, b, "Voltage Rating")
  {
    Literal100kV(r);
    Literal104kV(a);
    Literal106kV(b);
    MatchByNumbers(r, a, "Voltage Rating", 100.0, 104.0);
    MatchByNumbers(r, b, "Voltage Rating", 100.0, 106.0);
  }

  /** The tolerance is relative to the requirement: swapping the sides can change the answer. */
  lemma ToleranceIsAsymmetric(x: string, y: string)
    requires x == "100" && y == "95"
    ensures ValuesMatch(x, y, "Capacity") && !ValuesMatch(y, x, "Capacity")
  {
    Literal100(x);
    Literal95(y);
    MatchByNumbers(x, y, "Capacity", 100.0, 95.0);
    MatchByNumbers(y, x, "Capacity", 95.0, 100.0);
  }

  /** A requirement number of 0 never passes the tolerance test, even against an equal 0. */
  lemma ZeroRequirementNeverWithinTolerance(x: string, y: string)
    requires x == "0" && y == "0.0"
    ensures !ValuesMatch(x, y, "Capacity")
  {
    Literal0(x);
    Literal0Point0(y);
    MatchByNumbers(x, y, "Capacity", 0.0, 0.0);
  }

  lemma LiteralCu(x: string)
    requires x == "Cu"
    ensures NormalizeValue(x) == "cu" && ExtractNumericValue(x).None?
  {
    WordLiteral(x, "cu");
  }

  lemma LiteralAluminum(x: string)
    requires x == "Aluminum"
    ensures NormalizeValue(x) == "aluminum" && ExtractNumericValue(x).None?
  {
    WordLiteral(x, "aluminum");
  }

  lemma LiteralCopper(y: string)
    requires y == "Copper"
    ensures NormalizeValue(y) == "copper"
  {
    NormalizeTidy(y);
  }

  /** Two spellings of one material match. */
  lemma SynonymExample(x: string, cu: string)
    requires x == "Cu" && cu == "Copper"
    ensures ValuesMatch(x, cu, "Conductor Material")
  {
    LiteralCu(x);
    LiteralCopper(cu);
    MatchBySynonyms(x, cu, "Conductor Material");
    SameSynonymClassSpec("cu", "copper", Synonyms);
    assert "cu" in Synonyms[4].1 && "copper" in Synonyms[4].1;
  }

  /** Two different materials do not match. */
  lemma DifferentMaterialsExample(al: string, cu: string)
    requires al == "Aluminum" && cu == "Copper"
    ensures !ValuesMatch(al, cu, "Conductor Material")
  {
    LiteralAluminum(al);
    LiteralCopper(cu);
    MatchBySynonyms(al, cu, "Conductor Material");
    SameSynonymClassSpec("aluminum", "copper", Synonyms);
    forall k | 0 <= k < |Synonyms|
      ensures !("aluminum" in Synonyms[k].1 && "copper" in Synonyms[k].1)
    {
      if k == 0 {} else if k == 1 {} else if k == 2 {} else if k == 3 {} else if k == 4 {} else {}
    }
  }

  lemma LiteralXlpe(x: string)
    requires x == "XLPE"
    ensures NormalizeValue(x) == "xlpe" && ExtractNumericValue(x).None?
  {
    WordLiteral(x, "xlpe");
  }

  lemma LowerCrossLinked(w: string)
    requires w == "Cross-Linked"
    ensures IsWord(w) && ToLower(w) == "cross-linked"
  {
  }

  lemma LowerPolyethylene(w: string)
    requires w == "Polyethylene"
    ensures IsWord(w) && ToLower(w) == "polyethylene"
  {
  }

  lemma LiteralCrossLinked(y: string)
    requires y == "Cross-Linked Polyethylene"
    ensures NormalizeValue(y) == "cross-linked polyethylene"
  {
    assert y == "Cross-Linked" + " " + "Polyethylene";
    LowerCrossLinked("Cross-Linked");
    LowerPolyethylene("Polyethylene");
    NormalizeTwoWords("Cross-Linked", "Polyethylene", "cross-linked", "polyethylene");
  }

  /** An abbreviation matches the insulation's full name through the synonym table. */
  lemma XlpeSynonymExample(x: string, y: string, parameter: string)
    requires x == "XLPE" && y == "Cross-Linked Polyethylene"
    ensures ValuesMatch(x, y, parameter)
  {
    LiteralXlpe(x);
    LiteralCrossLinked(y);
    MatchBySynonyms(x, y, parameter);
    SameSynonymClassSpec("xlpe", "cross-linked polyethylene", Synonyms);
    assert "xlpe" in Synonyms[0].1 && "cross-linked polyethylene" in Synonyms[0].1;
  }

  // ---------------------------------------------------------- parameter aligner

  /** The normalised name of a parameter. */
  function ParamName(spec: TechnicalSpec): string {
    NormalizeValue(spec.parameter)
  }

  /** One name contains the other; equal names overlap. */
  predicate NamesOverlap(a: string, b: string) {
    Contains(a, b) || Contains(b, a)
  }

  /**
   * The catalog parameter at `k` is the one the aligner picks for `name`:
   * the first with exactly that normalised name, or, when there is none,
   * the first whose normalised name overlaps it.
   */
  ghost predicate AlignedAt(name: string, specs: seq<TechnicalSpec>, k: int) {
    0 <= k < |specs| &&
    if exists j :: 0 <= j < |specs| && ParamName(specs[j]) == name then
      ParamName(specs[k]) == name && forall j :: 0 <= j < k ==> ParamName(specs[j]) != name
    else
      NamesOverlap(name, ParamName(specs[k])) && forall j :: 0 <= j < k ==> !NamesOverlap(name, ParamName(specs[j]))
  }

  lemma ContainsSelf(s: string)
    ensures Contains(s, s)
  {
    assert StartsWith(s, s);
  }

  /** The position of the first parameter whose normalised name is `name`. */
  function FirstNamed(name: string, specs: seq<TechnicalSpec>): (k: Option<nat>)
    ensures k.Some? ==> k.value < |specs|
  {
    FindIndex(specs, (spec: TechnicalSpec) => ParamName(spec) == name)
  }

  /** The position of the first parameter whose normalised name overlaps `name`. */
  function FirstOverlapping(name: string, specs: seq<TechnicalSpec>): (k: Option<nat>)
    ensures k.Some? ==> k.value < |specs|
  {
    FindIndex(specs, (spec: TechnicalSpec) => NamesOverlap(name, ParamName(spec)))
  }

  lemma FirstNamedSpec(name: string, specs: seq<TechnicalSpec>)
    ensures var k := FirstNamed(name, specs);
      k.None? <==> forall j :: 0 <= j < |specs| ==> ParamName(specs[j]) != name
    ensures var k := FirstNamed(name, specs);
      k.Some? ==> ParamName(specs[k.value]) == name && forall j :: 0 <= j < k.value ==> ParamName(specs[j]) != name
  {
  }

  lemma FirstOverlappingSpec(name: string, specs: seq<TechnicalSpec>)
    ensures var k := FirstOverlapping(name, specs);
      k.None? <==> forall j :: 0 <= j < |specs| ==> !NamesOverlap(name, ParamName(specs[j]))
    ensures var k := FirstOverlapping(name, specs);
      k.Some? ==>
        && NamesOverlap(name, ParamName(specs[k.value]))
        && forall j :: 0 <= j < k.value ==> !NamesOverlap(name, ParamName(specs[j]))
  {
  }

  /** findMatchingParameter: the exact name first, then any overlapping name, else nothing. */
  function FindMatchingParameter(rfpParam: TechnicalSpec, oemSpecs: seq<TechnicalSpec>): Option<TechnicalSpec> {
    var name := ParamName(rfpParam);
    match FirstNamed(name, oemSpecs)
    case Some(k) => Some(oemSpecs[k])
    case None =>
      match FirstOverlapping(name, oemSpecs)
      case Some(k) => Some(oemSpecs[k])
      case None => None
  }

  /**
   * The aligner finds nothing exactly when no catalog name overlaps the
   * requirement's, and otherwise finds the parameter AlignedAt describes.
   */
  lemma FindMatchingParameterSpec(rfpParam: TechnicalSpec, oemSpecs: seq<TechnicalSpec>)
    ensures var r := FindMatchingParameter(rfpParam, oemSpecs);
      r.None? <==> forall k :: 0 <= k < |oemSpecs| ==> !NamesOverlap(ParamName(rfpParam), ParamName(oemSpecs[k]))
    ensures var r := FindMatchingParameter(rfpParam, oemSpecs);
      r.Some? ==> exists k :: AlignedAt(ParamName(rfpParam), oemSpecs, k) && r.value == oemSpecs[k]
  {
    var name := ParamName(rfpParam);
    FirstNamedSpec(name, oemSpecs);
    FirstOverlappingSpec(name, oemSpecs);
    match FirstNamed(name, oemSpecs)
    case Some(k) =>
      ContainsSelf(name);
      assert AlignedAt(name, oemSpecs, k);
    case None =>
      assert !exists j :: 0 <= j < |oemSpecs| && ParamName(oemSpecs[j]) == name;
      match FirstOverlapping(name, oemSpecs)
      case Some(k) =>
        assert AlignedAt(name, oemSpecs, k);
      case None =>
  }

  /** A catalog parameter with the requirement's exact name is never passed over for an overlapping one. */
  lemma ExactNameWins(rfpParam: TechnicalSpec, oemSpecs: seq<TechnicalSpec>, k: nat)
    requires k < |oemSpecs| && ParamName(oemSpecs[k]) == ParamName(rfpParam)
    ensures FindMatchingParameter(rfpParam, oemSpecs).Some?
    ensures ParamName(FindMatchingParameter(rfpParam, oemSpecs).value) == ParamName(rfpParam)
  {
    ContainsSelf(ParamName(rfpParam));
    assert NamesOverlap(ParamName(rfpParam), ParamName(oemSpecs[k]));
    FindMatchingParameterSpec(rfpParam, oemSpecs);
  }

  lemma LowerVoltage(w: string)
    requires w == "Voltage"
    ensures IsWord(w) && ToLower(w) == "voltage"
  {
  }

  lemma LowerRating(w: string)
    requires w == "Rating"
    ensures IsWord(w) && ToLower(w) == "rating"
  {
  }

  lemma LowerConductor(w: string)
    requires w == "Conductor"
    ensures IsWord(w) && ToLower(w) == "conductor"
  {
  }

  lemma LowerMaterial(w: string)
    requires w == "Material"
    ensures IsWord(w) && ToLower(w) == "material"
  {
  }

  lemma NameVoltage(name: string)
    requires name == "Voltage"
    ensures NormalizeValue(name) == "voltage"
  {
    NormalizeTidy(name);
  }

  lemma NameVoltageRating(name: string)
    requires name == "Voltage Rating"
    ensures NormalizeValue(name) == "voltage rating"
  {
    assert name == "Voltage" + " " + "Rating";
    LowerVoltage("Voltage");
    LowerRating("Rating");
    NormalizeTwoWords("Voltage", "Rating", "voltage", "rating");
  }

  lemma NameConductorMaterial(name: string)
    requires name == "Conductor Material"
    ensures NormalizeValue(name) == "conductor material"
  {
    assert name == "Conductor" + " " + "Material";
    LowerConductor("Conductor");
    LowerMaterial("Material");
    NormalizeTwoWords("Conductor", "Material", "conductor", "material");
  }

  /** With no parameter of the same name, "Voltage" is aligned with "Voltage Rating", which contains it. */
  lemma AlignByContainmentExample(rfpParam: TechnicalSpec, oemSpec: TechnicalSpec)
    requires rfpParam.parameter == "Voltage" && oemSpec.parameter == "Voltage Rating"
    ensures FindMatchingParameter(rfpParam, [oemSpec]) == Some(oemSpec)
  {
    NameVoltage(rfpParam.parameter);
    NameVoltageRating(oemSpec.parameter);
    assert "voltage rating"[..|"voltage"|] == "voltage";
    assert NamesOverlap(ParamName(rfpParam), ParamName(oemSpec));
    FindMatchingParameterSpec(rfpParam, [oemSpec]);
  }

  // -------------------------------------------------------------------- scorer

  /** The catalog side of a requirement that has no aligned parameter. */
  const NotSpecified := "Not Specified"

  /** A value followed by its unit, when there is one. */
  function DisplayValue(spec: TechnicalSpec): string {
    spec.value + (if spec.unit != "" then " " + spec.unit else "")
  }

  /** The comparison row of one requirement against a catalog entry's parameters. */
  function CompareParameter(rfpSpec: TechnicalSpec, oemSpecs: seq<TechnicalSpec>): ComparisonRow {
    match FindMatchingParameter(rfpSpec, oemSpecs)
    case Some(oemSpec) =>
      ComparisonRow(rfpSpec.parameter, DisplayValue(rfpSpec), DisplayValue(oemSpec),
                    ValuesMatch(rfpSpec.value, oemSpec.value, rfpSpec.parameter))
    case None =>
      ComparisonRow(rfpSpec.parameter, DisplayValue(rfpSpec), NotSpecified, false)
  }

  /** The number of rows marked as matching. */
  function CountMatches(rows: seq<ComparisonRow>): (n: nat)
    ensures n <= |rows|
  {
    if rows == [] then 0
    else CountMatches(rows[..|rows| - 1]) + if rows[|rows| - 1].matches then 1 else 0
  }

  /** The count reaches the number of rows exactly when every row matches, and 0 exactly when none does. */
  lemma {:induction false} CountMatchesSpec(rows: seq<ComparisonRow>)
    ensures CountMatches(rows) == |rows| <==> forall i :: 0 <= i < |rows| ==> rows[i].matches
    ensures CountMatches(rows) == 0 <==> forall i :: 0 <= i < |rows| ==> !rows[i].matches
    decreases |rows|
  {
    if rows != [] {
      var init := rows[..|rows| - 1];
      CountMatchesSpec(init);
      assert forall i :: 0 <= i < |init| ==> init[i] == rows[i];
    }
  }

  /**
   * Math.round(matching / total * 100), 0 when there is nothing to compare:
   * the nearest whole percentage, halves rounded up.
   */
  function MatchPercentage(matching: nat, total: nat): (p: int)
    requires matching <= total
    ensures 0 <= p <= 100
    ensures total == 0 ==> p == 0
  {
    if total > 0 then
      var share := (matching as real) / (total as real);
      assert share * (total as real) == matching as real;
      (share * 100.0 + 0.5).Floor
    else 0
  }

  /** The percentage is the share of matches times 100, to the nearest whole number. */
  lemma MatchPercentageRounds(matching: nat, total: nat)
    requires matching <= total && total > 0
    ensures var p := MatchPercentage(matching, total) as real;
      p - 0.5 <= (matching as real) / (total as real) * 100.0 < p + 0.5
  {
  }

  /** The comparison rows of every requirement, in the requirement order. */
  function CompareAll(rfpSpecs: seq<TechnicalSpec>, oemSpecs: seq<TechnicalSpec>): (rows: seq<ComparisonRow>)
    ensures |rows| == |rfpSpecs|
  {
    Map(rfpSpecs, RowAgainst(oemSpecs))
  }

  /** The comparison of a requirement against the given catalog parameters, as a function. */
  function RowAgainst(oemSpecs: seq<TechnicalSpec>): TechnicalSpec -> ComparisonRow {
    (rfpSpec: TechnicalSpec) => CompareParameter(rfpSpec, oemSpecs)
  }

  /** Row `i` compares requirement `i`. */
  lemma CompareAllAt(rfpSpecs: seq<TechnicalSpec>, oemSpecs: seq<TechnicalSpec>, i: nat)
    requires i < |rfpSpecs|
    ensures CompareAll(rfpSpecs, oemSpecs)[i] == CompareParameter(rfpSpecs[i], oemSpecs)
  {
  }

  /**
   * The score of one catalog entry against a product's requirements: one
   * row per requirement, in order; a row matches exactly when the
   * requirement has an aligned catalog parameter whose value matches; the
   * percentage is the share of matching rows, rounded.
   */
  function SpecMatch(rfpProduct: ProductSpec, oemSku: OemSku): (r: SpecMatchResult)
    ensures r.sku == oemSku.sku && r.productName == oemSku.productName
    ensures r.totalParams == |rfpProduct.specifications| == |r.comparisonTable|
    ensures 0 <= r.matchingParams <= r.totalParams
    ensures r.matchingParams == CountMatches(r.comparisonTable)
    ensures 0 <= r.specMatchPercentage <= 100
    ensures r.specMatchPercentage == MatchPercentage(r.matchingParams, r.totalParams)
  {
    var rows := CompareAll(rfpProduct.specifications, oemSku.specifications);
    var matching := CountMatches(rows);
    SpecMatchResult(oemSku.sku, oemSku.productName,
                    MatchPercentage(matching, |rfpProduct.specifications|),
                    matching, |rfpProduct.specifications|, rows)
  }

  /**
   * Row `i` of the table speaks of requirement `i`: it shows the
   * requirement's value with its unit, if any; it matches exactly when the
   * requirement has an aligned catalog parameter whose value matches; and it
   * shows that parameter's value with its unit, or "Not Specified" when there
   * is none.
   */
  lemma SpecMatchRows(rfpProduct: ProductSpec, oemSku: OemSku, i: nat)
    requires i < |rfpProduct.specifications|
    ensures
      var row := SpecMatch(rfpProduct, oemSku).comparisonTable[i];
      var rfpSpec := rfpProduct.specifications[i];
      var aligned := FindMatchingParameter(rfpSpec, oemSku.specifications);
      && row.parameter == rfpSpec.parameter
      && row.rfpValue == rfpSpec.value + (if rfpSpec.unit != "" then " " + rfpSpec.unit else "")
      && (row.matches <==> aligned.Some? && ValuesMatch(rfpSpec.value, aligned.value.value, rfpSpec.parameter))
      && (aligned.Some? ==> row.oemValue == aligned.value.value
                                          + (if aligned.value.unit != "" then " " + aligned.value.unit else ""))
      && (aligned.None? ==> row.oemValue == NotSpecified)
  {
    CompareAllAt(rfpProduct.specifications, oemSku.specifications, i);
  }

  /** Appending a row adds one to the count exactly when the row matches. */
  lemma CountMatchesSnoc(rows: seq<ComparisonRow>, row: ComparisonRow)
    ensures CountMatches(rows + [row]) == CountMatches(rows) + if row.matches then 1 else 0
  {
    assert (rows + [row])[..|rows|] == rows;
  }

  /** One more requirement adds its own row at the end. */
  lemma CompareAllSnoc(rfpSpecs: seq<TechnicalSpec>, oemSpecs: seq<TechnicalSpec>, i: nat)
    requires i < |rfpSpecs|
    ensures CompareAll(rfpSpecs[..i + 1], oemSpecs)
         == CompareAll(rfpSpecs[..i], oemSpecs) + [CompareParameter(rfpSpecs[i], oemSpecs)]
  {
    MapSnoc(rfpSpecs, RowAgainst(oemSpecs), i);
  }

  /** calculateSpecMatch: compares the requirements one by one, counting matches. */
  method CalculateSpecMatch(rfpProduct: ProductSpec, oemSku: OemSku) returns (r: SpecMatchResult)
    ensures r == SpecMatch(rfpProduct, oemSku)
  {
    var comparisonTable: seq<ComparisonRow> := [];
    var matchingParams: nat := 0;
    var totalParams := |rfpProduct.specifications|;
    for i := 0 to totalParams
      invariant comparisonTable == CompareAll(rfpProduct.specifications[..i], oemSku.specifications)
      invariant matchingParams == CountMatches(comparisonTable)
    {
      var rfpSpec := rfpProduct.specifications[i];
      var oemSpec := FindMatchingParameter(rfpSpec, oemSku.specifications);
      var row;
      if oemSpec.Some? {
        var matches := ValuesMatch(rfpSpec.value, oemSpec.value.value, rfpSpec.parameter);
        row := ComparisonRow(rfpSpec.parameter, DisplayValue(rfpSpec), DisplayValue(oemSpec.value), matches);
      } else {
        row := ComparisonRow(rfpSpec.parameter, DisplayValue(rfpSpec), NotSpecified, false);
      }
      assert row == CompareParameter(rfpSpec, oemSku.specifications);
      CompareAllSnoc(rfpProduct.specifications, oemSku.specifications, i);
      CountMatchesSnoc(comparisonTable, row);
      comparisonTable := comparisonTable + [row];
      if row.matches {
        matchingParams := matchingParams + 1;
      }
    }
    assert rfpProduct.specifications[..totalParams] == rfpProduct.specifications;
    var specMatchPercentage := MatchPercentage(matchingParams, totalParams);
    r := SpecMatchResult(oemSku.sku, oemSku.productName, specMatchPercentage,
                         matchingParams, totalParams, comparisonTable);
  }

  /** Below 200 requirements a rounded 100 % means every one matched; 199 of 200 already rounds to 100. */
  lemma FullPercentage(matching: nat, total: nat)
    requires matching <= total < 200
    ensures MatchPercentage(matching, total) == 100 <==> total > 0 && matching == total
  {
    if 0 < total && matching < total {
      var m, t := matching as real, total as real;
      var q := m / t;
      assert q * t == m;
    }
    if 0 < total && matching == total {
      assert (matching as real) / (total as real) == 1.0;
    }
  }

  /** A product with fewer than 200 requirements scores 100 exactly when it has some and all of them match. */
  lemma FullScoreMeansAllMatch(rfpProduct: ProductSpec, oemSku: OemSku)
    requires |rfpProduct.specifications| < 200
    ensures var r := SpecMatch(rfpProduct, oemSku);
      (r.specMatchPercentage == 100) <==>
        (r.totalParams > 0 && forall i :: 0 <= i < r.totalParams ==> r.comparisonTable[i].matches)
  {
    var r := SpecMatch(rfpProduct, oemSku);
    FullPercentage(r.matchingParams, r.totalParams);
    CountMatchesSpec(r.comparisonTable);
  }

  /** The percentage never decreases as the matching count grows. */
  lemma MatchPercentageMonotone(m1: nat, m2: nat, total: nat)
    requires m1 <= m2 <= total
    ensures MatchPercentage(m1, total) <= MatchPercentage(m2, total)
  {
    if total > 0 {
      assert (m1 as real) / (total as real) <= (m2 as real) / (total as real);
    }
  }

  /** The first parameter with the requirement's exact name is the one aligned. */
  lemma AlignExactAt(rfpSpec: TechnicalSpec, oemSpecs: seq<TechnicalSpec>, k: nat)
    requires k < |oemSpecs| && ParamName(oemSpecs[k]) == ParamName(rfpSpec)
    requires forall j :: 0 <= j < k ==> ParamName(oemSpecs[j]) != ParamName(rfpSpec)
    ensures FindMatchingParameter(rfpSpec, oemSpecs) == Some(oemSpecs[k])
  {
    FirstNamedSpec(ParamName(rfpSpec), oemSpecs);
  }

  /** With "Voltage Rating" first in the catalog entry, the requirement of that name is aligned with it. */
  lemma AlignFirstExample(rfpSpec: TechnicalSpec, oemSpecs: seq<TechnicalSpec>)
    requires rfpSpec.parameter == "Voltage Rating"
    requires |oemSpecs| == 2 && oemSpecs[0].parameter == "Voltage Rating"
    ensures FindMatchingParameter(rfpSpec, oemSpecs) == Some(oemSpecs[0])
  {
    NameVoltageRating(rfpSpec.parameter);
    NameVoltageRating(oemSpecs[0].parameter);
    AlignExactAt(rfpSpec, oemSpecs, 0);
  }

  /** "Conductor Material" passes over "Voltage Rating" and is aligned with the parameter of its own name. */
  lemma AlignSecondExample(rfpSpec: TechnicalSpec, oemSpecs: seq<TechnicalSpec>)
    requires rfpSpec.parameter == "Conductor Material"
    requires |oemSpecs| == 2 && oemSpecs[0].parameter == "Voltage Rating"
    requires oemSpecs[1].parameter == "Conductor Material"
    ensures FindMatchingParameter(rfpSpec, oemSpecs) == Some(oemSpecs[1])
  {
    NameConductorMaterial(rfpSpec.parameter);
    NameVoltageRating(oemSpecs[0].parameter);
    NameConductorMaterial(oemSpecs[1].parameter);
    assert ParamName(oemSpecs[0]) != ParamName(rfpSpec) by {
      assert "voltage rating"[0] != "conductor material"[0];
    }
    AlignExactAt(rfpSpec, oemSpecs, 1);
  }

  /** Two rows, the first matching and the second not, count one match. */
  lemma CountOneOfTwo(rows: seq<ComparisonRow>)
    requires |rows| == 2 && rows[0].matches && !rows[1].matches
    ensures CountMatches(rows) == 1
  {
    assert rows[..1][..0] == [];
    assert CountMatches(rows[..1]) == 1;
  }

  /**
   * A cable asking for 11 kV and aluminium, scored against an 11 kV copper
   * cable: the voltage row matches, the material row does not, and the
   * score is 1 of 2, i.e. 50 %.
   */
  lemma ScoringExample(rfpProduct: ProductSpec, oemSku: OemSku)
    requires rfpProduct.specifications
          == [TechnicalSpec("Voltage Rating", "11", "kV"), TechnicalSpec("Conductor Material", "Aluminum", "")]
    requires oemSku.specifications
          == [TechnicalSpec("Voltage Rating", "11", "kV"), TechnicalSpec("Conductor Material", "Copper", "")]
    ensures var r := SpecMatch(rfpProduct, oemSku);
      && r.comparisonTable[0].matches && !r.comparisonTable[1].matches
      && r.matchingParams == 1 && r.totalParams == 2 && r.specMatchPercentage == 50
  {
    var rfpSpecs, oemSpecs := rfpProduct.specifications, oemSku.specifications;
    AlignFirstExample(rfpSpecs[0], oemSpecs);
    AlignSecondExample(rfpSpecs[1], oemSpecs);
    SpecMatchRows(rfpProduct, oemSku, 0);
    SpecMatchRows(rfpProduct, oemSku, 1);
    ValuesMatchReflexive("11", "Voltage Rating");
    DifferentMaterialsExample("Aluminum", "Copper");
    var r := SpecMatch(rfpProduct, oemSku);
    CountOneOfTwo(r.comparisonTable);
    assert MatchPercentage(1, 2) == 50;
  }
}
