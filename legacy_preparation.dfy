/** The older preparation helpers (python/preparation_service.py). Their
    regular expressions are written out as greedy matchers (for these
    patterns backtracking never changes a match). Each pattern ends in the
    literal "mL" with a capital L and is applied to lower-cased text, so none
    of them can match: the two extractors always return nothing and the table
    is always empty. The table-building rule itself is modelled on arbitrary
    matches as well. Each matcher takes the unit as a parameter, so the same
    matchers with the unit in lower case give the corrected extractors
    (`...Corrected`), which do read what the text states. */
module LegacyPreparation {
  import opened Wrappers
  import opened Text
  import Preparation

  /** The volume unit every pattern ends in, as written: with a capital L. */
  const SourceUnit: string := "mL"

  /** The unit as it appears in lower-cased text. */
  const LowerUnit: string := "ml"

  // The matchers below read `u` from a position `i` and return the position
  // where the matched piece ends.

  /** The end of the run of characters satisfying `p` that starts at `i`. */
  function RunEnd(u: string, i: nat, p: char -> bool): (j: nat)
    requires i <= |u|
    ensures i <= j <= |u|
    ensures forall m :: i <= m < j ==> p(u[m])
    decreases |u| - i
  {
    if i < |u| && p(u[i]) then RunEnd(u, i + 1, p) else i
  }

  /** `\s*` from `i`. */
  function SpacesEnd(u: string, i: nat): (j: nat)
    requires i <= |u|
    ensures i <= j <= |u|
  {
    RunEnd(u, i, IsSpace)
  }

  /** The literal `lit` at `i`. */
  function LiteralEnd(u: string, i: nat, lit: string): (j: Option<nat>)
    requires i <= |u|
    ensures j.Some? <==> lit <= u[i..]
    ensures j.Some? ==> j.value == i + |lit| <= |u| && u[i..j.value] == lit
  {
    if lit <= u[i..] then Some(i + |lit|) else None
  }

  /** `\s*` followed by the literal `lit`, from `i`. */
  function SpacedLiteralEnd(u: string, i: nat, lit: string): (j: Option<nat>)
    requires i <= |u|
    ensures j.Some? ==> i <= j.value <= |u| && CharsIn(lit, u)
  {
    var k := SpacesEnd(u, i);
    var j := LiteralEnd(u, k, lit);
    if j.Some? then SliceCharsIn(u, k, j.value); j else None
  }

  /** Every character of `lit` occurs in `u`. */
  predicate CharsIn(lit: string, u: string)
  {
    forall c :: c in lit ==> c in u
  }

  lemma SliceCharsIn(u: string, a: nat, b: nat)
    requires a <= b <= |u|
    ensures CharsIn(u[a..b], u)
  {
    forall c | c in u[a..b] ensures c in u {
      var k :| 0 <= k < b - a && u[a..b][k] == c;
      assert u[a + k] == c;
    }
  }

  /** `\d+` from `i`. */
  function DigitsEnd(u: string, i: nat): (j: Option<nat>)
    requires i <= |u|
    ensures j.Some? ==> i < j.value <= |u| && AllDigits(u[i..j.value])
  {
    var j := RunEnd(u, i, IsDigit);
    if j == i then None else Some(j)
  }

  /** `\d+\.?\d*` from `i`. */
  function DecimalEnd(u: string, i: nat): (j: Option<nat>)
    requires i <= |u|
    ensures j.Some? ==> i < j.value <= |u| && IsFloatLiteral(u[i..j.value])
  {
    if i < |u| && IsDigit(u[i]) then
      var a := RunEnd(u, i, IsDigit);
      var j := if a < |u| && u[a] == '.' then RunEnd(u, a + 1, IsDigit) else a;
      DecimalRunIsFloat(u, i, a, j);
      Some(j)
    else None
  }

  /** Digits from `i` to `a`, then possibly a point and more digits up to
      `j`, form a float literal. */
  lemma DecimalRunIsFloat(u: string, i: nat, a: nat, j: nat)
    requires i < a <= j <= |u|
    requires forall m :: i <= m < a ==> IsDigit(u[m])
    requires j == a || (u[a] == '.' && forall m :: a < m < j ==> IsDigit(u[m]))
    ensures IsFloatLiteral(u[i..j])
  {
    var s := u[i..j];
    var digits := s[..a - i];
    forall m | 0 <= m < a - i ensures IsDigit(digits[m]) { assert digits[m] == u[i + m]; }
    DigitPrefixAt(s, a - i);
    if j > a {
      var fraction := s[a - i + 1..];
      forall m | 0 <= m < j - a - 1 ensures IsDigit(fraction[m]) { assert fraction[m] == u[a + 1 + m]; }
    }
  }

  predicate IsDigitOrComma(c: char) { IsDigit(c) || c == ',' }

  predicate IsStrengthRun(s: string)
  {
    forall i :: 0 <= i < |s| ==> IsDigitOrComma(s[i])
  }

  /** `[\d,]+` from `i`. */
  function DigitsCommasEnd(u: string, i: nat): (j: Option<nat>)
    requires i <= |u|
    ensures j.Some? ==> i < j.value <= |u| && IsStrengthRun(u[i..j.value])
  {
    var j := RunEnd(u, i, IsDigitOrComma);
    if j == i then None else Some(j)
  }

  // `(\d+\.?\d*)\s*mg\s*/\s*` then `unit` at the head of `u`: the amount.
  function ConcentrationAt(u: string, unit: string): (r: Option<real>)
    ensures r.Some? ==> CharsIn(unit, u)
  {
    var amountEnd :- DecimalEnd(u, 0);
    var mgEnd :- SpacedLiteralEnd(u, amountEnd, "mg");
    var slashEnd :- SpacedLiteralEnd(u, mgEnd, "/");
    var unitEnd :- SpacedLiteralEnd(u, slashEnd, unit);
    Some(FloatValue(u[..amountEnd]))
  }

  /** `not exceed\s*(\d+\.?\d*)\s*mg/` then `unit` at the head of `u`: the
      limit. */
  function MaxConcentrationAt(u: string, unit: string): (r: Option<real>)
    ensures r.Some? ==> CharsIn("mg/" + unit, u)
  {
    var phraseEnd :- LiteralEnd(u, 0, "not exceed");
    var amountStart := SpacesEnd(u, phraseEnd);
    var amountEnd :- DecimalEnd(u, amountStart);
    var unitEnd :- SpacedLiteralEnd(u, amountEnd, "mg/" + unit);
    Some(FloatValue(u[amountStart..amountEnd]))
  }

  /** `\s*(\d+\.?\d*)\s*` then `unit`, from `i`: the volume group as
      matched and the position where the match ends. */
  function VolumeOf(u: string, i: nat, unit: string): (r: Option<(string, nat)>)
    requires i <= |u|
    ensures r.Some? ==> i < r.value.1 <= |u| && CharsIn(unit, u) && IsFloatLiteral(r.value.0)
  {
    var volumeStart := SpacesEnd(u, i);
    var volumeEnd :- DecimalEnd(u, volumeStart);
    var unitEnd :- SpacedLiteralEnd(u, volumeEnd, unit);
    Some((u[volumeStart..volumeEnd], unitEnd))
  }

  /** Three vial strengths sharing one reconstitution volume. */
  datatype MultiVial = MultiVial(strengths: seq<nat>, volumeMl: real)

  /** `(\d+)\s*mg,\s*(\d+)\s*mg,\s*or\s*(\d+)\s*mg vials:\s*(\d+\.?\d*)\s*`
      then `unit` at the head of `u`. */
  function MultiAt(u: string, unit: string): (r: Option<MultiVial>)
    ensures r.Some? ==> CharsIn(unit, u) && |r.value.strengths| == 3
  {
    var firstEnd :- DigitsEnd(u, 0);
    var mg1End :- SpacedLiteralEnd(u, firstEnd, "mg,");
    var secondStart := SpacesEnd(u, mg1End);
    var secondEnd :- DigitsEnd(u, secondStart);
    var mg2End :- SpacedLiteralEnd(u, secondEnd, "mg,");
    var orEnd :- SpacedLiteralEnd(u, mg2End, "or");
    var thirdStart := SpacesEnd(u, orEnd);
    var thirdEnd :- DigitsEnd(u, thirdStart);
    var vialsEnd :- SpacedLiteralEnd(u, thirdEnd, "mg vials:");
    var volume :- VolumeOf(u, vialsEnd, unit);
    Some(MultiVial([DigitsValue(u[..firstEnd]), DigitsValue(u[secondStart..secondEnd]),
                    DigitsValue(u[thirdStart..thirdEnd])],
                   FloatValue(volume.0)))
  }

  /** One single-vial entry as `findall` returns it: the strength (digits and
      commas) and the volume, both as matched text. */
  datatype SingleVial = SingleVial(strength: string, volume: string)

  /** What the single-vial pattern guarantees of its two groups. */
  predicate ParsedSingles(singles: seq<SingleVial>)
  {
    forall k :: 0 <= k < |singles| ==> IsStrengthRun(singles[k].strength) && IsFloatLiteral(singles[k].volume)
  }

  /** `([\d,]+)\s*mg vial:\s*(\d+\.?\d*)\s*` then `unit` at the head of `u`:
      the entry and the position where the match ends. */
  function SingleAt(u: string, unit: string): (r: Option<(SingleVial, nat)>)
    ensures r.Some? ==> CharsIn(unit, u) && 0 < r.value.1 <= |u|
    ensures r.Some? ==> IsStrengthRun(r.value.0.strength) && IsFloatLiteral(r.value.0.volume)
  {
    var strengthEnd :- DigitsCommasEnd(u, 0);
    var vialEnd :- SpacedLiteralEnd(u, strengthEnd, "mg vial:");
    var volume :- VolumeOf(u, vialEnd, unit);
    Some((SingleVial(u[..strengthEnd], volume.0), volume.1))
  }

  /** `re.search`: the match at the leftmost position where there is one. */
  function Search<T>(u: string, at: string -> Option<T>): Option<T>
    decreases |u|
  {
    if at(u).Some? then at(u)
    else if u == [] then None
    else Search(u[1..], at)
  }

  /** `re.findall` for the single-vial pattern: the matches from left to
      right, each search resuming where the previous match ended. */
  function FindSingles(u: string, unit: string): (r: seq<SingleVial>)
    ensures ParsedSingles(r)
    decreases |u|
  {
    match SingleAt(u, unit)
    case Some((entry, end)) => [entry] + FindSingles(u[end..], unit)
    case None => if u == [] then [] else FindSingles(u[1..], unit)
  }

  lemma {:induction false} SearchNeedsChar<T>(u: string, at: string -> Option<T>, c: char)
    requires forall s :: at(s).Some? ==> c in s
    ensures Search(u, at).Some? ==> c in u
    decreases |u|
  {
    if at(u).None? && u != [] {
      SearchNeedsChar(u[1..], at, c);
    }
  }

  lemma {:induction false} FindSinglesNeedsL(u: string)
    ensures FindSingles(u, SourceUnit) != [] ==> 'L' in u
    decreases |u|
  {
    match SingleAt(u, SourceUnit)
    case Some((entry, end)) => assert SourceUnit[1] in SourceUnit;
    case None => if u != [] { FindSinglesNeedsL(u[1..]); }
  }

  /** Lower-cased text never holds the capital L every pattern needs. */
  lemma LowerHasNoCapitalL(text: string)
    ensures 'L' !in Lower(text)
  {
    assert IsUpper('L');
  }

  /** `extract_concentration`: it returns `None` whatever the text. */
  function ExtractConcentration(text: string): (r: Option<real>)
    ensures r == None
  {
    var at := u => ConcentrationAt(u, SourceUnit);
    ConcentrationNeedsL();
    SearchNeedsChar(Lower(text), at, 'L');
    LowerHasNoCapitalL(text);
    Search(Lower(text), at)
  }

  lemma ConcentrationNeedsL()
    ensures forall s :: ConcentrationAt(s, SourceUnit).Some? ==> 'L' in s
  {
    assert SourceUnit[1] in SourceUnit;
  }

  /** `extract_max_concentration`: it returns `None` whatever the text. */
  function ExtractMaxConcentration(text: string): (r: Option<real>)
    ensures r == None
  {
    var at := u => MaxConcentrationAt(u, SourceUnit);
    MaxConcentrationNeedsL();
    SearchNeedsChar(Lower(text), at, 'L');
    LowerHasNoCapitalL(text);
    Search(Lower(text), at)
  }

  lemma MaxConcentrationNeedsL()
    ensures forall s :: MaxConcentrationAt(s, SourceUnit).Some? ==> 'L' in s
  {
    assert ("mg/" + SourceUnit)[4] in "mg/" + SourceUnit;
  }

  /** `\s*` read from `i` stops after the `k` spaces there. */
  lemma SpacesEndAt(u: string, i: nat, k: nat)
    requires i + k < |u| && !IsSpace(u[i + k])
    requires forall j :: i <= j < i + k ==> IsSpace(u[j])
    ensures SpacesEnd(u, i) == i + k
  {
    RunEndAt(u, i, k, IsSpace);
  }

  /** A run of `k` characters satisfying `p` from `i`, then one that does
      not. */
  lemma {:induction false} RunEndAt(u: string, i: nat, k: nat, p: char -> bool)
    requires i + k < |u| && !p(u[i + k])
    requires forall j :: i <= j < i + k ==> p(u[j])
    ensures RunEnd(u, i, p) == i + k
    decreases k
  {
    if k > 0 {
      RunEndAt(u, i + 1, k - 1, p);
    }
  }

  /** A run of `n` digits at `i`, followed by neither a digit nor a point,
      is the whole decimal token there. */
  lemma DecimalEndOfDigits(u: string, i: nat, n: nat)
    requires 0 < n && i + n < |u| && AllDigits(u[i..i + n])
    requires !IsDigit(u[i + n]) && u[i + n] != '.'
    ensures DecimalEnd(u, i) == Some(i + n)
  {
    forall m | i <= m < i + n ensures IsDigit(u[m]) { assert u[i..i + n][m - i] == u[m]; }
    RunEndAt(u, i, n, IsDigit);
  }

  /** A run of digits reads as the integer it spells. */
  lemma FloatOfDigits(d: string)
    requires d != [] && AllDigits(d)
    ensures IsFloatLiteral(d) && FloatValue(d) == DigitsValue(d) as real
  {
    DigitPrefixAt(d, |d|);
    assert d[..|d|] == d;
  }

  /** `k` spaces and then the literal `lit` at `i`. */
  lemma SpacedLiteralEndAt(u: string, i: nat, k: nat, lit: string)
    requires i + k + |lit| <= |u| && lit != [] && !IsSpace(lit[0])
    requires forall j :: i <= j < i + k ==> IsSpace(u[j])
    requires u[i + k..i + k + |lit|] == lit
    ensures SpacedLiteralEnd(u, i, lit) == Some(i + k + |lit|)
  {
    assert u[i + k] == lit[0];
    SpacesEndAt(u, i, k);
    assert lit <= u[i + k..];
  }

  /** `extract_concentration` with the unit spelled in lower case. */
  function ExtractConcentrationCorrected(text: string): Option<real>
  {
    Search(Lower(text), u => ConcentrationAt(u, LowerUnit))
  }

  /** With the unit in lower case, a text that starts with an amount in
      mg/mL gives that amount, whatever case it is written in. */
  lemma CorrectedConcentrationReadsAmount(text: string, d: string, rest: string)
    requires d != [] && AllDigits(d)
    requires Lower(text) == d + " mg/ml" + rest
    ensures ExtractConcentrationCorrected(text) == Some(DigitsValue(d) as real)
  {
    ConcentrationOfLeadingAmount(Lower(text), d, rest);
  }

  lemma ConcentrationOfLeadingAmount(u: string, d: string, rest: string)
    requires d != [] && AllDigits(d)
    requires u == d + " mg/ml" + rest
    ensures ConcentrationAt(u, LowerUnit) == Some(DigitsValue(d) as real)
  {
    var n := |d|;
    assert u[..n] == d;
    assert u[n] == ' ' && u[n + 1..n + 3] == "mg" && u[n + 3] == '/' && u[n + 4..n + 6] == LowerUnit;
    FloatOfDigits(d);
    ConcentrationAtPositions(u, n);
  }

  lemma ConcentrationAtPositions(u: string, n: nat)
    requires 0 < n && n + 6 <= |u| && AllDigits(u[..n])
    requires u[n] == ' ' && u[n + 1..n + 3] == "mg" && u[n + 3] == '/' && u[n + 4..n + 6] == LowerUnit
    ensures IsFloatLiteral(u[..n])
    ensures ConcentrationAt(u, LowerUnit) == Some(FloatValue(u[..n]))
  {
    LeadingAmountEnd(u, n);
    MgPerUnitEnds(u, n);
    FloatOfDigits(u[..n]);
  }

  lemma LeadingAmountEnd(u: string, n: nat)
    requires 0 < n && n + 6 <= |u| && AllDigits(u[..n])
    requires u[n] == ' '
    ensures DecimalEnd(u, 0) == Some(n)
  {
    assert u[0..n] == u[..n];
    DecimalEndOfDigits(u, 0, n);
  }

  lemma MgPerUnitEnds(u: string, n: nat)
    requires n + 6 <= |u|
    requires u[n] == ' ' && u[n + 1..n + 3] == "mg" && u[n + 3] == '/' && u[n + 4..n + 6] == LowerUnit
    ensures SpacedLiteralEnd(u, n, "mg") == Some(n + 3)
    ensures SpacedLiteralEnd(u, n + 3, "/") == Some(n + 4)
    ensures SpacedLiteralEnd(u, n + 4, LowerUnit) == Some(n + 6)
  {
    SpacedLiteralEndAt(u, n, 1, "mg");
    assert u[n + 3..n + 4] == "/";
    SpacedLiteralEndAt(u, n + 3, 0, "/");
    SpacedLiteralEndAt(u, n + 4, 0, LowerUnit);
  }

  /** `extract_max_concentration` with the unit spelled in lower case. */
  function ExtractMaxConcentrationCorrected(text: string): Option<real>
  {
    Search(Lower(text), u => MaxConcentrationAt(u, LowerUnit))
  }

  /** With the unit in lower case, a text that starts with "not exceed" and
      an amount in mg/mL gives that amount as the limit. */
  lemma CorrectedMaxConcentrationReadsLimit(text: string, d: string, rest: string)
    requires d != [] && AllDigits(d)
    requires Lower(text) == "not exceed " + d + " mg/ml" + rest
    ensures ExtractMaxConcentrationCorrected(text) == Some(DigitsValue(d) as real)
  {
    LimitOfLeadingPhrase(Lower(text), d, rest);
  }

  lemma LimitOfLeadingPhrase(u: string, d: string, rest: string)
    requires d != [] && AllDigits(d)
    requires u == "not exceed " + d + " mg/ml" + rest
    ensures MaxConcentrationAt(u, LowerUnit) == Some(DigitsValue(d) as real)
  {
    var n := |d|;
    assert u[..10] == "not exceed" && u[10] == ' ';
    assert u[11..11 + n] == d;
    assert u[11 + n] == ' ' && u[12 + n..17 + n] == "mg/" + LowerUnit;
    FloatOfDigits(d);
    LimitAtPositions(u, n);
  }

  lemma LimitAtPositions(u: string, n: nat)
    requires 0 < n && 17 + n <= |u| && AllDigits(u[11..11 + n])
    requires u[..10] == "not exceed" && u[10] == ' '
    requires u[11 + n] == ' ' && u[12 + n..17 + n] == "mg/" + LowerUnit
    ensures IsFloatLiteral(u[11..11 + n])
    ensures MaxConcentrationAt(u, LowerUnit) == Some(FloatValue(u[11..11 + n]))
  {
    assert "not exceed" <= u;
    assert IsDigit(u[11..11 + n][0]);
    SpacesEndAt(u, 10, 1);
    DecimalEndOfDigits(u, 11, n);
    SpacedLiteralEndAt(u, 11 + n, 1, "mg/" + LowerUnit);
    FloatOfDigits(u[11..11 + n]);
  }

  /** `re.findall` of the single-vial pattern with the unit spelled in lower
      case. */
  function FindSinglesCorrected(text: string): (r: seq<SingleVial>)
    ensures ParsedSingles(r)
  {
    FindSingles(Lower(text), LowerUnit)
  }

  /** With the unit in lower case, a text that starts with a single-vial
      line yields that line as its first entry. */
  lemma CorrectedSingleEntryRead(text: string, strength: string, volume: string, rest: string)
    requires strength != [] && IsStrengthRun(strength) && volume != [] && AllDigits(volume)
    requires Lower(text) == strength + " mg vial: " + volume + " ml" + rest
    ensures FindSinglesCorrected(text) != []
    ensures FindSinglesCorrected(text)[0] == SingleVial(strength, volume)
    ensures FloatValue(FindSinglesCorrected(text)[0].volume) == DigitsValue(volume) as real
  {
    var u := Lower(text);
    var n, k := |strength|, |volume|;
    SingleEntryShapes(u, strength, volume, rest);
    SingleOfLeadingEntry(u, n, k);
    FindSinglesOfLeadingMatch(u, LowerUnit);
    FloatOfDigits(volume);
  }

  /** A text that starts with a single-vial line has its strength and its
      volume where the matcher looks for them. */
  lemma SingleEntryShapes(u: string, strength: string, volume: string, rest: string)
    requires strength != [] && IsStrengthRun(strength) && volume != [] && AllDigits(volume)
    requires u == strength + " mg vial: " + volume + " ml" + rest
    ensures StrengthShape(u, |strength|) && VolumeShape(u, |strength| + 9, |volume|)
    ensures u[..|strength|] == strength && u[|strength| + 9 + 1..|strength| + 9 + 1 + |volume|] == volume
  {
    var n, k := |strength|, |volume|;
    assert u[..n] == strength && u[n] == ' ' && u[n + 1..n + 9] == "mg vial:";
    assert u[n + 9] == ' ' && u[n + 9 + 1..n + 9 + 1 + k] == volume;
    assert u[n + 9 + 1 + k] == ' ' && u[n + 9 + 2 + k..n + 9 + 4 + k] == LowerUnit;
  }

  /** `n` digits and commas, then " mg vial:", at the head of `u`. */
  predicate StrengthShape(u: string, n: nat)
  {
    0 < n && n + 9 <= |u| && IsStrengthRun(u[..n]) && u[n] == ' ' && u[n + 1..n + 9] == "mg vial:"
  }

  /** A space, `k` digits, a space and the unit in lower case, from `i`. */
  predicate VolumeShape(u: string, i: nat, k: nat)
  {
    0 < k && i + 4 + k <= |u| && u[i] == ' ' && AllDigits(u[i + 1..i + 1 + k])
    && u[i + 1 + k] == ' ' && u[i + 2 + k..i + 4 + k] == LowerUnit
  }

  /** The single-vial match at the head of `u`, from its shape. */
  lemma SingleOfLeadingEntry(u: string, n: nat, k: nat)
    requires StrengthShape(u, n) && VolumeShape(u, n + 9, k)
    ensures SingleAt(u, LowerUnit).Some?
    ensures SingleAt(u, LowerUnit).value.0 == SingleVial(u[..n], u[n + 9 + 1..n + 9 + 1 + k])
  {
    StrengthAndVialEnd(u, n);
    VolumeEnds(u, n + 9, k);
    var volume := u[n + 9 + 1..n + 9 + 1 + k];
    SingleOfParts(u, n, (volume, n + 9 + 4 + k));
  }

  /** A match at the head of `u` is the first entry `re.findall` returns. */
  lemma FindSinglesOfLeadingMatch(u: string, unit: string)
    requires SingleAt(u, unit).Some?
    ensures FindSingles(u, unit) != [] && FindSingles(u, unit)[0] == SingleAt(u, unit).value.0
  {
  }

  /** A single-vial match assembled from its strength end, its
      " mg vial:" end and the volume read after it. */
  lemma SingleOfParts(u: string, n: nat, volume: (string, nat))
    requires n <= |u| && DigitsCommasEnd(u, 0) == Some(n) && SpacedLiteralEnd(u, n, "mg vial:") == Some(n + 9)
    requires n + 9 <= |u| && VolumeOf(u, n + 9, LowerUnit) == Some(volume)
    ensures SingleAt(u, LowerUnit) == Some((SingleVial(u[..n], volume.0), volume.1))
  {
  }

  /** The strength run and " mg vial:" after it. */
  lemma StrengthAndVialEnd(u: string, n: nat)
    requires StrengthShape(u, n)
    ensures DigitsCommasEnd(u, 0) == Some(n)
    ensures SpacedLiteralEnd(u, n, "mg vial:") == Some(n + 9)
  {
    StrengthEnd(u, n);
    SpacedLiteralEndAt(u, n, 1, "mg vial:");
  }

  /** A space, `k` digits, a space and the unit, from `i`. */
  lemma VolumeEnds(u: string, i: nat, k: nat)
    requires VolumeShape(u, i, k)
    ensures VolumeOf(u, i, LowerUnit) == Some((u[i + 1..i + 1 + k], i + 4 + k))
  {
    VolumeDigitsEnd(u, i, k);
    VolumeUnitEnd(u, i, k);
    VolumeOfParts(u, i, i + 1, i + 1 + k, i + 4 + k);
  }

  lemma VolumeDigitsEnd(u: string, i: nat, k: nat)
    requires VolumeShape(u, i, k)
    ensures SpacesEnd(u, i) == i + 1 && DecimalEnd(u, i + 1) == Some(i + 1 + k)
  {
    assert IsDigit(u[i + 1..i + 1 + k][0]);
    SpacesEndAt(u, i, 1);
    DecimalEndOfDigits(u, i + 1, k);
  }

  lemma VolumeUnitEnd(u: string, i: nat, k: nat)
    requires VolumeShape(u, i, k)
    ensures SpacedLiteralEnd(u, i + 1 + k, LowerUnit) == Some(i + 4 + k)
  {
    var e := i + 1 + k;
    assert u[e + 1..e + 1 + |LowerUnit|] == LowerUnit;
    SpacedLiteralEndAt(u, e, 1, LowerUnit);
  }

  /** The volume read from its start, its end and the end of the unit. */
  lemma VolumeOfParts(u: string, i: nat, start: nat, end: nat, unitEnd: nat)
    requires i <= |u| && SpacesEnd(u, i) == start && DecimalEnd(u, start) == Some(end)
    requires SpacedLiteralEnd(u, end, LowerUnit) == Some(unitEnd)
    ensures VolumeOf(u, i, LowerUnit) == Some((u[start..end], unitEnd))
  {
  }

  lemma StrengthEnd(u: string, n: nat)
    requires 0 < n < |u| && IsStrengthRun(u[..n]) && u[n] == ' '
    ensures DigitsCommasEnd(u, 0) == Some(n)
  {
    forall j | 0 <= j < n ensures IsDigitOrComma(u[j]) { assert u[..n][j] == u[j]; }
    RunEndAt(u, 0, n, IsDigitOrComma);
  }

  /** `calculate_withdrawal_volume`: dose over concentration; a zero
      concentration raises. */
  function CalculateWithdrawalVolume(requiredDoseMg: real, concentrationMgPerMl: real): (r: Outcome<real>)
    ensures r.Raised? <==> concentrationMgPerMl == 0.0
    ensures r.Raised? ==> r.error == ZeroDivisionError
    ensures !r.NoValue?
    ensures r.Value? ==> r.value * concentrationMgPerMl == requiredDoseMg
  {
    if concentrationMgPerMl == 0.0 then Raised(ZeroDivisionError)
    else Value(requiredDoseMg / concentrationMgPerMl)
  }

  /** A larger dose at the same positive concentration needs a larger
      volume. */
  lemma WithdrawalVolumeGrowsWithDose(dose1: real, dose2: real, concentration: real)
    requires 0.0 < concentration && dose1 <= dose2
    ensures CalculateWithdrawalVolume(dose1, concentration).value
         <= CalculateWithdrawalVolume(dose2, concentration).value
  {
    var v1, v2 := dose1 / concentration, dose2 / concentration;
    assert v1 * concentration <= v2 * concentration;
  }

  /** The key a single-vial entry is stored under: `int` of the strength
      without its commas. */
  function Key(entry: SingleVial): nat
    requires IsStrengthRun(entry.strength) && Preparation.StripCommas(entry.strength) != []
  {
    DigitsValue(Preparation.StripCommas(entry.strength))
  }

  /** `strengths` written one after another, each to `volume`. */
  function MultiTable(strengths: seq<nat>, volume: real): (t: map<nat, real>)
    ensures forall k :: k in t <==> k in strengths
    ensures forall k :: k in t ==> t[k] == volume
  {
    if strengths == [] then map[]
    else MultiTable(strengths[..|strengths| - 1], volume)[strengths[|strengths| - 1] := volume]
  }

  /** Entries `int` and `float` both accept. */
  predicate ValidSingles(singles: seq<SingleVial>)
  {
    forall k :: 0 <= k < |singles| ==>
      && IsStrengthRun(singles[k].strength) && Preparation.StripCommas(singles[k].strength) != []
      && IsFloatLiteral(singles[k].volume)
  }

  /** The table after the multi-vial entries and then the single-vial
      entries are written in order. */
  function TableOf(multi: Option<MultiVial>, singles: seq<SingleVial>): map<nat, real>
    requires ValidSingles(singles)
  {
    if singles == [] then
      (if multi.Some? then MultiTable(multi.value.strengths, multi.value.volumeMl) else map[])
    else
      var last := singles[|singles| - 1];
      TableOf(multi, singles[..|singles| - 1])[Key(last) := FloatValue(last.volume)]
  }

  /** One more single-vial entry writes its volume under its key. */
  lemma TableOfNextSingle(multi: Option<MultiVial>, singles: seq<SingleVial>, j: nat)
    requires j < |singles| && ParsedSingles(singles) && ValidSingles(singles[..j])
    requires Preparation.StripCommas(singles[j].strength) != []
    ensures ValidSingles(singles[..j + 1])
    ensures TableOf(multi, singles[..j + 1])
            == TableOf(multi, singles[..j])[DigitsValue(Preparation.StripCommas(singles[j].strength)) := FloatValue(singles[j].volume)]
  {
    assert singles[..j + 1][..j] == singles[..j];
  }

  /** The table-building loops of `extract_reconstitution_table`: a strength
      made only of commas makes `int` raise. */
  method BuildTable(multi: Option<MultiVial>, singles: seq<SingleVial>) returns (r: Outcome<map<nat, real>>)
    requires ParsedSingles(singles)
    ensures !r.NoValue?
    ensures r.Raised? <==> exists k :: 0 <= k < |singles| && Preparation.StripCommas(singles[k].strength) == []
    ensures r.Raised? ==> r.error == ValueError
    ensures r.Value? ==> ValidSingles(singles) && r.value == TableOf(multi, singles)
  {
    var table: map<nat, real> := map[];
    if multi.Some? {
      var i := 0;
      while i < |multi.value.strengths|
        invariant 0 <= i <= |multi.value.strengths|
        invariant table == MultiTable(multi.value.strengths[..i], multi.value.volumeMl)
      {
        assert multi.value.strengths[..i + 1][..i] == multi.value.strengths[..i];
        table := table[multi.value.strengths[i] := multi.value.volumeMl];
        i := i + 1;
      }
      assert multi.value.strengths[..i] == multi.value.strengths;
    }
    var j := 0;
    while j < |singles|
      invariant 0 <= j <= |singles|
      invariant ValidSingles(singles[..j])
      invariant table == TableOf(multi, singles[..j])
    {
      var digits := Preparation.StripCommas(singles[j].strength);
      if digits == [] {
        return Raised(ValueError);
      }
      TableOfNextSingle(multi, singles, j);
      table := table[DigitsValue(digits) := FloatValue(singles[j].volume)];
      j := j + 1;
    }
    assert singles[..j] == singles;
    return Value(table);
  }

  /** Without a later single-vial entry for it, each strength of the
      multi-vial match maps to the shared volume. */
  lemma {:induction false} MultiStrengthsShareVolume(multi: MultiVial, singles: seq<SingleVial>, k: nat)
    requires ValidSingles(singles) && k in multi.strengths
    requires forall j :: 0 <= j < |singles| ==> Key(singles[j]) != k
    ensures k in TableOf(Some(multi), singles) && TableOf(Some(multi), singles)[k] == multi.volumeMl
  {
    if singles != [] {
      MultiStrengthsShareVolume(multi, singles[..|singles| - 1], k);
    }
  }

  /** A single-vial entry overwrites earlier values for its strength and
      stays unless a later entry has the same strength. */
  lemma {:induction false} LastSingleEntryWins(multi: Option<MultiVial>, singles: seq<SingleVial>, j: nat)
    requires ValidSingles(singles) && j < |singles|
    requires forall i :: j < i < |singles| ==> Key(singles[i]) != Key(singles[j])
    ensures Key(singles[j]) in TableOf(multi, singles)
    ensures TableOf(multi, singles)[Key(singles[j])] == FloatValue(singles[j].volume)
  {
    if j < |singles| - 1 {
      var prefix := singles[..|singles| - 1];
      assert prefix[j] == singles[j];
      LastSingleEntryWins(multi, prefix, j);
    }
  }

  /** `extract_reconstitution_table`. */
  method ExtractReconstitutionTable(text: string) returns (r: Outcome<map<nat, real>>)
    ensures r == Value(map[])
  {
    var lowered := Lower(text);
    var multi := Search(lowered, u => MultiAt(u, SourceUnit));
    var singles := FindSingles(lowered, SourceUnit);
    forall s | MultiAt(s, SourceUnit).Some? ensures 'L' in s {
      assert SourceUnit[1] in SourceUnit;
    }
    SearchNeedsChar(lowered, u => MultiAt(u, SourceUnit), 'L');
    FindSinglesNeedsL(lowered);
    LowerHasNoCapitalL(text);
    r := BuildTable(multi, singles);
  }

  /** `extract_reconstitution_table` with the unit spelled in lower case:
      the table built from the matches the patterns then find. */
  method ExtractReconstitutionTableCorrected(text: string) returns (r: Outcome<map<nat, real>>)
    ensures !r.NoValue?
    ensures r.Raised? <==>
      exists k :: 0 <= k < |FindSinglesCorrected(text)| && Preparation.StripCommas(FindSinglesCorrected(text)[k].strength) == []
    ensures r.Value? ==>
      && ValidSingles(FindSinglesCorrected(text))
      && r.value == TableOf(Search(Lower(text), u => MultiAt(u, LowerUnit)), FindSinglesCorrected(text))
  {
    r := BuildTable(Search(Lower(text), u => MultiAt(u, LowerUnit)), FindSinglesCorrected(text));
  }
}
