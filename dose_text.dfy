/** Parsing of free-text dosage strings (services/logic_service.py): the dose
    type, the numeric dose range and the maximum daily dose. */
module DoseText {
  import opened Wrappers
  import opened Text

  datatype DoseType = MgKgDay | MgKgDose | MgM2Day | Unknown

  /** Detection order: lower ranks are tested first. */
  function Rank(t: DoseType): nat
  {
    match t
    case MgKgDay => 0
    case MgKgDose => 1
    case MgM2Day => 2
    case Unknown => 3
  }

  /** Whether lower-cased text carries the unit marker of a dose type;
      `Unknown` needs no marker. */
  predicate HasMarker(t: string, d: DoseType)
  {
    match d
    case MgKgDay => Contains(t, "mg/kg/day")
    case MgKgDose => Contains(t, "mg/kg/dose")
    case MgM2Day => Contains(t, "mg/m2/day") || Contains(t, "mg/m\U{00B2}/day")
    case Unknown => true
  }

  /** The first dose type, in rank order, whose marker occurs in the
      lower-cased text. */
  function DetectDoseType(text: string): (r: DoseType)
    ensures HasMarker(Lower(text), r)
    ensures forall d :: Rank(d) < Rank(r) ==> !HasMarker(Lower(text), d)
  {
    var t := Lower(text);
    if Contains(t, "mg/kg/day") then MgKgDay
    else if Contains(t, "mg/kg/dose") then MgKgDose
    else if Contains(t, "mg/m2/day") || Contains(t, "mg/m\U{00B2}/day") then MgM2Day
    else Unknown
  }

  datatype DoseRange = DoseRange(low: real, high: real)

  /** The first two numbers of the text in text order, never swapped; a
      single number gives a degenerate range. */
  function ExtractDoseRange(text: string): (r: Option<DoseRange>)
    ensures r.None? <==> NoDigit(text)
    ensures r.Some? ==> var nums := Numbers(text);
      nums != [] && r.value.low == nums[0] && r.value.high == nums[if |nums| == 1 then 0 else 1]
    ensures r.Some? ==> 0.0 <= r.value.low && 0.0 <= r.value.high
  {
    var nums := Numbers(text);
    NumbersEmptyIffNoDigit(text);
    if nums == [] then None
    else if |nums| == 1 then Some(DoseRange(nums[0], nums[0]))
    else Some(DoseRange(nums[0], nums[1]))
  }

  /** What `max(imum)? daily dose[:\\s]*([\\d\\.]+)\\s*(mg|g)` captures when it
      matches at the start of the text. */
  datatype CapMatch = CapMatch(run: string, grams: bool)

  predicate IsColonOrSpace(c: char) { c == ':' || IsSpace(c) }

  predicate IsDigitOrPoint(c: char) { IsDigit(c) || c == '.' }

  /** The match of the maximum-daily-dose pattern anchored at the start of
      `u`. The pattern needs no backtracking: `[:\\s]*` cannot give back a
      character `[\\d\\.]` would take, and `[\\d\\.]+` cannot give back one that
      `\\s*(mg|g)` would take. */
  function CapAt(u: string): (r: Option<CapMatch>)
    ensures r.Some? ==> "maximum daily dose" <= u || "max daily dose" <= u
    ensures r.Some? ==> r.value.run != [] && forall i :: 0 <= i < |r.value.run| ==> IsDigitOrPoint(r.value.run[i])
  {
    var rest :- if "maximum daily dose" <= u then Some(u[18..])
                else if "max daily dose" <= u then Some(u[14..])
                else None;
    var r1 := rest[RunLength(rest, IsColonOrSpace)..];
    var n := RunLength(r1, IsDigitOrPoint);
    var r2 := SkipSpaces(r1[n..]);
    if n == 0 then None
    else if "mg" <= r2 then Some(CapMatch(r1[..n], false))
    else if "g" <= r2 then Some(CapMatch(r1[..n], true))
    else None
  }

  /** `re.search`: the match at the leftmost position where there is one. */
  function SearchCap(u: string): Option<CapMatch>
    decreases |u|
  {
    if u == [] then None
    else if CapAt(u).Some? then CapAt(u)
    else SearchCap(u[1..])
  }

  /** The search finds nothing exactly when no position has an anchored
      match; otherwise it returns the match at the leftmost such position. */
  lemma {:induction false} SearchCapLeftmost(u: string)
    ensures SearchCap(u).None? <==> forall k :: 0 <= k < |u| ==> CapAt(u[k..]).None?
    ensures SearchCap(u).Some? ==> exists k :: 0 <= k < |u| && SearchCap(u) == CapAt(u[k..])
                                              && forall j :: 0 <= j < k ==> CapAt(u[j..]).None?
    decreases |u|
  {
    if u != [] {
      assert u[0..] == u;
      if CapAt(u).None? {
        SearchCapLeftmost(u[1..]);
        forall k | 1 <= k <= |u| ensures u[1..][k - 1..] == u[k..] { }
        if SearchCap(u).Some? {
          var k :| 0 <= k < |u[1..]| && SearchCap(u[1..]) == CapAt(u[1..][k..])
                   && forall j :: 0 <= j < k ==> CapAt(u[1..][j..]).None?;
          assert SearchCap(u) == CapAt(u[k + 1..]);
          forall j | 0 <= j < k + 1 ensures CapAt(u[j..]).None? {
            if j > 0 { assert CapAt(u[1..][j - 1..]).None?; }
          }
        }
      }
    }
  }

  /** The maximum daily dose in mg: absent when the phrase does not match,
      a `g` amount times 1000, and `float` raises on a run such as "1.2.3". */
  function ExtractMaxDailyDose(text: string): (r: Outcome<real>)
    ensures r.NoValue? <==> SearchCap(Lower(text)).None?
    ensures r.Raised? ==> r.error == ValueError && !IsFloatLiteral(SearchCap(Lower(text)).value.run)
    ensures r.Value? ==> var m := SearchCap(Lower(text)).value;
      IsFloatLiteral(m.run) && r.value == (if m.grams then 1000.0 else 1.0) * FloatValue(m.run)
    ensures r.Value? ==> r.value >= 0.0
  {
    match SearchCap(Lower(text))
    case None => NoValue
    case Some(m) =>
      if !IsFloatLiteral(m.run) then Raised(ValueError)
      else if m.grams then Value(FloatValue(m.run) * 1000.0)
      else Value(FloatValue(m.run))
  }

  /** Without one of the two phrases in the lower-cased text there is no cap. */
  lemma {:induction false} CapNeedsPhrase(u: string)
    requires !Contains(u, "max daily dose") && !Contains(u, "maximum daily dose")
    ensures SearchCap(u) == None
    decreases |u|
  {
    if u != [] && CapAt(u).None? {
      CapNeedsPhrase(u[1..]);
    }
  }

  lemma NoPhraseNoCap(text: string)
    requires !Contains(Lower(text), "max daily dose") && !Contains(Lower(text), "maximum daily dose")
    ensures ExtractMaxDailyDose(text) == NoValue
  {
    CapNeedsPhrase(Lower(text));
  }

  lemma ValueOf250()
    ensures AllDigits("250") && DigitsValue("250") == 250
  {
    assert "250"[..2] == "25" && "25"[..1] == "2" && "2"[..0] == [];
  }

  /** The unit text after the dose value holds the single digit of "m2". */
  lemma NumbersOfSquareMetreUnit(rest: string, tail: string)
    requires tail != [] && tail[0] == '/' && NoDigit(tail)
    requires rest == " mg/m" + "2" + tail
    ensures Numbers(rest) == [2.0]
  {
    assert DigitsValue("2") == 2 by { assert "2"[..0] == []; }
    NumbersEmptyIffNoDigit(tail);
    NumbersOfPieces(" mg/m", "2", tail);
  }

  lemma NumbersOfSquareMetreDose(s: string, rest: string)
    requires rest != [] && rest[0] == ' ' && Numbers(rest) == [2.0]
    requires s == "" + "250" + rest
    ensures Numbers(s) == [250.0, 2.0]
  {
    ValueOf250();
    NumbersOfPieces("", "250", rest);
  }

  lemma SquareMetreDetected(s: string)
    requires s == "250 mg/m2/day"
    ensures DetectDoseType(s) == MgM2Day
  {
    var marker := "mg/m2/day";
    assert s == "250 " + marker;
    LowerKeepsLowerCase(s);
    MarkerNeedsChar(s, "mg/kg/day", 3);
    MarkerNeedsChar(s, "mg/kg/dose", 3);
    assert s[4..4 + |marker|] == marker;
    ContainsAt(s, marker, 4);
  }

  /** The marker with a superscript two is detected as well: "10 mg/m²/day"
      is a body-surface dose. */
  lemma SuperscriptSquareMetreDetected(s: string)
    requires s == "10 mg/m\U{00B2}/day"
    ensures DetectDoseType(s) == MgM2Day
  {
    var marker := "mg/m\U{00B2}/day";
    assert s == "10 " + marker;
    LowerKeepsLowerCase(s);
    MarkerNeedsChar(s, "mg/kg/day", 3);
    MarkerNeedsChar(s, "mg/kg/dose", 3);
    MarkerNeedsChar(s, "mg/m2/day", 4);
    assert s[3..3 + |marker|] == marker;
    ContainsAt(s, marker, 3);
  }

  /** A text lacking one character of a marker does not contain it. */
  lemma MarkerNeedsChar(s: string, marker: string, i: nat)
    requires i < |marker| && marker[i] !in s
    ensures !Contains(s, marker)
  {
    if Contains(s, marker) {
      ContainsHasChars(s, marker, i);
    }
  }

  lemma TenValue()
    ensures DigitsValue("10") == 10
  {
    assert "10"[..1] == "1" && "1"[..0] == [];
  }

  /** The superscript two is no decimal digit: "10 mg/m²/day" has the range
      10 to 10. */
  lemma SuperscriptSquareMetreRange(s: string)
    requires s == "10 mg/m\U{00B2}/day"
    ensures ExtractDoseRange(s) == Some(DoseRange(10.0, 10.0))
  {
    var rest := " mg/m\U{00B2}/day";
    assert forall i :: 0 <= i < |rest| ==> !IsDigit(rest[i]);
    NumbersEmptyIffNoDigit(rest);
    TenValue();
    assert s == "" + "10" + rest;
    NumbersOfPieces("", "10", rest);
  }

  /** The digit of the "m2" unit is read as the upper bound: "250 mg/m2/day"
      is a body-surface dose with the range 250 to 2. */
  lemma SquareMetreDigitIsRead(s: string)
    requires s == "250 mg/m2/day"
    ensures DetectDoseType(s) == MgM2Day
    ensures ExtractDoseRange(s) == Some(DoseRange(250.0, 2.0))
  {
    SquareMetreDetected(s);
    var rest := " mg/m" + "2" + "/day";
    NumbersOfSquareMetreUnit(rest, "/day");
    assert s == "" + "250" + rest;
    NumbersOfSquareMetreDose(s, rest);
  }
}
