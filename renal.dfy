/** Selection of the renal-adjustment line for a glomerular filtration rate
    (`select_renal_dose`, UI/app.py): the first line of the renal text, in
    document order, whose numbers bracket the rate. */
module Renal {
  import opened Wrappers
  import opened Text

  /** A line with two or more numbers selects a rate within its first two,
      inclusive; a line with one number selects a rate below it when it says
      "less" or "<", above it when it says "greater" or ">"; a line without
      numbers selects nothing. */
  predicate LineMatches(line: string, gfr: real)
    ensures LineMatches(line, gfr) ==> !NoDigit(line)
    ensures LineMatches(line, gfr) && |Numbers(line)| == 1 ==> gfr != Numbers(line)[0]
  {
    NumbersEmptyIffNoDigit(line);
    var nums := Numbers(line);
    if |nums| >= 2 then nums[0] <= gfr <= nums[1]
    else if |nums| == 1 then
      || ((Contains(Lower(line), "less") || '<' in line) && gfr < nums[0])
      || ((Contains(Lower(line), "greater") || '>' in line) && gfr > nums[0])
    else false
  }

  /** The first line that selects the rate. */
  function FirstMatch(lines: seq<string>, gfr: real): (r: Option<string>)
    ensures r.None? <==> forall i :: 0 <= i < |lines| ==> !LineMatches(lines[i], gfr)
    ensures r.Some? ==> exists i :: 0 <= i < |lines| && lines[i] == r.value && LineMatches(lines[i], gfr)
                                   && (forall j :: 0 <= j < i ==> !LineMatches(lines[j], gfr))
  {
    if lines == [] then None
    else if LineMatches(lines[0], gfr) then Some(lines[0])
    else
      var r := FirstMatch(lines[1..], gfr);
      assert forall j :: 1 <= j < |lines| ==> lines[j] == lines[1..][j - 1];
      r
  }

  /** `select_renal_dose`: nothing for an empty or missing text, otherwise
      the first selecting line of its newline-separated lines. */
  function SelectRenalDose(renalText: Option<string>, gfr: real): (r: Option<string>)
    ensures renalText.None? || renalText.value == [] ==> r.None?
    ensures r.Some? ==> renalText.Some? && r.value in Split(renalText.value, '\n')
    ensures r.Some? ==> LineMatches(r.value, gfr) && '\n' !in r.value
    ensures renalText.Some? && renalText.value != [] ==>
      (r.None? <==> forall line :: line in Split(renalText.value, '\n') ==> !LineMatches(line, gfr))
  {
    if renalText.None? || renalText.value == [] then None
    else FirstMatch(Split(renalText.value, '\n'), gfr)
  }

  /** A line with two or more numbers never consults its keywords, so
      reversed bounds select no rate at all. */
  lemma KeywordsIgnoredWithTwoNumbers(line: string, gfr: real)
    requires |Numbers(line)| >= 2
    ensures LineMatches(line, gfr) <==> Numbers(line)[0] <= gfr <= Numbers(line)[1]
    ensures Numbers(line)[0] > Numbers(line)[1] ==> !LineMatches(line, gfr)
  {
  }

  /** With one number, the rate equal to it never matches. */
  lemma SingleBoundIsStrict(line: string)
    requires |Numbers(line)| == 1
    ensures !LineMatches(line, Numbers(line)[0])
  {
  }

  /** A line without digits is never selected. */
  lemma DigitFreeLineNeverSelected(renalText: Option<string>, gfr: real)
    ensures var r := SelectRenalDose(renalText, gfr); r.Some? ==> !NoDigit(r.value)
  {
    var r := SelectRenalDose(renalText, gfr);
    if r.Some? {
      NumbersEmptyIffNoDigit(r.value);
    }
  }

  lemma NumbersOfBracketLine(first: string, tail: string)
    requires tail != [] && tail[0] == ':'
    requires first == "GFR " + "10" + (" to " + "30" + tail)
    ensures |Numbers(first)| >= 2 && Numbers(first)[0] == 10.0 && Numbers(first)[1] == 30.0
  {
    TwoDigits("10");
    TwoDigits("30");
    NumbersOfPieces(" to ", "30", tail);
    var rest := " to " + "30" + tail;
    assert rest[0] == ' ';
    NumbersOfPieces("GFR ", "10", rest);
  }

  lemma NumbersOfGreaterLine(second: string, tail: string)
    requires tail != [] && tail[0] == ' '
    requires second == "GFR greater " + "30" + (": " + "10" + tail)
    ensures |Numbers(second)| >= 2 && Numbers(second)[0] == 30.0 && Numbers(second)[1] == 10.0
  {
    TwoDigits("10");
    TwoDigits("30");
    NumbersOfPieces(": ", "10", tail);
    var rest := ": " + "10" + tail;
    assert rest[0] == ':';
    NumbersOfPieces("GFR greater ", "30", rest);
  }

  lemma SplitTwoLines(first: string, second: string)
    requires '\n' !in first && '\n' !in second
    ensures Split(first + "\n" + second, '\n') == [first, second]
  {
    var text := first + "\n" + second;
    assert text[|first|] == '\n' && text[..|first|] == first && text[|first| + 1..] == second;
    SplitAtFirst(text, '\n', |first|);
    SplitWithoutSeparator(second, '\n');
  }

  lemma SelectFromTwoLines(text: string, first: string, second: string, gfr: real)
    requires text != [] && Split(text, '\n') == [first, second]
    ensures LineMatches(first, gfr) ==> SelectRenalDose(Some(text), gfr) == Some(first)
    ensures !LineMatches(first, gfr) && !LineMatches(second, gfr) ==> SelectRenalDose(Some(text), gfr) == None
  {
    assert [first, second][1..] == [second];
    assert [second][1..] == [];
  }

  /** The two-line table "GFR 10 to 30: 5 to 7 mg/kg/dose every 12 hours" /
      "GFR greater 30: 10 mg/kg/dose", written in pieces, splits into its two
      lines. */
  lemma TableSplit(first: string, second: string, tail1: string, tail2: string)
    requires tail1 == ": 5 to 7 mg/kg/dose every 12 hours" && tail2 == " mg/kg/dose"
    requires first == "GFR " + "10" + (" to " + "30" + tail1)
    requires second == "GFR greater " + "30" + (": " + "10" + tail2)
    ensures Split(first + "\n" + second, '\n') == [first, second]
  {
    assert '\n' !in tail1 && '\n' !in tail2;
    assert '\n' !in first && '\n' !in second;
    SplitTwoLines(first, second);
  }

  lemma TableFacts(first: string, second: string, tail1: string, tail2: string)
    requires tail1 == ": 5 to 7 mg/kg/dose every 12 hours" && tail2 == " mg/kg/dose"
    requires first == "GFR " + "10" + (" to " + "30" + tail1)
    requires second == "GFR greater " + "30" + (": " + "10" + tail2)
    ensures Split(first + "\n" + second, '\n') == [first, second]
    ensures |Numbers(first)| >= 2 && Numbers(first)[0] == 10.0 && Numbers(first)[1] == 30.0
    ensures |Numbers(second)| >= 2 && Numbers(second)[0] == 30.0 && Numbers(second)[1] == 10.0
  {
    NumbersOfBracketLine(first, tail1);
    NumbersOfGreaterLine(second, tail2);
    TableSplit(first, second, tail1, tail2);
  }

  /** The first line of the renal table: the range 10 to 30 and its dose. */
  const BracketLine: string := "GFR 10 to 30" + BracketDose

  const BracketDose: string := ": 5 to 7 mg/kg/dose every 12 hours"

  /** The second line: "greater 30", which also carries the number 10. */
  const GreaterLine: string := "GFR greater 30: 10 mg/kg/dose"

  /** The renal table of two lines. */
  const TableText: string := BracketLine + "\n" + GreaterLine

  /** Each line cut into the pieces the proofs above use. */
  lemma BracketPieces()
    ensures BracketLine == "GFR " + "10" + (" to " + "30" + BracketDose)
  {
  }

  lemma GreaterPieces()
    ensures GreaterLine == "GFR greater " + "30" + (": " + "10" + " mg/kg/dose")
  {
  }

  /** In that table rate 20 selects the first line. */
  lemma TableSelectsBracket()
    ensures SelectRenalDose(Some(TableText), 20.0) == Some(BracketLine)
  {
    BracketPieces();
    GreaterPieces();
    var first, second := BracketLine, GreaterLine;
    TableFacts(first, second, BracketDose, " mg/kg/dose");
    SelectFromTwoLines(TableText, first, second, 20.0);
  }

  /** In that table rates 45 and 5 select nothing: the second line carries
      two numbers (30 and 10), so it is read as the empty range 30 to 10 and
      its "greater" is never consulted. */
  lemma TableIgnoresGreater()
    ensures SelectRenalDose(Some(TableText), 45.0) == None
    ensures SelectRenalDose(Some(TableText), 5.0) == None
  {
    BracketPieces();
    GreaterPieces();
    var first, second := BracketLine, GreaterLine;
    TableFacts(first, second, BracketDose, " mg/kg/dose");
    SelectFromTwoLines(TableText, first, second, 45.0);
    SelectFromTwoLines(TableText, first, second, 5.0);
  }
}
