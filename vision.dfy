/** The vial-strength picker applied to OCR text (`extract_vial_strength_mg`,
    services/ai_vision_service.py). The OCR itself is not modelled: the text
    it produced is the input. */
module Vision {
  import opened Wrappers
  import opened Text

  /** The vial strengths, in mg, the picker recognises. */
  const CommonStrengths: set<nat> := {50, 100, 250, 500, 750, 1000, 2000}

  /** What one digit run yields: a common strength as itself, and 1 or 2 as
      grams. */
  function Reading(run: nat): (r: Option<nat>)
    ensures r.Some? ==> r.value in CommonStrengths
    ensures run in CommonStrengths ==> r == Some(run)
    ensures run == 1 || run == 2 ==> r == Some(run * 1000)
    ensures r.None? <==> run !in CommonStrengths && run != 1 && run != 2
  {
    if run in CommonStrengths then Some(run)
    else if run in {1, 2} then Some(run * 1000)
    else None
  }

  /** Run `i` is the first run that yields a reading. */
  predicate IsFirstReading(runs: seq<nat>, i: int)
  {
    0 <= i < |runs| && Reading(runs[i]).Some? && forall j :: 0 <= j < i ==> Reading(runs[j]).None?
  }

  /** The reading of the first run, scanning left to right, that yields
      one. */
  function FirstStrength(runs: seq<nat>): (r: Option<nat>)
    ensures r.None? <==> forall i :: 0 <= i < |runs| ==> Reading(runs[i]).None?
    ensures r.Some? ==> r.value in CommonStrengths
    ensures r.Some? ==> exists i :: IsFirstReading(runs, i) && r == Reading(runs[i])
  {
    if runs == [] then None
    else if Reading(runs[0]).Some? then Reading(runs[0])
    else
      var r := FirstStrength(runs[1..]);
      assert r.Some? ==> exists i :: IsFirstReading(runs, i) && r == Reading(runs[i]) by {
        if r.Some? {
          var i :| IsFirstReading(runs[1..], i) && r == Reading(runs[1..][i]);
          assert runs[i + 1] == runs[1..][i];
          assert forall j :: 1 <= j < i + 1 ==> runs[j] == runs[1..][j - 1];
          assert IsFirstReading(runs, i + 1);
        }
      }
      r
  }

  /** `extract_vial_strength_mg`: the first qualifying `\d+` run of the
      lower-cased text. */
  function VialStrengthMg(ocrText: string): (r: Option<nat>)
    ensures r.Some? ==> r.value in CommonStrengths
  {
    FirstStrength(DigitRuns(Lower(ocrText)))
  }

  lemma {:induction false} DigitRunsOfDigitFree(s: string)
    requires NoDigit(s)
    ensures DigitRuns(s) == []
    decreases |s|
  {
    if s != [] {
      DigitRunsOfDigitFree(s[1..]);
    }
  }

  /** Text without a digit gives no strength. */
  lemma NoDigitNoStrength(ocrText: string)
    requires NoDigit(ocrText)
    ensures VialStrengthMg(ocrText) == None
  {
    var t := Lower(ocrText);
    forall i | 0 <= i < |t| ensures !IsDigit(t[i]) {
      assert t[i] == LowerChar(ocrText[i]);
    }
    DigitRunsOfDigitFree(t);
  }

  /** "1.5 g" has the runs 1 and 5; 1 is read as grams. */
  lemma OneAndAHalfGramsReadsAsOneGram(ocrText: string)
    requires ocrText == "1.5 g"
    ensures VialStrengthMg(ocrText) == Some(1000)
  {
    assert forall i :: 0 <= i < |ocrText| ==> !IsUpper(ocrText[i]);
    LowerKeepsLowerCase(ocrText);
    DigitPrefixAt(ocrText, 1);
    assert ocrText[..1] == "1" && "1"[..0] == [];
    assert DigitRuns(ocrText)[0] == 1;
  }
}
