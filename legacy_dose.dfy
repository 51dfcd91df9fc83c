/** The older dose calculator of python/logic_service.py. Its
    `detect_dose_type` (lines 8-18) and `extract_max_daily_dose` (lines 41-52)
    are the same code as in services/logic_service.py and are modelled by
    DoseText.DetectDoseType and DoseText.ExtractMaxDailyDose; its
    `extract_dose_range` tests the cases in another order. */
module LegacyDose {
  import opened Wrappers
  import opened Text
  import opened DoseCalc
  import DoseText

  /** `extract_dose_range` of the older module: two or more numbers first. */
  function ExtractDoseRange(text: string): (r: Option<DoseText.DoseRange>)
  {
    var nums := Numbers(text);
    if |nums| >= 2 then Some(DoseText.DoseRange(nums[0], nums[1]))
    else if |nums| == 1 then Some(DoseText.DoseRange(nums[0], nums[0]))
    else None
  }

  /** Both modules parse the dose range alike on every input. */
  lemma SameDoseRange(text: string)
    ensures ExtractDoseRange(text) == DoseText.ExtractDoseRange(text)
  {
  }

  /** Whether lower-cased text names a dosing interval of `hours` hours. */
  predicate MentionsInterval(t: string, hours: nat)
  {
    match hours
    case 6 => Contains(t, "q6h") || Contains(t, "every 6 hours")
    case 8 => Contains(t, "q8h") || Contains(t, "every 8 hours")
    case 12 => Contains(t, "q12h") || Contains(t, "every 12 hours")
    case _ => false
  }

  /** `extract_doses_per_day`: 24 divided by the shortest interval the text
      names among 6, 8 and 12 hours, or once daily when it names none. */
  function ExtractDosesPerDay(text: string): (r: nat)
    ensures 1 <= r <= 4
    ensures r == 4 <==> MentionsInterval(Lower(text), 6)
    ensures r == 3 <==> !MentionsInterval(Lower(text), 6) && MentionsInterval(Lower(text), 8)
    ensures r == 2 <==>
      !MentionsInterval(Lower(text), 6) && !MentionsInterval(Lower(text), 8) && MentionsInterval(Lower(text), 12)
    ensures r == 1 <==>
      !MentionsInterval(Lower(text), 6) && !MentionsInterval(Lower(text), 8) && !MentionsInterval(Lower(text), 12)
  {
    var t := Lower(text);
    if Contains(t, "q6h") || Contains(t, "every 6 hours") then assert MentionsInterval(t, 6); 4
    else if Contains(t, "q8h") || Contains(t, "every 8 hours") then assert MentionsInterval(t, 8); 3
    else if Contains(t, "q12h") || Contains(t, "every 12 hours") then assert MentionsInterval(t, 12); 2
    else 1
  }

  /** Each bound of a daily dose divided over `n` administrations. */
  function SplitDaily(daily: DoseText.DoseRange, n: nat): (r: DoseText.DoseRange)
    requires 1 <= n
    ensures r.low * n as real == daily.low && r.high * n as real == daily.high
  {
    DoseText.DoseRange(daily.low / n as real, daily.high / n as real)
  }

  datatype Dose = Dose(daily: DoseText.DoseRange, perDose: DoseText.DoseRange, dosesPerDay: nat)

  /** `calculate_pediatric_dose`: daily dose from weight (mg/kg/day and
      mg/kg/dose alike) or body surface area, clamped to the maximum daily
      dose, then divided by the doses per day. `calculate_bsa(weight, None)`
      raises TypeError. */
  function CalculatePediatricDose(text: string, weight: real, height: Option<real>, root: real -> real)
    : (r: Outcome<Dose>)
    ensures r.NoValue? <==> NoDigit(text) || DoseText.DetectDoseType(text) == DoseText.Unknown
    ensures r.Raised? && r.error == TypeError <==>
      !NoDigit(text) && DoseText.DetectDoseType(text) == DoseText.MgM2Day && height.None?
    ensures r.Value? ==> r.value.dosesPerDay == ExtractDosesPerDay(text)
    ensures r.Value? ==> 1 <= r.value.dosesPerDay && r.value.perDose == SplitDaily(r.value.daily, r.value.dosesPerDay)
  {
    NumbersEmptyIffNoDigit(text);
    DoseFromParts(ExtractDoseRange(text), DoseText.DetectDoseType(text), DoseText.ExtractMaxDailyDose(text),
                  ExtractDosesPerDay(text), weight, height, root)
  }

  /** The steps of `calculate_pediatric_dose` on the values its helpers
      extracted from the text. */
  function DoseFromParts(range: Option<DoseText.DoseRange>, doseType: DoseText.DoseType, cap: Outcome<real>,
                         dosesPerDay: nat, weight: real, height: Option<real>, root: real -> real)
    : (r: Outcome<Dose>)
    requires 1 <= dosesPerDay
    requires cap.Raised? ==> cap.error == ValueError
    ensures r.NoValue? <==> range.None? || doseType == DoseText.Unknown
    ensures r.Raised? && r.error == TypeError <==>
      range.Some? && doseType == DoseText.MgM2Day && height.None?
    ensures r.Value? ==>
      && range.Some?
      && r.value.dosesPerDay == dosesPerDay
      && r.value.perDose == SplitDaily(r.value.daily, dosesPerDay)
    ensures r.Value? && (doseType == DoseText.MgKgDay || doseType == DoseText.MgKgDose) ==>
      r.value.daily == ApplyMaxDaily(Scale(range.value, weight), cap)
    ensures r.Value? && doseType == DoseText.MgM2Day ==>
      && height.Some? && Bsa(weight, height.value, root).Value?
      && r.value.daily == ApplyMaxDaily(Scale(range.value, Bsa(weight, height.value, root).value), cap)
    ensures r.Raised? ==> r.error == TypeError || r.error == ValueError
    ensures r.Raised? && r.error == ValueError <==>
      && range.Some? && doseType != DoseText.Unknown && !(doseType == DoseText.MgM2Day && height.None?)
      && (cap.Raised? || (doseType == DoseText.MgM2Day && Bsa(weight, height.value, root).Raised?))
    ensures r.Value? && Truthy(cap) ==> r.value.daily.low <= cap.value && r.value.daily.high <= cap.value
  {
    match range
    case None => NoValue
    case Some(range) =>
      if doseType == DoseText.Unknown then NoValue
      else
        var multiplier := Multiplier(doseType, weight, height, root);
        if multiplier.Raised? then Raised(multiplier.error)
        else if cap.Raised? then Raised(cap.error)
        else
          var daily := ApplyMaxDaily(Scale(range, multiplier.value), cap);
          Value(Dose(daily, SplitDaily(daily, dosesPerDay), dosesPerDay))
  }

  /** What the dose range is multiplied by: the weight for both mg/kg
      types, otherwise the body surface area. */
  function Multiplier(doseType: DoseText.DoseType, weight: real, height: Option<real>, root: real -> real)
    : (r: Outcome<real>)
    requires doseType != DoseText.Unknown
    ensures !r.NoValue?
    ensures r.Raised? && r.error == TypeError <==> doseType == DoseText.MgM2Day && height.None?
    ensures doseType == DoseText.MgKgDay || doseType == DoseText.MgKgDose ==> r == Value(weight)
    ensures doseType == DoseText.MgM2Day && height.Some? ==> r == Bsa(weight, height.value, root)
  {
    match doseType
    case MgKgDay => Value(weight)
    case MgKgDose => Value(weight)
    case MgM2Day => if height.None? then Raised(TypeError) else Bsa(weight, height.value, root)
  }

  /** The daily dose never exceeds a truthy maximum daily dose. */
  lemma DailyWithinCap(text: string, weight: real, height: Option<real>, root: real -> real)
    requires CalculatePediatricDose(text, weight, height, root).Value?
    requires Truthy(DoseText.ExtractMaxDailyDose(text))
    ensures var d := CalculatePediatricDose(text, weight, height, root).value;
      var cap := DoseText.ExtractMaxDailyDose(text).value;
      d.daily.low <= cap && d.daily.high <= cap
  {
    NumbersEmptyIffNoDigit(text);
  }

  /** mg/kg/dose is treated as mg/kg/day: the range times the weight,
      clamped to the maximum daily dose. */
  lemma MgKgDoseTreatedAsDaily(text: string, weight: real, height: Option<real>, root: real -> real)
    requires CalculatePediatricDose(text, weight, height, root).Value?
    requires DoseText.DetectDoseType(text) == DoseText.MgKgDay || DoseText.DetectDoseType(text) == DoseText.MgKgDose
    ensures ExtractDoseRange(text).Some?
    ensures CalculatePediatricDose(text, weight, height, root).value.daily
         == ApplyMaxDaily(Scale(ExtractDoseRange(text).value, weight), DoseText.ExtractMaxDailyDose(text))
  {
    NumbersEmptyIffNoDigit(text);
  }

  /** mg/m2/day is the range times the body surface area, clamped to the
      maximum daily dose; a negative weight times height raises ValueError. */
  lemma SquareMetreDoseUsesSurfaceArea(text: string, weight: real, height: real, root: real -> real)
    requires !NoDigit(text) && DoseText.DetectDoseType(text) == DoseText.MgM2Day
    requires !DoseText.ExtractMaxDailyDose(text).Raised?
    ensures ExtractDoseRange(text).Some?
    ensures CalculatePediatricDose(text, weight, Some(height), root).Raised? <==> weight * height / 3600.0 < 0.0
    ensures CalculatePediatricDose(text, weight, Some(height), root).Value? ==>
      CalculatePediatricDose(text, weight, Some(height), root).value.daily
      == ApplyMaxDaily(Scale(ExtractDoseRange(text).value, root(weight * height / 3600.0)),
                       DoseText.ExtractMaxDailyDose(text))
  {
    NumbersEmptyIffNoDigit(text);
  }

  /** For a non-negative daily dose each administration is at most the
      daily amount. */
  lemma PerDoseAtMostDaily(text: string, weight: real, height: Option<real>, root: real -> real)
    requires CalculatePediatricDose(text, weight, height, root).Value?
    requires 0.0 <= CalculatePediatricDose(text, weight, height, root).value.daily.low
    requires 0.0 <= CalculatePediatricDose(text, weight, height, root).value.daily.high
    ensures var d := CalculatePediatricDose(text, weight, height, root).value;
      d.perDose.low <= d.daily.low && d.perDose.high <= d.daily.high
  {
    var d := CalculatePediatricDose(text, weight, height, root).value;
    SplitAtMostDaily(d.daily, d.dosesPerDay);
  }

  lemma SplitAtMostDaily(daily: DoseText.DoseRange, n: nat)
    requires 1 <= n && 0.0 <= daily.low && 0.0 <= daily.high
    ensures SplitDaily(daily, n).low <= daily.low && SplitDaily(daily, n).high <= daily.high
  {
    ShareAtMostWhole(SplitDaily(daily, n).low, daily.low, n);
    ShareAtMostWhole(SplitDaily(daily, n).high, daily.high, n);
  }

  lemma ShareAtMostWhole(share: real, whole: real, n: nat)
    requires 1 <= n && share * n as real == whole && 0.0 <= whole
    ensures share <= whole
  {
    assert whole - share == share * (n as real - 1.0);
  }
}
