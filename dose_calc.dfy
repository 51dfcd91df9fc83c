/** The weight- and body-surface-based dose calculation of
    services/logic_service.py: scaling the dose range, clamping to the maximum
    daily dose, and dividing a daily dose over a dosing interval. */
module DoseCalc {
  import opened Wrappers
  import opened Text
  import opened DoseText

  /** Python's truth test on the parsed cap: `None` and `0.0` are false. */
  predicate Truthy(cap: Outcome<real>)
  {
    cap.Value? && cap.value != 0.0
  }

  function Min(x: real, y: real): real { if x <= y then x else y }

  /** `daily_low = min(daily_low, max_daily)` and the same for the high bound,
      applied only when the cap is truthy. */
  function ApplyMaxDaily(daily: DoseRange, cap: Outcome<real>): (r: DoseRange)
    ensures Truthy(cap) ==> r.low <= cap.value && r.high <= cap.value
    ensures r.low <= daily.low && r.high <= daily.high
    ensures r.low == daily.low || (Truthy(cap) && r.low == cap.value)
    ensures r.high == daily.high || (Truthy(cap) && r.high == cap.value)
    ensures !Truthy(cap) ==> r == daily
  {
    if Truthy(cap) then DoseRange(Min(daily.low, cap.value), Min(daily.high, cap.value))
    else daily
  }

  /** Clamping an already clamped range changes nothing. */
  lemma ApplyMaxDailyIdempotent(daily: DoseRange, cap: Outcome<real>)
    ensures ApplyMaxDaily(ApplyMaxDaily(daily, cap), cap) == ApplyMaxDaily(daily, cap)
  {
  }

  /** Clamping keeps an ordered range ordered. */
  lemma ApplyMaxDailyKeepsOrder(daily: DoseRange, cap: Outcome<real>)
    requires daily.low <= daily.high
    ensures ApplyMaxDaily(daily, cap).low <= ApplyMaxDaily(daily, cap).high
  {
  }

  function Scale(range: DoseRange, k: real): (r: DoseRange)
  {
    DoseRange(range.low * k, range.high * k)
  }

  /** Scaling by a non-negative weight or surface area keeps the order. */
  lemma ScaleKeepsOrder(range: DoseRange, k: real)
    requires range.low <= range.high && 0.0 <= k
    ensures Scale(range, k).low <= Scale(range, k).high
  {
    assert range.high * k - range.low * k == (range.high - range.low) * k;
  }

  /** Mosteller body surface area, sqrt(weight * height / 3600). The square
      root is the parameter `root`; `math.sqrt` raises on a negative argument. */
  function Bsa(weight: real, height: real, root: real -> real): (r: Outcome<real>)
    ensures r.Raised? <==> weight * height / 3600.0 < 0.0
    ensures r.Raised? ==> r.error == ValueError
    ensures r.Value? ==> r.value == root(weight * height / 3600.0)
  {
    var x := weight * height / 3600.0;
    if x < 0.0 then Raised(ValueError) else Value(root(x))
  }

  datatype BaseDose =
    | PerDose(doseType: DoseType, perDose: DoseRange)
    | Daily(doseType: DoseType, daily: DoseRange)

  /** `calculate_pediatric_dose_base`: `None` without a number, for an
      unknown dose type, or for a body-surface dose without a height; a
      per-dose result for mg/kg/dose; otherwise a daily dose clamped to the
      maximum daily dose. */
  function CalculatePediatricDoseBase(text: string, weight: real, height: Option<real>, root: real -> real)
    : (r: Outcome<BaseDose>)
    ensures r.NoValue? <==>
      || NoDigit(text)
      || DetectDoseType(text) == Unknown
      || (DetectDoseType(text) == MgM2Day && height.None?)
    ensures r.Raised? ==> r.error == ValueError
    ensures r.Raised? <==>
      && !NoDigit(text)
      && ((DetectDoseType(text) == MgKgDay && ExtractMaxDailyDose(text).Raised?)
          || (DetectDoseType(text) == MgM2Day && height.Some?
              && (Bsa(weight, height.value, root).Raised? || ExtractMaxDailyDose(text).Raised?)))
    ensures r.Value? ==> r.value.doseType == DetectDoseType(text)
    ensures r.Value? && r.value.PerDose? <==> !NoDigit(text) && DetectDoseType(text) == MgKgDose
    ensures r.Value? && r.value.PerDose? ==> r.value.perDose == Scale(ExtractDoseRange(text).value, weight)
    ensures r.Value? && r.value.Daily? && Truthy(ExtractMaxDailyDose(text)) ==>
      var cap := ExtractMaxDailyDose(text).value;
      r.value.daily.low <= cap && r.value.daily.high <= cap
  {
    NumbersEmptyIffNoDigit(text);
    BaseFromParts(ExtractDoseRange(text), DetectDoseType(text), ExtractMaxDailyDose(text), weight, height, root)
  }

  /** "10 mg/m²/day" with a height is a daily dose of ten times the body
      surface area, with no maximum to clamp it to. */
  lemma SuperscriptSquareMetreDose(s: string, weight: real, height: real, root: real -> real)
    requires s == "10 mg/m\U{00B2}/day" && 0.0 <= weight * height / 3600.0
    ensures CalculatePediatricDoseBase(s, weight, Some(height), root)
         == Value(Daily(MgM2Day, Scale(DoseRange(10.0, 10.0), root(weight * height / 3600.0))))
  {
    SuperscriptSquareMetreParts(s);
    SurfaceAreaDoseOfParts(s, DoseRange(10.0, 10.0), weight, height, root);
  }

  /** A body-surface text without a maximum daily dose gives its range times
      the body surface area. */
  lemma SurfaceAreaDoseOfParts(text: string, range: DoseRange, weight: real, height: real, root: real -> real)
    requires DetectDoseType(text) == MgM2Day && ExtractDoseRange(text) == Some(range)
    requires ExtractMaxDailyDose(text) == NoValue && 0.0 <= weight * height / 3600.0
    ensures CalculatePediatricDoseBase(text, weight, Some(height), root)
         == Value(Daily(MgM2Day, Scale(range, root(weight * height / 3600.0))))
  {
    NumbersEmptyIffNoDigit(text);
    assert CalculatePediatricDoseBase(text, weight, Some(height), root)
        == BaseFromParts(Some(range), MgM2Day, NoValue, weight, Some(height), root);
  }

  /** What the helpers extract from "10 mg/m²/day". */
  lemma SuperscriptSquareMetreParts(s: string)
    requires s == "10 mg/m\U{00B2}/day"
    ensures DetectDoseType(s) == MgM2Day && ExtractDoseRange(s) == Some(DoseRange(10.0, 10.0))
    ensures ExtractMaxDailyDose(s) == NoValue
  {
    SuperscriptSquareMetreDetected(s);
    SuperscriptSquareMetreRange(s);
    SuperscriptNoCap(s);
  }

  lemma SuperscriptNoCap(s: string)
    requires s == "10 mg/m\U{00B2}/day"
    ensures ExtractMaxDailyDose(s) == NoValue
  {
    LowerKeepsLowerCase(s);
    MarkerNeedsChar(s, "max daily dose", 2);
    MarkerNeedsChar(s, "maximum daily dose", 2);
    NoPhraseNoCap(s);
  }

  /** The steps of `calculate_pediatric_dose_base` on the values its
      helpers extracted from the text. */
  function BaseFromParts(range: Option<DoseRange>, doseType: DoseType, cap: Outcome<real>,
                         weight: real, height: Option<real>, root: real -> real)
    : (r: Outcome<BaseDose>)
    requires cap.Raised? ==> cap.error == ValueError
    ensures r.NoValue? <==> range.None? || doseType == Unknown || (doseType == MgM2Day && height.None?)
    ensures r.Raised? ==> r.error == ValueError
    ensures r.Raised? <==>
      && range.Some?
      && ((doseType == MgKgDay && cap.Raised?)
          || (doseType == MgM2Day && height.Some? && (Bsa(weight, height.value, root).Raised? || cap.Raised?)))
    ensures r.Value? ==> range.Some? && r.value.doseType == doseType
    ensures r.Value? && r.value.PerDose? <==> range.Some? && doseType == MgKgDose
    ensures r.Value? && r.value.PerDose? ==> r.value.perDose == Scale(range.value, weight)
    ensures r.Value? && doseType == MgKgDay ==> r.value.daily == ApplyMaxDaily(Scale(range.value, weight), cap)
    ensures r.Value? && doseType == MgM2Day ==>
      && height.Some? && Bsa(weight, height.value, root).Value?
      && r.value.daily == ApplyMaxDaily(Scale(range.value, Bsa(weight, height.value, root).value), cap)
    ensures r.Value? && r.value.Daily? && Truthy(cap) ==> r.value.daily.low <= cap.value && r.value.daily.high <= cap.value
  {
    match range
    case None => NoValue
    case Some(range) =>
      match doseType
      case MgKgDay => ClampedDaily(doseType, range, Value(weight), cap)
      case MgKgDose => Value(PerDose(doseType, Scale(range, weight)))
      case MgM2Day =>
        if height.None? then NoValue else ClampedDaily(doseType, range, Bsa(weight, height.value, root), cap)
      case Unknown => NoValue
  }

  /** The daily range scaled by the multiplier and clamped to the cap; an
      error from the square root or from parsing the cap propagates. */
  function ClampedDaily(doseType: DoseType, range: DoseRange, multiplier: Outcome<real>, cap: Outcome<real>)
    : (r: Outcome<BaseDose>)
    requires !multiplier.NoValue?
    ensures !r.NoValue?
    ensures r.Raised? <==> multiplier.Raised? || cap.Raised?
    ensures r.Value? ==> r.value == Daily(doseType, ApplyMaxDaily(Scale(range, multiplier.value), cap))
  {
    if multiplier.Raised? then Raised(multiplier.error)
    else if cap.Raised? then Raised(cap.error)
    else Value(Daily(doseType, ApplyMaxDaily(Scale(range, multiplier.value), cap)))
  }

  /** With an ordered dose range and non-negative weight and square roots,
      the dose range stays ordered through scaling and clamping. */
  lemma DailyDoseOrdered(text: string, weight: real, height: Option<real>, root: real -> real)
    requires CalculatePediatricDoseBase(text, weight, height, root).Value?
    requires ExtractDoseRange(text).Some? && ExtractDoseRange(text).value.low <= ExtractDoseRange(text).value.high
    requires 0.0 <= weight
    requires forall x :: 0.0 <= x ==> 0.0 <= root(x)
    ensures match CalculatePediatricDoseBase(text, weight, height, root).value
      case PerDose(_, d) => d.low <= d.high
      case Daily(_, d) => d.low <= d.high
  {
    BaseOrdered(ExtractDoseRange(text), DetectDoseType(text), ExtractMaxDailyDose(text), weight, height, root);
  }

  lemma BaseOrdered(range: Option<DoseRange>, doseType: DoseType, cap: Outcome<real>,
                    weight: real, height: Option<real>, root: real -> real)
    requires cap.Raised? ==> cap.error == ValueError
    requires BaseFromParts(range, doseType, cap, weight, height, root).Value?
    requires range.Some? && range.value.low <= range.value.high
    requires 0.0 <= weight
    requires forall x :: 0.0 <= x ==> 0.0 <= root(x)
    ensures match BaseFromParts(range, doseType, cap, weight, height, root).value
      case PerDose(_, d) => d.low <= d.high
      case Daily(_, d) => d.low <= d.high
  {
    if doseType == MgKgDose || doseType == MgKgDay {
      ScaleKeepsOrder(range.value, weight);
      ApplyMaxDailyKeepsOrder(Scale(range.value, weight), cap);
    } else {
      var b := Bsa(weight, height.value, root).value;
      ScaleKeepsOrder(range.value, b);
      ApplyMaxDailyKeepsOrder(Scale(range.value, b), cap);
    }
  }

  datatype Division = Division(dosesPerDay: real, perDose: DoseRange)

  /** `divide_daily_dose`: 24 / interval doses a day, each bound divided by
      that count; a zero interval raises. */
  function DivideDailyDose(dailyLow: real, dailyHigh: real, intervalHours: real): (r: Outcome<Division>)
    ensures r.Raised? <==> intervalHours == 0.0
    ensures r.Raised? ==> r.error == ZeroDivisionError
    ensures r.Value? ==> r.value.dosesPerDay * intervalHours == 24.0
    ensures r.Value? ==> r.value.perDose.low * 24.0 == dailyLow * intervalHours
    ensures r.Value? ==> r.value.perDose.high * 24.0 == dailyHigh * intervalHours
  {
    if intervalHours == 0.0 then Raised(ZeroDivisionError)
    else
      var dosesPerDay := 24.0 / intervalHours;
      Value(Division(dosesPerDay, DoseRange(dailyLow / dosesPerDay, dailyHigh / dosesPerDay)))
  }

  /** A positive interval keeps an ordered daily range ordered per dose. */
  lemma DivisionKeepsOrder(dailyLow: real, dailyHigh: real, intervalHours: real)
    requires dailyLow <= dailyHigh && 0.0 < intervalHours
    ensures DivideDailyDose(dailyLow, dailyHigh, intervalHours).value.perDose.low
         <= DivideDailyDose(dailyLow, dailyHigh, intervalHours).value.perDose.high
  {
    var d := DivideDailyDose(dailyLow, dailyHigh, intervalHours).value;
    assert (d.perDose.high - d.perDose.low) * 24.0 == (dailyHigh - dailyLow) * intervalHours;
  }

  /** 100-200 mg a day every 8 hours is 3 doses of 33.3-66.7 mg. */
  lemma EveryEightHours()
    ensures DivideDailyDose(100.0, 200.0, 8.0) == Value(Division(3.0, DoseRange(100.0 / 3.0, 200.0 / 3.0)))
  {
  }
}
