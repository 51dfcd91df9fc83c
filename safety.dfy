/** Safety flags (services/safety_service.py): three threshold checks run in
    a fixed order, with a sentinel message when none fires, and a formatter
    that puts a bullet in front of each flag. A flag is kept as a `Flag`
    value carrying the numbers it reports; `Message` renders it as the text
    the source builds, with the `:.2f` rendering of a number as the
    parameter `fmt`. */
module Safety {
  import opened Wrappers

  datatype Flag =
    | DailyDoseExceeded(dailyDoseMg: real, maxDailyDoseMg: real)
    | SingleDoseHigh(doseMg: real)
    | WithdrawalVolumeLarge(volumeMl: real)
    | NoConcerns

  /** The text of each flag. */
  function Message(flag: Flag, fmt: real -> string): (m: string)
    ensures m != [] && m[0] == FirstLetter(flag)
  {
    match flag
    case DailyDoseExceeded(daily, maxDaily) =>
      "Total daily dose (" + (fmt(daily) + (" mg) exceeds maximum recommended daily dose ("
        + (fmt(maxDaily) + " mg).")))
    case SingleDoseHigh(dose) =>
      "Single dose (" + (fmt(dose) + " mg) is high. Verify indication and administration rate.")
    case WithdrawalVolumeLarge(volume) =>
      "Withdrawal volume (" + (fmt(volume)
        + " mL) is large. Consider further dilution or alternative vial strength.")
    case NoConcerns => "No immediate safety concerns detected."
  }

  /** Different kinds of flag never render to the same text: each starts
      with its own letter. */
  lemma MessagesTellKindsApart(f: Flag, g: Flag, fmt: real -> string)
    requires Message(f, fmt) == Message(g, fmt)
    ensures f.DailyDoseExceeded? <==> g.DailyDoseExceeded?
    ensures f.SingleDoseHigh? <==> g.SingleDoseHigh?
    ensures f.WithdrawalVolumeLarge? <==> g.WithdrawalVolumeLarge?
    ensures f.NoConcerns? <==> g.NoConcerns?
  {
    assert FirstLetter(f) == FirstLetter(g);
  }

  function FirstLetter(f: Flag): char
  {
    match f
    case DailyDoseExceeded(_, _) => 'T'
    case SingleDoseHigh(_) => 'S'
    case WithdrawalVolumeLarge(_) => 'W'
    case NoConcerns => 'N'
  }

  /** The daily check fires when both values are given and the dose is
      strictly above the maximum. */
  predicate DailyFires(dailyDoseMg: Option<real>, maxDailyDoseMg: Option<real>)
  {
    dailyDoseMg.Some? && maxDailyDoseMg.Some? && dailyDoseMg.value > maxDailyDoseMg.value
  }

  /** The single-dose check fires strictly above 1000 mg. */
  predicate SingleFires(doseMg: Option<real>)
  {
    doseMg.Some? && doseMg.value > 1000.0
  }

  /** The volume check fires strictly above 10 mL. */
  predicate VolumeFires(volumeMl: Option<real>)
  {
    volumeMl.Some? && volumeMl.value > 10.0
  }

  /** The warnings in check order: daily, single dose, volume. */
  function Warnings(daily: Option<real>, maxDaily: Option<real>, single: Option<real>,
                    volume: Option<real>): (w: seq<Flag>)
    ensures |w| <= 3
    ensures NoConcerns !in w
    ensures w == [] <==> !DailyFires(daily, maxDaily) && !SingleFires(single) && !VolumeFires(volume)
  {
    (if DailyFires(daily, maxDaily) then [DailyDoseExceeded(daily.value, maxDaily.value)] else [])
    + (if SingleFires(single) then [SingleDoseHigh(single.value)] else [])
    + (if VolumeFires(volume) then [WithdrawalVolumeLarge(volume.value)] else [])
  }

  /** `generate_safety_flags`: appends each warning whose check fires and
      the sentinel when none did. */
  method GenerateSafetyFlags(dailyDoseMg: Option<real>, maxDailyDoseMg: Option<real>,
                             dosePerAdministrationMg: Option<real>, withdrawalVolumeMl: Option<real>)
    returns (flags: seq<Flag>)
    ensures flags != [] && |flags| <= 3
    ensures flags == [NoConcerns] <==>
      !DailyFires(dailyDoseMg, maxDailyDoseMg) && !SingleFires(dosePerAdministrationMg)
      && !VolumeFires(withdrawalVolumeMl)
    ensures var w := Warnings(dailyDoseMg, maxDailyDoseMg, dosePerAdministrationMg, withdrawalVolumeMl);
      flags == if w == [] then [NoConcerns] else w
  {
    flags := [];
    if dailyDoseMg.Some? && maxDailyDoseMg.Some? {
      if dailyDoseMg.value > maxDailyDoseMg.value {
        flags := flags + [DailyDoseExceeded(dailyDoseMg.value, maxDailyDoseMg.value)];
      }
    }
    if dosePerAdministrationMg.Some? {
      if dosePerAdministrationMg.value > 1000.0 {
        flags := flags + [SingleDoseHigh(dosePerAdministrationMg.value)];
      }
    }
    if withdrawalVolumeMl.Some? {
      if withdrawalVolumeMl.value > 10.0 {
        flags := flags + [WithdrawalVolumeLarge(withdrawalVolumeMl.value)];
      }
    }
    assert flags == Warnings(dailyDoseMg, maxDailyDoseMg, dosePerAdministrationMg, withdrawalVolumeMl);
    if flags == [] {
      flags := flags + [NoConcerns];
    }
  }

  /** Each warning is present exactly when its check fires, and carries the
      numbers it reports. */
  lemma WarningIffCheckFires(daily: Option<real>, maxDaily: Option<real>, single: Option<real>,
                             volume: Option<real>)
    ensures (exists f :: f in Warnings(daily, maxDaily, single, volume) && f.DailyDoseExceeded?)
            <==> DailyFires(daily, maxDaily)
    ensures DailyFires(daily, maxDaily) ==>
      DailyDoseExceeded(daily.value, maxDaily.value) in Warnings(daily, maxDaily, single, volume)
    ensures (exists f :: f in Warnings(daily, maxDaily, single, volume) && f.SingleDoseHigh?)
            <==> SingleFires(single)
    ensures SingleFires(single) ==> SingleDoseHigh(single.value) in Warnings(daily, maxDaily, single, volume)
    ensures (exists f :: f in Warnings(daily, maxDaily, single, volume) && f.WithdrawalVolumeLarge?)
            <==> VolumeFires(volume)
    ensures VolumeFires(volume) ==>
      WithdrawalVolumeLarge(volume.value) in Warnings(daily, maxDaily, single, volume)
  {
    var a := if DailyFires(daily, maxDaily) then [DailyDoseExceeded(daily.value, maxDaily.value)] else [];
    var b := if SingleFires(single) then [SingleDoseHigh(single.value)] else [];
    var c := if VolumeFires(volume) then [WithdrawalVolumeLarge(volume.value)] else [];
    assert Warnings(daily, maxDaily, single, volume) == a + b + c;
    assert forall f :: f in a + b + c <==> f in a || f in b || f in c;
    if DailyFires(daily, maxDaily) {
      assert DailyDoseExceeded(daily.value, maxDaily.value) in a + b + c;
    }
    if SingleFires(single) {
      assert SingleDoseHigh(single.value) in a + b + c;
    }
    if VolumeFires(volume) {
      assert WithdrawalVolumeLarge(volume.value) in a + b + c;
    }
  }

  /** Warnings keep check order: a daily warning comes before a single-dose
      one, which comes before a volume one. */
  lemma WarningsInCheckOrder(daily: Option<real>, maxDaily: Option<real>, single: Option<real>,
                             volume: Option<real>, i: nat, j: nat)
    requires i < j < |Warnings(daily, maxDaily, single, volume)|
    ensures Rank(Warnings(daily, maxDaily, single, volume)[i])
          < Rank(Warnings(daily, maxDaily, single, volume)[j])
  {
  }

  /** The position of a flag's check in the order of the checks. */
  function Rank(f: Flag): nat
  {
    match f
    case DailyDoseExceeded(_, _) => 0
    case SingleDoseHigh(_) => 1
    case WithdrawalVolumeLarge(_) => 2
    case NoConcerns => 3
  }

  /** The bullet prefix exactly as the source writes it: the UTF-8 bytes of a
      bullet read back as Windows-1252 ("â€¢"), then a space. */
  const Bullet: string := "\U{00E2}\U{20AC}\U{00A2} "

  /** `format_safety_comment`: the bullet in front of every flag, in
      order. */
  method FormatSafetyComment(flags: seq<string>) returns (formatted: seq<string>)
    ensures |formatted| == |flags|
    ensures forall i :: 0 <= i < |flags| ==> formatted[i] == Bullet + flags[i]
  {
    formatted := [];
    var i := 0;
    while i < |flags|
      invariant 0 <= i <= |flags|
      invariant |formatted| == i
      invariant forall k :: 0 <= k < i ==> formatted[k] == Bullet + flags[k]
    {
      formatted := formatted + [Bullet + flags[i]];
      i := i + 1;
    }
  }

  /** A single dose of 1500 mg with nothing else given raises exactly the
      single-dose warning. */
  lemma OnlySingleDoseTooHigh()
    ensures Warnings(None, None, Some(1500.0), None) == [SingleDoseHigh(1500.0)]
  {
  }
}
