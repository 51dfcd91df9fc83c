# Pediatric dosing engine: a verified Dafny model

This project models the deterministic core of a pediatric dosing assistant:
the code that reads free-text clinical reference strings and turns them into
dose ranges, dosing decisions, reconstitution data and safety warnings. The
modelled parts are the following.

- **Dose text parsing and arithmetic** (`services/logic_service.py`; modules
  `DoseText` and `DoseCalc`):
  - the priority-ordered dose-type detection;
  - the dose range as the first two `\d+\.?\d*` tokens of the text;
  - the maximum daily dose, with grams converted to mg;
  - the weight or body-surface scaling and the clamp to the maximum daily
    dose;
  - the division of a daily dose over a dosing interval.
- **The older dose calculator** (`python/logic_service.py`; module
  `LegacyDose`):
  - interval keywords mapped to doses per day;
  - mg/kg/dose treated as a daily dose;
  - the per-dose split.
- **Renal line selection** (`select_renal_dose` in `UI/app.py`; module
  `Renal`): the first line of the renal text whose numbers bracket the
  glomerular filtration rate.
- **Rule-based reconstitution extraction**
  (`services/preparation_service.py`; module `Preparation`):
  - the pooling of the pattern matches;
  - comma stripping and conversion;
  - de-duplication in first-occurrence order;
  - the maximum concentration;
  - the dilution-only flag.
- **The older preparation helpers** (`python/preparation_service.py`; module
  `LegacyPreparation`):
  - the withdrawal volume;
  - the concentration and limit extractors;
  - the strength-to-volume table.
- **The merge policy** (`services/preparation_pipeline.py`; module
  `PreparationPipeline`): the AI result is primary field by field, and the
  rule result fills an empty list or a missing concentration.
- **Safety flags** (`services/safety_service.py`; module `Safety`): three
  threshold checks in a fixed order, a sentinel when none fires, and the
  bullet formatter.
- **The OCR vial-strength picker** (`extract_vial_strength_mg` in
  `services/ai_vision_service.py`; module `Vision`).

`Wrappers` and `Text` are shared foundations. `Wrappers` holds `Option` and
`Outcome`, where `Outcome` is a value, Python's `None`, or a raised
exception. `Text` holds ASCII character classes, `str.lower`, substring
search, `str.split`, and the scanners for `\d+\.?\d*` (`Numbers`) and `\d+`
(`DigitRuns`).

A Python function that may return `None` or raise is modelled as returning an
`Outcome`. Every error path of the source is one of its cases: a malformed
number raises `ValueError`, a missing height `TypeError`, and a zero divisor
`ZeroDivisionError`. Code that builds its result step by step is written as methods:
- the de-duplication loop, proved equal to the function `Preparation.Dedup`;
- the table-building loops, proved equal to the function
  `LegacyPreparation.TableOf`;
- the flag list (a sequence of appends, no loop), proved equal to the
  function `Safety.Warnings` or the sentinel alone;
- the bullet formatter (a loop), whose result is stated element by element;
- the field overwrites of the merge (no loop), whose result is stated field
  by field.

Where a specification function exists, the properties are proved about it.

Behaviours of the code that the proofs pin down:
- "250 mg/m2/day" is a body-surface dose with the range 250 to 2, because
  the digit of "m2" is read as the upper bound.
- A renal line with two numbers never consults its "less"/"greater" keyword,
  so "GFR greater 30: 10 mg" is read as the empty range 30 to 10.
- The older preparation extractors can never match (see Findings).
- For the table "GFR 10 to 30: ..." / "GFR greater 30: 10 mg/kg/dose", the
  rate 45 selects no line (`Renal.TableIgnoresGreater`).

The code's own comments disagree about which preparation extraction leads:
services/ai_preparation_service.py:7 calls the AI extraction a "secondary
validation", while services/preparation_pipeline.py:7 says "AI first" with
the rules filling missing data. The model follows what lines 10-26 of the
pipeline do: the AI values are used first, the rule-based values only fill
an empty list or a missing concentration, and no discrepancy is flagged.

## Model

| member | source | states |
|---|---|---|
| Text.Lower | services/logic_service.py:6 | lower-casing keeps the length, maps every character through the ASCII case fold, and leaves no upper-case letter |
| Text.LowerKeepsLowerCase | services/logic_service.py:6 | a text without upper-case letters is unchanged by lower-casing |
| Text.ContainsAt | services/logic_service.py:7 | a pattern found at any position makes Python's `in` true |
| Text.ContainsHasChars | services/logic_service.py:7 | every character of a contained pattern occurs in the text |
| Text.Numbers | services/logic_service.py:18-19 | every number `re.findall(r"\d+\.?\d*")` yields, converted by `float`, is non-negative |
| Text.NumbersEmptyIffNoDigit | services/logic_service.py:18-21 | the token list is empty exactly when the text has no digit |
| Text.NumbersSkipGap | services/logic_service.py:18 | a digit-free prefix contributes no token |
| Text.NumbersIntegerToken | services/logic_service.py:18-19 | an integer token after a digit-free gap, not followed by a point, contributes its integer value |
| Text.NumbersOfPieces | services/logic_service.py:18-19 | gap, integer token and a rest that cannot extend it give the token's value followed by the rest's tokens |
| Text.DecimalTokenIsFloat | services/logic_service.py:19 | `float` accepts every `\d+\.?\d*` token, so the conversion never raises |
| Text.FloatValue | services/logic_service.py:19 | the float of a digits-and-point literal is non-negative |
| Text.Split | UI/app.py:24 | `split("\n")` gives at least one part and no part contains the separator |
| Text.DigitRuns | services/ai_vision_service.py:30 | `re.findall(r"\d+")` converted by `int` is empty exactly when the text has no digit |
| Text.JoinSplit | UI/app.py:24 | joining the parts with the separator gives back the text |
| Text.SplitAtFirst | UI/app.py:24 | the first separator cuts off the first part |
| Text.SplitWithoutSeparator | UI/app.py:24 | a text without the separator is a single part |
| DoseText.DetectDoseType | services/logic_service.py:5-13 | the detected type's marker occurs in the lower-cased text and no marker of a higher-priority type does (mg/kg/day, then mg/kg/dose, then mg/m2/day or mg/m²/day, else unknown) |
| DoseText.ExtractDoseRange | services/logic_service.py:17-24 | no range exactly when the text has no digit; otherwise the first token and the second (or the first again when there is one), in text order and never swapped, both non-negative |
| DoseText.CapAt | services/logic_service.py:29 | an anchored match of the maximum-daily-dose pattern needs "maximum daily dose" or "max daily dose" and captures a non-empty run of digits and points |
| DoseText.ExtractMaxDailyDose | services/logic_service.py:28-36 | `None` exactly when the leftmost search on the lower-cased text fails; `ValueError` exactly when the captured run is not a float literal; otherwise its value, times 1000 for grams, never negative |
| DoseText.SearchCapLeftmost | services/logic_service.py:29 | `re.search`: nothing exactly when no position has an anchored match; otherwise the anchored match at the leftmost position that has one |
| DoseText.CapNeedsPhrase | services/logic_service.py:29 | without either phrase the search finds no match |
| DoseText.NoPhraseNoCap | services/logic_service.py:29-31 | without either phrase in the lower-cased text there is no maximum daily dose |
| DoseText.SquareMetreDetected | services/logic_service.py:11-12 | "250 mg/m2/day" is a body-surface dose |
| DoseText.SquareMetreDigitIsRead | services/logic_service.py:11-24 | "250 mg/m2/day" is a body-surface dose whose range is 250 to 2: the digit of "m2" is read as the upper bound |
| DoseText.SuperscriptSquareMetreDetected | services/logic_service.py:11-12 | "10 mg/m²/day", with the superscript two, is a body-surface dose |
| DoseText.SuperscriptSquareMetreRange | services/logic_service.py:17-24 | the superscript two is no decimal digit: "10 mg/m²/day" has the range 10 to 10 |
| DoseCalc.ApplyMaxDaily | services/logic_service.py:76-79 | with a truthy cap both bounds end at or below it; no bound increases; each bound is either unchanged or the cap; a `None` or zero cap changes nothing |
| DoseCalc.ApplyMaxDailyIdempotent | services/logic_service.py:76-79 | clamping twice is clamping once |
| DoseCalc.ApplyMaxDailyKeepsOrder | services/logic_service.py:76-79 | clamping keeps an ordered range ordered |
| DoseCalc.ScaleKeepsOrder | services/logic_service.py:53-55 | scaling by a non-negative weight or surface area keeps an ordered range ordered |
| DoseCalc.Bsa | services/logic_service.py:40-41 | raises `ValueError` exactly when weight·height/3600 is negative, else the square root of that quantity |
| DoseCalc.CalculatePediatricDoseBase | services/logic_service.py:45-84 | `None` exactly for a digit-free text, an unknown type, or a body-surface dose without height; `ValueError` exactly when a daily dose meets an unparsable maximum daily dose or a negative surface-area radicand, and no other error; the result carries the detected type; a per-dose result exactly for mg/kg/dose, equal to range × weight with no clamp; a daily result never exceeds a truthy cap |
| DoseCalc.BaseFromParts | services/logic_service.py:47-84 | the same decisions on the parsed range, type and cap, with the same exact `ValueError` condition; the daily result is the range scaled by the weight (mg/kg/day) or by the surface area (mg/m2/day), then clamped |
| DoseCalc.SurfaceAreaDoseOfParts | services/logic_service.py:67-84 | a body-surface text without a maximum daily dose, given a height with a non-negative radicand, yields its range × √(weight × height / 3600) as the daily dose |
| DoseCalc.SuperscriptSquareMetreDose | services/logic_service.py:11-84 | "10 mg/m²/day" with a height yields the daily dose 10 × the surface area at both ends |
| DoseCalc.ClampedDaily | services/logic_service.py:68-84 | an error from the square root or the cap parse propagates; otherwise the scaled range clamped to the cap |
| DoseCalc.DailyDoseOrdered | services/logic_service.py:45-84 | with an ordered range, a non-negative weight and a non-negative square root, the returned range (per-dose or daily) is ordered |
| DoseCalc.BaseOrdered | services/logic_service.py:51-84 | the ordering fact above, on the parsed parts |
| DoseCalc.DivideDailyDose | services/logic_service.py:88-92 | raises `ZeroDivisionError` exactly for a zero interval; otherwise doses per day × interval = 24 and each per-dose bound × 24 = daily bound × interval |
| DoseCalc.DivisionKeepsOrder | services/logic_service.py:88-92 | a positive interval keeps an ordered daily range ordered per dose |
| DoseCalc.EveryEightHours | services/logic_service.py:88-92 | 100-200 mg a day every 8 hours is 3 doses of 100/3 to 200/3 mg |
| LegacyDose.SameDoseRange | python/logic_service.py:25-34 | the older range extractor agrees with the newer one on every input |
| LegacyDose.ExtractDosesPerDay | python/logic_service.py:59-70 | the result is 1 to 4: 4 exactly for a 6-hour interval, 3 for an 8-hour one without a 6-hour one, 2 for a 12-hour one without either, 1 otherwise |
| LegacyDose.SplitDaily | python/logic_service.py:124-125 | each per-dose bound times the doses per day is the daily bound |
| LegacyDose.CalculatePediatricDose | python/logic_service.py:85-131 | `None` exactly for a digit-free text or an unknown type; `TypeError` exactly for a body-surface dose without height; the doses per day are those of the text and the per-dose range is the daily range split over them |
| LegacyDose.DoseFromParts | python/logic_service.py:90-131 | the same on the parsed parts; for both mg/kg types the daily dose is range × weight clamped to the cap; for mg/m2/day with a height it is range × surface area clamped to the cap; `ValueError` exactly when the cap cannot be parsed or the surface area's radicand is negative; a truthy cap bounds the daily dose |
| LegacyDose.Multiplier | python/logic_service.py:98-113 | the weight for both mg/kg types; for mg/m2/day `TypeError` exactly when the height is missing, else exactly `calculate_bsa(weight, height)` |
| LegacyDose.DailyWithinCap | python/logic_service.py:116-119 | the daily dose never exceeds a truthy maximum daily dose |
| LegacyDose.MgKgDoseTreatedAsDaily | python/logic_service.py:99-105 | for mg/kg/dose and mg/kg/day alike the daily dose is range × weight clamped to the cap |
| LegacyDose.SquareMetreDoseUsesSurfaceArea | python/logic_service.py:107-119 | for mg/m2/day with a height and a parsable cap, `ValueError` exactly for a negative radicand, otherwise the daily dose is range × √(weight × height / 3600) clamped to the cap |
| LegacyDose.PerDoseAtMostDaily | python/logic_service.py:122-125 | for a non-negative daily dose each administration is at most the daily amount |
| LegacyDose.SplitAtMostDaily | python/logic_service.py:124-125 | splitting a non-negative range over one or more doses never increases a bound |
| Renal.LineMatches | UI/app.py:27-40 | a selecting line holds a digit, and a line with a single number never selects the rate equal to it (both keyword tests are strict) |
| Renal.FirstMatch | UI/app.py:26-42 | `None` exactly when no line selects the rate; otherwise a line that selects it, with no earlier line selecting it |
| Renal.SelectRenalDose | UI/app.py:20-42 | `None` for a missing or empty text; otherwise a result is one of the newline-separated lines, selects the rate and holds no newline, and there is no result exactly when no line selects the rate |
| Renal.KeywordsIgnoredWithTwoNumbers | UI/app.py:29-32 | with two or more numbers a line selects exactly the rates within its first two, inclusive; reversed bounds select nothing |
| Renal.SingleBoundIsStrict | UI/app.py:34-40 | with one number, the rate equal to it is never selected |
| Renal.DigitFreeLineNeverSelected | UI/app.py:27-40 | a selected line always contains a digit |
| Renal.SplitTwoLines | UI/app.py:24 | two newline-free lines joined by a newline split back into those two lines |
| Renal.SelectFromTwoLines | UI/app.py:24-42 | in a two-line text the first line wins when it matches; neither matching gives `None` |
| Renal.TableSelectsBracket | UI/app.py:20-42 | in the two-line table, rate 20 selects "GFR 10 to 30: ..." |
| Renal.TableIgnoresGreater | UI/app.py:29-40 | in the two-line table, rates 45 and 5 select nothing, because "GFR greater 30: 10 ..." is read as the range 30 to 10 |
| Preparation.StripCommas | services/preparation_service.py:56 | the result has no comma, is no longer than the input, is all digits when the input is digits and commas, and keeps a leading digit |
| Preparation.TokenIsFloat | services/preparation_service.py:57 | every captured volume is a float literal, so `float(vol)` never raises |
| Preparation.Converted | services/preparation_service.py:55-57 | one converted pair per captured pair |
| Preparation.Pool | services/preparation_service.py:51-57 | the pooled pairs are those of the first pattern, then the second, then the third, each converted in order |
| Preparation.LimitValue | services/preparation_service.py:24-30 | a maximum concentration exactly when the limit pattern matched, never negative |
| Preparation.Dedup | services/preparation_service.py:53-64 | the kept pairs are exactly the pooled pairs, and there are no more of them |
| Preparation.DedupHasNoDuplicates | services/preparation_service.py:59-60 | no pair is kept twice |
| Preparation.DedupAppend | services/preparation_service.py:59-64 | one more pair is appended exactly when it was not kept before |
| Preparation.DedupKeepsFirstOccurrenceOrder | services/preparation_service.py:53-64 | kept pairs appear in the order of their first occurrences in the pool |
| Preparation.RuleBasedReconstitution | services/preparation_service.py:4-77 | the list is the de-duplicated pool of pattern1, pattern2 and pattern3 matches; the maximum concentration is the first limit match's number; dilution-only holds exactly when the pool is empty and the dilution pattern matched, and then the list is empty |
| Preparation.ThousandSeparatorStripped | services/preparation_service.py:56-57 | the capture ("1,000", "5") is read as a 1000 mg vial with 5 mL |
| PreparationPipeline.ExtractReconstitution | services/preparation_pipeline.py:4-26 | a non-empty AI list is kept verbatim, an empty one replaced by the rule list; an AI concentration is kept, a missing one replaced by the rule one, each field independently; an AI failure gives both rule fields |
| LegacyPreparation.ConcentrationAt | python/preparation_service.py:7 | an anchored match of the concentration pattern holds every character of its unit literal |
| LegacyPreparation.MaxConcentrationAt | python/preparation_service.py:23 | an anchored match of the limit pattern holds every character of "mg/" and its unit |
| LegacyPreparation.MultiAt | python/preparation_service.py:37-40 | a multi-vial match holds every character of its unit literal and yields three strengths |
| LegacyPreparation.SingleAt | python/preparation_service.py:47-50 | a single-vial match holds every character of its unit literal, ends inside the text, captures a run of digits and commas and a volume `float` accepts |
| LegacyPreparation.FindSingles | python/preparation_service.py:47-50 | every entry `findall` returns has a strength of digits and commas and a volume `float` accepts |
| LegacyPreparation.SearchNeedsChar | python/preparation_service.py:7 | when every anchored match needs a character, so does the search |
| LegacyPreparation.FindSinglesNeedsL | python/preparation_service.py:47-50 | the single-vial `findall` with the unit "mL" finds something only in a text holding a capital L |
| LegacyPreparation.LowerHasNoCapitalL | python/preparation_service.py:7 | lower-cased text never holds a capital L |
| LegacyPreparation.ExtractConcentration | python/preparation_service.py:3-10 | `extract_concentration` returns `None` on every text: every match needs the capital L of "mL", which lower-cased text never holds |
| LegacyPreparation.ExtractMaxConcentration | python/preparation_service.py:19-26 | `extract_max_concentration` returns `None` on every text, for the same reason |
| LegacyPreparation.CorrectedConcentrationReadsAmount | python/preparation_service.py:7-10 | with the unit in lower case, a text starting with an amount in mg/mL gives that amount |
| LegacyPreparation.CorrectedMaxConcentrationReadsLimit | python/preparation_service.py:23-26 | with the unit in lower case, "not exceed N mg/mL" at the start gives N |
| LegacyPreparation.CalculateWithdrawalVolume | python/preparation_service.py:13-17 | `ZeroDivisionError` exactly for a zero concentration; otherwise volume × concentration = dose |
| LegacyPreparation.WithdrawalVolumeGrowsWithDose | python/preparation_service.py:13-17 | at a positive concentration a larger dose needs a larger volume |
| LegacyPreparation.MultiTable | python/preparation_service.py:41-44 | the keys are exactly the three strengths, each mapped to the shared volume |
| LegacyPreparation.BuildTable | python/preparation_service.py:34-55 | `ValueError` exactly when some single-vial strength is only commas; otherwise the table written by the multi-vial entries and then the single-vial entries in order |
| LegacyPreparation.MultiStrengthsShareVolume | python/preparation_service.py:41-44 | a multi-vial strength that no single-vial entry names maps to the shared volume |
| LegacyPreparation.LastSingleEntryWins | python/preparation_service.py:52-53 | a single-vial entry maps its comma-stripped strength to `float` of its volume, overwriting earlier values, and stays unless a later entry names it |
| LegacyPreparation.ExtractReconstitutionTable | python/preparation_service.py:29-55 | `extract_reconstitution_table` returns the empty table on every text |
| LegacyPreparation.FindSinglesCorrected | python/preparation_service.py:47-50 | with the unit in lower case every entry found has a strength of digits and commas and a volume `float` accepts |
| LegacyPreparation.CorrectedSingleEntryRead | python/preparation_service.py:47-53 | with the unit in lower case, a text starting with "S mg vial: V mL" yields the groups (S, V) first, and `float(V)` is the integer V spells |
| LegacyPreparation.ExtractReconstitutionTableCorrected | python/preparation_service.py:29-55 | with the unit in lower case, the table is built from the matches then found, raising exactly for a strength of only commas |
| Vision.Reading | services/ai_vision_service.py:38-44 | a common strength reads as itself, 1 and 2 as grams, anything else as nothing; every reading is a common strength |
| Vision.FirstStrength | services/ai_vision_service.py:37-46 | nothing exactly when no run reads; otherwise the reading of the first run that reads, scanning left to right |
| Vision.VialStrengthMg | services/ai_vision_service.py:23-46 | any strength found is one of 50, 100, 250, 500, 750, 1000, 2000 |
| Vision.NoDigitNoStrength | services/ai_vision_service.py:30-33 | text without a digit gives no strength |
| Vision.OneAndAHalfGramsReadsAsOneGram | services/ai_vision_service.py:30 | "1.5 g" has the runs 1 and 5 and reads as 1000 mg |
| Safety.Message | services/safety_service.py:17-39 | each flag renders to a non-empty text starting with the letter of its kind |
| Safety.MessagesTellKindsApart | services/safety_service.py:17-39 | flags of different kinds never render to the same text |
| Safety.Warnings | services/safety_service.py:14-36 | at most three warnings, never the sentinel, and none exactly when no check fires |
| Safety.GenerateSafetyFlags | services/safety_service.py:1-41 | never empty, at most three flags; exactly the sentinel when no check fires; otherwise exactly the warnings in check order |
| Safety.WarningIffCheckFires | services/safety_service.py:15-36 | each kind of warning is present exactly when its check fires (daily above maximum with both given, single dose above 1000, volume above 10, all strict) and carries the reported numbers |
| Safety.WarningsInCheckOrder | services/safety_service.py:14-36 | warnings keep check order: daily, then single dose, then volume |
| Safety.OnlySingleDoseTooHigh | services/safety_service.py:23-28 | a single dose of 1500 mg alone raises exactly the single-dose warning |
| Safety.FormatSafetyComment | services/safety_service.py:44-51 | same length and order, each element the bullet prefix followed by the flag |

## Left out

- The OCR in `extract_text_from_image`, the LLM subprocess calls and their JSON scraping, the reference database lookups, the `ML/` directory, the Streamlit page code in `UI/app.py` outside `select_renal_dose`, and the interactive `main.py` scripts: these are I/O, foreign processes or presentation.
- `math.sqrt` in `calculate_bsa` is the parameter `root`. Nothing is assumed about it except where a lemma says so (`DoseCalc.DailyDoseOrdered` asks for non-negative roots).
- Floating point: all arithmetic is on `real`, without IEEE rounding.
- The `:.2f` rendering of a number in the flag texts is the parameter `fmt` of `Safety.Message`.
- Case folding, `\d` and `\s` cover ASCII only. Python's Unicode rules for them are not modelled.
- The lazy `.*?` regular expressions of `rule_based_reconstitution` are not modelled. What `re.search` and `re.findall` return on the lower-cased text is the input `Preparation.PatternMatches`. `Preparation.WellFormed` states the capture shapes those patterns guarantee.
- Preparation.RuleBasedReconstitution: every captured pair is converted before the loop rather than at the top of each iteration. Conversion cannot fail on these captures, so the result is the same.
- `services/preparation_pipeline.py` imports `fallback_reconstitution`, a name `services/preparation_service.py` does not define, so in Python that import fails. The model merges with `rule_based_reconstitution`, the function that file does define.
- The AI extractor's output is the input `PreparationPipeline.AiHint`: an already-parsed list of (vial mg, volume mL) pairs and an optional concentration. Malformed JSON values inside that output are not modelled.
- Safety.GenerateSafetyFlags: returns `Flag` values, each carrying the numbers it reports. `Safety.Message` renders them as the source's texts, and `Safety.FormatSafetyComment` works on the rendered strings.
- The older `detect_dose_type` and `extract_max_daily_dose` (python/logic_service.py:8-18, 41-52) are the same code as their newer counterparts, so `LegacyDose` uses `DoseText.DetectDoseType` and `DoseText.ExtractMaxDailyDose` for them.
- The greedy matchers of python/preparation_service.py do not model regular-expression backtracking. For those patterns no match depends on it, because each quantified class is followed by a character it cannot take.

## Findings

| source | as written | input that shows it | evidently intended | confidence | as-written member | corrected member |
|---|---|---|---|---|---|---|
| python/preparation_service.py:7 | the pattern ends in "mL" with a capital L but searches the lower-cased text, so it never matches | "10 mg/mL" gives `None` | 10.0 | high; not executed | LegacyPreparation.ExtractConcentration | LegacyPreparation.CorrectedConcentrationReadsAmount |
| python/preparation_service.py:23 | the limit pattern ends in "mg/mL" and searches the lower-cased text, so it never matches | "not exceed 5 mg/mL" gives `None` | 5.0 | high; not executed | LegacyPreparation.ExtractMaxConcentration | LegacyPreparation.CorrectedMaxConcentrationReadsLimit |
| python/preparation_service.py:38 | both table patterns end in "mL" and are applied to the lower-cased text, so the table is always empty | "1,000 mg vial: 7 mL" gives `{}` | {1000: 7.0} | high; not executed | LegacyPreparation.ExtractReconstitutionTable | LegacyPreparation.CorrectedSingleEntryRead |
