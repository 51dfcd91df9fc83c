/** Rule-based extraction of reconstitution data (`rule_based_reconstitution`,
    services/preparation_service.py). The lazy `.*?` regular expressions are
    not modelled: what `re.search` and `re.findall` return on the lower-cased
    text is the input `PatternMatches`, and the model covers what the function
    does with those matches: pooling, comma stripping, de-duplication, the
    maximum concentration and the dilution-only flag. */
module Preparation {
  import opened Wrappers
  import opened Text

  /** One reconstitution option: a vial strength and the volume to add. */
  datatype VialVolume = VialVolume(vialMg: nat, volumeMl: real)

  /** One `re.findall` tuple: the vial digits `\d[\d,]*` and the volume
      `\d+\.?\d*`. */
  datatype Capture = Capture(vial: string, volume: string)

  /** What the five regular expressions return on the lower-cased text. */
  datatype PatternMatches = PatternMatches(
    limit: Option<string>,       // group 2 of the first maximum-concentration match
    vialColon: seq<Capture>,     // "N mg vial: V ml" (pattern1)
    reconstitute: seq<Capture>,  // "reconstitute N mg vial ... V ml" (pattern2)
    vialLoose: seq<Capture>,     // "N mg vial ... V ml" (pattern3)
    dilution: bool)              // whether the dilution pattern matched

  /** The shape `\d+\.?\d*` gives a capture. */
  predicate IsDecimalToken(s: string)
  {
    s != [] && IsDigit(s[0]) && DecimalLength(s) == |s|
  }

  /** The shape `\d[\d,]*` gives a capture. */
  predicate IsVialDigits(s: string)
  {
    s != [] && IsDigit(s[0]) && forall i :: 0 <= i < |s| ==> IsDigit(s[i]) || s[i] == ','
  }

  predicate WellFormedCapture(c: Capture)
  {
    IsVialDigits(c.vial) && IsDecimalToken(c.volume)
  }

  predicate WellFormed(m: PatternMatches)
  {
    && (m.limit.Some? ==> IsDecimalToken(m.limit.value))
    && (forall c :: c in m.vialColon ==> WellFormedCapture(c))
    && (forall c :: c in m.reconstitute ==> WellFormedCapture(c))
    && (forall c :: c in m.vialLoose ==> WellFormedCapture(c))
  }

  /** `s.replace(",", "")`. */
  function StripCommas(s: string): (r: string)
    ensures ',' !in r
    ensures |r| <= |s|
    ensures (forall i :: 0 <= i < |s| ==> IsDigit(s[i]) || s[i] == ',') ==> AllDigits(r)
    ensures s != [] && IsDigit(s[0]) ==> r != [] && r[0] == s[0]
  {
    if s == [] then []
    else if s[0] == ',' then StripCommas(s[1..])
    else [s[0]] + StripCommas(s[1..])
  }

  lemma TokenIsFloat(s: string)
    requires IsDecimalToken(s)
    ensures IsFloatLiteral(s)
  {
    DecimalTokenIsFloat(s);
    assert s[..|s|] == s;
  }

  /** `int(vial.replace(",", ""))` and `float(vol)`. */
  function Convert(c: Capture): VialVolume
    requires WellFormedCapture(c)
  {
    TokenIsFloat(c.volume);
    VialVolume(DigitsValue(StripCommas(c.vial)), FloatValue(c.volume))
  }

  function Converted(cs: seq<Capture>): (r: seq<VialVolume>)
    requires forall c :: c in cs ==> WellFormedCapture(c)
    ensures |r| == |cs|
  {
    seq(|cs|, i requires 0 <= i < |cs| => Convert(cs[i]))
  }

  /** `pattern1 + pattern2 + pattern3`, converted. */
  function Pool(m: PatternMatches): (r: seq<VialVolume>)
    requires WellFormed(m)
    ensures r == Converted(m.vialColon) + Converted(m.reconstitute) + Converted(m.vialLoose)
  {
    Converted(m.vialColon + m.reconstitute + m.vialLoose)
  }

  /** The maximum concentration: the number of the first limit match. */
  function LimitValue(m: PatternMatches): (r: Option<real>)
    requires WellFormed(m)
    ensures r.Some? <==> m.limit.Some?
    ensures r.Some? ==> r.value >= 0.0
  {
    match m.limit
    case None => None
    case Some(s) => TokenIsFloat(s); Some(FloatValue(s))
  }

  predicate NoDuplicates<T(==,!new)>(s: seq<T>)
  {
    forall i, j :: 0 <= i < j < |s| ==> s[i] != s[j]
  }

  /** The distinct elements of `p`, each kept where it first occurs. */
  function Dedup<T(==,!new)>(p: seq<T>): (r: seq<T>)
    ensures forall x :: x in r <==> x in p
    ensures |r| <= |p|
  {
    if p == [] then []
    else
      var d := Dedup(p[..|p| - 1]);
      assert p == p[..|p| - 1] + [p[|p| - 1]];
      if p[|p| - 1] in d then d else d + [p[|p| - 1]]
  }

  /** No element is kept twice. */
  lemma {:induction false} DedupHasNoDuplicates<T(!new)>(p: seq<T>)
    ensures NoDuplicates(Dedup(p))
  {
    if p != [] {
      DedupHasNoDuplicates(p[..|p| - 1]);
    }
  }

  lemma DedupAppend<T(!new)>(p: seq<T>, x: T)
    ensures Dedup(p + [x]) == if x in Dedup(p) then Dedup(p) else Dedup(p) + [x]
  {
    assert (p + [x])[..|p|] == p;
  }

  /** The index where `x` first occurs in `p`. */
  function FirstIndex<T(==,!new)>(p: seq<T>, x: T): (k: nat)
    requires x in p
    ensures k < |p| && p[k] == x && x !in p[..k]
  {
    if p[0] == x then 0
    else
      var k := 1 + FirstIndex(p[1..], x);
      assert p[..k] == [p[0]] + p[1..][..k - 1];
      k
  }

  lemma FirstIndexInPrefix<T(!new)>(p: seq<T>, n: nat, x: T)
    requires n <= |p| && x in p[..n]
    ensures x in p && FirstIndex(p, x) == FirstIndex(p[..n], x)
  {
    var a, b := FirstIndex(p, x), FirstIndex(p[..n], x);
    assert p[b] == x;
    assert a <= b;
    assert p[..n][a] == x;
  }

  /** The elements of `r`, all taken from `p`, appear in the order in which
      they first occur in `p`. */
  predicate OrderedByFirstOccurrence<T(==,!new)>(p: seq<T>, r: seq<T>)
    requires forall x :: x in r ==> x in p
  {
    forall i, j :: 0 <= i < j < |r| ==> FirstIndex(p, r[i]) < FirstIndex(p, r[j])
  }

  /** The kept elements appear in the order of their first occurrences. */
  lemma {:induction false} DedupKeepsFirstOccurrenceOrder<T(!new)>(p: seq<T>)
    ensures OrderedByFirstOccurrence(p, Dedup(p))
  {
    if p != [] {
      var n := |p| - 1;
      DedupKeepsFirstOccurrenceOrder(p[..n]);
      forall i, j | 0 <= i < j < |Dedup(p)|
        ensures FirstIndex(p, Dedup(p)[i]) < FirstIndex(p, Dedup(p)[j])
      {
        DedupOrderStep(p, i, j);
      }
    }
  }

  /** One step of the induction above: the pair `i < j` of `Dedup(p)`. */
  lemma DedupOrderStep<T(!new)>(p: seq<T>, i: nat, j: nat)
    requires p != [] && i < j < |Dedup(p)|
    requires OrderedByFirstOccurrence(p[..|p| - 1], Dedup(p[..|p| - 1]))
    ensures FirstIndex(p, Dedup(p)[i]) < FirstIndex(p, Dedup(p)[j])
  {
    var n := |p| - 1;
    var q := p[..n];
    var d := Dedup(q);
    assert Dedup(p)[i] == d[i];
    FirstIndexInPrefix(p, n, d[i]);
    if j < |d| {
      assert Dedup(p)[j] == d[j];
      FirstIndexInPrefix(p, n, d[j]);
    } else {
      assert Dedup(p)[j] == p[n] && p[n] !in q;
      assert p[..n] == q;
    }
  }

  /** What `rule_based_reconstitution` returns. */
  datatype RulePreparation = RulePreparation(
    reconstitution: seq<VialVolume>,
    maxConcentrationMgMl: Option<real>,
    dilutionOnly: bool)

  /** `rule_based_reconstitution`: starts from an empty result, records the
      maximum concentration, appends each converted pair of the pooled matches
      unless already seen, and flags dilution only when no pair was found and
      the dilution pattern matched. */
  method RuleBasedReconstitution(m: PatternMatches) returns (result: RulePreparation)
    requires WellFormed(m)
    ensures result.reconstitution == Dedup(Pool(m))
    ensures result.maxConcentrationMgMl == LimitValue(m)
    ensures result.dilutionOnly <==> Pool(m) == [] && m.dilution
    ensures result.dilutionOnly ==> result.reconstitution == []
  {
    result := RulePreparation([], None, false);
    if m.limit.Some? {
      TokenIsFloat(m.limit.value);
      result := result.(maxConcentrationMgMl := Some(FloatValue(m.limit.value)));
    }
    var allPairs := m.vialColon + m.reconstitute + m.vialLoose;
    assert forall c :: c in allPairs ==> WellFormedCapture(c);
    // Every capture converts without error, so the pairs are converted up
    // front rather than one at a time inside the loop.
    var pool := Converted(allPairs);
    var recon: seq<VialVolume> := [];
    var seen: set<VialVolume> := {};
    var i := 0;
    while i < |pool|
      invariant 0 <= i <= |pool|
      invariant recon == Dedup(pool[..i])
      invariant forall x :: x in seen <==> x in recon
    {
      var pair := pool[i];
      assert pool[..i + 1] == pool[..i] + [pair];
      DedupAppend(pool[..i], pair);
      if pair !in seen {
        seen := seen + {pair};
        recon := recon + [pair];
      }
      i := i + 1;
    }
    assert pool[..i] == pool;
    result := result.(reconstitution := recon);
    if result.reconstitution == [] && m.dilution {
      result := result.(dilutionOnly := true);
    }
  }

  /** "1,000" is read as a 1000 mg vial. */
  lemma StripCommasOfThousand(vial: string)
    requires vial == "1,000"
    ensures StripCommas(vial) == "1000"
  {
    assert vial[1..] == ",000" && vial[1..][1..] == "000";
    assert StripCommas("000") == "000" by {
      assert "000"[1..] == "00" && "00"[1..] == "0" && "0"[1..] == [];
    }
  }

  lemma ValueOfThousand(d: string)
    requires d == "1000"
    ensures AllDigits(d) && DigitsValue(d) == 1000
  {
    assert d[..3] == "100" && "100"[..2] == "10" && "10"[..1] == "1" && "1"[..0] == [];
  }

  /** "1,000" is read as a 1000 mg vial. */
  lemma ThousandSeparatorStripped(vial: string)
    requires vial == "1,000"
    ensures WellFormedCapture(Capture(vial, "5"))
    ensures Convert(Capture(vial, "5")) == VialVolume(1000, 5.0)
  {
    StripCommasOfThousand(vial);
    ValueOfThousand("1000");
    assert DigitPrefix("5") == 1 && "5"[..1] == "5" && "5"[..0] == [];
  }
}
