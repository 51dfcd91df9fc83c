/** The preparation pipeline (`extract_reconstitution`,
    services/preparation_pipeline.py): the AI extraction is primary field by
    field and the rule-based extraction fills what it left empty. The AI
    extractor runs an external model; its already-parsed output is the input
    `ai`. */
module PreparationPipeline {
  import opened Wrappers
  import opened Preparation

  /** What `extract_reconstitution_ai` returns. */
  datatype AiHint = AiHint(reconstitution: seq<VialVolume>, maxConcentrationMgMl: Option<real>)

  /** What the AI extractor returns when the model fails or its output does
      not parse. */
  const AiFailure: AiHint := AiHint([], None)

  /** The two keys of the merged result. */
  datatype Merged = Merged(reconstitution: seq<VialVolume>, maxConcentrationMgMl: Option<real>)

  /** `extract_reconstitution`: starts from the AI output, replaces an empty
      list by the rule list and a missing concentration by the rule
      concentration; the rule's dilution flag is not carried over. */
  method ExtractReconstitution(ai: AiHint, m: PatternMatches) returns (merged: Merged)
    requires WellFormed(m)
    ensures ai.reconstitution != [] ==> merged.reconstitution == ai.reconstitution
    ensures ai.reconstitution == [] ==> merged.reconstitution == Dedup(Pool(m))
    ensures ai.maxConcentrationMgMl.Some? ==> merged.maxConcentrationMgMl == ai.maxConcentrationMgMl
    ensures ai.maxConcentrationMgMl.None? ==> merged.maxConcentrationMgMl == LimitValue(m)
    ensures ai == AiFailure ==>
      merged.reconstitution == Dedup(Pool(m)) && merged.maxConcentrationMgMl == LimitValue(m)
  {
    var rule := RuleBasedReconstitution(m);
    merged := Merged(ai.reconstitution, ai.maxConcentrationMgMl);
    if merged.reconstitution == [] {
      merged := merged.(reconstitution := rule.reconstitution);
    }
    if merged.maxConcentrationMgMl.None? {
      merged := merged.(maxConcentrationMgMl := rule.maxConcentrationMgMl);
    }
  }
}
