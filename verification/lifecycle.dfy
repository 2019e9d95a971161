/** Lifecycle pass-through (calculateLCM): each risk's exposure and critical phase, or null. */
module Lifecycle {
  import opened Wrappers
  import opened Constants

  /** One risk's lifecycle data; `None` stands for null. */
  datatype LcmEntry = LcmEntry(exposure: Option<int>, phase: Option<string>)

  /** calculateLCM: one entry per catalog risk, copying the supplied exposure and phase when present. */
  method CalculateLcm(exposure: map<string, int>, phaseCritical: map<string, string>)
    returns (result: map<string, LcmEntry>)
    ensures result.Keys == RiskCodes() && |result| == RiskCount
    ensures forall c :: c in result ==>
      (result[c].exposure.Some? <==> c in exposure) &&
      (result[c].exposure.Some? ==> result[c].exposure.value == exposure[c]) &&
      (result[c].phase.Some? <==> c in phaseCritical) &&
      (result[c].phase.Some? ==> result[c].phase.value == phaseCritical[c])
  {
    result := map[];
    var k := 0;
    while k < RiskCount
      invariant 0 <= k <= RiskCount
      invariant result.Keys == CodesBelow(k)
      invariant forall c :: c in result ==>
        result[c] == LcmEntry(Lookup(exposure, c), Lookup(phaseCritical, c))
    {
      var code := Code(k);
      result := result[code := LcmEntry(Lookup(exposure, code), Lookup(phaseCritical, code))];
      assert CodesBelow(k + 1) == CodesBelow(k) + {code};
      k := k + 1;
    }
    CodesBelowSize(RiskCount);
  }
}
