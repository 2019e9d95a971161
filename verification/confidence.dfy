/**
 * Confidence of a recommendation (determineConfidence): low when the
 * pairwise judgments are inconsistent, when too many assessment items were
 * answered "don't know", or when a key score is missing; moderate when the
 * share of "don't know" answers is between 20% and 40%; high otherwise.
 */
module Confidence {
  import opened Wrappers
  import opened Constants
  import opened Fahp
  import opened Pat

  /** Rendah (low), Sedang (moderate), Tinggi (high). */
  datatype Level = Rendah | Sedang | Tinggi

  function LevelRank(l: Level): nat {
    match l
    case Rendah => 0
    case Sedang => 1
    case Tinggi => 2
  }

  /**
   * Whether the floating-point ratio `count / total` exceeds `bound`: a zero
   * total gives Infinity (above any bound) for a positive count and NaN
   * (above nothing) for a zero count.
   */
  predicate Exceeds(count: nat, total: nat, bound: real) {
    if total == 0 then count > 0 else count as real / total as real > bound
  }

  /** One of the scores the recommendation rests on is missing. */
  predicate WeakData(t1: Tier1Scores, t2: Tier2Scores) {
    t1.control.None? || t1.verifiability.None? || t2.control.None? || t2.verifiability.None?
  }

  /** determineConfidence for risk `code`. */
  function DetermineConfidence(fahp: FahpResult, pat: PatResult, code: string): (l: Level)
    requires code in pat.tier1 && code in pat.tier2
    ensures !fahp.crPass ==> l == Rendah
    ensures WeakData(pat.tier1[code], pat.tier2[code]) ==> l == Rendah
    ensures Exceeds(pat.tier1[code].ttCount, pat.tier1[code].totalItems, 0.4) ==> l == Rendah
    ensures Exceeds(pat.tier2[code].ttCount, pat.tier2[code].totalItems, 0.4) ==> l == Rendah
    ensures l == Sedang <==>
      l != Rendah &&
      (Exceeds(pat.tier1[code].ttCount, pat.tier1[code].totalItems, 0.2) ||
       Exceeds(pat.tier2[code].ttCount, pat.tier2[code].totalItems, 0.2))
    ensures l == Tinggi ==>
      fahp.crPass && !WeakData(pat.tier1[code], pat.tier2[code]) &&
      !Exceeds(pat.tier1[code].ttCount, pat.tier1[code].totalItems, 0.2) &&
      !Exceeds(pat.tier2[code].ttCount, pat.tier2[code].totalItems, 0.2)
  {
    var t1 := pat.tier1[code];
    var t2 := pat.tier2[code];
    if !fahp.crPass || Exceeds(t1.ttCount, t1.totalItems, 0.4) || Exceeds(t2.ttCount, t2.totalItems, 0.4)
       || WeakData(t1, t2)
    then Rendah
    else if Exceeds(t1.ttCount, t1.totalItems, 0.2) || Exceeds(t2.ttCount, t2.totalItems, 0.2)
    then Sedang
    else Tinggi
  }

  /** Every risk's scores from the assessment cover the 12 tier-1 and the 8 tier-2 items. */
  lemma PatTotals(pat1Data: PatData, pat2Data: PatData, r: PatResult, code: string)
    requires Tier1Agrees(pat1Data, r.tier1) && Tier2Agrees(pat2Data, r.tier2)
    requires code in r.tier1 && code in r.tier2
    ensures r.tier1[code].totalItems == 12 && r.tier1[code].ttCount <= 12
    ensures r.tier2[code].totalItems == 8 && r.tier2[code].ttCount <= 8
  {
    assert r.tier1[code] == Tier1Of(AnswersFor(pat1Data, code));
    assert r.tier2[code] == Tier2Of(AnswersFor(pat2Data, code));
    Tier1Catalog();
    Tier2Catalog();
  }

  /**
   * With the assessment's item counts the thresholds are whole numbers of
   * "don't know" answers: more than 40% is 5 of 12 or 4 of 8, more than
   * 20% is 3 of 12 or 2 of 8.
   */
  lemma ConfidenceByCounts(fahp: FahpResult, pat: PatResult, code: string)
    requires code in pat.tier1 && code in pat.tier2
    requires pat.tier1[code].totalItems == 12 && pat.tier2[code].totalItems == 8
    ensures DetermineConfidence(fahp, pat, code) ==
      var n1 := pat.tier1[code].ttCount;
      var n2 := pat.tier2[code].ttCount;
      if !fahp.crPass || n1 >= 5 || n2 >= 4 || WeakData(pat.tier1[code], pat.tier2[code]) then Rendah
      else if n1 >= 3 || n2 >= 2 then Sedang
      else Tinggi
  {
    var n1 := pat.tier1[code].ttCount;
    var n2 := pat.tier2[code].ttCount;
    assert Exceeds(n1, 12, 0.4) <==> n1 >= 5;
    assert Exceeds(n2, 8, 0.4) <==> n2 >= 4;
    assert Exceeds(n1, 12, 0.2) <==> n1 >= 3;
    assert Exceeds(n2, 8, 0.2) <==> n2 >= 2;
  }

  lemma ExceedsMonotone(count: nat, count': nat, total: nat, bound: real)
    requires count <= count' && 0.0 <= bound
    ensures Exceeds(count, total, bound) ==> Exceeds(count', total, bound)
  {
    if total > 0 {
      assert count as real / total as real <= count' as real / total as real;
    }
  }

  /** More "don't know" answers, everything else equal, never raise the confidence. */
  lemma MoreUnknownsNeverRaise(fahp: FahpResult, pat: PatResult, pat': PatResult, code: string)
    requires code in pat.tier1 && code in pat.tier2 && code in pat'.tier1 && code in pat'.tier2
    requires pat'.tier1[code] == pat.tier1[code].(ttCount := pat'.tier1[code].ttCount)
    requires pat'.tier2[code] == pat.tier2[code].(ttCount := pat'.tier2[code].ttCount)
    requires pat.tier1[code].ttCount <= pat'.tier1[code].ttCount
    requires pat.tier2[code].ttCount <= pat'.tier2[code].ttCount
    ensures LevelRank(DetermineConfidence(fahp, pat', code)) <= LevelRank(DetermineConfidence(fahp, pat, code))
  {
    var t1, t2, u1, u2 := pat.tier1[code], pat.tier2[code], pat'.tier1[code], pat'.tier2[code];
    ExceedsMonotone(t1.ttCount, u1.ttCount, t1.totalItems, 0.4);
    ExceedsMonotone(t2.ttCount, u2.ttCount, t2.totalItems, 0.4);
    ExceedsMonotone(t1.ttCount, u1.ttCount, t1.totalItems, 0.2);
    ExceedsMonotone(t2.ttCount, u2.ttCount, t2.totalItems, 0.2);
  }

  /** A risk nobody answered any item for has no control score, so its confidence is low. */
  lemma UnansweredRiskIsLow(fahp: FahpResult, pat1Data: PatData, pat2Data: PatData, r: PatResult, code: string)
    requires Tier1Agrees(pat1Data, r.tier1) && Tier2Agrees(pat2Data, r.tier2)
    requires code in r.tier1 && code in r.tier2
    requires code !in pat1Data && code !in pat2Data
    ensures DetermineConfidence(fahp, r, code) == Rendah
  {
    assert r.tier1[code] == Tier1Of(AnswersFor(pat1Data, code));
    AbsentRisk(pat1Data, pat2Data, code);
  }

  /** A risk whose tier-1 items were all answered "don't know" gets low confidence. */
  lemma AllUnknownIsLow(fahp: FahpResult, pat1Data: PatData, r: PatResult, code: string)
    requires Tier1Agrees(pat1Data, r.tier1)
    requires code in r.tier1 && code in r.tier2
    requires forall k :: 0 <= k < |Pat1Items| ==> IsUnknown(AnswersFor(pat1Data, code), Pat1Items[k].code)
    ensures DetermineConfidence(fahp, r, code) == Rendah
  {
    assert r.tier1[code] == Tier1Of(AnswersFor(pat1Data, code));
    Tier1AllUnknown(AnswersFor(pat1Data, code));
  }
}
