/**
 * Allocation rules (determineAllocation, deriveMitigationControls): a
 * two-tier recommendation of who carries a risk, from the construct scores.
 *
 * The rules are stated twice: as ordered first-match decision tables (the
 * reference definition) and as the if-chain of the engine (a method), and
 * the two are proved to agree.  Scores are compared the way JavaScript
 * compares `number | null`: a null score counts as 0.
 */
module Allocation {
  import opened Wrappers
  import opened Pat

  /** The value a JavaScript relational operator sees: null is coerced to 0. */
  function Num(x: Option<real>): (r: real)
    ensures x.Some? ==> r == x.value
    ensures x.None? ==> r == 0.0
  {
    x.GetOr(0.0)
  }

  /** The parties a tier can be allocated to ("N/A" for tier-2 under public lead). */
  datatype Party = BuSpv | PublikPdam | Shared | EpcOm | BuSpvRetain | NotApplicable

  /** The rationale attached to each outcome (the localised texts are not modelled). */
  datatype Reason =
    | ControlAdequate   // control high, verifiability and incentives adequate
    | LowControl        // private control low, government retains
    | HighExternality   // externality at least 4, external factors dominate
    | SplitControl      // control shared, verifiability moderate
    | PublicLead        // tier-2 not applied under public lead
    | TransferViable    // control and verifiability high, transfer is viable
    | ShareWithSpv      // moderate, shared with the delivery vehicle
    | SpvRetains        // low, the delivery vehicle retains

  datatype Decision = Decision(party: Party, reason: Reason)

  /** The supplementary controls, declared in the order they are appended. */
  datatype Mitigation =
    | TechnicalKpi | MilestoneReadiness | AuditAccess
    | ThirdPartyVerification | PerformanceBond | MilestonePayment | DefectLiability

  datatype Tier2Decision = Tier2Decision(party: Party, reason: Reason, mitigationControls: seq<Mitigation>)

  datatype AllocationResult = AllocationResult(tier1: Decision, tier2: Tier2Decision)

  // ---------------------------------------------------------------------
  // Reference definition: ordered decision tables
  // ---------------------------------------------------------------------

  /** One row of a decision table: a guard and the outcome it selects. */
  datatype Rule<-T> = Rule(guard: T -> bool, outcome: Decision)

  /** Rule `i` is the first rule whose guard holds for `x`. */
  predicate FirstHolding<T>(rules: seq<Rule<T>>, x: T, i: int) {
    0 <= i < |rules| && rules[i].guard(x) && forall k :: 0 <= k < i ==> !rules[k].guard(x)
  }

  /** `d` is the outcome of the first rule whose guard holds, or `otherwise` when none holds. */
  predicate SelectsFirst<T>(rules: seq<Rule<T>>, x: T, otherwise: Decision, d: Decision) {
    (exists i :: 0 <= i < |rules| && FirstHolding(rules, x, i) && d == rules[i].outcome)
    || ((forall k :: 0 <= k < |rules| ==> !rules[k].guard(x)) && d == otherwise)
  }

  /** The outcome of the first rule whose guard holds, or `otherwise` when none holds. */
  function FirstMatch<T>(rules: seq<Rule<T>>, x: T, otherwise: Decision): (d: Decision)
    ensures SelectsFirst(rules, x, otherwise, d)
  {
    if rules == [] then otherwise
    else if rules[0].guard(x) then
      assert FirstHolding(rules, x, 0);
      rules[0].outcome
    else
      var d := FirstMatch(rules[1..], x, otherwise);
      SelectsFirstPast(rules, x, otherwise, d);
      d
  }

  /** A rule whose guard fails can be skipped: first-match over the rest is first-match over all. */
  lemma SelectsFirstPast<T>(rules: seq<Rule<T>>, x: T, otherwise: Decision, d: Decision)
    requires rules != [] && !rules[0].guard(x)
    requires SelectsFirst(rules[1..], x, otherwise, d)
    ensures SelectsFirst(rules, x, otherwise, d)
  {
    if i :| 0 <= i < |rules[1..]| && FirstHolding(rules[1..], x, i) && d == rules[1..][i].outcome {
      assert FirstHolding(rules, x, i + 1);
    } else {
      forall k | 0 <= k < |rules|
        ensures !rules[k].guard(x)
      {
        if k > 0 {
          assert rules[k] == rules[1..][k - 1];
        }
      }
    }
  }

  predicate Tier1Transfers(t1: Tier1Scores) {
    Num(t1.control) >= 4.0 && Num(t1.verifiability) >= 3.0 && Num(t1.incentives) >= 3.0 && Num(t1.externality) <= 3.0
  }

  /** Tier-1 table; the control rule precedes the externality rule, which fixes the reason. */
  const Tier1Table: seq<Rule<Tier1Scores>> := [
    Rule(Tier1Transfers, Decision(BuSpv, ControlAdequate)),
    Rule((t1: Tier1Scores) => Num(t1.control) < 3.0, Decision(PublikPdam, LowControl)),
    Rule((t1: Tier1Scores) => Num(t1.externality) >= 4.0, Decision(PublikPdam, HighExternality))
  ]

  const Tier1Otherwise: Decision := Decision(Shared, SplitControl)

  /** Tier-2 table, used when tier-1 is not public-led. */
  const Tier2Table: seq<Rule<Tier2Scores>> := [
    Rule((t2: Tier2Scores) => Num(t2.control) >= 4.0 && Num(t2.verifiability) >= 4.0, Decision(EpcOm, TransferViable)),
    Rule((t2: Tier2Scores) => Num(t2.control) >= 3.0 && Num(t2.verifiability) >= 3.0, Decision(Shared, ShareWithSpv))
  ]

  const Tier2Otherwise: Decision := Decision(BuSpvRetain, SpvRetains)

  /** Position of a control in the order the engine appends them. */
  function Rank(m: Mitigation): nat {
    match m
    case TechnicalKpi => 0
    case MilestoneReadiness => 1
    case AuditAccess => 2
    case ThirdPartyVerification => 3
    case PerformanceBond => 4
    case MilestonePayment => 5
    case DefectLiability => 6
  }

  /** How many of the three score-dependent controls apply. */
  function Triggered(t2: Tier2Scores): nat {
    (if Num(t2.verifiability) < 3.5 then 1 else 0) +
    (if Num(t2.control) >= 3.0 then 1 else 0) +
    (if Num(t2.incentives) < 3.5 then 1 else 0)
  }

  /** The first `n` elements, or all of them (Array.prototype.slice(0, n)). */
  function Take<T>(s: seq<T>, n: nat): (r: seq<T>)
    ensures |r| == if |s| <= n then |s| else n
    ensures r == s[..|r|]
  {
    if |s| <= n then s else s[..n]
  }

  const FixedControls: seq<Mitigation> := [TechnicalKpi, MilestoneReadiness, AuditAccess]

  /**
   * The mitigation list for a public-led risk: the three fixed controls,
   * the applicable score-dependent ones, then the defect-liability period
   * when room is left under the cap of five.
   */
  function MitigationList(t2: Tier2Scores): seq<Mitigation> {
    Take(Appended(t2), 5)
  }

  /** The controls before the cap: fixed, score-dependent, defect liability. */
  function Appended(t2: Tier2Scores): seq<Mitigation> {
    FixedControls
      + (if Num(t2.verifiability) < 3.5 then [ThirdPartyVerification] else [])
      + (if Num(t2.control) >= 3.0 then [PerformanceBond] else [])
      + (if Num(t2.incentives) < 3.5 then [MilestonePayment] else [])
      + [DefectLiability]
  }

  /**
   * What the mitigation list holds: the three fixed controls first, each
   * score-dependent control exactly when its condition holds, the
   * defect-liability period exactly when at most one of them applies, four
   * or five entries in all, in the engine's order.
   */
  predicate MitigationShape(t2: Tier2Scores, r: seq<Mitigation>) {
    && 4 <= |r| <= 5 && r[..3] == FixedControls
    && (ThirdPartyVerification in r <==> Num(t2.verifiability) < 3.5)
    && (PerformanceBond in r <==> Num(t2.control) >= 3.0)
    && (MilestonePayment in r <==> Num(t2.incentives) < 3.5 && !(Num(t2.verifiability) < 3.5 && Num(t2.control) >= 3.0))
    && (DefectLiability in r <==> Triggered(t2) <= 1)
    && forall i, j :: 0 <= i < j < |r| ==> Rank(r[i]) < Rank(r[j])
  }

  lemma MitigationListShape(t2: Tier2Scores)
    ensures MitigationShape(t2, MitigationList(t2))
  {
    if Num(t2.verifiability) < 3.5 {
      WeakVerifiabilityShape(t2);
    } else {
      StrongVerifiabilityShape(t2);
    }
  }

  /** The four lists possible when third-party verification is called for. */
  lemma WeakVerifiabilityShape(t2: Tier2Scores)
    requires Num(t2.verifiability) < 3.5
    ensures MitigationShape(t2, MitigationList(t2))
  {
    var c := Num(t2.control) >= 3.0;
    var i := Num(t2.incentives) < 3.5;
    var r := MitigationList(t2);
    if c {
      assert r == [TechnicalKpi, MilestoneReadiness, AuditAccess, ThirdPartyVerification, PerformanceBond];
    } else if i {
      assert r == [TechnicalKpi, MilestoneReadiness, AuditAccess, ThirdPartyVerification, MilestonePayment];
    } else {
      assert r == [TechnicalKpi, MilestoneReadiness, AuditAccess, ThirdPartyVerification, DefectLiability];
    }
  }

  /** The four lists possible when verifiability is adequate. */
  lemma StrongVerifiabilityShape(t2: Tier2Scores)
    requires !(Num(t2.verifiability) < 3.5)
    ensures MitigationShape(t2, MitigationList(t2))
  {
    var c := Num(t2.control) >= 3.0;
    var i := Num(t2.incentives) < 3.5;
    var r := MitigationList(t2);
    if c && i {
      assert r == [TechnicalKpi, MilestoneReadiness, AuditAccess, PerformanceBond, MilestonePayment];
    } else if c {
      assert r == [TechnicalKpi, MilestoneReadiness, AuditAccess, PerformanceBond, DefectLiability];
    } else if i {
      assert r == [TechnicalKpi, MilestoneReadiness, AuditAccess, MilestonePayment, DefectLiability];
    } else {
      assert r == [TechnicalKpi, MilestoneReadiness, AuditAccess, DefectLiability];
    }
  }

  /** The allocation the decision tables prescribe for one risk's scores. */
  function AllocationOf(t1: Tier1Scores, t2: Tier2Scores): AllocationResult {
    var d1 := FirstMatch(Tier1Table, t1, Tier1Otherwise);
    if d1.party == PublikPdam then
      AllocationResult(d1, Tier2Decision(NotApplicable, PublicLead, MitigationList(t2)))
    else
      var d2 := FirstMatch(Tier2Table, t2, Tier2Otherwise);
      AllocationResult(d1, Tier2Decision(d2.party, d2.reason, []))
  }

  // ---------------------------------------------------------------------
  // The engine's procedure
  // ---------------------------------------------------------------------

  /** deriveMitigationControls: appends the controls one by one, then keeps the first five. */
  method DeriveMitigationControls(t2: Tier2Scores) returns (controls: seq<Mitigation>)
    ensures controls == MitigationList(t2)
    ensures MitigationShape(t2, controls)
  {
    controls := [];
    controls := controls + [TechnicalKpi];
    controls := controls + [MilestoneReadiness];
    controls := controls + [AuditAccess];
    if Num(t2.verifiability) < 3.5 {
      controls := controls + [ThirdPartyVerification];
    }
    if Num(t2.control) >= 3.0 {
      controls := controls + [PerformanceBond];
    }
    if Num(t2.incentives) < 3.5 {
      controls := controls + [MilestonePayment];
    }
    controls := controls + [DefectLiability];
    assert controls == Appended(t2);
    if |controls| > 5 {
      controls := controls[..5];
    }
    MitigationListShape(t2);
  }

  /** determineAllocation: the engine's if-chain; it agrees with the decision tables. */
  method DetermineAllocation(pat: PatResult, code: string) returns (r: AllocationResult)
    requires code in pat.tier1 && code in pat.tier2
    ensures r == AllocationOf(pat.tier1[code], pat.tier2[code])
  {
    var t1 := pat.tier1[code];
    var t2 := pat.tier2[code];
    Tier1Outcome(t1);
    Tier2Outcome(t2);

    var tier1Alloc := Shared;
    var tier1Reason := SplitControl;
    if Num(t1.control) >= 4.0 && Num(t1.verifiability) >= 3.0 && Num(t1.incentives) >= 3.0 && Num(t1.externality) <= 3.0 {
      tier1Alloc := BuSpv;
      tier1Reason := ControlAdequate;
    } else if Num(t1.externality) >= 4.0 || Num(t1.control) < 3.0 {
      if Num(t1.control) < 3.0 {
        tier1Alloc := PublikPdam;
        tier1Reason := LowControl;
      } else {
        tier1Alloc := PublikPdam;
        tier1Reason := HighExternality;
      }
    }

    var tier2Alloc: Party;
    var tier2Reason: Reason;
    var mitigationControls: seq<Mitigation> := [];
    if tier1Alloc == PublikPdam {
      tier2Alloc := NotApplicable;
      tier2Reason := PublicLead;
      mitigationControls := DeriveMitigationControls(t2);
    } else if Num(t2.control) >= 4.0 && Num(t2.verifiability) >= 4.0 {
      tier2Alloc := EpcOm;
      tier2Reason := TransferViable;
    } else if Num(t2.control) >= 3.0 && Num(t2.verifiability) >= 3.0 {
      tier2Alloc := Shared;
      tier2Reason := ShareWithSpv;
    } else {
      tier2Alloc := BuSpvRetain;
      tier2Reason := SpvRetains;
    }

    r := AllocationResult(Decision(tier1Alloc, tier1Reason), Tier2Decision(tier2Alloc, tier2Reason, mitigationControls));
  }

  // ---------------------------------------------------------------------
  // What the tables decide
  // ---------------------------------------------------------------------

  /** The tier-1 table, evaluated. */
  lemma Tier1Outcome(t1: Tier1Scores)
    ensures FirstMatch(Tier1Table, t1, Tier1Otherwise) ==
      if Tier1Transfers(t1) then Decision(BuSpv, ControlAdequate)
      else if Num(t1.control) < 3.0 then Decision(PublikPdam, LowControl)
      else if Num(t1.externality) >= 4.0 then Decision(PublikPdam, HighExternality)
      else Tier1Otherwise
  {
    var x := FirstMatch(Tier1Table[2..], t1, Tier1Otherwise);
    assert Tier1Table[2..][1..] == [];
    var y := FirstMatch(Tier1Table[1..], t1, Tier1Otherwise);
    assert Tier1Table[1..][1..] == Tier1Table[2..];
  }

  /** The tier-2 table, evaluated. */
  lemma Tier2Outcome(t2: Tier2Scores)
    ensures FirstMatch(Tier2Table, t2, Tier2Otherwise) ==
      if Num(t2.control) >= 4.0 && Num(t2.verifiability) >= 4.0 then Decision(EpcOm, TransferViable)
      else if Num(t2.control) >= 3.0 && Num(t2.verifiability) >= 3.0 then Decision(Shared, ShareWithSpv)
      else Tier2Otherwise
  {
    assert Tier2Table[1..][1..] == [];
  }

  /** Tier-1 goes to the delivery vehicle exactly when control is high and the other signals adequate. */
  lemma Tier1PrivateIff(t1: Tier1Scores, t2: Tier2Scores)
    ensures AllocationOf(t1, t2).tier1.party == BuSpv <==>
      Num(t1.control) >= 4.0 && Num(t1.verifiability) >= 3.0 && Num(t1.incentives) >= 3.0 && Num(t1.externality) <= 3.0
  {
    Tier1Outcome(t1);
  }

  /**
   * Otherwise tier-1 is public-led exactly when externality is at least 4
   * or control is below 3; low control takes precedence as the reason.
   */
  lemma Tier1PublicIff(t1: Tier1Scores, t2: Tier2Scores)
    ensures AllocationOf(t1, t2).tier1.party == PublikPdam <==>
      !Tier1Transfers(t1) && (Num(t1.externality) >= 4.0 || Num(t1.control) < 3.0)
    ensures AllocationOf(t1, t2).tier1.reason == LowControl <==> Num(t1.control) < 3.0
    ensures AllocationOf(t1, t2).tier1.reason == HighExternality <==>
      !Tier1Transfers(t1) && Num(t1.control) >= 3.0 && Num(t1.externality) >= 4.0
  {
    Tier1Outcome(t1);
  }

  /** In every remaining case tier-1 is shared. */
  lemma Tier1SharedIff(t1: Tier1Scores, t2: Tier2Scores)
    ensures AllocationOf(t1, t2).tier1 == Decision(Shared, SplitControl) <==>
      !Tier1Transfers(t1) && Num(t1.externality) < 4.0 && Num(t1.control) >= 3.0
  {
    Tier1Outcome(t1);
  }

  /** Tier-2 is "N/A" exactly when tier-1 is public-led, and only then are mitigation controls listed. */
  lemma Tier2NotApplicableIff(t1: Tier1Scores, t2: Tier2Scores)
    ensures AllocationOf(t1, t2).tier2.party == NotApplicable <==> AllocationOf(t1, t2).tier1.party == PublikPdam
    ensures AllocationOf(t1, t2).tier2.mitigationControls != [] <==> AllocationOf(t1, t2).tier1.party == PublikPdam
    ensures AllocationOf(t1, t2).tier1.party == PublikPdam ==>
      AllocationOf(t1, t2).tier2.mitigationControls == MitigationList(t2)
  {
    Tier1Outcome(t1);
    Tier2Outcome(t2);
  }

  /** When tier-1 is not public-led, tier-2 follows its own table. */
  lemma Tier2FollowsTable(t1: Tier1Scores, t2: Tier2Scores)
    requires AllocationOf(t1, t2).tier1.party != PublikPdam
    ensures AllocationOf(t1, t2).tier2.party == EpcOm <==> Num(t2.control) >= 4.0 && Num(t2.verifiability) >= 4.0
    ensures AllocationOf(t1, t2).tier2.party == Shared <==>
      !(Num(t2.control) >= 4.0 && Num(t2.verifiability) >= 4.0) && Num(t2.control) >= 3.0 && Num(t2.verifiability) >= 3.0
    ensures AllocationOf(t1, t2).tier2.party == BuSpvRetain <==> Num(t2.control) < 3.0 || Num(t2.verifiability) < 3.0
  {
    Tier2Outcome(t2);
  }

  /** A null tier-1 Control is read as 0, so the risk always stays with the public party. */
  lemma NullControlIsPublic(t1: Tier1Scores, t2: Tier2Scores)
    requires t1.control.None?
    ensures AllocationOf(t1, t2).tier1 == Decision(PublikPdam, LowControl)
  {
    Tier1Outcome(t1);
  }

  /** A null raw Externality is read as 0 and passes the `<= 3` test of the transfer rule. */
  lemma NullExternalityPasses(t1: Tier1Scores, t2: Tier2Scores)
    requires t1.externality.None?
    requires Num(t1.control) >= 4.0 && Num(t1.verifiability) >= 3.0 && Num(t1.incentives) >= 3.0
    ensures AllocationOf(t1, t2).tier1.party == BuSpv
  {
    Tier1Outcome(t1);
  }
}
