/**
 * Governance locks (determineGovernanceLocks): contractual and
 * institutional safeguards recommended alongside an allocation.  Clauses
 * are appended block by block, a fallback block is added when fewer than
 * three were appended, duplicates are dropped keeping first occurrences (the
 * iteration order of a JavaScript Set) and at most six are kept.
 */
module Governance {
  import opened Wrappers
  import opened Pat
  import opened Allocation

  /** The clauses; the localised texts are not modelled, only identity and order. */
  datatype Lock =
    // public retention (tier-1 public-led)
    | Compensation | RiskReserve | ForceMajeure | PeriodicReview
    | MonitoringDashboard | PerformanceFramework
    // shared responsibility
    | InterfaceCharter | AgreedKpi | AuditTrail
    // private delivery, weak verifiability or incentives
    | IndependentVerification | KpiDefinition | PaymentHoldback | IncentiveMechanism
    // dual role of the respondent's organisation
    | RoleSeparation | IndependentApproval
    // fallback (shares AuditTrail with the shared block)
    | KpiDataDefinition | EscalationDispute

  const PublicCore: seq<Lock> := [Compensation, RiskReserve, ForceMajeure, PeriodicReview]
  const SharedLocks: seq<Lock> := [InterfaceCharter, AgreedKpi, AuditTrail]
  const DualRoleLocks: seq<Lock> := [RoleSeparation, IndependentApproval]
  const FallbackLocks: seq<Lock> := [KpiDataDefinition, AuditTrail, EscalationDispute]

  const MaxLocks: nat := 6

  predicate NoDup(s: seq<Lock>) {
    forall i, j :: 0 <= i < j < |s| ==> s[i] != s[j]
  }

  // ---------------------------------------------------------------------
  // Order-preserving de-duplication
  // ---------------------------------------------------------------------

  /** The distinct elements of the first `n` elements of `s`, in order of first occurrence. */
  function FirstOccurrences(s: seq<Lock>, n: nat): (d: seq<Lock>)
    requires n <= |s|
    ensures |d| <= n
  {
    if n == 0 then []
    else
      var d := FirstOccurrences(s, n - 1);
      if s[n - 1] in d then d else d + [s[n - 1]]
  }

  /** The position of the first occurrence of `x` in `s`. */
  function FirstIndex(s: seq<Lock>, x: Lock): (i: nat)
    requires x in s
    ensures i < |s| && s[i] == x
    ensures forall j :: 0 <= j < i ==> s[j] != x
  {
    if s[0] == x then 0 else 1 + FirstIndex(s[1..], x)
  }

  /** De-duplication keeps exactly the elements that occur. */
  lemma {:induction false} FirstOccurrencesElements(s: seq<Lock>, n: nat)
    requires n <= |s|
    ensures forall x :: x in FirstOccurrences(s, n) <==> x in s[..n]
  {
    if n > 0 {
      FirstOccurrencesElements(s, n - 1);
      assert s[..n] == s[..n - 1] + [s[n - 1]];
    }
  }

  /** De-duplication leaves no duplicates. */
  lemma {:induction false} FirstOccurrencesNoDup(s: seq<Lock>, n: nat)
    requires n <= |s|
    ensures NoDup(FirstOccurrences(s, n))
  {
    if n > 0 {
      FirstOccurrencesNoDup(s, n - 1);
    }
  }

  /** An element not seen before position `k` first occurs at `k`. */
  lemma FirstIndexAt(s: seq<Lock>, k: nat)
    requires k < |s| && s[k] !in s[..k]
    ensures FirstIndex(s, s[k]) == k
  {
    forall j | 0 <= j < k
      ensures s[j] != s[k]
    {
      assert s[..k][j] == s[j];
    }
  }

  /** An element seen before position `k` first occurs before `k`. */
  lemma FirstIndexBefore(s: seq<Lock>, k: nat, x: Lock)
    requires k <= |s| && x in s[..k]
    ensures x in s && FirstIndex(s, x) < k
  {
    var i :| 0 <= i < k && s[..k][i] == x;
    assert s[i] == x;
  }

  /** `x` and `y` both occur in `s`, and `x` occurs first. */
  predicate FirstBefore(s: seq<Lock>, x: Lock, y: Lock) {
    x in s && y in s && FirstIndex(s, x) < FirstIndex(s, y)
  }

  /** Each element of `d` occurs in `s`, and they first occur in `s` in the order of `d`. */
  predicate InFirstOccurrenceOrder(s: seq<Lock>, d: seq<Lock>) {
    forall i, j :: 0 <= i < j < |d| ==> FirstBefore(s, d[i], d[j])
  }

  /** De-duplication keeps the order of first occurrences. */
  lemma {:induction false} FirstOccurrencesOrdered(s: seq<Lock>, n: nat)
    requires n <= |s|
    ensures InFirstOccurrenceOrder(s, FirstOccurrences(s, n))
  {
    if n > 0 {
      var d := FirstOccurrences(s, n - 1);
      var x := s[n - 1];
      FirstOccurrencesOrdered(s, n - 1);
      if x !in d {
        FirstOccurrencesElements(s, n - 1);
        FirstIndexAt(s, n - 1);
        var e := d + [x];
        forall i, j | 0 <= i < j < |e|
          ensures FirstBefore(s, e[i], e[j])
        {
          assert e[i] == d[i];
          if j == |d| {
            assert d[i] in d;
            FirstIndexBefore(s, n - 1, d[i]);
          } else {
            assert e[j] == d[j];
          }
        }
        assert InFirstOccurrenceOrder(s, e);
        assert FirstOccurrences(s, n) == e;
      } else {
        assert FirstOccurrences(s, n) == d;
      }
    }
  }

  lemma DistinctNotInPrefix(s: seq<Lock>, k: nat)
    requires NoDup(s) && k < |s|
    ensures s[k] !in s[..k]
  {
    forall x | x in s[..k]
      ensures x != s[k]
    {
      var i :| 0 <= i < k && s[..k][i] == x;
      assert s[i] == x;
    }
  }

  /** A sequence without duplicates is left as it is. */
  lemma {:induction false} FirstOccurrencesOfDistinct(s: seq<Lock>, n: nat)
    requires n <= |s| && NoDup(s)
    ensures FirstOccurrences(s, n) == s[..n]
  {
    if n > 0 {
      FirstOccurrencesOfDistinct(s, n - 1);
      DistinctNotInPrefix(s, n - 1);
      assert s[..n] == s[..n - 1] + [s[n - 1]];
    }
  }

  /** `[...new Set(raw)]`: the distinct clauses of `raw`, in order of first occurrence. */
  method Deduplicate(raw: seq<Lock>) returns (unique: seq<Lock>)
    ensures unique == FirstOccurrences(raw, |raw|)
    ensures NoDup(unique) && forall x :: x in unique <==> x in raw
    ensures InFirstOccurrenceOrder(raw, unique)
  {
    unique := [];
    var k := 0;
    while k < |raw|
      invariant 0 <= k <= |raw|
      invariant unique == FirstOccurrences(raw, k)
    {
      if raw[k] !in unique {
        unique := unique + [raw[k]];
      }
      k := k + 1;
    }
    DeduplicationContract(raw);
  }

  // ---------------------------------------------------------------------
  // The clause blocks
  // ---------------------------------------------------------------------

  /** Public retention clauses: four fixed ones, then dashboard and performance framework when weak. */
  function PublicLocks(t1: Tier1Scores): seq<Lock> {
    PublicCore
      + (if Num(t1.verifiability) < 3.5 then [MonitoringDashboard] else [])
      + (if Num(t1.incentives) < 3.5 then [PerformanceFramework] else [])
  }

  /** Private delivery clauses when either tier's verifiability or incentives are weak. */
  function PrivateLocks(t1: Tier1Scores, t2: Tier2Scores): seq<Lock> {
    (if Num(t1.verifiability) < 3.5 || Num(t2.verifiability) < 3.5 then [IndependentVerification, KpiDefinition] else [])
      + (if Num(t1.incentives) < 3.5 || Num(t2.incentives) < 3.5 then [PaymentHoldback, IncentiveMechanism] else [])
  }

  /** The clauses appended before the fallback. */
  function Blocks(alloc: AllocationResult, t1: Tier1Scores, t2: Tier2Scores, dualRole: bool): seq<Lock> {
    var govLead := alloc.tier1.party == PublikPdam;
    (if govLead then PublicLocks(t1) else [])
      + (if alloc.tier1.party == Shared || alloc.tier2.party == Shared then SharedLocks else [])
      + (if !govLead then PrivateLocks(t1, t2) else [])
      + (if dualRole then DualRoleLocks else [])
  }

  /** Every clause appended, fallback included. */
  function AppendedLocks(alloc: AllocationResult, t1: Tier1Scores, t2: Tier2Scores, dualRole: bool): seq<Lock> {
    var b := Blocks(alloc, t1, t2, dualRole);
    if |b| < 3 then b + FallbackLocks else b
  }

  /** The recommended clauses: de-duplicated, at most six. */
  function GovernanceLocks(alloc: AllocationResult, t1: Tier1Scores, t2: Tier2Scores, dualRole: bool): seq<Lock> {
    var raw := AppendedLocks(alloc, t1, t2, dualRole);
    Take(FirstOccurrences(raw, |raw|), MaxLocks)
  }

  // ---------------------------------------------------------------------
  // The engine's procedure
  // ---------------------------------------------------------------------

  /** The appending phase of determineGovernanceLocks, block by block. */
  method AppendBlocks(alloc: AllocationResult, t1: Tier1Scores, t2: Tier2Scores, dualRole: bool)
    returns (raw: seq<Lock>)
    ensures raw == Blocks(alloc, t1, t2, dualRole)
  {
    var isGovLead := alloc.tier1.party == PublikPdam;
    raw := [];
    if isGovLead {
      raw := raw + PublicCore;
      if Num(t1.verifiability) < 3.5 {
        raw := raw + [MonitoringDashboard];
      }
      if Num(t1.incentives) < 3.5 {
        raw := raw + [PerformanceFramework];
      }
    }
    ghost var afterPublic := raw;
    assert afterPublic == if isGovLead then PublicLocks(t1) else [];
    if alloc.tier1.party == Shared || alloc.tier2.party == Shared {
      raw := raw + SharedLocks;
    }
    ghost var afterShared := raw;
    if !isGovLead {
      if Num(t1.verifiability) < 3.5 || Num(t2.verifiability) < 3.5 {
        raw := raw + [IndependentVerification, KpiDefinition];
      }
      if Num(t1.incentives) < 3.5 || Num(t2.incentives) < 3.5 {
        raw := raw + [PaymentHoldback, IncentiveMechanism];
      }
    }
    assert raw == afterShared + if !isGovLead then PrivateLocks(t1, t2) else [];
    ghost var afterPrivate := raw;
    if dualRole {
      raw := raw + DualRoleLocks;
    }
    assert raw == afterPrivate + if dualRole then DualRoleLocks else [];
  }

  /** determineGovernanceLocks: appends the blocks, the fallback if short, then de-duplicates and caps. */
  method DetermineGovernanceLocks(alloc: AllocationResult, pat: PatResult, code: string, dualRole: bool)
    returns (locks: seq<Lock>)
    requires code in pat.tier1 && code in pat.tier2
    ensures locks == GovernanceLocks(alloc, pat.tier1[code], pat.tier2[code], dualRole)
    ensures NoDup(locks) && 3 <= |locks| <= MaxLocks
    ensures alloc.tier1.party == PublikPdam ==> |locks| >= 4 && locks[..4] == PublicCore
  {
    var t1 := pat.tier1[code];
    var t2 := pat.tier2[code];
    var raw := AppendBlocks(alloc, t1, t2, dualRole);
    if |raw| < 3 {
      raw := raw + FallbackLocks;
    }
    assert raw == AppendedLocks(alloc, t1, t2, dualRole);

    var unique := Deduplicate(raw);
    locks := Take(unique, MaxLocks);
    GovernanceLocksShape(alloc, t1, t2, dualRole);
  }

  // ---------------------------------------------------------------------
  // Properties
  // ---------------------------------------------------------------------

  /** Which block a clause belongs to; AuditTrail counts as shared. */
  function BlockOf(l: Lock): nat {
    match l
    case Compensation | RiskReserve | ForceMajeure | PeriodicReview | MonitoringDashboard | PerformanceFramework => 0
    case InterfaceCharter | AgreedKpi | AuditTrail => 1
    case IndependentVerification | KpiDefinition | PaymentHoldback | IncentiveMechanism => 2
    case RoleSeparation | IndependentApproval => 3
    case KpiDataDefinition | EscalationDispute => 4
  }

  lemma NoDupConcat(a: seq<Lock>, b: seq<Lock>)
    requires NoDup(a) && NoDup(b)
    requires forall x :: x in a ==> x !in b
    ensures NoDup(a + b)
  {
    forall i, j | 0 <= i < j < |a + b|
      ensures (a + b)[i] != (a + b)[j]
    {
      if j >= |a| && i < |a| {
        assert (a + b)[i] in a && (a + b)[j] == b[j - |a|];
      }
    }
  }

  lemma PublicLocksDistinct(t1: Tier1Scores)
    ensures NoDup(PublicLocks(t1))
    ensures forall x :: x in PublicLocks(t1) ==> BlockOf(x) == 0
  {
  }

  lemma PrivateLocksDistinct(t1: Tier1Scores, t2: Tier2Scores)
    ensures NoDup(PrivateLocks(t1, t2))
    ensures forall x :: x in PrivateLocks(t1, t2) ==> BlockOf(x) == 2
  {
  }

  lemma FixedBlocksDistinct()
    ensures NoDup(SharedLocks) && forall x :: x in SharedLocks ==> BlockOf(x) == 1
    ensures NoDup(DualRoleLocks) && forall x :: x in DualRoleLocks ==> BlockOf(x) == 3
    ensures NoDup(FallbackLocks) && forall x :: x in FallbackLocks ==> BlockOf(x) == 1 || BlockOf(x) == 4
  {
  }

  /** The clauses appended before the fallback are pairwise distinct, and each block keeps to its own clauses. */
  lemma BlocksDistinct(alloc: AllocationResult, t1: Tier1Scores, t2: Tier2Scores, dualRole: bool)
    ensures NoDup(Blocks(alloc, t1, t2, dualRole))
    ensures forall x :: x in Blocks(alloc, t1, t2, dualRole) ==> BlockOf(x) < 4
    ensures alloc.tier1.party != Shared && alloc.tier2.party != Shared ==>
      forall x :: x in Blocks(alloc, t1, t2, dualRole) ==> BlockOf(x) != 1
  {
    var govLead := alloc.tier1.party == PublikPdam;
    var p := if govLead then PublicLocks(t1) else [];
    var s := if alloc.tier1.party == Shared || alloc.tier2.party == Shared then SharedLocks else [];
    var q := if !govLead then PrivateLocks(t1, t2) else [];
    var r := if dualRole then DualRoleLocks else [];
    PublicLocksDistinct(t1);
    PrivateLocksDistinct(t1, t2);
    FixedBlocksDistinct();
    NoDupConcat(p, s);
    NoDupConcat(p + s, q);
    NoDupConcat(p + s + q, r);
    assert Blocks(alloc, t1, t2, dualRole) == p + s + q + r;
  }

  /**
   * Every appended clause is distinct: the fallback, which repeats
   * AuditTrail, is only added when the shared block is absent.
   */
  lemma AppendedDistinct(alloc: AllocationResult, t1: Tier1Scores, t2: Tier2Scores, dualRole: bool)
    ensures NoDup(AppendedLocks(alloc, t1, t2, dualRole))
    ensures |AppendedLocks(alloc, t1, t2, dualRole)| >= 3
  {
    var b := Blocks(alloc, t1, t2, dualRole);
    BlocksDistinct(alloc, t1, t2, dualRole);
    if |b| < 3 {
      assert alloc.tier1.party != Shared && alloc.tier2.party != Shared;
      FixedBlocksDistinct();
      NoDupConcat(b, FallbackLocks);
    }
  }

  /**
   * The recommended clauses carry no duplicates, number between three and
   * six, and a public-led risk's list opens with the four retention clauses.
   */
  lemma GovernanceLocksShape(alloc: AllocationResult, t1: Tier1Scores, t2: Tier2Scores, dualRole: bool)
    ensures NoDup(GovernanceLocks(alloc, t1, t2, dualRole))
    ensures 3 <= |GovernanceLocks(alloc, t1, t2, dualRole)| <= MaxLocks
    ensures alloc.tier1.party == PublikPdam ==>
      |GovernanceLocks(alloc, t1, t2, dualRole)| >= 4 && GovernanceLocks(alloc, t1, t2, dualRole)[..4] == PublicCore
  {
    var raw := AppendedLocks(alloc, t1, t2, dualRole);
    AppendedDistinct(alloc, t1, t2, dualRole);
    FirstOccurrencesOfDistinct(raw, |raw|);
    assert raw[..|raw|] == raw;
    var locks := GovernanceLocks(alloc, t1, t2, dualRole);
    assert locks == Take(raw, MaxLocks);
    if alloc.tier1.party == PublikPdam {
      assert raw[..4] == PublicCore;
    }
  }

  /** Whatever the appended list, the de-duplicated list is duplicate-free, complete and in first-occurrence order. */
  lemma DeduplicationContract(raw: seq<Lock>)
    ensures NoDup(FirstOccurrences(raw, |raw|))
    ensures forall x :: x in FirstOccurrences(raw, |raw|) <==> x in raw
    ensures InFirstOccurrenceOrder(raw, FirstOccurrences(raw, |raw|))
  {
    FirstOccurrencesNoDup(raw, |raw|);
    FirstOccurrencesElements(raw, |raw|);
    FirstOccurrencesOrdered(raw, |raw|);
    assert raw[..|raw|] == raw;
  }

  /** The de-duplicated list is the appended list cut to six (the appended list has no duplicates). */
  lemma GovernanceLocksIsCut(alloc: AllocationResult, t1: Tier1Scores, t2: Tier2Scores, dualRole: bool)
    ensures GovernanceLocks(alloc, t1, t2, dualRole) == Take(AppendedLocks(alloc, t1, t2, dualRole), MaxLocks)
  {
    var raw := AppendedLocks(alloc, t1, t2, dualRole);
    AppendedDistinct(alloc, t1, t2, dualRole);
    FirstOccurrencesOfDistinct(raw, |raw|);
    assert raw[..|raw|] == raw;
  }

  /** When no more than six clauses were appended, every one of them is recommended, in order. */
  lemma AllKeptWhenFew(alloc: AllocationResult, t1: Tier1Scores, t2: Tier2Scores, dualRole: bool)
    requires |AppendedLocks(alloc, t1, t2, dualRole)| <= MaxLocks
    ensures GovernanceLocks(alloc, t1, t2, dualRole) == AppendedLocks(alloc, t1, t2, dualRole)
  {
    GovernanceLocksIsCut(alloc, t1, t2, dualRole);
  }

  /** A public-led risk's blocks hold no private delivery clause; any other risk's hold no public retention clause. */
  lemma BlocksOfLead(alloc: AllocationResult, t1: Tier1Scores, t2: Tier2Scores, dualRole: bool)
    ensures alloc.tier1.party == PublikPdam ==>
      forall x :: x in Blocks(alloc, t1, t2, dualRole) ==> BlockOf(x) != 2
    ensures alloc.tier1.party != PublikPdam ==>
      forall x :: x in Blocks(alloc, t1, t2, dualRole) ==> BlockOf(x) != 0
  {
    var govLead := alloc.tier1.party == PublikPdam;
    var p := if govLead then PublicLocks(t1) else [];
    var s := if alloc.tier1.party == Shared || alloc.tier2.party == Shared then SharedLocks else [];
    var q := if !govLead then PrivateLocks(t1, t2) else [];
    var r := if dualRole then DualRoleLocks else [];
    PublicLocksDistinct(t1);
    PrivateLocksDistinct(t1, t2);
    FixedBlocksDistinct();
    assert Blocks(alloc, t1, t2, dualRole) == p + s + q + r;
  }

  /** Every recommended clause was appended: a block clause or a fallback clause. */
  lemma LocksWereAppended(alloc: AllocationResult, t1: Tier1Scores, t2: Tier2Scores, dualRole: bool)
    ensures forall x :: x in GovernanceLocks(alloc, t1, t2, dualRole) ==>
      x in Blocks(alloc, t1, t2, dualRole) || x in FallbackLocks
  {
    var raw := AppendedLocks(alloc, t1, t2, dualRole);
    GovernanceLocksIsCut(alloc, t1, t2, dualRole);
    var locks := GovernanceLocks(alloc, t1, t2, dualRole);
    assert locks == raw[..|locks|];
    forall x | x in locks
      ensures x in raw
    {
      var i :| 0 <= i < |locks| && locks[i] == x;
      assert raw[i] == x;
    }
  }

  /**
   * A public-led risk never gets the private delivery clauses, and a risk
   * that is not public-led never gets the public retention clauses.
   */
  lemma LeadSelectsClauses(alloc: AllocationResult, t1: Tier1Scores, t2: Tier2Scores, dualRole: bool)
    ensures alloc.tier1.party == PublikPdam ==>
      forall x :: x in GovernanceLocks(alloc, t1, t2, dualRole) ==> BlockOf(x) != 2
    ensures alloc.tier1.party != PublikPdam ==>
      forall x :: x in GovernanceLocks(alloc, t1, t2, dualRole) ==> BlockOf(x) != 0
  {
    BlocksOfLead(alloc, t1, t2, dualRole);
    LocksWereAppended(alloc, t1, t2, dualRole);
    FixedBlocksDistinct();
  }

  /**
   * The cap of six can crowd out the dual-role clauses: a public-led risk
   * whose verifiability and incentives are both weak already fills the list
   * with the six public retention clauses.
   */
  lemma DualRoleCrowdedOut(alloc: AllocationResult, t1: Tier1Scores, t2: Tier2Scores)
    requires alloc.tier1.party == PublikPdam && alloc.tier2.party != Shared
    requires Num(t1.verifiability) < 3.5 && Num(t1.incentives) < 3.5
    ensures GovernanceLocks(alloc, t1, t2, true) == PublicLocks(t1)
    ensures RoleSeparation !in GovernanceLocks(alloc, t1, t2, true)
  {
    GovernanceLocksIsCut(alloc, t1, t2, true);
    assert Blocks(alloc, t1, t2, true) == PublicLocks(t1) + DualRoleLocks;
    assert Take(PublicLocks(t1) + DualRoleLocks, MaxLocks) == PublicLocks(t1);
  }
}
