/**
 * The survey form's state and its helpers: enumeration of the pairwise
 * comparisons, keyed updates of the answers, phase toggling, page
 * navigation and the completeness checks that gate each page and the final
 * review.  Rendering, auto-save and submission are not modelled.
 */
module Survey {
  import opened Wrappers
  import opened Constants
  import opened Pat

  /** The form state; `screening01` is absent until the screening question is answered. */
  datatype SurveyState = SurveyState(
    consent: bool,
    screening01: Option<string>,
    role: string,
    experience: string,
    phases: seq<string>,
    dualRole: bool,
    projectType: string,
    projectLocation: string,
    projectPayment: string,
    projectStatus: string,
    projectPhase: string,
    fahpPairwise: map<string, string>,
    lcmExposure: map<string, int>,
    lcmPhaseCritical: map<string, string>,
    pat1Data: PatData,
    pat2Data: PatData,
    additionalNotes: string,
    respondentName: string,
    respondentEmail: string)

  const InitialState: SurveyState := SurveyState(
    false, None, "", "", [], false, "", "", "", "", "",
    map[], map[], map[], map[], map[], "", "", "")

  // ---------------------------------------------------------------------
  // Pairwise comparisons
  // ---------------------------------------------------------------------

  datatype RiskPair = RiskPair(r1: Risk, r2: Risk)

  function PairOf(i: nat, j: nat): RiskPair
    requires i < RiskCount && j < RiskCount
  {
    RiskPair(Risks[i], Risks[j])
  }

  /** The key under which the page stores a pair's judgment. */
  function KeyOf(p: RiskPair): string {
    p.r1.code + "_" + p.r2.code
  }

  /** The pairs (i, i+1), ..., (i, j-1). */
  function RowPairs(i: nat, j: nat): (r: seq<RiskPair>)
    requires i < RiskCount && j <= RiskCount
    ensures |r| == if j > i + 1 then j - i - 1 else 0
  {
    if j <= i + 1 then [] else RowPairs(i, j - 1) + [PairOf(i, j - 1)]
  }

  /** All pairs whose first risk comes before risk `i`, row by row. */
  function PairsBefore(i: nat): seq<RiskPair>
    requires i <= RiskCount
  {
    if i == 0 then [] else PairsBefore(i - 1) + RowPairs(i - 1, RiskCount)
  }

  /** Where row `i` starts in the row-major enumeration. */
  function RowStart(i: nat): nat
    requires i <= RiskCount
  {
    if i == 0 then 0 else RowStart(i - 1) + (RiskCount - i)
  }

  /** The inner loop of fahpPairs: appends the pairs (i, i+1), ..., (i, 5). */
  method AppendRow(prefix: seq<RiskPair>, i: nat) returns (pairs: seq<RiskPair>)
    requires i < RiskCount
    ensures pairs == prefix + RowPairs(i, RiskCount)
  {
    pairs := prefix;
    var j := i + 1;
    while j < RiskCount
      invariant i + 1 <= j <= RiskCount
      invariant pairs == prefix + RowPairs(i, j)
    {
      pairs := pairs + [RiskPair(Risks[i], Risks[j])];
      j := j + 1;
    }
  }

  /** fahpPairs: every pair i < j of the risk catalog, in row-major order. */
  method FahpPairs() returns (pairs: seq<RiskPair>)
    ensures pairs == PairsBefore(RiskCount)
    ensures |pairs| == 15
    ensures forall i, j :: 0 <= i < j < RiskCount ==> pairs[RowStart(i) + (j - i - 1)] == PairOf(i, j)
  {
    pairs := [];
    var i := 0;
    while i < RiskCount
      invariant 0 <= i <= RiskCount
      invariant pairs == PairsBefore(i)
    {
      pairs := AppendRow(pairs, i);
      i := i + 1;
    }
    PairsLayout();
  }

  lemma {:induction false} PairsBeforeLength(i: nat)
    requires i <= RiskCount
    ensures |PairsBefore(i)| == RowStart(i)
  {
    if i > 0 {
      PairsBeforeLength(i - 1);
    }
  }

  lemma {:induction false} RowPairsAt(i: nat, j: nat, b: nat)
    requires i < b < j <= RiskCount
    ensures RowPairs(i, j)[b - i - 1] == PairOf(i, b)
  {
    if b < j - 1 {
      RowPairsAt(i, j - 1, b);
    }
  }

  /** The enumeration up to row `i` is a prefix of the enumeration up to any later row. */
  lemma {:induction false} PairsBeforePrefix(i: nat, k: nat)
    requires i <= k <= RiskCount
    ensures |PairsBefore(i)| <= |PairsBefore(k)|
    ensures PairsBefore(k)[..|PairsBefore(i)|] == PairsBefore(i)
  {
    if i < k {
      PairsBeforePrefix(i, k - 1);
      var p := PairsBefore(k - 1);
      assert PairsBefore(k) == p + RowPairs(k - 1, RiskCount);
      assert (p + RowPairs(k - 1, RiskCount))[..|p|] == p;
      assert PairsBefore(k)[..|PairsBefore(i)|] == p[..|PairsBefore(i)|];
    }
  }

  /** Pair (i, j) sits at position RowStart(i) + (j - i - 1) of the enumeration up to any later row. */
  lemma PairAt(i: nat, j: nat, k: nat)
    requires i < j < RiskCount && i < k <= RiskCount
    ensures RowStart(i) + (j - i - 1) < |PairsBefore(k)|
    ensures PairsBefore(k)[RowStart(i) + (j - i - 1)] == PairOf(i, j)
  {
    PairsBeforeLength(i);
    PairsBeforePrefix(i + 1, k);
    RowPairsAt(i, RiskCount, j);
    var pre := PairsBefore(i + 1);
    assert pre == PairsBefore(i) + RowPairs(i, RiskCount);
    assert pre[RowStart(i) + (j - i - 1)] == PairOf(i, j);
    assert PairsBefore(k)[..|pre|][RowStart(i) + (j - i - 1)] == PairOf(i, j);
  }

  /** Fifteen pairs; pair (i, j) sits at position RowStart(i) + (j - i - 1). */
  lemma PairsLayout()
    ensures |PairsBefore(RiskCount)| == 15
    ensures forall i, j :: 0 <= i < j < RiskCount ==>
      PairsBefore(RiskCount)[RowStart(i) + (j - i - 1)] == PairOf(i, j)
  {
    PairsBeforeLength(RiskCount);
    forall i, j | 0 <= i < j < RiskCount
      ensures PairsBefore(RiskCount)[RowStart(i) + (j - i - 1)] == PairOf(i, j)
    {
      PairAt(i, j, RiskCount);
    }
  }

  // ---------------------------------------------------------------------
  // The judgment keys
  // ---------------------------------------------------------------------

  /** The keys of a list of pairs. */
  function KeySet(ps: seq<RiskPair>): set<string> {
    if ps == [] then {} else KeySet(ps[..|ps| - 1]) + {KeyOf(ps[|ps| - 1])}
  }

  /** The keys of the pairs (i, i+1), ..., (i, j-1). */
  function RowKeys(i: nat, j: nat): set<string>
    requires i < RiskCount && j <= RiskCount
  {
    if j <= i + 1 then {} else RowKeys(i, j - 1) + {PairKey(i, j - 1)}
  }

  /** The keys of all pairs whose first risk comes before risk `i`. */
  function KeysBefore(i: nat): set<string>
    requires i <= RiskCount
  {
    if i == 0 then {} else KeysBefore(i - 1) + RowKeys(i - 1, RiskCount)
  }

  /** The fifteen keys the comparison page writes and the weighting reads. */
  function FahpKeys(): set<string> {
    KeysBefore(RiskCount)
  }

  lemma {:induction false} KeySetAppend(a: seq<RiskPair>, b: seq<RiskPair>)
    ensures KeySet(a + b) == KeySet(a) + KeySet(b)
  {
    if b != [] {
      KeySetAppend(a, b[..|b| - 1]);
      assert (a + b)[..|a + b| - 1] == a + b[..|b| - 1];
    } else {
      assert a + b == a;
    }
  }

  lemma KeySetSnoc(ps: seq<RiskPair>, p: RiskPair)
    ensures KeySet(ps + [p]) == KeySet(ps) + {KeyOf(p)}
  {
    assert (ps + [p])[..|ps|] == ps;
  }

  lemma {:induction false} RowKeysOfPairs(i: nat, j: nat)
    requires i < RiskCount && j <= RiskCount
    ensures KeySet(RowPairs(i, j)) == RowKeys(i, j)
  {
    if j > i + 1 {
      RowKeysOfPairs(i, j - 1);
      KeySetSnoc(RowPairs(i, j - 1), PairOf(i, j - 1));
      assert KeyOf(PairOf(i, j - 1)) == PairKey(i, j - 1);
    }
  }

  /** The keys of the enumerated pairs are exactly the keys the weighting reads. */
  lemma {:induction false} KeysOfPairs(i: nat)
    requires i <= RiskCount
    ensures KeySet(PairsBefore(i)) == KeysBefore(i)
  {
    if i > 0 {
      KeysOfPairs(i - 1);
      RowKeysOfPairs(i - 1, RiskCount);
      KeySetAppend(PairsBefore(i - 1), RowPairs(i - 1, RiskCount));
    }
  }

  lemma {:induction false} RowKeysMembers(i: nat, j: nat)
    requires i < RiskCount && j <= RiskCount
    ensures forall k :: k in RowKeys(i, j) ==> exists b :: i < b < j && k == PairKey(i, b)
  {
    if j > i + 1 {
      RowKeysMembers(i, j - 1);
      forall k | k in RowKeys(i, j)
        ensures exists b :: i < b < j && k == PairKey(i, b)
      {
        if k !in RowKeys(i, j - 1) {
          assert k == PairKey(i, j - 1);
        }
      }
    }
  }

  /** A row holds no key of another row, nor of a later column. */
  lemma {:induction false} RowKeysLacks(i: nat, j: nat, a: nat, c: nat)
    requires i < RiskCount && j <= RiskCount && a < RiskCount && c < RiskCount
    requires a != i || j <= c
    ensures PairKey(a, c) !in RowKeys(i, j)
  {
    if j > i + 1 {
      RowKeysLacks(i, j - 1, a, c);
      PairKeyDistinct(i, j - 1, a, c);
    }
  }

  lemma {:induction false} RowKeysSize(i: nat, j: nat)
    requires i < RiskCount && j <= RiskCount
    ensures |RowKeys(i, j)| == if j > i + 1 then j - i - 1 else 0
  {
    if j > i + 1 {
      RowKeysSize(i, j - 1);
      RowKeysLacks(i, j - 1, i, j - 1);
    }
  }

  lemma {:induction false} KeysBeforeMembers(i: nat)
    requires i <= RiskCount
    ensures forall k :: k in KeysBefore(i) ==>
      exists a, b :: 0 <= a < i && a < b < RiskCount && k == PairKey(a, b)
  {
    if i > 0 {
      KeysBeforeMembers(i - 1);
      RowKeysMembers(i - 1, RiskCount);
      forall k | k in KeysBefore(i)
        ensures exists a, b :: 0 <= a < i && a < b < RiskCount && k == PairKey(a, b)
      {
        if k !in KeysBefore(i - 1) {
          var b :| i - 1 < b < RiskCount && k == PairKey(i - 1, b);
          assert 0 <= i - 1 < i;
        }
      }
    }
  }

  /** The rows before row `i` hold no key of row `i` or of a later row. */
  lemma {:induction false} KeysBeforeLacks(i: nat, a: nat, c: nat)
    requires i <= a < RiskCount && c < RiskCount
    ensures PairKey(a, c) !in KeysBefore(i)
  {
    if i > 0 {
      KeysBeforeLacks(i - 1, a, c);
      RowKeysLacks(i - 1, RiskCount, a, c);
    }
  }

  lemma {:induction false} KeysBeforeDisjointRow(i: nat, a: nat, j: nat)
    requires i <= a < RiskCount && j <= RiskCount
    ensures KeysBefore(i) * RowKeys(a, j) == {}
  {
    if j > a + 1 {
      KeysBeforeDisjointRow(i, a, j - 1);
      KeysBeforeLacks(i, a, j - 1);
    }
  }

  lemma {:induction false} KeysBeforeSize(i: nat)
    requires i <= RiskCount
    ensures |KeysBefore(i)| == RowStart(i)
  {
    if i > 0 {
      KeysBeforeSize(i - 1);
      RowKeysSize(i - 1, RiskCount);
      KeysBeforeDisjointRow(i - 1, i - 1, RiskCount);
    }
  }

  lemma {:induction false} RowKeysHas(i: nat, j: nat, b: nat)
    requires i < b < j <= RiskCount
    ensures PairKey(i, b) in RowKeys(i, j)
  {
    if b < j - 1 {
      RowKeysHas(i, j - 1, b);
    }
  }

  lemma {:induction false} KeysBeforeHasRow(i: nat, k: nat)
    requires i < k <= RiskCount
    ensures RowKeys(i, RiskCount) <= KeysBefore(k)
  {
    if i < k - 1 {
      KeysBeforeHasRow(i, k - 1);
    }
  }

  /** Every pair i < j has its key among the comparison keys. */
  lemma PairKeyInFahpKeys(i: nat, j: nat)
    requires i < j < RiskCount
    ensures PairKey(i, j) in FahpKeys()
  {
    RowKeysHas(i, RiskCount, j);
    KeysBeforeHasRow(i, RiskCount);
  }

  lemma FahpKeysCount()
    ensures |FahpKeys()| == 15
  {
    KeysBeforeSize(RiskCount);
  }

  lemma FahpKeysOnlyPairs()
    ensures forall k :: k in FahpKeys() ==> exists i, j :: 0 <= i < j < RiskCount && k == PairKey(i, j)
  {
    KeysBeforeMembers(RiskCount);
  }

  /** The comparison keys are the fifteen keys "Ri_Rj" with i before j. */
  lemma FahpKeysShape()
    ensures |FahpKeys()| == 15
    ensures forall k :: k in FahpKeys() <==>
      exists i, j :: 0 <= i < j < RiskCount && k == PairKey(i, j)
  {
    FahpKeysCount();
    FahpKeysOnlyPairs();
    forall i, j | 0 <= i < j < RiskCount
      ensures PairKey(i, j) in FahpKeys()
    {
      PairKeyInFahpKeys(i, j);
    }
  }

  // ---------------------------------------------------------------------
  // Keyed updates
  // ---------------------------------------------------------------------

  /** updateFahp: records the judgment `value` for the pair key `pair`. */
  function UpdateFahp(s: SurveyState, pair: string, value: string): (r: SurveyState)
    ensures r.fahpPairwise.Keys == s.fahpPairwise.Keys + {pair}
    ensures r.fahpPairwise[pair] == value
    ensures forall k :: k in s.fahpPairwise && k != pair ==> r.fahpPairwise[k] == s.fahpPairwise[k]
    ensures r.(fahpPairwise := s.fahpPairwise) == s
  {
    s.(fahpPairwise := s.fahpPairwise[pair := value])
  }

  /** The answers of `data` with item `item` of risk `risk` set to `value`; an absent risk starts empty. */
  function SetAnswer(data: PatData, risk: string, item: string, value: Answer): (r: PatData)
    ensures r.Keys == data.Keys + {risk}
    ensures AnswersFor(r, risk) == AnswersFor(data, risk)[item := value]
    ensures forall c :: c != risk ==> AnswersFor(r, c) == AnswersFor(data, c)
  {
    data[risk := AnswersFor(data, risk)[item := value]]
  }

  /** updatePat1: records a tier-1 answer. */
  function UpdatePat1(s: SurveyState, risk: string, item: string, value: Answer): (r: SurveyState)
    ensures r.pat1Data == SetAnswer(s.pat1Data, risk, item, value)
    ensures r.(pat1Data := s.pat1Data) == s
  {
    s.(pat1Data := SetAnswer(s.pat1Data, risk, item, value))
  }

  /** updatePat2: records a tier-2 answer. */
  function UpdatePat2(s: SurveyState, risk: string, item: string, value: Answer): (r: SurveyState)
    ensures r.pat2Data == SetAnswer(s.pat2Data, risk, item, value)
    ensures r.(pat2Data := s.pat2Data) == s
  {
    s.(pat2Data := SetAnswer(s.pat2Data, risk, item, value))
  }

  // ---------------------------------------------------------------------
  // Phases handled
  // ---------------------------------------------------------------------

  /** `s` without any occurrence of `x`, order kept. */
  function Without(s: seq<string>, x: string): (r: seq<string>)
    ensures |r| <= |s|
  {
    if s == [] then []
    else if s[|s| - 1] == x then Without(s[..|s| - 1], x)
    else Without(s[..|s| - 1], x) + [s[|s| - 1]]
  }

  lemma {:induction false} WithoutMembers(s: seq<string>, x: string)
    ensures forall y :: y in Without(s, x) <==> y in s && y != x
  {
    if s != [] {
      WithoutMembers(s[..|s| - 1], x);
      assert s == s[..|s| - 1] + [s[|s| - 1]];
    }
  }

  lemma {:induction false} WithoutAbsent(s: seq<string>, x: string)
    requires x !in s
    ensures Without(s, x) == s
  {
    if s != [] {
      assert s[|s| - 1] in s;
      assert x !in s[..|s| - 1];
      WithoutAbsent(s[..|s| - 1], x);
      assert s == s[..|s| - 1] + [s[|s| - 1]];
    }
  }

  /** togglePhase: removes `phase` if listed, otherwise appends it. */
  function TogglePhase(s: SurveyState, phase: string): (r: SurveyState)
    ensures r.(phases := s.phases) == s
  {
    s.(phases := if phase in s.phases then Without(s.phases, phase) else s.phases + [phase])
  }

  /** Toggling flips whether `phase` is listed and leaves every other phase as it was. */
  lemma ToggleFlips(s: SurveyState, phase: string)
    ensures phase in TogglePhase(s, phase).phases <==> phase !in s.phases
    ensures forall q :: q != phase ==> (q in TogglePhase(s, phase).phases <==> q in s.phases)
  {
    WithoutMembers(s.phases, phase);
  }

  /** Toggling twice restores which phases are listed, and an unlisted phase exactly restores the list. */
  lemma ToggleTwice(s: SurveyState, phase: string)
    ensures forall q :: q in TogglePhase(TogglePhase(s, phase), phase).phases <==> q in s.phases
    ensures phase !in s.phases ==> TogglePhase(TogglePhase(s, phase), phase) == s
  {
    ToggleFlips(s, phase);
    ToggleFlips(TogglePhase(s, phase), phase);
    if phase !in s.phases {
      var t := s.phases + [phase];
      assert TogglePhase(s, phase).phases == t;
      assert t[..|t| - 1] == s.phases;
      WithoutAbsent(s.phases, phase);
    }
  }

  // ---------------------------------------------------------------------
  // Navigation
  // ---------------------------------------------------------------------

  /** The last page (results). */
  const LastPage: int := |Steps| - 1

  /** nextPage: one page forward, never past the last. */
  function NextPage(p: int): (r: int)
    ensures 0 <= p <= LastPage ==> 0 <= r <= LastPage
    ensures p < LastPage ==> r == p + 1
    ensures p >= LastPage ==> r == LastPage
  {
    if p + 1 < LastPage then p + 1 else LastPage
  }

  /** The catalog's ten steps make page 9 the last, the bound nextPage clamps to. */
  lemma LastPageIsNine()
    ensures LastPage == 9 && Steps[LastPage] == "Hasil"
  {
  }

  /** prevPage: one page back, never before the first. */
  function PrevPage(p: int): (r: int)
    ensures 0 <= p <= LastPage ==> 0 <= r <= LastPage
    ensures p > 0 ==> r == p - 1
    ensures p <= 0 ==> r == 0
  {
    if p - 1 > 0 then p - 1 else 0
  }

  /** Back undoes forward and forward undoes back, away from the ends. */
  lemma PageRoundTrip(p: int)
    ensures 0 <= p < LastPage ==> PrevPage(NextPage(p)) == p
    ensures 0 < p <= LastPage ==> NextPage(PrevPage(p)) == p
  {
  }

  // ---------------------------------------------------------------------
  // Completeness checks
  // ---------------------------------------------------------------------

  /** The screening page: eligible ("Ya"), a role, an experience band and at least one phase. */
  predicate IsScreeningValid(s: SurveyState) {
    s.screening01 == Some("Ya") && s.role != "" && s.experience != "" && |s.phases| > 0
  }

  /** The project page: a project type and a dominant phase. */
  predicate IsProjectValid(s: SurveyState) {
    s.projectType != "" && s.projectPhase != ""
  }

  /** A blank form passes neither the screening page nor the project page. */
  lemma InitialStateIncomplete()
    ensures !IsScreeningValid(InitialState) && !IsProjectValid(InitialState)
  {
  }

  /**
   * The phase list is the screening gate's only list condition: toggling on
   * an unlisted phase passes the gate exactly when eligibility, a role and an
   * experience band are recorded, and toggling off the only listed phase
   * fails it.
   */
  lemma ScreeningAfterToggle(s: SurveyState, phase: string)
    ensures phase !in s.phases ==>
      (IsScreeningValid(TogglePhase(s, phase)) <==>
       s.screening01 == Some("Ya") && s.role != "" && s.experience != "")
    ensures s.phases == [phase] ==> !IsScreeningValid(TogglePhase(s, phase))
  {
    if s.phases == [phase] {
      assert [phase][..0] == [];
      assert TogglePhase(s, phase).phases == [];
    }
  }

  /** Recording judgments or answers leaves the screening and project gates as they were. */
  lemma GatesIgnoreAnswers(s: SurveyState, pair: string, value: string, risk: string, item: string, a: Answer)
    ensures IsScreeningValid(UpdateFahp(s, pair, value)) == IsScreeningValid(s)
    ensures IsProjectValid(UpdateFahp(s, pair, value)) == IsProjectValid(s)
    ensures IsScreeningValid(UpdatePat1(s, risk, item, a)) == IsScreeningValid(s)
    ensures IsProjectValid(UpdatePat1(s, risk, item, a)) == IsProjectValid(s)
    ensures IsScreeningValid(UpdatePat2(s, risk, item, a)) == IsScreeningValid(s)
    ensures IsProjectValid(UpdatePat2(s, risk, item, a)) == IsProjectValid(s)
  {
  }

  /** Toggling a phase leaves the project gate as it was. */
  lemma ProjectGateIgnoresPhases(s: SurveyState, phase: string)
    ensures IsProjectValid(TogglePhase(s, phase)) == IsProjectValid(s)
  {
  }

  /** The keys holding a non-empty judgment. */
  function FilledKeys(m: map<string, string>): set<string> {
    set k | k in m && m[k] != ""
  }

  /** The comparison page: fifteen judgments filled in. */
  predicate IsFahpValid(s: SurveyState) {
    |FilledKeys(s.fahpPairwise)| == 15
  }

  /** The lifecycle page: six exposures and six critical phases. */
  predicate IsLcmValid(s: SurveyState) {
    |s.lcmExposure| == 6 && |s.lcmPhaseCritical| == 6
  }

  /** Number of answered items over the first `n` risks of the catalog. */
  function AnsweredCount(data: PatData, n: nat): nat
    requires n <= RiskCount
  {
    if n == 0 then 0 else AnsweredCount(data, n - 1) + |AnswersFor(data, Code(n - 1)).Keys|
  }

  /** The review page's checks, all of which must pass before submission. */
  predicate ReviewAllValid(s: SurveyState) {
    && s.consent
    && s.screening01 == Some("Ya")
    && s.role != ""
    && s.experience != ""
    && |s.phases| > 0
    && s.projectType != ""
    && s.projectPhase != ""
    && |FilledKeys(s.fahpPairwise)| == 15
    && |s.lcmExposure| == 6 && |s.lcmPhaseCritical| == 6
    && AnsweredCount(s.pat1Data, RiskCount) >= 36
    && AnsweredCount(s.pat2Data, RiskCount) >= 24
    && s.respondentName != ""
  }

  /**
   * The review accepts exactly the forms that pass every page gate, have at
   * least half of the 72 tier-1 and of the 48 tier-2 answers, and name the
   * respondent.
   */
  lemma ReviewIsPageGates(s: SurveyState)
    ensures ReviewAllValid(s) <==>
      s.consent && IsScreeningValid(s) && IsProjectValid(s) && IsFahpValid(s) && IsLcmValid(s)
      && AnsweredCount(s.pat1Data, RiskCount) >= 36 && AnsweredCount(s.pat2Data, RiskCount) >= 24
      && s.respondentName != ""
  {
  }

  /** Recording a judgment adds one to the count exactly when it fills a key that was empty. */
  lemma FilledAfterUpdate(s: SurveyState, pair: string, value: string)
    ensures |FilledKeys(UpdateFahp(s, pair, value).fahpPairwise)| ==
      |FilledKeys(s.fahpPairwise)|
      - (if pair in s.fahpPairwise && s.fahpPairwise[pair] != "" then 1 else 0)
      + (if value != "" then 1 else 0)
  {
    var before := FilledKeys(s.fahpPairwise);
    var after := FilledKeys(UpdateFahp(s, pair, value).fahpPairwise);
    assert after == (before - {pair}) + (if value != "" then {pair} else {});
  }

  lemma SameSet(a: set<string>, b: set<string>)
    requires a <= b && b <= a
    ensures |a| == |b|
  {
    assert a == b;
  }

  /** A subset as large as its superset is the superset. */
  lemma SubsetOfSameSize(small: set<string>, big: set<string>)
    requires small <= big && |small| == |big|
    ensures small == big
  {
    assert |big - small| == |big| - |small|;
    assert big - small == {};
  }

  /** Fifteen filled keys, all of them comparison keys, cover every pair. */
  lemma FilledCoversPairs(m: map<string, string>, i: nat, j: nat)
    requires FilledKeys(m) <= FahpKeys() && |FilledKeys(m)| == 15
    requires i < j < RiskCount
    ensures PairKey(i, j) in m && m[PairKey(i, j)] != ""
  {
    FahpKeysCount();
    SubsetOfSameSize(FilledKeys(m), FahpKeys());
    PairKeyInFahpKeys(i, j);
    assert PairKey(i, j) in FilledKeys(m);
  }

  /** When every pair has a judgment, all fifteen comparison keys are filled. */
  lemma PairsFillKeys(m: map<string, string>)
    requires FilledKeys(m) <= FahpKeys()
    requires forall i, j :: 0 <= i < j < RiskCount ==> PairKey(i, j) in m && m[PairKey(i, j)] != ""
    ensures |FilledKeys(m)| == 15
  {
    FahpKeysOnlyPairs();
    forall k | k in FahpKeys()
      ensures k in FilledKeys(m)
    {
      var i, j :| 0 <= i < j < RiskCount && k == PairKey(i, j);
      assert k in m && m[k] != "";
    }
    SameSet(FilledKeys(m), FahpKeys());
    FahpKeysCount();
  }

  /**
   * When the page only ever stored comparison keys, the fifteen-judgment check
   * passes exactly when every pair i < j has a judgment.
   */
  lemma FahpValidIffAllPairs(s: SurveyState)
    requires FilledKeys(s.fahpPairwise) <= FahpKeys()
    ensures IsFahpValid(s) <==>
      forall i, j :: 0 <= i < j < RiskCount ==>
        PairKey(i, j) in s.fahpPairwise && s.fahpPairwise[PairKey(i, j)] != ""
  {
    var m := s.fahpPairwise;
    if IsFahpValid(s) {
      forall i, j | 0 <= i < j < RiskCount
        ensures PairKey(i, j) in m && m[PairKey(i, j)] != ""
      {
        FilledCoversPairs(m, i, j);
      }
    }
    if forall i, j :: 0 <= i < j < RiskCount ==> PairKey(i, j) in m && m[PairKey(i, j)] != "" {
      PairsFillKeys(m);
    }
  }

  /**
   * When the page only ever stored catalog risks, the lifecycle check passes
   * exactly when every risk has an exposure and a critical phase.
   */
  lemma LcmValidIffAllRisks(s: SurveyState)
    requires s.lcmExposure.Keys <= RiskCodes() && s.lcmPhaseCritical.Keys <= RiskCodes()
    ensures IsLcmValid(s) <==>
      s.lcmExposure.Keys == RiskCodes() && s.lcmPhaseCritical.Keys == RiskCodes()
  {
    CodesBelowSize(RiskCount);
    if |s.lcmExposure| == 6 {
      SubsetOfSameSize(s.lcmExposure.Keys, RiskCodes());
    }
    if |s.lcmPhaseCritical| == 6 {
      SubsetOfSameSize(s.lcmPhaseCritical.Keys, RiskCodes());
    }
  }

  /** Setting an item adds a key exactly when the item was unanswered. */
  lemma KeysAfterSet(a: Answers, item: string, value: Answer)
    ensures |a[item := value].Keys| == |a.Keys| + (if item in a then 0 else 1)
  {
    if item in a {
      assert a[item := value].Keys == a.Keys;
    } else {
      assert a[item := value].Keys == a.Keys + {item};
    }
  }

  /** The count over n risks grows from the count over n - 1 by the n-th risk's answered items. */
  lemma AnsweredStep(d1: PatData, d2: PatData, n: nat, extra: nat)
    requires 0 < n <= RiskCount
    requires AnsweredCount(d1, n - 1) == AnsweredCount(d2, n - 1) + extra
    requires |AnswersFor(d1, Code(n - 1)).Keys| == |AnswersFor(d2, Code(n - 1)).Keys|
    ensures AnsweredCount(d1, n) == AnsweredCount(d2, n) + extra
  {
  }

  /** Recording an answer for catalog risk `r` adds one to the count exactly when the item was unanswered. */
  lemma {:induction false} AnsweredAfterSet(data: PatData, r: nat, item: string, value: Answer, n: nat)
    requires r < RiskCount && n <= RiskCount
    ensures AnsweredCount(SetAnswer(data, Code(r), item, value), n) ==
      AnsweredCount(data, n) + (if r < n && item !in AnswersFor(data, Code(r)) then 1 else 0)
  {
    if n > 0 {
      AnsweredAfterSet(data, r, item, value, n - 1);
      var updated := SetAnswer(data, Code(r), item, value);
      var c := Code(n - 1);
      if n - 1 == r {
        KeysAfterSet(AnswersFor(data, c), item, value);
        assert AnsweredCount(updated, n) == AnsweredCount(updated, n - 1) + |AnswersFor(updated, c).Keys|;
      } else {
        CodesDistinct(n - 1, r);
        assert AnswersFor(updated, c) == AnswersFor(data, c);
        AnsweredStep(updated, data, n, if r < n - 1 && item !in AnswersFor(data, Code(r)) then 1 else 0);
      }
    }
  }

  /** An answer recorded under a code that no catalog risk carries does not count. */
  lemma {:induction false} AnsweredIgnoresOthers(data: PatData, risk: string, item: string, value: Answer, n: nat)
    requires forall i :: 0 <= i < RiskCount ==> Code(i) != risk
    requires n <= RiskCount
    ensures AnsweredCount(SetAnswer(data, risk, item, value), n) == AnsweredCount(data, n)
  {
    if n > 0 {
      AnsweredIgnoresOthers(data, risk, item, value, n - 1);
      var updated := SetAnswer(data, risk, item, value);
      assert AnswersFor(updated, Code(n - 1)) == AnswersFor(data, Code(n - 1));
      AnsweredStep(updated, data, n, 0);
    }
  }
}
