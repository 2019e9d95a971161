/**
 * Construct aggregation (calculatePAT): per risk and per tier, the answered
 * survey items are sorted into construct buckets and each bucket is averaged;
 * "TT" (tidak tahu, "don't know") answers are counted instead of averaged.
 */
module Pat {
  import opened Wrappers
  import opened Constants

  /** One stored answer: a number (a Likert value 1..5 from the form) or "TT". */
  datatype Answer = Answered(v: int) | TT

  /** The answers of one respondent for one risk and one tier, keyed by item code. */
  type Answers = map<string, Answer>

  /** All answers of one tier, keyed by risk code. */
  type PatData = map<string, Answers>

  /** The buckets values are collected into; tier-1 has an extra raw bucket for reverse-scored items. */
  datatype Bucket = Of(construct: Construct) | ExternalityRaw

  const Tier1Buckets: set<Bucket> :=
    {Of(Control), Of(Info), Of(Verifiability), Of(Externality), ExternalityRaw, Of(Capacity), Of(Incentives)}

  const Tier2Buckets: set<Bucket> :=
    {Of(Control), Of(Verifiability), Of(Incentives), Of(Capacity)}

  /** The item has a numeric answer (present and not "TT"). */
  predicate IsAnswered(a: Answers, code: string) {
    code in a && a[code].Answered?
  }

  /** The item has the answer "TT". */
  predicate IsUnknown(a: Answers, code: string) {
    code in a && a[code] == TT
  }

  /** Every numeric answer is on the 1..5 Likert scale the form offers. */
  predicate LikertAnswers(a: Answers) {
    forall code :: code in a && a[code].Answered? ==> 1 <= a[code].v <= 5
  }

  /** The buckets an answered item contributes to: reverse-scored tier-1 items feed both Externality buckets. */
  predicate Feeds(item: Item, b: Bucket, tier1: bool) {
    if tier1 && item.reverse then b == ExternalityRaw || b == Of(Externality)
    else b == Of(item.construct)
  }

  /** The values one item contributes to bucket `b`; the forward Externality bucket receives `6 - v`. */
  function Pushed(item: Item, a: Answers, b: Bucket, tier1: bool): (s: seq<int>)
    ensures |s| <= 1
    ensures |s| == 1 <==> Feeds(item, b, tier1) && IsAnswered(a, item.code)
  {
    if !Feeds(item, b, tier1) || !IsAnswered(a, item.code) then []
    else if tier1 && item.reverse && b == Of(Externality) then [6 - a[item.code].v]
    else [a[item.code].v]
  }

  /** The values collected in bucket `b` from the first `n` items, in catalog order. */
  function Collected(items: seq<Item>, n: nat, a: Answers, b: Bucket, tier1: bool): (s: seq<int>)
    requires n <= |items|
    ensures |s| <= n
  {
    if n == 0 then []
    else Collected(items, n - 1, a, b, tier1) + Pushed(items[n - 1], a, b, tier1)
  }

  function Total(s: seq<int>): int {
    if s == [] then 0 else Total(s[..|s| - 1]) + s[|s| - 1]
  }

  /** The arithmetic mean, or null for an empty bucket. */
  function Mean(s: seq<int>): (r: Option<real>)
    ensures r.None? <==> s == []
  {
    if |s| > 0 then Some(Total(s) as real / |s| as real) else None
  }

  /** The number of the first `n` items answered "TT". */
  function TTCount(items: seq<Item>, n: nat, a: Answers): (r: nat)
    requires n <= |items|
    ensures r <= n
  {
    if n == 0 then 0
    else TTCount(items, n - 1, a) + (if IsUnknown(a, items[n - 1].code) then 1 else 0)
  }

  /** A risk without stored answers is treated as an empty answer set. */
  function AnswersFor(data: PatData, code: string): (a: Answers)
    ensures code in data ==> a == data[code]
    ensures code !in data ==> a == map[]
  {
    if code in data then data[code] else map[]
  }

  datatype Tier1Scores = Tier1Scores(
    control: Option<real>, info: Option<real>, verifiability: Option<real>,
    externality: Option<real>, externalityReversed: Option<real>,
    capacity: Option<real>, incentives: Option<real>,
    ttCount: nat, totalItems: nat)

  datatype Tier2Scores = Tier2Scores(
    control: Option<real>, verifiability: Option<real>,
    incentives: Option<real>, capacity: Option<real>,
    ttCount: nat, totalItems: nat)

  datatype PatResult = PatResult(tier1: map<string, Tier1Scores>, tier2: map<string, Tier2Scores>)

  /** The mean of tier-1 bucket `b`. */
  function Tier1Score(a: Answers, b: Bucket): Option<real> {
    Mean(Collected(Pat1Items, |Pat1Items|, a, b, true))
  }

  /** The mean of tier-2 bucket `b`. */
  function Tier2Score(a: Answers, b: Bucket): Option<real> {
    Mean(Collected(Pat2Items, |Pat2Items|, a, b, false))
  }

  /** Tier-1 scores of one risk; `externality` is the raw mean and `externalityReversed` the `6 - v` mean. */
  function Tier1Of(a: Answers): Tier1Scores {
    Tier1Scores(
      Tier1Score(a, Of(Control)), Tier1Score(a, Of(Info)), Tier1Score(a, Of(Verifiability)),
      Tier1Score(a, ExternalityRaw), Tier1Score(a, Of(Externality)),
      Tier1Score(a, Of(Capacity)), Tier1Score(a, Of(Incentives)),
      TTCount(Pat1Items, |Pat1Items|, a), |Pat1Items|)
  }

  /** Tier-2 scores of one risk. */
  function Tier2Of(a: Answers): Tier2Scores {
    Tier2Scores(
      Tier2Score(a, Of(Control)), Tier2Score(a, Of(Verifiability)),
      Tier2Score(a, Of(Incentives)), Tier2Score(a, Of(Capacity)),
      TTCount(Pat2Items, |Pat2Items|, a), |Pat2Items|)
  }

  /** One item's step: its answer, unless absent or "TT", is appended to the buckets it feeds. */
  method Push(buckets: map<Bucket, seq<int>>, item: Item, a: Answers, tier1: bool)
    returns (next: map<Bucket, seq<int>>)
    requires forall b :: Feeds(item, b, tier1) ==> b in buckets
    ensures next.Keys == buckets.Keys
    ensures forall b :: b in next ==> next[b] == buckets[b] + Pushed(item, a, b, tier1)
  {
    next := buckets;
    if item.code in a && a[item.code] != TT {
      var v := a[item.code].v;
      if tier1 && item.reverse {
        assert Feeds(item, ExternalityRaw, tier1) && Feeds(item, Of(Externality), tier1);
        next := next[ExternalityRaw := next[ExternalityRaw] + [v]];
        next := next[Of(Externality) := next[Of(Externality)] + [6 - v]];
      } else {
        assert Feeds(item, Of(item.construct), tier1);
        next := next[Of(item.construct) := next[Of(item.construct)] + [v]];
      }
    }
  }

  /**
   * The item loop shared by both tiers: collects every answered item's
   * value into its buckets, skipping absent and "TT" answers.
   */
  method Collect(items: seq<Item>, a: Answers, tier1: bool, keys: set<Bucket>)
    returns (buckets: map<Bucket, seq<int>>)
    requires forall k, b :: 0 <= k < |items| && Feeds(items[k], b, tier1) ==> b in keys
    ensures buckets.Keys == keys
    ensures forall b :: b in buckets ==> buckets[b] == Collected(items, |items|, a, b, tier1)
  {
    buckets := map b | b in keys :: [];
    var k := 0;
    while k < |items|
      invariant 0 <= k <= |items|
      invariant buckets.Keys == keys
      invariant forall b :: b in buckets ==> buckets[b] == Collected(items, k, a, b, tier1)
    {
      buckets := Push(buckets, items[k], a, tier1);
      k := k + 1;
    }
  }

  lemma Tier1Feeds()
    ensures forall k, b :: 0 <= k < |Pat1Items| && Feeds(Pat1Items[k], b, true) ==> b in Tier1Buckets
  {
  }

  lemma Tier2Feeds()
    ensures forall k, b :: 0 <= k < |Pat2Items| && Feeds(Pat2Items[k], b, false) ==> b in Tier2Buckets
  {
  }

  /** Aggregates one risk's tier-1 answers. */
  method AggregateTier1(a: Answers) returns (s: Tier1Scores)
    ensures s == Tier1Of(a)
  {
    Tier1Feeds();
    var c := Collect(Pat1Items, a, true, Tier1Buckets);
    s := Tier1Scores(
      Mean(c[Of(Control)]), Mean(c[Of(Info)]), Mean(c[Of(Verifiability)]),
      Mean(c[ExternalityRaw]), Mean(c[Of(Externality)]),
      Mean(c[Of(Capacity)]), Mean(c[Of(Incentives)]),
      TTCount(Pat1Items, |Pat1Items|, a), |Pat1Items|);
  }

  /** Aggregates one risk's tier-2 answers; tier-2 has no reverse-scored items. */
  method AggregateTier2(a: Answers) returns (s: Tier2Scores)
    ensures s == Tier2Of(a)
  {
    Tier2Feeds();
    var c := Collect(Pat2Items, a, false, Tier2Buckets);
    s := Tier2Scores(
      Mean(c[Of(Control)]), Mean(c[Of(Verifiability)]),
      Mean(c[Of(Incentives)]), Mean(c[Of(Capacity)]),
      TTCount(Pat2Items, |Pat2Items|, a), |Pat2Items|);
  }

  /** Every entry of `m` holds the tier-1 scores of the answers stored for its risk. */
  predicate Tier1Agrees(data: PatData, m: map<string, Tier1Scores>) {
    forall c {:trigger AnswersFor(data, c)} :: c in m ==> m[c] == Tier1Of(AnswersFor(data, c))
  }

  /** Every entry of `m` holds the tier-2 scores of the answers stored for its risk. */
  predicate Tier2Agrees(data: PatData, m: map<string, Tier2Scores>) {
    forall c {:trigger AnswersFor(data, c)} :: c in m ==> m[c] == Tier2Of(AnswersFor(data, c))
  }

  lemma Tier1AgreesUpdate(data: PatData, m: map<string, Tier1Scores>, code: string, s: Tier1Scores)
    requires Tier1Agrees(data, m) && s == Tier1Of(AnswersFor(data, code))
    ensures Tier1Agrees(data, m[code := s])
  {
  }

  lemma Tier2AgreesUpdate(data: PatData, m: map<string, Tier2Scores>, code: string, s: Tier2Scores)
    requires Tier2Agrees(data, m) && s == Tier2Of(AnswersFor(data, code))
    ensures Tier2Agrees(data, m[code := s])
  {
  }

  /** Adding the next catalog risk to a map keyed by the earlier ones. */
  lemma KeysStep<V>(m: map<string, V>, k: nat, v: V)
    requires k < RiskCount && m.Keys == CodesBelow(k)
    ensures m[Code(k) := v].Keys == CodesBelow(k + 1)
  {
  }

  /** calculatePAT: both tiers' scores for every catalog risk; a risk without answers scores as empty. */
  method CalculatePat(pat1Data: PatData, pat2Data: PatData) returns (r: PatResult)
    ensures r.tier1.Keys == RiskCodes() && r.tier2.Keys == RiskCodes()
    ensures Tier1Agrees(pat1Data, r.tier1) && Tier2Agrees(pat2Data, r.tier2)
  {
    var tier1: map<string, Tier1Scores> := map[];
    var tier2: map<string, Tier2Scores> := map[];
    var k := 0;
    while k < RiskCount
      invariant 0 <= k <= RiskCount
      invariant tier1.Keys == CodesBelow(k)
      invariant tier2.Keys == CodesBelow(k)
      invariant Tier1Agrees(pat1Data, tier1)
      invariant Tier2Agrees(pat2Data, tier2)
    {
      var code := Code(k);
      var s1 := AggregateTier1(AnswersFor(pat1Data, code));
      var s2 := AggregateTier2(AnswersFor(pat2Data, code));
      Tier1AgreesUpdate(pat1Data, tier1, code, s1);
      Tier2AgreesUpdate(pat2Data, tier2, code, s2);
      KeysStep(tier1, k, s1);
      KeysStep(tier2, k, s2);
      tier1 := tier1[code := s1];
      tier2 := tier2[code := s2];
      k := k + 1;
    }
    r := PatResult(tier1, tier2);
  }

  // ---------------------------------------------------------------------
  // Properties of the aggregation
  // ---------------------------------------------------------------------

  /** None of the first `n` items feeding bucket `b` has a numeric answer. */
  predicate NoneAnswered(items: seq<Item>, n: nat, a: Answers, b: Bucket, tier1: bool)
    requires n <= |items|
  {
    forall k :: 0 <= k < n && Feeds(items[k], b, tier1) ==> !IsAnswered(a, items[k].code)
  }

  lemma NoneAnsweredStep(items: seq<Item>, n: nat, a: Answers, b: Bucket, tier1: bool)
    requires 0 < n <= |items|
    ensures NoneAnswered(items, n, a, b, tier1) <==>
      NoneAnswered(items, n - 1, a, b, tier1) && !(Feeds(items[n - 1], b, tier1) && IsAnswered(a, items[n - 1].code))
  {
    if NoneAnswered(items, n - 1, a, b, tier1) && !(Feeds(items[n - 1], b, tier1) && IsAnswered(a, items[n - 1].code)) {
      forall k | 0 <= k < n && Feeds(items[k], b, tier1)
        ensures !IsAnswered(a, items[k].code)
      {
        if k < n - 1 {
          assert !IsAnswered(a, items[k].code);
        }
      }
    }
  }

  /** A bucket is empty exactly when no item feeding it was answered. */
  lemma {:induction false} BucketEmptyIff(items: seq<Item>, n: nat, a: Answers, b: Bucket, tier1: bool)
    requires n <= |items|
    ensures Collected(items, n, a, b, tier1) == [] <==> NoneAnswered(items, n, a, b, tier1)
  {
    if n > 0 {
      BucketEmptyIff(items, n - 1, a, b, tier1);
      NoneAnsweredStep(items, n, a, b, tier1);
      var prev := Collected(items, n - 1, a, b, tier1);
      var p := Pushed(items[n - 1], a, b, tier1);
      assert Collected(items, n, a, b, tier1) == prev + p;
      assert |prev + p| == |prev| + |p|;
    }
  }

  /** A tier-1 score is null exactly when none of the items feeding it has a numeric answer. */
  lemma Tier1ScoreNull(a: Answers, b: Bucket)
    ensures Tier1Score(a, b).None? <==>
      forall k :: 0 <= k < |Pat1Items| && Feeds(Pat1Items[k], b, true) ==> !IsAnswered(a, Pat1Items[k].code)
  {
    BucketEmptyIff(Pat1Items, |Pat1Items|, a, b, true);
  }

  /** A tier-2 score is null exactly when none of the items feeding it has a numeric answer. */
  lemma Tier2ScoreNull(a: Answers, b: Bucket)
    ensures Tier2Score(a, b).None? <==>
      forall k :: 0 <= k < |Pat2Items| && Feeds(Pat2Items[k], b, false) ==> !IsAnswered(a, Pat2Items[k].code)
  {
    BucketEmptyIff(Pat2Items, |Pat2Items|, a, b, false);
  }

  /** With Likert answers every collected value, including `6 - v`, lies in 1..5. */
  lemma {:induction false} CollectedInRange(items: seq<Item>, n: nat, a: Answers, b: Bucket, tier1: bool)
    requires n <= |items| && LikertAnswers(a)
    ensures forall x :: x in Collected(items, n, a, b, tier1) ==> 1 <= x <= 5
  {
    if n > 0 {
      CollectedInRange(items, n - 1, a, b, tier1);
    }
  }

  lemma {:induction false} TotalBounds(s: seq<int>, lo: int, hi: int)
    requires forall x :: x in s ==> lo <= x <= hi
    ensures lo * |s| <= Total(s) <= hi * |s|
  {
    if s != [] {
      var n := |s| - 1;
      assert forall x :: x in s[..n] ==> x in s;
      TotalBounds(s[..n], lo, hi);
      assert s[n] in s;
      assert lo * |s| == lo * n + lo && hi * |s| == hi * n + hi;
    }
  }

  /** The mean of values in lo..hi lies in lo..hi. */
  lemma MeanBounds(s: seq<int>, lo: int, hi: int)
    requires forall x :: x in s ==> lo <= x <= hi
    ensures Mean(s).Some? ==> lo as real <= Mean(s).value <= hi as real
  {
    if s != [] {
      TotalBounds(s, lo, hi);
      var n := |s| as real;
      var t := Total(s) as real;
      assert lo as real * n <= t <= hi as real * n;
      assert t / n * n == t;
    }
  }

  /** Tier-1 scores of Likert answers lie in 1..5. */
  lemma Tier1ScoreRange(a: Answers, b: Bucket)
    requires LikertAnswers(a)
    ensures Tier1Score(a, b).Some? ==> 1.0 <= Tier1Score(a, b).value <= 5.0
  {
    CollectedInRange(Pat1Items, |Pat1Items|, a, b, true);
    MeanBounds(Collected(Pat1Items, |Pat1Items|, a, b, true), 1, 5);
  }

  /** Tier-2 scores of Likert answers lie in 1..5. */
  lemma Tier2ScoreRange(a: Answers, b: Bucket)
    requires LikertAnswers(a)
    ensures Tier2Score(a, b).Some? ==> 1.0 <= Tier2Score(a, b).value <= 5.0
  {
    CollectedInRange(Pat2Items, |Pat2Items|, a, b, false);
    MeanBounds(Collected(Pat2Items, |Pat2Items|, a, b, false), 1, 5);
  }

  /** Each value of `s` mirrored around 3 (`6 - v`). */
  function Mirrored(s: seq<int>): (r: seq<int>)
    ensures |r| == |s|
  {
    if s == [] then [] else Mirrored(s[..|s| - 1]) + [6 - s[|s| - 1]]
  }

  lemma MirroredSnoc(s: seq<int>, x: int)
    ensures Mirrored(s + [x]) == Mirrored(s) + [6 - x]
  {
    assert (s + [x])[..|s|] == s;
  }

  /** Mirroring distributes over appending at most one value. */
  lemma MirroredAppend(s: seq<int>, t: seq<int>)
    requires |t| <= 1
    ensures Mirrored(s + t) == Mirrored(s) + Mirrored(t)
  {
    if t == [] {
      assert s + t == s;
    } else {
      MirroredSnoc(s, t[0]);
      assert t == [t[0]];
      assert Mirrored(t) == Mirrored([]) + [6 - t[0]];
    }
  }

  /** A reverse-scored item pushes the mirror of its raw value onto the forward bucket. */
  lemma PushedMirrored(item: Item, a: Answers)
    requires item.construct == Externality ==> item.reverse
    ensures Pushed(item, a, Of(Externality), true) == Mirrored(Pushed(item, a, ExternalityRaw, true))
  {
    if item.reverse && IsAnswered(a, item.code) {
      var v := a[item.code].v;
      assert Pushed(item, a, ExternalityRaw, true) == [v];
      assert Mirrored([v]) == Mirrored([]) + [6 - v];
    }
  }

  /**
   * When every Externality item is reverse-scored, the forward Externality
   * bucket holds the raw bucket's values mirrored.
   */
  lemma {:induction false} ForwardIsMirroredRaw(items: seq<Item>, n: nat, a: Answers)
    requires n <= |items|
    requires forall k :: 0 <= k < |items| && items[k].construct == Externality ==> items[k].reverse
    ensures Collected(items, n, a, Of(Externality), true) == Mirrored(Collected(items, n, a, ExternalityRaw, true))
  {
    if n > 0 {
      var item := items[n - 1];
      ForwardIsMirroredRaw(items, n - 1, a);
      var raw := Collected(items, n - 1, a, ExternalityRaw, true);
      var pushed := Pushed(item, a, ExternalityRaw, true);
      PushedMirrored(item, a);
      MirroredAppend(raw, pushed);
      assert Collected(items, n, a, ExternalityRaw, true) == raw + pushed;
    }
  }

  lemma {:induction false} TotalMirrored(s: seq<int>)
    ensures Total(Mirrored(s)) == 6 * |s| - Total(s)
  {
    if s != [] {
      var n := |s| - 1;
      TotalMirrored(s[..n]);
      var m := Mirrored(s);
      assert m[..n] == Mirrored(s[..n]);
    }
  }

  lemma DivSub(x: real, y: real, n: real)
    requires n > 0.0
    ensures (x * n - y) / n == x - y / n
  {
  }

  /** Mirroring a non-empty bucket mirrors its mean. */
  lemma MeanMirrored(s: seq<int>)
    ensures Mean(Mirrored(s)).Some? <==> Mean(s).Some?
    ensures Mean(s).Some? ==> Mean(Mirrored(s)).value == 6.0 - Mean(s).value
  {
    if s != [] {
      TotalMirrored(s);
      DivSub(6.0, Total(s) as real, |s| as real);
    }
  }

  /**
   * The reported raw Externality and the reverse-mapped ExternalityReversed
   * are null together and otherwise add up to 6.
   */
  lemma ExternalityReverseScored(a: Answers)
    ensures Tier1Of(a).externality.Some? <==> Tier1Of(a).externalityReversed.Some?
    ensures Tier1Of(a).externality.Some? ==>
      Tier1Of(a).externality.value + Tier1Of(a).externalityReversed.value == 6.0
  {
    Tier1Catalog();
    ForwardIsMirroredRaw(Pat1Items, |Pat1Items|, a);
    MeanMirrored(Collected(Pat1Items, |Pat1Items|, a, ExternalityRaw, true));
  }

  /** The "TT" count reaches the item count exactly when every item is answered "TT". */
  lemma {:induction false} AllUnknownIff(items: seq<Item>, n: nat, a: Answers)
    requires n <= |items|
    ensures TTCount(items, n, a) == n <==> forall k :: 0 <= k < n ==> IsUnknown(a, items[k].code)
  {
    if n > 0 {
      AllUnknownIff(items, n - 1, a);
    }
  }

  /** A risk answered "TT" throughout has only null tier-1 scores and a full "TT" count. */
  lemma Tier1AllUnknown(a: Answers)
    requires forall k :: 0 <= k < |Pat1Items| ==> IsUnknown(a, Pat1Items[k].code)
    ensures Tier1Of(a) == Tier1Scores(None, None, None, None, None, None, None, 12, 12)
  {
    AllUnknownIff(Pat1Items, |Pat1Items|, a);
    forall b ensures Tier1Score(a, b).None? {
      Tier1ScoreNull(a, b);
    }
  }

  /** A risk answered "TT" throughout has only null tier-2 scores and a full "TT" count. */
  lemma Tier2AllUnknown(a: Answers)
    requires forall k :: 0 <= k < |Pat2Items| ==> IsUnknown(a, Pat2Items[k].code)
    ensures Tier2Of(a) == Tier2Scores(None, None, None, None, 8, 8)
  {
    AllUnknownIff(Pat2Items, |Pat2Items|, a);
    forall b ensures Tier2Score(a, b).None? {
      Tier2ScoreNull(a, b);
    }
  }

  lemma {:induction false} NoUnknowns(items: seq<Item>, n: nat)
    requires n <= |items|
    ensures TTCount(items, n, map[]) == 0
  {
    if n > 0 {
      NoUnknowns(items, n - 1);
    }
  }

  /** A risk missing from the submitted data yields null scores and no "TT" answers. */
  lemma AbsentRisk(pat1Data: PatData, pat2Data: PatData, code: string)
    requires code !in pat1Data && code !in pat2Data
    ensures Tier1Of(AnswersFor(pat1Data, code)) == Tier1Scores(None, None, None, None, None, None, None, 0, 12)
    ensures Tier2Of(AnswersFor(pat2Data, code)) == Tier2Scores(None, None, None, None, 0, 8)
  {
    NoUnknowns(Pat1Items, |Pat1Items|);
    NoUnknowns(Pat2Items, |Pat2Items|);
    forall b ensures Tier1Score(map[], b).None? {
      Tier1ScoreNull(map[], b);
    }
    forall b ensures Tier2Score(map[], b).None? {
      Tier2ScoreNull(map[], b);
    }
  }

  /** A tier-1 score is present once one item feeding it has a numeric answer. */
  lemma Tier1Present(a: Answers, b: Bucket, k: nat)
    requires k < |Pat1Items| && Feeds(Pat1Items[k], b, true) && IsAnswered(a, Pat1Items[k].code)
    ensures Tier1Score(a, b).Some?
  {
    Tier1ScoreNull(a, b);
  }

  /** A tier-2 score is present once one item feeding it has a numeric answer. */
  lemma Tier2Present(a: Answers, b: Bucket, k: nat)
    requires k < |Pat2Items| && Feeds(Pat2Items[k], b, false) && IsAnswered(a, Pat2Items[k].code)
    ensures Tier2Score(a, b).Some?
  {
    Tier2ScoreNull(a, b);
  }

  /** When every tier-1 item has a numeric answer, every tier-1 score is present. */
  lemma Tier1FullyAnswered(a: Answers)
    requires forall k :: 0 <= k < |Pat1Items| ==> IsAnswered(a, Pat1Items[k].code)
    ensures Tier1Of(a).control.Some? && Tier1Of(a).info.Some? && Tier1Of(a).verifiability.Some?
    ensures Tier1Of(a).externality.Some? && Tier1Of(a).externalityReversed.Some?
    ensures Tier1Of(a).capacity.Some? && Tier1Of(a).incentives.Some?
  {
    Tier1Present(a, Of(Control), 0);
    Tier1Present(a, Of(Info), 2);
    Tier1Present(a, Of(Verifiability), 4);
    Tier1Present(a, ExternalityRaw, 6);
    Tier1Present(a, Of(Externality), 6);
    Tier1Present(a, Of(Capacity), 8);
    Tier1Present(a, Of(Incentives), 10);
  }

  /** When every tier-2 item has a numeric answer, every tier-2 score is present. */
  lemma Tier2FullyAnswered(a: Answers)
    requires forall k :: 0 <= k < |Pat2Items| ==> IsAnswered(a, Pat2Items[k].code)
    ensures Tier2Of(a).control.Some? && Tier2Of(a).verifiability.Some?
    ensures Tier2Of(a).incentives.Some? && Tier2Of(a).capacity.Some?
  {
    Tier2Present(a, Of(Control), 0);
    Tier2Present(a, Of(Verifiability), 2);
    Tier2Present(a, Of(Incentives), 4);
    Tier2Present(a, Of(Capacity), 6);
  }
}
