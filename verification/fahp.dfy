/**
 * Fuzzy AHP weighting (calculateFAHP): builds the 6x6 fuzzy and crisp
 * pairwise-comparison matrices from sparse linguistic judgments, derives
 * normalised crisp weights through Buckley's geometric-mean method, and
 * gates the result on Saaty's consistency ratio.
 *
 * Arithmetic is over exact reals.  The sixth root (`Math.pow(x, 1 / 6)`) has
 * no counterpart here, so it is a parameter `root` that callers must supply
 * as the positive sixth root on positive reals.
 */
module Fahp {
  import opened Constants

  /** Pairwise judgments keyed by pair key ("R1_R2") to a linguistic label. */
  type Pairwise = map<string, string>

  function Pow6(y: real): real {
    y * y * y * y * y * y
  }

  /** `root` maps every positive real to its positive sixth root. */
  ghost predicate SixthRoot(root: real -> real) {
    forall x: real :: 0.0 < x ==> 0.0 < root(x) && Pow6(root(x)) == x
  }

  /** A positive-valued vector of fuzzy numbers. */
  predicate AllPositive(ts: seq<Tfn>) {
    forall i :: 0 <= i < |ts| ==> PositiveTfn(ts[i])
  }

  function Mul(a: Tfn, b: Tfn): (r: Tfn)
    ensures PositiveTfn(a) && PositiveTfn(b) ==> PositiveTfn(r)
  {
    Tfn(a.l * b.l, a.m * b.m, a.u * b.u)
  }

  function Add(a: Tfn, b: Tfn): Tfn {
    Tfn(a.l + b.l, a.m + b.m, a.u + b.u)
  }

  // ---------------------------------------------------------------------
  // The two comparison matrices, cell by cell
  // ---------------------------------------------------------------------

  /** The stored judgment for i < j when it is a recognised label, otherwise Unit. */
  function UpperTfn(p: Pairwise, i: nat, j: nat): (t: Tfn)
    requires i < j < RiskCount
    ensures PositiveTfn(t) && OrderedTfn(t)
  {
    ScaleShape();
    var k := PairKey(i, j);
    if k in p && p[k] != "" && p[k] in FahpScale then FahpScale[p[k]] else Unit
  }

  /** Cell (i, j) of the fuzzy comparison matrix. */
  function TfnCell(p: Pairwise, i: nat, j: nat): (t: Tfn)
    requires i < RiskCount && j < RiskCount
    ensures PositiveTfn(t)
  {
    if i == j then Unit
    else if i < j then UpperTfn(p, i, j)
    else Reciprocal(UpperTfn(p, j, i))
  }

  /** The crisp judgment for i < j: the label's crisp value, or 1 when missing, unknown or zero. */
  function UpperCrisp(p: Pairwise, i: nat, j: nat): (c: real)
    requires i < j < RiskCount
    ensures 0.0 < c
  {
    CrispPositive();
    var k := PairKey(i, j);
    if k in p && p[k] in CrispScale && CrispScale[p[k]] != 0.0 then CrispScale[p[k]] else 1.0
  }

  /** Cell (i, j) of the crisp comparison matrix. */
  function CrispCell(p: Pairwise, i: nat, j: nat): (c: real)
    requires i < RiskCount && j < RiskCount
    ensures 0.0 < c
  {
    if i == j then 1.0
    else if i < j then UpperCrisp(p, i, j)
    else 1.0 / UpperCrisp(p, j, i)
  }

  /** Both matrices have a unit diagonal. */
  lemma UnitDiagonal(p: Pairwise, i: nat)
    requires i < RiskCount
    ensures TfnCell(p, i, i) == Unit && CrispCell(p, i, i) == 1.0
  {
  }

  /** Above the diagonal a recognised label gives its scale values; a missing or unknown one gives [1,1,1] and 1. */
  lemma {:induction false} UpperCells(p: Pairwise, i: nat, j: nat)
    requires i < j < RiskCount
    ensures var k := PairKey(i, j);
      if k in p && p[k] in FahpScale
      then TfnCell(p, i, j) == FahpScale[p[k]] && CrispCell(p, i, j) == CrispScale[p[k]]
      else TfnCell(p, i, j) == Unit && CrispCell(p, i, j) == 1.0
  {
    var k := PairKey(i, j);
    ScaleKeys();
    CrispPositive();
    assert "" !in FahpScale;
  }

  /** The fuzzy matrix is reciprocal: cell (i, j) is the reciprocal of cell (j, i). */
  lemma {:induction false} TfnReciprocal(p: Pairwise, i: nat, j: nat)
    requires i < RiskCount && j < RiskCount
    ensures TfnCell(p, i, j) == Reciprocal(TfnCell(p, j, i))
  {
    if i < j {
      ReciprocalInvolution(UpperTfn(p, i, j));
    }
  }

  /** The crisp matrix is reciprocal: cell (i, j) times cell (j, i) is 1. */
  lemma {:induction false} CrispReciprocal(p: Pairwise, i: nat, j: nat)
    requires i < RiskCount && j < RiskCount
    ensures CrispCell(p, i, j) * CrispCell(p, j, i) == 1.0
  {
    if i < j {
      assert CrispCell(p, j, i) == 1.0 / UpperCrisp(p, i, j);
    } else if j < i {
      assert CrispCell(p, i, j) == 1.0 / UpperCrisp(p, j, i);
    }
  }

  /** Every crisp cell is the modal value of the fuzzy cell at the same position. */
  lemma {:induction false} CrispCellIsModal(p: Pairwise, i: nat, j: nat)
    requires i < RiskCount && j < RiskCount
    ensures CrispCell(p, i, j) == TfnCell(p, i, j).m
  {
    ScaleKeys();
    CrispIsModal();
    CrispPositive();
    if i < j {
      UpperCells(p, i, j);
    } else if j < i {
      UpperCells(p, j, i);
    }
  }

  // ---------------------------------------------------------------------
  // Building the matrices
  // ---------------------------------------------------------------------

  /** Pair (a, b) has been visited once the loops over i < j have passed (min(a,b), max(a,b)). */
  ghost predicate Visited(i: nat, j: nat, a: nat, b: nat) {
    var lo, hi := if a < b then a else b, if a < b then b else a;
    a != b && (lo < i || (lo == i && hi < j))
  }

  /** A 6x6 fuzzy matrix with [1,1,1] everywhere (the diagonal and the off-diagonal start alike). */
  method UnitMatrix() returns (m: array2<Tfn>)
    ensures fresh(m) && m.Length0 == RiskCount && m.Length1 == RiskCount
    ensures forall a, b :: 0 <= a < RiskCount && 0 <= b < RiskCount ==> m[a, b] == Unit
  {
    var n := RiskCount;
    m := new Tfn[n, n];
    var i := 0;
    while i < n
      invariant 0 <= i <= n
      invariant forall a, b :: 0 <= a < i && 0 <= b < n ==> m[a, b] == Unit
    {
      var j := 0;
      while j < n
        invariant 0 <= j <= n
        invariant forall a, b :: 0 <= a < i && 0 <= b < n ==> m[a, b] == Unit
        invariant forall b :: 0 <= b < j ==> m[i, b] == Unit
      {
        m[i, j] := if i == j then Unit else Unit;
        j := j + 1;
      }
      i := i + 1;
    }
  }

  /** A recognised label stored for pair i < j is the fuzzy cell (i, j). */
  lemma UpperTfnStored(p: Pairwise, i: nat, j: nat)
    requires i < j < RiskCount
    requires PairKey(i, j) in p && p[PairKey(i, j)] != "" && p[PairKey(i, j)] in FahpScale
    ensures TfnCell(p, i, j) == FahpScale[p[PairKey(i, j)]]
    ensures TfnCell(p, j, i) == Reciprocal(FahpScale[p[PairKey(i, j)]])
  {
  }

  /** Without a recognised label for pair i < j, both cells (i, j) and (j, i) are [1,1,1]. */
  lemma UpperTfnUnset(p: Pairwise, i: nat, j: nat)
    requires i < j < RiskCount
    requires !(PairKey(i, j) in p && p[PairKey(i, j)] != "" && p[PairKey(i, j)] in FahpScale)
    ensures TfnCell(p, i, j) == Unit && TfnCell(p, j, i) == Unit
  {
    assert Reciprocal(Unit) == Unit;
  }

  /** Passing pair (i, j) visits exactly it and its mirror (j, i). */
  lemma VisitedStep(i: nat, j: nat, a: nat, b: nat)
    requires i < j
    ensures Visited(i, j + 1, a, b) <==> Visited(i, j, a, b) || (a == i && b == j) || (a == j && b == i)
  {
  }

  /** Row i of the upper triangle: each recognised judgment (i, j) and its reciprocal (j, i). */
  method FillJudgmentRow(p: Pairwise, m: array2<Tfn>, i: nat)
    requires i < RiskCount && m.Length0 == RiskCount && m.Length1 == RiskCount
    requires forall a, b :: 0 <= a < RiskCount && 0 <= b < RiskCount ==>
      m[a, b] == if Visited(i, 0, a, b) then TfnCell(p, a, b) else Unit
    modifies m
    ensures forall a, b :: 0 <= a < RiskCount && 0 <= b < RiskCount ==>
      m[a, b] == if Visited(i + 1, 0, a, b) then TfnCell(p, a, b) else Unit
  {
    var n := RiskCount;
    var j := i + 1;
    while j < n
      invariant i + 1 <= j <= n
      invariant forall a, b :: 0 <= a < n && 0 <= b < n ==>
        m[a, b] == if Visited(i, j, a, b) then TfnCell(p, a, b) else Unit
    {
      var k := PairKey(i, j);
      if k in p && p[k] != "" && p[k] in FahpScale {
        UpperTfnStored(p, i, j);
        m[i, j] := FahpScale[p[k]];
        m[j, i] := Reciprocal(m[i, j]);
      } else {
        UpperTfnUnset(p, i, j);
      }
      forall a, b | 0 <= a < n && 0 <= b < n
        ensures m[a, b] == if Visited(i, j + 1, a, b) then TfnCell(p, a, b) else Unit
      {
        VisitedStep(i, j, a, b);
      }
      j := j + 1;
    }
  }

  /** The fuzzy matrix: all [1,1,1], then each recognised judgment and its reciprocal. */
  method BuildTfnMatrix(p: Pairwise) returns (m: array2<Tfn>)
    ensures fresh(m) && m.Length0 == RiskCount && m.Length1 == RiskCount
    ensures forall i, j :: 0 <= i < RiskCount && 0 <= j < RiskCount ==> m[i, j] == TfnCell(p, i, j)
  {
    var n := RiskCount;
    m := UnitMatrix();
    var i := 0;
    while i < n
      invariant 0 <= i <= n
      invariant forall a, b :: 0 <= a < n && 0 <= b < n ==>
        m[a, b] == if Visited(i, 0, a, b) then TfnCell(p, a, b) else Unit
    {
      FillJudgmentRow(p, m, i);
      i := i + 1;
    }
  }

  /** The crisp matrix, row by row: 1 on the diagonal, the crisp judgment above, reciprocals below. */
  method BuildCrispMatrix(p: Pairwise) returns (c: array2<real>)
    ensures fresh(c) && c.Length0 == RiskCount && c.Length1 == RiskCount
    ensures forall i, j :: 0 <= i < RiskCount && 0 <= j < RiskCount ==> c[i, j] == CrispCell(p, i, j)
  {
    var n := RiskCount;
    c := new real[n, n];
    var i := 0;
    while i < n
      invariant 0 <= i <= n
      invariant forall a, b :: 0 <= a < i && 0 <= b < n ==> c[a, b] == CrispCell(p, a, b)
    {
      var j := 0;
      while j < n
        invariant 0 <= j <= n
        invariant forall a, b :: 0 <= a < i && 0 <= b < n ==> c[a, b] == CrispCell(p, a, b)
        invariant forall b :: 0 <= b < j ==> c[i, b] == CrispCell(p, i, b)
      {
        if i == j {
          c[i, j] := 1.0;
        } else if i < j {
          var k := PairKey(i, j);
          CrispPositive();
          c[i, j] := if k in p && p[k] in CrispScale && CrispScale[p[k]] != 0.0 then CrispScale[p[k]] else 1.0;
        } else {
          c[i, j] := 1.0 / c[j, i];
        }
        j := j + 1;
      }
      i := i + 1;
    }
  }

  // ---------------------------------------------------------------------
  // From the fuzzy matrix to weights
  // ---------------------------------------------------------------------

  /** Component-wise product of a vector of fuzzy numbers, accumulated left to right. */
  function Product(ts: seq<Tfn>): (t: Tfn)
    ensures AllPositive(ts) ==> PositiveTfn(t)
  {
    if ts == [] then Unit else Mul(Product(ts[..|ts| - 1]), ts[|ts| - 1])
  }

  /** Row i of the fuzzy comparison matrix. */
  function Row(p: Pairwise, i: nat): (r: seq<Tfn>)
    requires i < RiskCount
    ensures |r| == RiskCount && AllPositive(r)
  {
    seq(RiskCount, j requires 0 <= j < RiskCount => TfnCell(p, i, j))
  }

  /** Row i's fuzzy synthetic value: the geometric mean of the row, component by component. */
  function GeoMean(p: Pairwise, root: real -> real, i: nat): (g: Tfn)
    requires SixthRoot(root) && i < RiskCount
    ensures PositiveTfn(g)
  {
    var t := Product(Row(p, i));
    Tfn(root(t.l), root(t.m), root(t.u))
  }

  function GeoMeans(p: Pairwise, root: real -> real): (gs: seq<Tfn>)
    requires SixthRoot(root)
    ensures |gs| == RiskCount && AllPositive(gs)
  {
    seq(RiskCount, i requires 0 <= i < RiskCount => GeoMean(p, root, i))
  }

  /** Component-wise sum of a vector of fuzzy numbers, accumulated left to right. */
  function SumTfn(ts: seq<Tfn>): (s: Tfn)
    ensures |ts| > 0 && AllPositive(ts) ==> PositiveTfn(s)
  {
    if ts == [] then Tfn(0.0, 0.0, 0.0)
    else Add(SumTfn(ts[..|ts| - 1]), ts[|ts| - 1])
  }

  /** Every component multiplied by the fuzzy number `k`. */
  function ScaleTfns(ts: seq<Tfn>, k: Tfn): (r: seq<Tfn>)
    ensures |r| == |ts|
    ensures AllPositive(ts) && PositiveTfn(k) ==> AllPositive(r)
  {
    seq(|ts|, i requires 0 <= i < |ts| => Mul(ts[i], k))
  }

  /** Fuzzy weights: each synthetic value times the inverse [1/U, 1/M, 1/L] of their sum. */
  function FuzzyWeights(gs: seq<Tfn>): (ws: seq<Tfn>)
    requires |gs| > 0 && AllPositive(gs)
    ensures |ws| == |gs| && AllPositive(ws)
  {
    ScaleTfns(gs, Reciprocal(SumTfn(gs)))
  }

  /** Centre-of-area defuzzification: the mean of the three components. */
  function Defuzzify(t: Tfn): (d: real)
    ensures PositiveTfn(t) ==> 0.0 < d
  {
    (t.l + t.m + t.u) / 3.0
  }

  function Defuzzified(ts: seq<Tfn>): (ds: seq<real>)
    ensures |ds| == |ts|
    ensures AllPositive(ts) ==> forall i :: 0 <= i < |ds| ==> 0.0 < ds[i]
  {
    seq(|ts|, i requires 0 <= i < |ts| => Defuzzify(ts[i]))
  }

  /** Sum of a vector of reals, accumulated left to right. */
  function Sum(xs: seq<real>): real {
    if xs == [] then 0.0 else Sum(xs[..|xs| - 1]) + xs[|xs| - 1]
  }

  /** Each entry divided by the sum of all entries. */
  function Normalize(xs: seq<real>): (ws: seq<real>)
    requires Sum(xs) != 0.0
    ensures |ws| == |xs|
  {
    seq(|xs|, i requires 0 <= i < |xs| => xs[i] / Sum(xs))
  }

  lemma {:induction false} SumPositive(xs: seq<real>)
    requires |xs| > 0 && forall i :: 0 <= i < |xs| ==> 0.0 < xs[i]
    ensures 0.0 < Sum(xs)
  {
    if |xs| > 1 {
      SumPositive(xs[..|xs| - 1]);
    }
  }

  /** Dividing every entry by c divides the sum by c. */
  lemma {:induction false} SumDivided(xs: seq<real>, c: real)
    requires c != 0.0
    ensures Sum(seq(|xs|, i requires 0 <= i < |xs| => xs[i] / c)) == Sum(xs) / c
  {
    var ys := seq(|xs|, i requires 0 <= i < |xs| => xs[i] / c);
    if xs != [] {
      var n := |xs|;
      var front := xs[..n - 1];
      SumDivided(front, c);
      assert ys[..n - 1] == seq(|front|, i requires 0 <= i < |front| => front[i] / c);
      assert Sum(ys) == Sum(front) / c + xs[n - 1] / c;
    }
  }

  lemma PositiveQuotient(x: real, c: real)
    requires 0.0 < x && 0.0 < c
    ensures 0.0 < x / c
  {
  }

  lemma SelfQuotient(c: real)
    requires 0.0 < c
    ensures c / c == 1.0
  {
  }

  /** Normalised positive values are a probability vector: positive and summing to 1. */
  lemma NormalizeIsDistribution(xs: seq<real>)
    requires |xs| > 0 && forall i :: 0 <= i < |xs| ==> 0.0 < xs[i]
    ensures 0.0 < Sum(xs)
    ensures Sum(Normalize(xs)) == 1.0
    ensures forall i :: 0 <= i < |xs| ==> 0.0 < Normalize(xs)[i]
  {
    SumPositive(xs);
    var c := Sum(xs);
    var ws := Normalize(xs);
    SumDivided(xs, c);
    assert ws == seq(|xs|, i requires 0 <= i < |xs| => xs[i] / c);
    SelfQuotient(c);
    forall i | 0 <= i < |xs|
      ensures 0.0 < ws[i]
    {
      PositiveQuotient(xs[i], c);
    }
  }

  /** The crisp weights: normalised defuzzified fuzzy weights. */
  function Weights(p: Pairwise, root: real -> real): (w: seq<real>)
    requires SixthRoot(root)
    ensures |w| == RiskCount
  {
    var ds := Defuzzified(FuzzyWeights(GeoMeans(p, root)));
    NormalizeIsDistribution(ds);
    Normalize(ds)
  }

  /** For every set of judgments the weights are positive and sum to 1. */
  lemma WeightsAreDistribution(p: Pairwise, root: real -> real)
    requires SixthRoot(root)
    ensures Sum(Weights(p, root)) == 1.0
    ensures forall i :: 0 <= i < RiskCount ==> 0.0 < Weights(p, root)[i]
  {
    NormalizeIsDistribution(Defuzzified(FuzzyWeights(GeoMeans(p, root))));
  }

  // ---------------------------------------------------------------------
  // Consistency
  // ---------------------------------------------------------------------

  /** (A w)_i restricted to the first k columns. */
  function RowDot(p: Pairwise, w: seq<real>, i: nat, k: nat): real
    requires |w| == RiskCount && i < RiskCount && k <= RiskCount
  {
    if k == 0 then 0.0 else RowDot(p, w, i, k - 1) + CrispCell(p, i, k - 1) * w[k - 1]
  }

  /** The consistency-vector entry (A w)_i / w_i, with a non-positive weight giving 0 instead of a division. */
  function Lambda(aw: real, w: real): (r: real)
    ensures 0.0 < w ==> r * w == aw
    ensures w <= 0.0 ==> r == 0.0
  {
    if w > 0.0 then aw / w else 0.0
  }

  function Lambdas(p: Pairwise, w: seq<real>): (ls: seq<real>)
    requires |w| == RiskCount
    ensures |ls| == RiskCount
  {
    seq(RiskCount, i requires 0 <= i < RiskCount => Lambda(RowDot(p, w, i, RiskCount), w[i]))
  }

  /** lambda_max: the mean of the consistency vector. */
  function LambdaMax(p: Pairwise, w: seq<real>): real
    requires |w| == RiskCount
  {
    Sum(Lambdas(p, w)) / (RiskCount as real)
  }

  /** CR = CI / RI[n] with CI = (lambda_max - n) / (n - 1). */
  function ConsistencyRatio(lambdaMax: real): real {
    RandomIndex();
    var n := RiskCount as real;
    ((lambdaMax - n) / (n - 1.0)) / RiTable[RiskCount]
  }

  /** The consistency gate: CR below 0.10. */
  predicate CrPass(cr: real) {
    cr < 0.10
  }

  datatype FahpResult = FahpResult(weights: seq<real>, cr: real, crPass: bool, lambdaMax: real)

  /** What calculateFAHP returns, as a function of the judgments. */
  function FahpOf(p: Pairwise, root: real -> real): FahpResult
    requires SixthRoot(root)
  {
    var w := Weights(p, root);
    var lm := LambdaMax(p, w);
    var cr := ConsistencyRatio(lm);
    FahpResult(w, cr, CrPass(cr), lm)
  }

  /** Row i of a 6x6 fuzzy matrix, as a vector. */
  function MatrixRow(m: array2<Tfn>, i: nat): (r: seq<Tfn>)
    requires i < RiskCount && m.Length0 == RiskCount && m.Length1 == RiskCount
    reads m
    ensures |r| == RiskCount && forall j :: 0 <= j < RiskCount ==> r[j] == m[i, j]
  {
    seq(RiskCount, j requires 0 <= j < RiskCount reads m => m[i, j])
  }

  lemma ProductPrefix(ts: seq<Tfn>, j: nat)
    requires j < |ts|
    ensures Product(ts[..j + 1]) == Mul(Product(ts[..j]), ts[j])
  {
    assert ts[..j + 1][..j] == ts[..j];
  }

  /** The component-wise product of row i of a 6x6 fuzzy matrix. */
  method MultiplyRow(m: array2<Tfn>, i: nat) returns (pL: real, pM: real, pU: real)
    requires i < RiskCount && m.Length0 == RiskCount && m.Length1 == RiskCount
    ensures Tfn(pL, pM, pU) == Product(MatrixRow(m, i))
  {
    ghost var row := MatrixRow(m, i);
    pL, pM, pU := 1.0, 1.0, 1.0;
    var j := 0;
    while j < RiskCount
      invariant 0 <= j <= RiskCount
      invariant Tfn(pL, pM, pU) == Product(row[..j])
    {
      ghost var before := Tfn(pL, pM, pU);
      var t := m[i, j];
      pL := pL * t.l;
      pM := pM * t.m;
      pU := pU * t.u;
      assert Tfn(pL, pM, pU) == Mul(before, row[j]);
      ProductPrefix(row, j);
      j := j + 1;
    }
    assert row[..RiskCount] == row;
  }

  /** Row by row, the sixth root of the row product, component by component. */
  method GeometricMeans(p: Pairwise, root: real -> real, tfnM: array2<Tfn>) returns (gi: seq<Tfn>)
    requires SixthRoot(root)
    requires tfnM.Length0 == RiskCount && tfnM.Length1 == RiskCount
    requires forall i, j :: 0 <= i < RiskCount && 0 <= j < RiskCount ==> tfnM[i, j] == TfnCell(p, i, j)
    ensures gi == GeoMeans(p, root)
  {
    gi := [];
    var i := 0;
    while i < RiskCount
      invariant 0 <= i <= RiskCount && |gi| == i
      invariant forall a :: 0 <= a < i ==> gi[a] == GeoMean(p, root, a)
    {
      var pL, pM, pU := MultiplyRow(tfnM, i);
      assert MatrixRow(tfnM, i) == Row(p, i);
      gi := gi + [Tfn(root(pL), root(pM), root(pU))];
      i := i + 1;
    }
  }

  /** The component-wise sum of the synthetic values, accumulated in row order. */
  method SumSynthetic(gi: seq<Tfn>) returns (gs: Tfn)
    ensures gs == SumTfn(gi)
  {
    gs := Tfn(0.0, 0.0, 0.0);
    var i := 0;
    while i < |gi|
      invariant 0 <= i <= |gi|
      invariant gs == SumTfn(gi[..i])
    {
      assert gi[..i + 1][..i] == gi[..i];
      gs := Add(gs, gi[i]);
      i := i + 1;
    }
    assert gi[..|gi|] == gi;
  }

  lemma RowDotStep(p: Pairwise, w: seq<real>, i: nat, j: nat)
    requires |w| == RiskCount && i < RiskCount && j < RiskCount
    ensures RowDot(p, w, i, j + 1) == RowDot(p, w, i, j) + CrispCell(p, i, j) * w[j]
  {
  }

  /** (A w)_i for the crisp matrix A. */
  method RowTimesWeights(p: Pairwise, crispM: array2<real>, w: seq<real>, i: nat) returns (s: real)
    requires |w| == RiskCount && i < RiskCount
    requires crispM.Length0 == RiskCount && crispM.Length1 == RiskCount
    requires forall j :: 0 <= j < RiskCount ==> crispM[i, j] == CrispCell(p, i, j)
    ensures s == RowDot(p, w, i, RiskCount)
  {
    s := 0.0;
    var j := 0;
    while j < RiskCount
      invariant 0 <= j <= RiskCount
      invariant s == RowDot(p, w, i, j)
    {
      var c := crispM[i, j];
      RowDotStep(p, w, i, j);
      s := s + c * w[j];
      j := j + 1;
    }
  }

  /** A w for the crisp matrix A, row by row. */
  method CrispTimesWeights(p: Pairwise, crispM: array2<real>, w: seq<real>) returns (aw: seq<real>)
    requires |w| == RiskCount
    requires crispM.Length0 == RiskCount && crispM.Length1 == RiskCount
    requires forall i, j :: 0 <= i < RiskCount && 0 <= j < RiskCount ==> crispM[i, j] == CrispCell(p, i, j)
    ensures |aw| == RiskCount
    ensures forall i :: 0 <= i < RiskCount ==> aw[i] == RowDot(p, w, i, RiskCount)
  {
    aw := [];
    var i := 0;
    while i < RiskCount
      invariant 0 <= i <= RiskCount && |aw| == i
      invariant forall a :: 0 <= a < i ==> aw[a] == RowDot(p, w, a, RiskCount)
    {
      var s := RowTimesWeights(p, crispM, w, i);
      aw := aw + [s];
      i := i + 1;
    }
  }

  /** The weighting half of calculateFAHP: fuzzy matrix, geometric means, fuzzy weights, normalised crisp weights. */
  method FuzzyWeighting(p: Pairwise, root: real -> real) returns (weights: seq<real>)
    requires SixthRoot(root)
    ensures weights == Weights(p, root)
  {
    var tfnM := BuildTfnMatrix(p);
    var gi := GeometricMeans(p, root, tfnM);
    var gs := SumSynthetic(gi);
    var gsI := Reciprocal(gs);
    var wi := ScaleTfns(gi, gsI);
    var wS := Defuzzified(wi);
    NormalizeIsDistribution(wS);
    weights := Normalize(wS);
  }

  /** The consistency half of calculateFAHP: crisp matrix, A w, lambda_max and CR. */
  method Consistency(p: Pairwise, weights: seq<real>) returns (lambdaMax: real, cr: real)
    requires |weights| == RiskCount
    ensures lambdaMax == LambdaMax(p, weights) && cr == ConsistencyRatio(lambdaMax)
  {
    var n := RiskCount;
    var crispM := BuildCrispMatrix(p);
    var aw := CrispTimesWeights(p, crispM, weights);
    var lambdas := seq(n, k requires 0 <= k < n => Lambda(aw[k], weights[k]));
    assert lambdas == Lambdas(p, weights);
    lambdaMax := Sum(lambdas) / (n as real);
    cr := ConsistencyRatio(lambdaMax);
  }

  /** calculateFAHP: the matrices, geometric means, fuzzy weights, defuzzified normalised weights and CR. */
  method CalculateFahp(p: Pairwise, root: real -> real) returns (r: FahpResult)
    requires SixthRoot(root)
    ensures r == FahpOf(p, root)
    ensures |r.weights| == RiskCount && Sum(r.weights) == 1.0
    ensures forall i :: 0 <= i < RiskCount ==> 0.0 < r.weights[i]
    ensures r.crPass <==> r.cr < 0.10
  {
    var weights := FuzzyWeighting(p, root);
    WeightsAreDistribution(p, root);
    var lambdaMax, cr := Consistency(p, weights);
    r := FahpResult(weights, cr, cr < 0.10, lambdaMax);
  }

  // ---------------------------------------------------------------------
  // All judgments "equal importance"
  // ---------------------------------------------------------------------

  /** Every stored judgment is SI (no judgment stored at all included). */
  predicate AllEqualImportance(p: Pairwise) {
    forall k :: k in p ==> p[k] == "SI"
  }

  lemma {:induction false} AllEqualCells(p: Pairwise, i: nat, j: nat)
    requires AllEqualImportance(p) && i < RiskCount && j < RiskCount
    ensures TfnCell(p, i, j) == Unit && CrispCell(p, i, j) == 1.0
  {
    if i < j {
      UpperCells(p, i, j);
    } else if j < i {
      UpperCells(p, j, i);
    }
  }

  lemma {:induction false} ProductOfUnits(ts: seq<Tfn>)
    requires forall j :: 0 <= j < |ts| ==> ts[j] == Unit
    ensures Product(ts) == Unit
  {
    if ts != [] {
      ProductOfUnits(ts[..|ts| - 1]);
    }
  }

  lemma AllEqualRowProduct(p: Pairwise, i: nat)
    requires AllEqualImportance(p) && i < RiskCount
    ensures Product(Row(p, i)) == Unit
  {
    forall j | 0 <= j < RiskCount ensures Row(p, i)[j] == Unit {
      AllEqualCells(p, i, j);
    }
    ProductOfUnits(Row(p, i));
  }

  lemma {:induction false} AllEqualRowDot(p: Pairwise, w: seq<real>, i: nat, k: nat)
    requires AllEqualImportance(p) && i < RiskCount && k <= RiskCount
    requires |w| == RiskCount && forall j :: 0 <= j < RiskCount ==> w[j] == 1.0 / 6.0
    ensures RowDot(p, w, i, k) == (k as real) / 6.0
  {
    if k > 0 {
      AllEqualRowDot(p, w, i, k - 1);
      AllEqualCells(p, i, k - 1);
    }
  }

  /** Equal entries normalise to 1/n each. */
  lemma {:induction false} SumConstant(xs: seq<real>, x: real)
    requires forall i :: 0 <= i < |xs| ==> xs[i] == x
    ensures Sum(xs) == (|xs| as real) * x
  {
    if xs != [] {
      SumConstant(xs[..|xs| - 1], x);
    }
  }

  /** Equal positive entries normalise to 1/n each. */
  lemma NormalizeConstant(xs: seq<real>)
    requires |xs| > 0 && 0.0 < xs[0]
    requires forall i :: 0 <= i < |xs| ==> xs[i] == xs[0]
    ensures Sum(xs) != 0.0
    ensures forall i :: 0 <= i < |xs| ==> Normalize(xs)[i] == 1.0 / (|xs| as real)
  {
    var n, x := |xs| as real, xs[0];
    SumConstant(xs, x);
    assert Sum(xs) == n * x;
    DivCancel(x, n);
    forall i | 0 <= i < |xs| ensures Normalize(xs)[i] == 1.0 / n {
      assert Normalize(xs)[i] == x / Sum(xs);
    }
  }

  lemma DivCancel(x: real, n: real)
    requires 0.0 < x && 0.0 < n
    ensures n * x != 0.0 && x / (n * x) == 1.0 / n
  {
    assert (1.0 / n) * (n * x) == x;
  }

  /** Equal synthetic values give equal defuzzified fuzzy weights. */
  lemma DefuzzifiedConstant(gs: seq<Tfn>)
    requires |gs| > 0 && AllPositive(gs)
    requires forall i :: 0 <= i < |gs| ==> gs[i] == gs[0]
    ensures var ds := Defuzzified(FuzzyWeights(gs));
      0.0 < ds[0] && forall i :: 0 <= i < |ds| ==> ds[i] == ds[0]
  {
  }

  lemma AllEqualGeoMeans(p: Pairwise, root: real -> real)
    requires SixthRoot(root) && AllEqualImportance(p)
    ensures forall i :: 0 <= i < RiskCount ==> GeoMeans(p, root)[i] == GeoMeans(p, root)[0]
  {
    AllEqualRowProduct(p, 0);
    forall i | 0 <= i < RiskCount ensures GeoMeans(p, root)[i] == GeoMeans(p, root)[0] {
      AllEqualRowProduct(p, i);
    }
  }

  /** With all judgments "equal importance" every weight is 1/6. */
  lemma AllEqualWeights(p: Pairwise, root: real -> real)
    requires SixthRoot(root) && AllEqualImportance(p)
    ensures Weights(p, root) == seq(RiskCount, i => 1.0 / 6.0)
  {
    var gs := GeoMeans(p, root);
    AllEqualGeoMeans(p, root);
    DefuzzifiedConstant(gs);
    var ds := Defuzzified(FuzzyWeights(gs));
    NormalizeConstant(ds);
  }

  /** lambda_max = n gives a consistency ratio of 0. */
  lemma ConsistencyAtSix()
    ensures ConsistencyRatio(6.0) == 0.0
  {
    RandomIndex();
  }

  /** With all judgments "equal importance" and weights 1/6, every lambda_i is 6. */
  lemma AllEqualLambdas(p: Pairwise, w: seq<real>)
    requires AllEqualImportance(p) && w == seq(RiskCount, i => 1.0 / 6.0)
    ensures forall i :: 0 <= i < RiskCount ==> Lambdas(p, w)[i] == 6.0
  {
    forall i | 0 <= i < RiskCount ensures Lambdas(p, w)[i] == 6.0 {
      AllEqualRowDot(p, w, i, RiskCount);
    }
  }

  /** With all judgments "equal importance" and weights 1/6, lambda_max is 6. */
  lemma AllEqualLambdaMax(p: Pairwise, w: seq<real>)
    requires AllEqualImportance(p) && w == seq(RiskCount, i => 1.0 / 6.0)
    ensures LambdaMax(p, w) == 6.0
  {
    AllEqualLambdas(p, w);
    SumConstant(Lambdas(p, w), 6.0);
  }

  /**
   * When every judgment is "equal importance" (or absent), the six weights
   * are 1/6 each, lambda_max is 6, the consistency ratio is 0 and the gate passes.
   */
  lemma AllEqualJudgments(p: Pairwise, root: real -> real)
    requires SixthRoot(root) && AllEqualImportance(p)
    ensures FahpOf(p, root).weights == seq(RiskCount, i => 1.0 / 6.0)
    ensures FahpOf(p, root).lambdaMax == 6.0
    ensures FahpOf(p, root).cr == 0.0 && FahpOf(p, root).crPass
  {
    AllEqualWeights(p, root);
    AllEqualLambdaMax(p, Weights(p, root));
    ConsistencyAtSix();
  }
}
