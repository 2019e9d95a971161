/**
 * The fixed reference catalogs of the decision engine: the six risk
 * categories, the fuzzy and crisp pairwise-comparison scales, the Random
 * Index table and the two construct-item catalogs.  All of them are
 * immutable values.
 */
module Constants {

  /** A risk category of the catalog. */
  datatype Risk = Risk(code: string, name: string, fullName: string, color: string)

  /** The risk catalog; its order fixes matrix indices and pair keys. */
  const Risks: seq<Risk> := [
    Risk("R1", "DCC", "Design–Construction–Commissioning", "#3498db"),
    Risk("R2", "Financial", "Financial", "#2ecc71"),
    Risk("R3", "Operations", "Operations", "#9b59b6"),
    Risk("R4", "Revenue", "Revenue", "#e74c3c"),
    Risk("R5", "Interface", "Interface", "#f39c12"),
    Risk("R6", "Political", "Political", "#1abc9c")
  ]

  /** Number of risks, the order `n` of every comparison matrix. */
  const RiskCount: nat := 6

  /** The code of the `i`-th risk. */
  function Code(i: nat): string
    requires i < RiskCount
  {
    Risks[i].code
  }

  /** The codes of the first k risks. */
  function CodesBelow(k: nat): set<string>
    requires k <= RiskCount
  {
    if k == 0 then {} else CodesBelow(k - 1) + {Code(k - 1)}
  }

  /** The codes of the catalog, as a set. */
  function RiskCodes(): set<string> {
    CodesBelow(RiskCount)
  }

  /** A code is among the first k exactly when one of the first k risks carries it. */
  lemma {:induction false} CodesBelowMembers(k: nat)
    requires k <= RiskCount
    ensures forall c :: c in CodesBelow(k) <==> exists i :: 0 <= i < k && Code(i) == c
  {
    if k > 0 {
      CodesBelowMembers(k - 1);
    }
  }

  /** The catalog's codes are R1 to R6. */
  lemma RiskCodesValue()
    ensures RiskCodes() == {"R1", "R2", "R3", "R4", "R5", "R6"}
  {
  }

  /** The catalog has six distinct codes. */
  lemma {:induction false} CodesBelowSize(k: nat)
    requires k <= RiskCount
    ensures |CodesBelow(k)| == k
  {
    if k > 0 {
      CodesBelowSize(k - 1);
      CodesBelowMembers(k - 1);
      forall i | 0 <= i < k - 1
        ensures Code(i) != Code(k - 1)
      {
        CodesDistinct(i, k - 1);
      }
      assert Code(k - 1) !in CodesBelow(k - 1);
    }
  }

  /** Every catalog code is among the catalog's codes. */
  lemma CodeInRiskCodes(i: nat)
    requires i < RiskCount
    ensures Code(i) in RiskCodes()
  {
    CodesBelowMembers(RiskCount);
  }

  /** Different positions of the catalog carry different codes. */
  lemma CodesDistinct(i: nat, j: nat)
    requires i < RiskCount && j < RiskCount && i != j
    ensures Code(i) != Code(j)
  {
    RisksCatalog();
    if j < i {
      assert Code(j) != Code(i);
    }
  }

  /** The key under which the judgment of risk `i` against risk `j` is stored, e.g. "R1_R2". */
  function PairKey(i: nat, j: nat): string
    requires i < RiskCount && j < RiskCount
  {
    Code(i) + "_" + Code(j)
  }

  lemma RisksCatalog()
    ensures |Risks| == RiskCount
    ensures Code(0) == "R1" && Code(1) == "R2" && Code(2) == "R3"
    ensures Code(3) == "R4" && Code(4) == "R5" && Code(5) == "R6"
    ensures forall i, j :: 0 <= i < j < RiskCount ==> Code(i) != Code(j)
  {
  }

  /** Every code is two characters long, so a pair key splits back into its two codes. */
  lemma {:induction false} PairKeyParts(i: nat, j: nat)
    requires i < RiskCount && j < RiskCount
    ensures |PairKey(i, j)| == 5
    ensures PairKey(i, j)[..2] == Code(i) && PairKey(i, j)[3..] == Code(j)
  {
    assert |Code(i)| == 2 && |Code(j)| == 2;
    var k := PairKey(i, j);
    assert k[..2] == Code(i);
    assert k[3..] == Code(j);
  }

  /** Distinct pairs of risks are stored under distinct keys. */
  lemma {:induction false} PairKeyInjective(i: nat, j: nat, a: nat, b: nat)
    requires i < RiskCount && j < RiskCount && a < RiskCount && b < RiskCount
    requires PairKey(i, j) == PairKey(a, b)
    ensures i == a && j == b
  {
    PairKeyParts(i, j);
    PairKeyParts(a, b);
    RisksCatalog();
    assert Code(i) == Code(a) && Code(j) == Code(b);
  }

  /** Keys of different pairs differ: in their first code or in their second. */
  lemma PairKeyDistinct(i: nat, j: nat, a: nat, b: nat)
    requires i < RiskCount && j < RiskCount && a < RiskCount && b < RiskCount
    requires i != a || j != b
    ensures PairKey(i, j) != PairKey(a, b)
  {
    PairKeyParts(i, j);
    PairKeyParts(a, b);
    if i != a {
      CodesDistinct(i, a);
      assert PairKey(i, j)[..2] != PairKey(a, b)[..2];
    } else {
      CodesDistinct(j, b);
      assert PairKey(i, j)[3..] != PairKey(a, b)[3..];
    }
  }

  /** A triangular fuzzy number (lower, modal, upper). */
  datatype Tfn = Tfn(l: real, m: real, u: real)

  /** The crisp judgment "equal importance", as a fuzzy number. */
  const Unit: Tfn := Tfn(1.0, 1.0, 1.0)

  predicate PositiveTfn(t: Tfn) {
    0.0 < t.l && 0.0 < t.m && 0.0 < t.u
  }

  predicate OrderedTfn(t: Tfn) {
    t.l <= t.m <= t.u
  }

  /** The reciprocal of a positive fuzzy number: [1/u, 1/m, 1/l]. */
  function Reciprocal(t: Tfn): (r: Tfn)
    requires PositiveTfn(t)
    ensures PositiveTfn(r)
    ensures OrderedTfn(t) ==> OrderedTfn(r)
  {
    Tfn(1.0 / t.u, 1.0 / t.m, 1.0 / t.l)
  }

  /** Reciprocation is an involution on positive fuzzy numbers. */
  lemma ReciprocalInvolution(t: Tfn)
    requires PositiveTfn(t)
    ensures Reciprocal(Reciprocal(t)) == t
  {
  }

  /** The nine linguistic labels of the scale. */
  const Labels: seq<string> := ["SI", "SLI", "LI", "SVI", "EI", "1/SLI", "1/LI", "1/SVI", "1/EI"]

  /** The labels that have a distinct reciprocal label "1/X". */
  const BaseLabels: seq<string> := ["SLI", "LI", "SVI", "EI"]

  /** Linguistic label to triangular fuzzy number. */
  const FahpScale: map<string, Tfn> := map[
    "SI" := Tfn(1.0, 1.0, 1.0),
    "SLI" := Tfn(1.0, 2.0, 3.0),
    "LI" := Tfn(2.0, 3.0, 4.0),
    "SVI" := Tfn(3.0, 4.0, 5.0),
    "EI" := Tfn(4.0, 5.0, 6.0),
    "1/SLI" := Tfn(1.0 / 3.0, 1.0 / 2.0, 1.0),
    "1/LI" := Tfn(1.0 / 4.0, 1.0 / 3.0, 1.0 / 2.0),
    "1/SVI" := Tfn(1.0 / 5.0, 1.0 / 4.0, 1.0 / 3.0),
    "1/EI" := Tfn(1.0 / 6.0, 1.0 / 5.0, 1.0 / 4.0)
  ]

  /** Linguistic label to crisp (Saaty) value. */
  const CrispScale: map<string, real> := map[
    "SI" := 1.0,
    "SLI" := 2.0,
    "LI" := 3.0,
    "SVI" := 4.0,
    "EI" := 5.0,
    "1/SLI" := 1.0 / 2.0,
    "1/LI" := 1.0 / 3.0,
    "1/SVI" := 1.0 / 4.0,
    "1/EI" := 1.0 / 5.0
  ]

  /** Saaty's Random Index by matrix order. */
  const RiTable: map<int, real> := map[1 := 0.0, 2 := 0.0, 3 := 0.58, 4 := 0.90, 5 := 1.12, 6 := 1.24]

  /** Both scales are defined on exactly the nine labels. */
  lemma ScaleKeys()
    ensures FahpScale.Keys == CrispScale.Keys
    ensures forall v :: v in FahpScale <==> v in Labels
  {
  }

  /** Every fuzzy number of the scale is positive and ordered lower <= modal <= upper. */
  lemma ScaleShape()
    ensures forall v :: v in FahpScale ==> PositiveTfn(FahpScale[v]) && OrderedTfn(FahpScale[v])
  {
  }

  /** The crisp value of every label is positive. */
  lemma CrispPositive()
    ensures forall v :: v in CrispScale ==> 0.0 < CrispScale[v]
  {
  }

  /** "1/X" is the reciprocal of X on the fuzzy scale, and SI is its own reciprocal. */
  lemma ScaleReciprocity()
    ensures forall x :: x in BaseLabels ==>
      x in FahpScale && "1/" + x in FahpScale && FahpScale["1/" + x] == Reciprocal(FahpScale[x])
    ensures FahpScale["SI"] == Unit && Reciprocal(Unit) == Unit
  {
    assert "1/" + "SLI" == "1/SLI";
    assert "1/" + "LI" == "1/LI";
    assert "1/" + "SVI" == "1/SVI";
    assert "1/" + "EI" == "1/EI";
  }

  /** "1/X" is the reciprocal of X on the crisp scale, and SI is 1. */
  lemma CrispReciprocity()
    ensures forall x :: x in BaseLabels ==>
      x in CrispScale && "1/" + x in CrispScale && CrispScale["1/" + x] * CrispScale[x] == 1.0
    ensures CrispScale["SI"] == 1.0
  {
    assert "1/" + "SLI" == "1/SLI";
    assert "1/" + "LI" == "1/LI";
    assert "1/" + "SVI" == "1/SVI";
    assert "1/" + "EI" == "1/EI";
  }

  /** The crisp value of every label is the modal value of its fuzzy number. */
  lemma CrispIsModal()
    ensures forall v :: v in CrispScale ==> v in FahpScale && CrispScale[v] == FahpScale[v].m
  {
  }

  /** The Random Index is zero for orders 1 and 2 and 1.24 for the engine's order 6. */
  lemma RandomIndex()
    ensures RiTable[1] == 0.0 && RiTable[2] == 0.0
    ensures RiTable[RiskCount] == 1.24
    ensures forall n :: n in RiTable && 0.0 < RiTable[n] <==> 3 <= n <= 6
  {
  }

  /** The project phases, in order. */
  const Phases: seq<string> := ["Perencanaan", "Penyiapan", "Transaksi", "Implementasi"]

  /** The survey's pages; a page's position is its index. */
  const Steps: seq<string> := [
    "Mulai", "Persetujuan", "Screening", "Proyek", "FAHP", "LCM", "PAT T1", "PAT T2", "Review", "Hasil"
  ]

  /** The agency-theory constructs the survey items measure. */
  datatype Construct = Control | Info | Verifiability | Externality | Capacity | Incentives

  /** A survey item: its code, the construct it measures and whether it is reverse-scored. */
  datatype Item = Item(code: string, construct: Construct, reverse: bool)

  /** Tier-1 items (public authority and delivery vehicle). */
  const Pat1Items: seq<Item> := [
    Item("PAT1-01", Control, false),
    Item("PAT1-02", Control, false),
    Item("PAT1-03", Info, false),
    Item("PAT1-04", Info, false),
    Item("PAT1-05", Verifiability, false),
    Item("PAT1-06", Verifiability, false),
    Item("PAT1-07", Externality, true),
    Item("PAT1-08", Externality, true),
    Item("PAT1-09", Capacity, false),
    Item("PAT1-10", Capacity, false),
    Item("PAT1-11", Incentives, false),
    Item("PAT1-12", Incentives, false)
  ]

  /** Tier-2 items (delivery vehicle and operating/construction party). */
  const Pat2Items: seq<Item> := [
    Item("PAT2-01", Control, false),
    Item("PAT2-02", Control, false),
    Item("PAT2-03", Verifiability, false),
    Item("PAT2-04", Verifiability, false),
    Item("PAT2-05", Incentives, false),
    Item("PAT2-06", Incentives, false),
    Item("PAT2-07", Capacity, false),
    Item("PAT2-08", Capacity, false)
  ]

  /** The number of items of `items` that measure construct `c`. */
  function CountConstruct(items: seq<Item>, c: Construct): (n: nat)
    ensures n <= |items|
  {
    if items == [] then 0
    else CountConstruct(items[..|items| - 1], c) + (if items[|items| - 1].construct == c then 1 else 0)
  }

  lemma {:induction false} CountConstructAppend(a: seq<Item>, b: seq<Item>, c: Construct)
    ensures CountConstruct(a + b, c) == CountConstruct(a, c) + CountConstruct(b, c)
    decreases |b|
  {
    if b != [] {
      assert (a + b)[..|a + b| - 1] == a + b[..|b| - 1];
      CountConstructAppend(a, b[..|b| - 1], c);
    } else {
      assert a + b == a;
    }
  }

  lemma CountConstructPair(x: Item, y: Item, c: Construct)
    ensures CountConstruct([x, y], c) == (if x.construct == c then 1 else 0) + (if y.construct == c then 1 else 0)
  {
    assert [x, y][..1] == [x];
    assert [x][..0] == [];
  }

  predicate DistinctCodes(items: seq<Item>) {
    forall i, j :: 0 <= i < j < |items| ==> items[i].code != items[j].code
  }

  lemma Tier1Catalog()
    ensures |Pat1Items| == 12
    ensures forall i :: 0 <= i < |Pat1Items| ==>
      (Pat1Items[i].reverse <==> Pat1Items[i].code in {"PAT1-07", "PAT1-08"})
    ensures forall i :: 0 <= i < |Pat1Items| && Pat1Items[i].reverse ==> Pat1Items[i].construct == Externality
  {
  }

  /** The twelve tier-1 item codes are pairwise distinct. */
  lemma Tier1Distinct()
    ensures DistinctCodes(Pat1Items)
  {
    forall i, j | 0 <= i < j < |Pat1Items| ensures Pat1Items[i].code != Pat1Items[j].code {
      assert Pat1Items[i].code[5..] != Pat1Items[j].code[5..];
    }
  }

  /** Tier-1 measures each of the six constructs with exactly two items. */
  lemma Tier1Counts()
    ensures forall c :: CountConstruct(Pat1Items, c) == 2
  {
    forall c ensures CountConstruct(Pat1Items, c) == 2 {
      Tier1CountOf(c);
    }
  }

  lemma Tier1CountOf(c: Construct)
    ensures CountConstruct(Pat1Items, c) == 2
  {
    var s := Pat1Items;
    var p0, p1, p2 := [s[0], s[1]], [s[2], s[3]], [s[4], s[5]];
    var p3, p4, p5 := [s[6], s[7]], [s[8], s[9]], [s[10], s[11]];
    assert s == p0 + p1 + p2 + p3 + p4 + p5;
    CountConstructAppend(p0 + p1 + p2 + p3 + p4, p5, c);
    CountConstructAppend(p0 + p1 + p2 + p3, p4, c);
    CountConstructAppend(p0 + p1 + p2, p3, c);
    CountConstructAppend(p0 + p1, p2, c);
    CountConstructAppend(p0, p1, c);
    CountConstructPair(s[0], s[1], c);
    CountConstructPair(s[2], s[3], c);
    CountConstructPair(s[4], s[5], c);
    CountConstructPair(s[6], s[7], c);
    CountConstructPair(s[8], s[9], c);
    CountConstructPair(s[10], s[11], c);
  }

  lemma Tier2Catalog()
    ensures |Pat2Items| == 8 && DistinctCodes(Pat2Items)
    ensures forall i :: 0 <= i < |Pat2Items| ==> !Pat2Items[i].reverse
  {
  }

  /** Tier-2 measures Control, Verifiability, Incentives and Capacity with exactly two items each. */
  lemma Tier2Counts()
    ensures forall c :: CountConstruct(Pat2Items, c) == (if c in {Control, Verifiability, Incentives, Capacity} then 2 else 0)
  {
    forall c ensures CountConstruct(Pat2Items, c) == (if c in {Control, Verifiability, Incentives, Capacity} then 2 else 0) {
      Tier2CountOf(c);
    }
  }

  lemma Tier2CountOf(c: Construct)
    ensures CountConstruct(Pat2Items, c) == (if c in {Control, Verifiability, Incentives, Capacity} then 2 else 0)
  {
    var s := Pat2Items;
    var p0, p1, p2, p3 := [s[0], s[1]], [s[2], s[3]], [s[4], s[5]], [s[6], s[7]];
    assert s == p0 + p1 + p2 + p3;
    CountConstructAppend(p0 + p1 + p2, p3, c);
    CountConstructAppend(p0 + p1, p2, c);
    CountConstructAppend(p0, p1, c);
    CountConstructPair(s[0], s[1], c);
    CountConstructPair(s[2], s[3], c);
    CountConstructPair(s[4], s[5], c);
    CountConstructPair(s[6], s[7], c);
  }
}
