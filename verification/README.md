# KPBU SPAM risk-allocation engine, modelled in Dafny

This project models the decision engine of the KPBU SPAM survey. One
respondent's answers become a recommendation for each of the six risk
categories of a drinking-water public-private partnership (R1 design and
construction, R2 financial, R3 operations, R4 revenue, R5 interface, R6
political). The model covers:

- **Reference catalogs** (`constants.dfy`): the risk list, the fuzzy and
  crisp pairwise-comparison scales, Saaty's Random Index table and the
  tier-1 and tier-2 survey items.
- **Fuzzy-AHP weighting** (`fahp.dfy`, `calculateFAHP`):
  - builds the 6x6 fuzzy and crisp comparison matrices from sparse judgments;
  - derives the weights by Buckley's geometric-mean method;
  - checks consistency with `CR < 0.10`.
- **Lifecycle pass-through** (`lifecycle.dfy`, `calculateLCM`).
- **Construct aggregation** (`pat.dfy`, `calculatePAT`): per risk and tier,
  answers are bucketed by construct and each bucket is averaged; reverse
  scoring and "TT" ("don't know") counting are included.
- **Allocation rules** (`allocation.dfy`, `determineAllocation`,
  `deriveMitigationControls`): stated twice, as ordered first-match decision
  tables and as the engine's if-chain, and proved to agree.
- **Governance locks** (`governance.dfy`, `determineGovernanceLocks`):
  clauses are appended block by block, a fallback block is added when fewer
  than three were appended, then the list is de-duplicated in
  first-occurrence order and capped at six.
- **Confidence grading** (`confidence.dfy`, `determineConfidence`).
- **Survey form helpers** (`survey.dfy`):
  - enumeration of the fifteen comparison pairs;
  - keyed updates of the answers;
  - phase toggling and page navigation;
  - the completeness checks that gate each page and the final review.

The engine's procedures are imperative: loops over matrices, pushes onto
lists and if-chains. Each becomes a Dafny `method` proved equal to a
specification function. The properties are proved about those functions.

Scores are `number | null`. JavaScript's relational operators coerce `null`
to `0`, so `null < 3` holds and `null >= 4` does not. The model compares
through `Allocation.Num`, which maps `None` to `0.0`. The confidence grading
tests `=== null` explicitly, and the model tests `None?` there.

A null score could be expected to fail every comparison. The code does
not do this, and the model follows the code. Two consequences are proved:

- a missing tier-1 Control always keeps the risk public
  (`Allocation.NullControlIsPublic`);
- a missing raw Externality passes the `<= 3` test of the transfer rule
  (`Allocation.NullExternalityPasses`).

Two more consequences of the code are proved:

- **Mitigation cap.** The cap of five mitigation controls drops the
  milestone payment trigger when verifiability is weak and control is at
  least 3 (`Allocation.MitigationListShape`).
- **Governance cap.** The cap of six governance locks can crowd out the
  dual-role safeguards entirely (`Governance.DualRoleCrowdedOut`).

Floating-point arithmetic is modelled over exact reals. `Math.pow(x, 1/6)`
becomes a parameter `root` that must be the positive sixth root.

## Model

| member | source | states |
|---|---|---|
| Constants.RisksCatalog | src/lib/constants.ts:2-9 | six risks with codes R1..R6 in that order, pairwise distinct |
| Constants.RiskCodesValue | src/lib/constants.ts:2-9 | the set of catalog codes is exactly {R1, ..., R6} |
| Constants.CodesBelowMembers | src/lib/constants.ts:2-9 | a code is among the first k catalog codes iff one of the first k risks carries it |
| Constants.CodesBelowSize | src/lib/constants.ts:2-9 | the first k risks carry k distinct codes |
| Constants.CodesDistinct | src/lib/constants.ts:2-9 | different catalog positions carry different codes |
| Constants.CodeInRiskCodes | src/lib/constants.ts:2-9 | every catalog risk's code is among the catalog codes |
| Constants.PairKeyParts | src/lib/calculations.ts:18 | a pair key `Ri_Rj` has five characters and splits back into its two codes |
| Constants.PairKeyInjective | src/lib/calculations.ts:18 | equal pair keys come from the same pair of risks |
| Constants.PairKeyDistinct | src/lib/calculations.ts:18 | different pairs of risks have different keys |
| Constants.ReciprocalInvolution | src/lib/calculations.ts:22 | the fuzzy reciprocal [1/u, 1/m, 1/l] is an involution on positive fuzzy numbers |
| Constants.ScaleKeys | src/lib/constants.ts:16-38 | both scales are defined on exactly the nine labels |
| Constants.ScaleShape | src/lib/constants.ts:16-26 | every fuzzy number of the scale is positive and ordered l <= m <= u |
| Constants.CrispPositive | src/lib/constants.ts:28-38 | every crisp scale value is positive |
| Constants.ScaleReciprocity | src/lib/constants.ts:16-26 | for X in SLI, LI, SVI, EI the fuzzy number of 1/X is the reciprocal of X's; SI is [1,1,1] and its own reciprocal |
| Constants.CrispReciprocity | src/lib/constants.ts:28-38 | crisp(1/X) * crisp(X) == 1 for the four base labels, and crisp(SI) == 1 |
| Constants.CrispIsModal | src/lib/constants.ts:16-38 | every crisp value equals the modal component of the same label's fuzzy number |
| Constants.RandomIndex | src/lib/constants.ts:40-42 | RI is 0 for n = 1, 2 and 1.24 for n = 6, and positive exactly for n in 3..6 |
| Constants.Tier1Catalog | src/lib/constants.ts:59-72 | twelve tier-1 items; exactly PAT1-07 and PAT1-08 are reverse-scored, and both measure Externality |
| Constants.Tier1Distinct | src/lib/constants.ts:59-72 | the twelve tier-1 item codes are pairwise distinct |
| Constants.Tier1Counts | src/lib/constants.ts:59-72 | each of the six constructs has exactly two tier-1 items |
| Constants.Tier1CountOf | src/lib/constants.ts:59-72 | any one construct has exactly two tier-1 items |
| Constants.Tier2Catalog | src/lib/constants.ts:75-84 | eight tier-2 items with distinct codes and no reverse flag |
| Constants.Tier2Counts | src/lib/constants.ts:75-84 | Control, Verifiability, Incentives and Capacity have two tier-2 items each; the others none |
| Constants.Tier2CountOf | src/lib/constants.ts:75-84 | the same count, for one construct |
| Fahp.TfnCell | src/lib/calculations.ts:8-25 | every fuzzy matrix cell is positive |
| Fahp.CrispCell | src/lib/calculations.ts:59-71 | every crisp matrix cell is positive |
| Fahp.UnitDiagonal | src/lib/calculations.ts:12-63 | both matrices have [1,1,1] and 1 on the diagonal |
| Fahp.UpperCells | src/lib/calculations.ts:16-66 | above the diagonal a recognised label gives its fuzzy and crisp scale values; a missing, empty or unrecognised label gives [1,1,1] and 1 (for a label naming a built-in object member the engine throws instead; see Left out) |
| Fahp.TfnReciprocal | src/lib/calculations.ts:22 | fuzzy cell (i, j) is the reciprocal of fuzzy cell (j, i) |
| Fahp.CrispReciprocal | src/lib/calculations.ts:67-68 | crisp cell (i, j) times crisp cell (j, i) is 1 |
| Fahp.CrispCellIsModal | src/lib/calculations.ts:8-71 | every crisp cell is the modal component of the fuzzy cell at the same position |
| Fahp.UnitMatrix | src/lib/calculations.ts:8-14 | the first double loop leaves [1,1,1] in every cell |
| Fahp.UpperTfnStored | src/lib/calculations.ts:20-22 | a recognised stored label fixes fuzzy cell (i, j) and its mirror (j, i) |
| Fahp.UpperTfnUnset | src/lib/calculations.ts:20 | without a recognised label both mirrored cells stay [1,1,1] (a built-in object member name is outside this claim; see Left out) |
| Fahp.FillJudgmentRow | src/lib/calculations.ts:17-24 | after row i every visited pair holds its fuzzy cell and every other cell is still [1,1,1] |
| Fahp.BuildTfnMatrix | src/lib/calculations.ts:8-25 | the built 6x6 array equals the fuzzy cell function at every position |
| Fahp.BuildCrispMatrix | src/lib/calculations.ts:59-71 | the built 6x6 array equals the crisp cell function at every position |
| Fahp.MultiplyRow | src/lib/calculations.ts:30-35 | (pL, pM, pU) is the component-wise product of the row |
| Fahp.GeometricMeans | src/lib/calculations.ts:28-37 | the synthetic values are the sixth roots of the row products, row by row |
| Fahp.GeoMeans | src/lib/calculations.ts:28-37 | there are six synthetic values, each a positive fuzzy number |
| Fahp.SumSynthetic | src/lib/calculations.ts:40-45 | the accumulated sum equals the component-wise sum of the synthetic values |
| Fahp.FuzzyWeights | src/lib/calculations.ts:48-51 | multiplying by the reciprocal of the positive sum keeps every fuzzy weight positive |
| Fahp.Defuzzified | src/lib/calculations.ts:54 | the centroid (l + m + u) / 3 of positive fuzzy numbers is positive |
| Fahp.NormalizeIsDistribution | src/lib/calculations.ts:54-56 | normalising positive values gives positive entries that sum to 1 |
| Fahp.WeightsAreDistribution | src/lib/calculations.ts:47-56 | for every set of judgments the weights are positive and sum to 1 |
| Fahp.Lambda | src/lib/calculations.ts:83 | a positive weight gives lambda with lambda * w = (A w)_i; a non-positive weight gives 0 instead of a division |
| Fahp.RowTimesWeights | src/lib/calculations.ts:76-80 | the inner loop computes (A w)_i |
| Fahp.CrispTimesWeights | src/lib/calculations.ts:73-81 | the loop computes every entry of A w |
| Fahp.FuzzyWeighting | src/lib/calculations.ts:8-56 | the weighting half returns the specification's weights |
| Fahp.Consistency | src/lib/calculations.ts:59-86 | the consistency half returns lambda_max and CR as specified |
| Fahp.CalculateFahp | src/lib/calculations.ts:4-94 | the result is the specified one; its weights are positive and sum to 1; CRPass holds exactly when CR < 0.10 |
| Fahp.AllEqualCells | src/lib/calculations.ts:8-71 | with every judgment SI or absent, every cell is [1,1,1] and 1 |
| Fahp.AllEqualWeights | src/lib/calculations.ts:27-56 | with every judgment SI or absent, every weight is 1/6 |
| Fahp.AllEqualLambdas | src/lib/calculations.ts:73-83 | with every judgment SI and weights 1/6, every lambda_i is 6 |
| Fahp.AllEqualLambdaMax | src/lib/calculations.ts:84 | lambda_max is then 6 |
| Fahp.ConsistencyAtSix | src/lib/calculations.ts:85-86 | lambda_max = 6 gives CR = 0 |
| Fahp.AllEqualJudgments | src/lib/calculations.ts:4-94 | with every judgment SI or absent: weights 1/6, lambda_max 6, CR 0, gate passes |
| Lifecycle.CalculateLcm | src/lib/calculations.ts:97-106 | one entry per catalog risk; exposure and phase are present exactly when supplied, and then equal the supplied values |
| Pat.Pushed | src/lib/calculations.ts:125-136 | an item contributes one value to a bucket exactly when it feeds that bucket and has a numeric answer |
| Pat.Tier1Feeds | src/lib/calculations.ts:125-145 | every bucket a tier-1 item feeds is one of the seven tier-1 buckets |
| Pat.Tier2Feeds | src/lib/calculations.ts:155-167 | every bucket a tier-2 item feeds is one of the four tier-2 buckets |
| Pat.Mean | src/lib/calculations.ts:117 | the mean is null exactly for an empty bucket |
| Pat.TTCount | src/lib/calculations.ts:146-168 | the "TT" count never exceeds the number of items |
| Pat.Push | src/lib/calculations.ts:126-135 | one item's step appends exactly its contribution to each bucket |
| Pat.Collect | src/lib/calculations.ts:125-161 | the item loop fills each bucket with exactly the values specified for it |
| Pat.AggregateTier1 | src/lib/calculations.ts:120-148 | one risk's tier-1 scores equal the specified means, "TT" count and total |
| Pat.AggregateTier2 | src/lib/calculations.ts:150-170 | one risk's tier-2 scores equal the specified means, "TT" count and total |
| Pat.CalculatePat | src/lib/calculations.ts:111-174 | both tiers have an entry for exactly the six catalog risks; each is the aggregation of that risk's answers, and an absent risk counts as empty |
| Pat.BucketEmptyIff | src/lib/calculations.ts:125-136 | a bucket is empty exactly when no item feeding it has a numeric answer |
| Pat.Tier1ScoreNull | src/lib/calculations.ts:117-145 | a tier-1 score is null exactly when no item feeding it has a numeric answer |
| Pat.Tier2ScoreNull | src/lib/calculations.ts:117-167 | a tier-2 score is null exactly when no item feeding it has a numeric answer |
| Pat.CollectedInRange | src/lib/calculations.ts:129-133 | with answers in 1..5, every collected value, 6 - v included, lies in 1..5 |
| Pat.TotalBounds | src/lib/calculations.ts:117 | a sum of values in lo..hi lies between lo * n and hi * n |
| Pat.MeanBounds | src/lib/calculations.ts:117 | the mean of values in lo..hi lies in lo..hi |
| Pat.Tier1ScoreRange | src/lib/calculations.ts:138-145 | with answers in 1..5 every tier-1 score lies in [1, 5] |
| Pat.Tier2ScoreRange | src/lib/calculations.ts:163-167 | with answers in 1..5 every tier-2 score lies in [1, 5] |
| Pat.PushedMirrored | src/lib/calculations.ts:129-131 | a reverse-scored item pushes 6 - v forward for the v it pushes raw |
| Pat.ForwardIsMirroredRaw | src/lib/calculations.ts:125-136 | the forward Externality bucket is the raw bucket with every value mirrored |
| Pat.TotalMirrored | src/lib/calculations.ts:131 | mirroring n values turns their sum s into 6n - s |
| Pat.MeanMirrored | src/lib/calculations.ts:117-131 | mirroring keeps a bucket null or non-null and turns its mean m into 6 - m |
| Pat.ExternalityReverseScored | src/lib/calculations.ts:142-143 | Externality and ExternalityReversed are null together, and otherwise sum to 6 |
| Pat.AllUnknownIff | src/lib/calculations.ts:146-168 | the "TT" count equals the item count exactly when every item is "TT" |
| Pat.Tier1AllUnknown | src/lib/calculations.ts:138-148 | all-"TT" tier-1 answers give seven null scores and a count of 12 of 12 |
| Pat.Tier2AllUnknown | src/lib/calculations.ts:163-170 | all-"TT" tier-2 answers give four null scores and a count of 8 of 8 |
| Pat.NoUnknowns | src/lib/calculations.ts:146-168 | no answers means no "TT" answers |
| Pat.AbsentRisk | src/lib/calculations.ts:120-150 | a risk missing from the data gets null scores, no "TT" answers and totals 12 and 8 |
| Pat.Tier1Present | src/lib/calculations.ts:125-145 | one numeric answer feeding a tier-1 bucket makes its score non-null |
| Pat.Tier2Present | src/lib/calculations.ts:155-167 | one numeric answer feeding a tier-2 bucket makes its score non-null |
| Pat.Tier1FullyAnswered | src/lib/calculations.ts:125-145 | with every tier-1 item answered numerically, all seven tier-1 scores are present |
| Pat.Tier2FullyAnswered | src/lib/calculations.ts:155-167 | with every tier-2 item answered numerically, all four tier-2 scores are present |
| Allocation.Num | src/lib/calculations.ts:184-187 | a null score compares as 0 and a present one as itself |
| Allocation.FirstMatch | src/lib/calculations.ts:181-195 | the outcome is that of the first rule whose guard holds, and the fallback exactly when no guard holds |
| Allocation.SelectsFirstPast | src/lib/calculations.ts:187-195 | a rule whose guard fails can be passed over: first-match over the remaining rules is first-match over all |
| Allocation.Take | src/lib/calculations.ts:235 | the slice keeps min(length, n) elements and is a prefix |
| Allocation.MitigationListShape | src/lib/calculations.ts:224-236 | the list has 4 or 5 entries and starts with the three fixed controls; each conditional control appears exactly when its condition holds and the cap leaves room; defect liability appears exactly when at most one conditional control applies; the engine's order is kept |
| Allocation.WeakVerifiabilityShape | src/lib/calculations.ts:224-236 | the shape above, for the lists that include third-party verification |
| Allocation.StrongVerifiabilityShape | src/lib/calculations.ts:224-236 | the shape above, for the lists without third-party verification |
| Allocation.DeriveMitigationControls | src/lib/calculations.ts:224-236 | the pushes and slice produce the specified list, of the shape above |
| Allocation.DetermineAllocation | src/lib/calculations.ts:177-222 | the if-chain gives the same allocation, reasons and mitigation list as the decision tables |
| Allocation.Tier1Outcome | src/lib/calculations.ts:181-195 | the tier-1 table evaluates first-match: transfer, then low control, then high externality, else shared |
| Allocation.Tier2Outcome | src/lib/calculations.ts:206-215 | the tier-2 table evaluates first-match: EPC/O&M, then shared, else retained |
| Allocation.Tier1PrivateIff | src/lib/calculations.ts:184-186 | tier-1 is BU/SPV iff C >= 4, V >= 3, I >= 3 and E <= 3 |
| Allocation.Tier1PublicIff | src/lib/calculations.ts:187-194 | otherwise tier-1 is Publik/PDAM iff E >= 4 or C < 3; the low-control reason is given iff C < 3 |
| Allocation.Tier1SharedIff | src/lib/calculations.ts:181-182 | tier-1 is Shared with its reason iff neither rule applies |
| Allocation.Tier2NotApplicableIff | src/lib/calculations.ts:201-204 | tier-2 is N/A iff tier-1 is Publik/PDAM, mitigation controls are listed iff so, and they are then the capped list |
| Allocation.Tier2FollowsTable | src/lib/calculations.ts:206-215 | otherwise tier-2 is EPC/O&M iff C >= 4 and V >= 4, Shared iff not that but C >= 3 and V >= 3, BU/SPV-retain iff C < 3 or V < 3 |
| Allocation.NullControlIsPublic | src/lib/calculations.ts:184-190 | a null tier-1 Control always yields Publik/PDAM for low control |
| Allocation.NullExternalityPasses | src/lib/calculations.ts:184 | a null raw Externality passes the E <= 3 test of the transfer rule |
| Governance.FirstOccurrencesElements | src/lib/calculations.ts:287 | the de-duplicated prefix holds exactly the elements of the prefix |
| Governance.FirstOccurrencesNoDup | src/lib/calculations.ts:287 | the de-duplicated list has no duplicates |
| Governance.FirstOccurrencesOrdered | src/lib/calculations.ts:287 | the de-duplicated list keeps the order of first occurrences, as a Set iterates |
| Governance.FirstOccurrencesOfDistinct | src/lib/calculations.ts:287 | de-duplicating a duplicate-free list changes nothing |
| Governance.Deduplicate | src/lib/calculations.ts:287 | the Set pass returns the first occurrences: duplicate-free, same elements, first-occurrence order |
| Governance.PublicLocksDistinct | src/lib/calculations.ts:250-257 | the public-retention block has no duplicates and holds only public-retention clauses |
| Governance.PrivateLocksDistinct | src/lib/calculations.ts:265-274 | the private-delivery block has no duplicates and holds only private-delivery clauses |
| Governance.FixedBlocksDistinct | src/lib/calculations.ts:259-285 | the shared, dual-role and fallback blocks have no duplicates, and each holds clauses of its own kind |
| Governance.AppendBlocks | src/lib/calculations.ts:245-279 | the conditional pushes build exactly the specified blocks |
| Governance.DetermineGovernanceLocks | src/lib/calculations.ts:239-288 | the result is the specified list: no duplicates, 3 to 6 entries, and a public-led risk's list opens with the four retention clauses |
| Governance.BlocksDistinct | src/lib/calculations.ts:250-279 | the appended blocks are duplicate-free; without a shared allocation no shared-block clause appears |
| Governance.AppendedDistinct | src/lib/calculations.ts:281-285 | with the fallback the list is still duplicate-free and has at least 3 entries |
| Governance.GovernanceLocksShape | src/lib/calculations.ts:245-287 | no duplicates, 3 to 6 entries, public-led lists open with the four retention clauses |
| Governance.DeduplicationContract | src/lib/calculations.ts:287 | for any list, the first occurrences are duplicate-free, complete and in first-occurrence order |
| Governance.GovernanceLocksIsCut | src/lib/calculations.ts:281-287 | the result is the appended list cut to six, since that list has no duplicates |
| Governance.AllKeptWhenFew | src/lib/calculations.ts:287 | when at most six clauses were appended, all are kept in order |
| Governance.BlocksOfLead | src/lib/calculations.ts:250-274 | public-led blocks hold no private-delivery clause; other blocks hold no public-retention clause |
| Governance.LocksWereAppended | src/lib/calculations.ts:245-287 | every recommended clause is a block clause or a fallback clause |
| Governance.LeadSelectsClauses | src/lib/calculations.ts:250-274 | public-led risks never get private-delivery clauses; other risks never get public-retention clauses |
| Governance.DualRoleCrowdedOut | src/lib/calculations.ts:250-287 | public-led, no shared tier-2, weak V and I: the six public clauses fill the list and the dual-role safeguard is dropped |
| Confidence.DetermineConfidence | src/lib/calculations.ts:291-309 | a failed CR, a null key score or either TT ratio above 0.4 gives Rendah; otherwise Sedang exactly when either TT ratio is above 0.2; Tinggi needs CR passed, complete data and both TT ratios at most 0.2 |
| Confidence.PatTotals | src/lib/calculations.ts:146-169 | the aggregated totals are 12 and 8, and the "TT" counts are at most those |
| Confidence.ConfidenceByCounts | src/lib/calculations.ts:298-308 | with totals 12 and 8 the grade is Rendah iff CR fails, n1 >= 5, n2 >= 4 or data is weak; otherwise Sedang iff n1 >= 3 or n2 >= 2; else Tinggi |
| Confidence.ExceedsMonotone | src/lib/calculations.ts:298-299 | a larger "TT" count exceeds any threshold a smaller one does |
| Confidence.MoreUnknownsNeverRaise | src/lib/calculations.ts:298-308 | with everything else equal, more "TT" answers never raise the grade |
| Confidence.UnansweredRiskIsLow | src/lib/calculations.ts:296-303 | a risk without any answers is graded Rendah |
| Confidence.AllUnknownIsLow | src/lib/calculations.ts:298-303 | a risk answered "TT" on every tier-1 item is graded Rendah |
| Survey.FahpPairs | src/app/survey/page.tsx:64-69 | the nested loops produce 15 pairs, row-major; pair (i, j) sits at its row's start plus j - i - 1 |
| Survey.AppendRow | src/app/survey/page.tsx:66-68 | the inner loop appends exactly the pairs (i, i+1), ..., (i, 5) |
| Survey.PairAt | src/app/survey/page.tsx:64-69 | pair (i, j) sits at its row-major position in the enumeration up to any later row |
| Survey.PairsLayout | src/app/survey/page.tsx:64-69 | every pair i < j appears at its row-major position |
| Survey.KeysOfPairs | src/app/survey/page.tsx:413-414 | the keys of the enumerated pairs are exactly the keys the weighting reads |
| Survey.FahpKeysShape | src/app/survey/page.tsx:413-414 | there are 15 comparison keys, and they are exactly the keys `Ri_Rj` with i < j |
| Survey.PairKeyInFahpKeys | src/app/survey/page.tsx:413-414 | the key of every pair i < j is a comparison key |
| Survey.UpdateFahp | src/app/survey/page.tsx:105-110 | only the given pair key changes, to the given value; every other key and field is unchanged |
| Survey.SetAnswer | src/app/survey/page.tsx:126-134 | only item `item` of risk `risk` changes; an absent risk starts empty; other risks are unchanged |
| Survey.UpdatePat1 | src/app/survey/page.tsx:126-134 | the tier-1 answers are updated as above; every other field is unchanged |
| Survey.UpdatePat2 | src/app/survey/page.tsx:136-144 | the tier-2 answers are updated as above; every other field is unchanged |
| Survey.WithoutMembers | src/app/survey/page.tsx:150 | filtering out a phase keeps exactly the other phases |
| Survey.WithoutAbsent | src/app/survey/page.tsx:150 | filtering out a phase that is not listed changes nothing |
| Survey.TogglePhase | src/app/survey/page.tsx:146-153 | only the phase list changes |
| Survey.ToggleFlips | src/app/survey/page.tsx:146-153 | toggling flips whether the phase is listed and leaves every other phase as it was |
| Survey.ToggleTwice | src/app/survey/page.tsx:146-153 | toggling twice restores the set of phases, and restores the list exactly for an unlisted phase |
| Survey.NextPage | src/app/survey/page.tsx:160 | forward stays within pages 0..9, moves one page, and stops at the last |
| Survey.LastPageIsNine | src/lib/constants.ts:45-56 | the ten steps make page 9, the results page, the last one: the bound nextPage clamps to |
| Survey.PrevPage | src/app/survey/page.tsx:161 | back stays within pages 0..9, moves one page, and stops at the first |
| Survey.PageRoundTrip | src/app/survey/page.tsx:160-161 | away from the ends, back undoes forward and forward undoes back |
| Survey.InitialStateIncomplete | src/app/survey/page.tsx:156-157 | the blank form passes neither the screening gate nor the project gate |
| Survey.ScreeningAfterToggle | src/app/survey/page.tsx:146-156 | toggling on an unlisted phase passes the screening gate exactly when eligibility "Ya", a role and an experience band are recorded; toggling off the only phase fails it |
| Survey.GatesIgnoreAnswers | src/app/survey/page.tsx:156-157 | recording a judgment or a tier-1 or tier-2 answer leaves the screening and project gates unchanged |
| Survey.ProjectGateIgnoresPhases | src/app/survey/page.tsx:157 | toggling a phase leaves the project gate (a project type and a dominant phase) unchanged |
| Survey.ReviewIsPageGates | src/app/survey/page.tsx:649-667 | the review accepts iff consent, every page gate, at least 36 and 24 answered items, and a respondent name |
| Survey.FilledAfterUpdate | src/app/survey/page.tsx:190-191 | recording a judgment changes the filled count by the emptiness of the new value minus that of the old one |
| Survey.FahpValidIffAllPairs | src/app/survey/page.tsx:189-191 | when only comparison keys are stored, the check passes exactly when every pair i < j has a non-empty judgment |
| Survey.LcmValidIffAllRisks | src/app/survey/page.tsx:193-196 | when only catalog risks are stored, the check passes exactly when every risk has an exposure and a phase |
| Survey.AnsweredAfterSet | src/app/survey/page.tsx:649-650 | recording an answer for a catalog risk adds one to the review count exactly when that item was unanswered |
| Survey.AnsweredIgnoresOthers | src/app/survey/page.tsx:649-650 | an answer recorded under a code no catalog risk carries leaves the review count unchanged |

## Left out

- The sixth root `Math.pow(x, 1/6)` is not computed (src/lib/calculations.ts:36). `Fahp.CalculateFahp` takes it as a parameter required to be the positive sixth root.
- IEEE-754 rounding is not modelled; arithmetic is over exact reals.
  - The CR threshold, the normalisation that sums to 1 and the lambda values are therefore exact.
  - Floating-point results may differ in the last bits.
- `parseInt` of string answers is not modelled (src/lib/calculations.ts:128, 158). An answer is a number or "TT".
- `Pat.LikertAnswers`: the 1..5 range is an assumption of the range lemmas. The engine itself accepts any number, and so does the model.
- A risk code missing from `pat.tier1`/`pat.tier2` makes the engine read `undefined` and throw. The model states this as a `requires` on `Allocation.DetermineAllocation`, `Governance.DetermineGovernanceLocks` and `Confidence.DetermineConfidence`.
- The localised reason texts of the allocation, the mitigation texts and the governance-lock texts are enumerations. Only their identity and order are modelled.
- `Confidence.DetermineConfidence` returns the level only. The `reason` string of determineConfidence is not modelled; each level has one fixed reason text.
- Fahp.UpperTfn, Fahp.UpperCrisp: a judgment label that names a built-in object member, such as "constructor" or "toString", passes the engine's `FAHP_SCALE[v]` test. Copying its `tfn` then throws, so calculateFAHP fails. The model treats every label outside the nine scale labels as unrecognised and gives [1,1,1] and 1. JavaScript's prototype lookup is not modelled.
- The `code` parameter of `deriveMitigationControls` is unused by the source and is dropped.
- The survey's `id` field, `goToPage`, `updateField`, `updateLcmExposure` and `updateLcmPhase` are not modelled.
  - The three update handlers are plain keyed updates of the same kind as `Survey.UpdateFahp`.
  - `goToPage` sets the page without a clamp.
- Rendering, `useState`/`useEffect`, debounced auto-save, `fetch` and submission in src/app/survey/page.tsx are UI and asynchronous I/O, and are not modelled.
- The API routes, the admin pages, authentication and the database seed script are not part of this model.
- The UI option lists in src/lib/constants.ts are not modelled. `PHASES` and `STEPS` appear only as constants.
- `Survey.AnsweredIgnoresOthers` states its hypothesis position-wise: no catalog risk carries the code. This is equivalent to the code not being in the catalog.
