# Grade calculator — a Dafny model

This project models the core of a small grade calculator for a course graded on the
0..20 scale. The parts modelled are:

- **Evaluation**: a validated value with a trimmed name, a score in [0, 20] and a
  weight in (0, 100], plus its weighted score `score * weight / 100`.
- **AttendancePolicy**: a boolean gate that also returns a reason.
- **ExtraPointsPolicy**: a priority chain that refuses the bonus in this order:
  1. there are no teacher votes;
  2. the current teacher disabled extra points;
  3. the votes are not unanimous.

  Otherwise it grants `min(manual, 5)`.
- **GradeCalculator**, in the order the calculator runs:
  1. fail-fast validation of the manual bonus, then of the total weight;
  2. a per-evaluation breakdown with contributions rounded to hundredths;
  3. a base grade that rounds the sum of those rounded contributions again;
  4. the non-fatal inconsistency notes;
  5. the attendance short-circuit;
  6. the extra-points gate;
  7. the cap at 20.
- **StudentCache**: a map from id to record that rejects blank ids and lists
  records in the order their ids were first stored.

Numbers are Dafny `real`s, so all arithmetic is exact.

`roundTwoDecimals` becomes `Round2(x) = Floor(100x + 1/2) / 100`. This is
`Math.round(x * 100) / 100` in exact arithmetic, with halves rounded towards +∞.

Thrown errors become `Failure(e)` of a `Result`, with one `ValidationError`
constructor per message. An `Evaluation` can only be obtained through its
validating constructor, so the model works with the subset type `ValidEvaluation`,
and `Calculate` needs no precondition.

The cache is a pure value: a map, plus the insertion-ordered list of its keys. This
mirrors the iteration order of a JavaScript `Map`.

Modules, one per source component:

| module | file | models |
|---|---|---|
| `Wrappers` | `wrappers.dfy` | `Option`, `Result` and `Outcome` |
| `Errors` | `errors.dfy` | the error kinds and their messages |
| `Text` | `text.dfy` | `String.prototype.trim` over a fixed whitespace set |
| `Numeric` | `numeric.dfy` | `Round2` and `Min` |
| `Evaluations` | `evaluation.dfy` | `src/models/Evaluation.ts` |
| `Attendance` | `attendance.dfy` | `src/policies/AttendancePolicy.ts` |
| `ExtraPoints` | `extra_points.dfy` | `src/policies/ExtraPointsPolicy.ts` |
| `Records` | `records.dfy` | the record and report shapes of `src/models/StudentRecord.ts` |
| `Grading` | `grading.dfy` | `src/services/GradeCalculator.ts` |
| `GradingProperties` | `grading_properties.dfy` | properties relating several calculator steps |
| `GradingScenarios` | `grading_scenarios.dfy` | the example records of `tests/GradeCalculator.test.ts` |
| `StudentStore` | `student_cache.dfy` | `src/repositories/StudentCache.ts` |

Two facts about the calculator are proved rather than assumed:

- **The base grade is not bounded by 20.** `GradingScenarios.BaseGradeCanExceedMax`
  takes three evaluations of weight 100/3, each scored 20. Each contribution
  rounds 6.666… up to 6.67, so the base grade is 20.01.
  `GradingProperties.BaseGradeUpperBound` gives the true bound: 20 plus half a
  hundredth per evaluation. Only the final grade is capped at 20.
- **The "weights exceed 100%" inconsistency note can never be reported.**
  `calculate` has already failed on any such record
  (`GradingProperties.ExceedsNoteUnreachable`).

## Model

| member | source | states |
|---|---|---|
| `Text.Trim` | src/models/Evaluation.ts:17 | the trimmed string is empty exactly when the input is all whitespace; otherwise it neither starts nor ends with whitespace |
| `Text.TrimDropsOnlyEnds` | src/models/Evaluation.ts:17 | the trimmed string is the infix of the input left after removing a whitespace-only prefix and a whitespace-only suffix |
| `Text.TrimOfNonBlank` | src/models/Evaluation.ts:23-25 | a string that is not all whitespace trims to a non-empty string with non-whitespace ends, which is what a stored name satisfies |
| `Text.TrimOfTrimmed` | src/models/Evaluation.ts:17 | a string whose ends are not whitespace is left unchanged by trimming |
| `Text.TrimIdempotent` | src/models/Evaluation.ts:17 | trimming twice is trimming once |
| `Numeric.Round2` | src/services/GradeCalculator.ts:83-85 | the result is a whole number of hundredths within half a hundredth of the input, above by at most 0.005 and below by strictly less |
| `Numeric.Min` | src/services/GradeCalculator.ts:63 | the result is one of the two arguments and no larger than either |
| `Numeric.Round2Monotone` | src/services/GradeCalculator.ts:83-85 | rounding preserves order |
| `Numeric.Round2OfCents` | src/services/GradeCalculator.ts:83-85 | a value already in hundredths is its own rounding |
| `Numeric.Round2Idempotent` | src/services/GradeCalculator.ts:83-85 | rounding twice is rounding once |
| `Numeric.Round2Within` | src/services/GradeCalculator.ts:83-85 | rounding keeps a value inside any interval whose ends are hundredths |
| `Errors.MessagePhrases` | src/services/GradeCalculator.ts:76-96 | the weights message contains "suma de pesos no puede superar 100%" and the bonus-maximum message contains "puntos extra manuales no pueden superar" |
| `Evaluations.Validate` | src/models/Evaluation.ts:22-31 | validation passes exactly when the name is not blank, 0 ≤ score ≤ 20 and 0 < weight ≤ 100; checks run name, then score, then weight, and the first failing field chooses the error |
| `Evaluations.NewEvaluation` | src/models/Evaluation.ts:15-20 | construction succeeds exactly when validation passes and otherwise fails with validation's error; a constructed evaluation holds the trimmed name and the score and weight unchanged |
| `Evaluations.Stored` | src/models/Evaluation.ts:17-19 | once validation has passed, the stored fields are the trimmed name, the score and the weight, and they form a valid evaluation |
| `Evaluations.WeightedScore` | src/models/Evaluation.ts:34-36 | the weighted score of a valid evaluation lies between 0 and its score, and is at most 20 × weight / 100 |
| `Evaluations.NewEvaluationRoundTrip` | src/models/Evaluation.ts:15-31 | re-constructing an evaluation from its own fields succeeds and gives it back unchanged |
| `Evaluations.NameRejectedIffTrimEmpty` | src/models/Evaluation.ts:23-25 | construction fails with the missing-name error exactly when the trimmed name is empty |
| `Attendance.AttendancePolicy.IsEligible` | src/policies/AttendancePolicy.ts:4-6 | eligibility is the constructor flag |
| `Attendance.AttendancePolicy.ReasonWhenIneligible` | src/policies/AttendancePolicy.ts:8-10 | the reason is empty exactly when the student is eligible; otherwise it is the fixed attendance message |
| `ExtraPoints.EveryIffAllTrue` | src/policies/ExtraPointsPolicy.ts:25 | `every(Boolean)` holds exactly when no vote is false |
| `ExtraPoints.ExtraPointsPolicy.Evaluate` | src/policies/ExtraPointsPolicy.ts:16-38 | no votes, then a disabled teacher, then a dissenting vote each give 0 points and their own avoided reason, in that priority; otherwise `min(manual, 5)` is granted with a grant note and no avoided reason; exactly one of the note and the avoided reason is present; an avoided reason is never empty |
| `ExtraPoints.PointsBounds` | src/policies/ExtraPointsPolicy.ts:17-37 | positive points only on non-empty, unanimous, allowed votes; a non-negative request earns between 0 and 5 points |
| `ExtraPoints.GrantedIff` | src/policies/ExtraPointsPolicy.ts:17-37 | a result has no avoided reason exactly when the votes are non-empty and unanimous and the teacher allows extra points |
| `ExtraPoints.AvoidedReasonsDistinct` | src/policies/ExtraPointsPolicy.ts:18-30 | the three avoided reasons are non-empty and pairwise different |
| `Grading.TotalWeight` | src/services/GradeCalculator.ts:34 | the total weight is non-negative, and positive when there is an evaluation |
| `Grading.ValidateManualExtra` | src/services/GradeCalculator.ts:87-96 | the bonus passes exactly when it lies in [0, 5]; a negative bonus and a bonus above 5 get their own errors |
| `Grading.EnsureValidWeights` | src/services/GradeCalculator.ts:76-81 | the weights pass exactly when their total is at most 100; otherwise the weights error |
| `Grading.EntryOf` | src/services/GradeCalculator.ts:20-25 | a breakdown line copies name, score and weight; its contribution is a whole number of hundredths in [0, 20] within half a hundredth of the weighted score, which makes it the weighted score rounded to hundredths |
| `Grading.Breakdown` | src/services/GradeCalculator.ts:20-25 | the breakdown has one line per evaluation, in order, with copied fields and contribution round2(weighted score), each in [0, 20] |
| `Grading.SumContributions` | src/services/GradeCalculator.ts:27-29 | a sum of non-negative contributions is non-negative |
| `Grading.BaseGrade` | src/services/GradeCalculator.ts:27-29 | the base grade is non-negative and a whole number of hundredths |
| `Grading.Inconsistencies` | src/services/GradeCalculator.ts:34-42 | the no-evaluations note appears exactly when there are none, and then first; the below-100 note appears exactly when the total weight is below 100, and the above-100 note exactly when it is above; there is no other note, and the list holds one entry per condition that holds |
| `Grading.KeepNonEmpty` | src/services/GradeCalculator.ts:52 | `filter(Boolean)` keeps every non-empty string and only those; a list without empty strings is unchanged |
| `Grading.KeepNonEmptyAppend` | src/services/GradeCalculator.ts:52 | filtering a concatenation concatenates the filtered parts, and a single string is kept exactly when it is non-empty, so the filter keeps order and repetitions |
| `Grading.ReasonList` | src/services/GradeCalculator.ts:58-60 | a present, non-empty avoided reason becomes the only entry; no reason, or an empty one, gives an empty list |
| `Grading.IneligibleReport` | src/services/GradeCalculator.ts:44-54 | without attendance, the final grade and the bonus are 0 and the only avoided reason is the attendance one; the base grade and breakdown are still computed, and the notes are followed by the ineligibility reason |
| `Grading.EligibleReport` | src/services/GradeCalculator.ts:57-73 | with attendance, the bonus is the policy's points, the avoided list holds the policy's reason if any, and the final grade is round2(min(base + points, 20)), lying in [0, 20] |
| `Grading.CappedGrade` | src/services/GradeCalculator.ts:62-63 | base plus bonus, capped and rounded, lies in [0, 20] |
| `Grading.Calculate` | src/services/GradeCalculator.ts:9-74 | fails exactly when the bonus is outside [0, 5] or the weights exceed 100; the bonus error wins over the weights error; otherwise returns the ineligible or the eligible report according to attendance |
| `GradingProperties.SumContributionsIsCents` | src/services/GradeCalculator.ts:27-29 | a sum of contributions in hundredths is in hundredths |
| `GradingProperties.OuterRoundingIsExact` | src/services/GradeCalculator.ts:27-29 | in exact arithmetic the outer rounding of the base grade changes nothing |
| `GradingProperties.SumContributionsBound` | src/services/GradeCalculator.ts:20-29 | the sum of rounded contributions exceeds 20/100 of the total weight by at most half a hundredth per line |
| `GradingProperties.BaseGradeUpperBound` | src/services/GradeCalculator.ts:20-29 | with weights totalling at most 100, the base grade is at most 20 plus half a hundredth per evaluation |
| `GradingProperties.FinalGradeBounds` | src/services/GradeCalculator.ts:44-63 | every reported final grade lies in [0, 20], and is 0 without attendance |
| `GradingProperties.ExceedsNoteUnreachable` | src/services/GradeCalculator.ts:38-42 | no report ever carries the weights-above-100 note, because such records fail validation first |
| `GradingProperties.ReportNotes` | src/services/GradeCalculator.ts:31-73 | a successful report's notes are the evaluation-list notes, followed by the attendance reason when the student missed the minimum |
| `GradingProperties.InconsistencyNotes` | src/services/GradeCalculator.ts:34-54 | every report mentions missing evaluations exactly when there are none, and low weights exactly when their total is below 100; the only other note a report can carry is the attendance reason, for a student who missed the minimum |
| `GradingProperties.ExtraPointsGrantedIff` | src/services/GradeCalculator.ts:57-68 | for an eligible student, nothing is avoided exactly when the policy grants; the bonus is then `min(manual, 5)` and otherwise 0 |
| `GradingScenarios.BaseGradeCanExceedMax` | src/services/GradeCalculator.ts:20-29 | three evaluations of weight 100/3 scored 20 give base grade 20.01 and final grade 20 |
| `GradingScenarios.IneligibleOutcome` | src/services/GradeCalculator.ts:44-54 | a valid record without attendance is reported with base grade, zero final grade, zero bonus and the attendance reason |
| `GradingScenarios.EligibleOutcome` | src/services/GradeCalculator.ts:57-73 | a valid record with attendance is reported with the policy's bonus, the capped, rounded final grade and the policy's avoided reason |
| `GradingScenarios.ExtraPointsGrantedScenario` | tests/GradeCalculator.test.ts:18-36 | scores 18 and 16 at 50% each, unanimous votes and one manual point give base 17, bonus 1, final 18, nothing avoided |
| `GradingScenarios.AttendanceNotMetScenario` | tests/GradeCalculator.test.ts:38-52 | a 15 without attendance keeps base 15, final 0, bonus 0 and lists the attendance reason |
| `GradingScenarios.NotUnanimousScenario` | tests/GradeCalculator.test.ts:54-69 | a dissenting vote gives no bonus, the unanimity reason and final 19 |
| `GradingScenarios.CappedScenario` | tests/GradeCalculator.test.ts:71-84 | a 20 plus three extra points reports base 20 and final 20 |
| `GradingScenarios.WeightsAbove100Scenario` | tests/GradeCalculator.test.ts:86-95 | weights 60 and 50 are rejected with the weights error, whose message contains the phrase the test matches |
| `GradingScenarios.NoEvaluationsScenario` | tests/GradeCalculator.test.ts:97-110 | no evaluations give base 0, the no-evaluations note and no bonus |
| `GradingScenarios.TeacherDisabledScenario` | tests/GradeCalculator.test.ts:112-123 | a disabled teacher overrides unanimous votes: no bonus, the teacher's reason, final 18 |
| `GradingScenarios.ManualExtraAboveMaxScenario` | tests/GradeCalculator.test.ts:125-131 | ten manual points are rejected with the bonus-above-maximum error, whose message contains the phrase the test matches |
| `StudentStore.Upsert` | src/repositories/StudentCache.ts:6-12 | fails exactly when the id is blank after trimming, leaving the store unchanged; otherwise returns the record, stores it under its id, and adds exactly that id to the stored ids |
| `StudentStore.Put` | src/repositories/StudentCache.ts:10 | the map gains or replaces one entry; a known id keeps its place in the order and a new one goes last |
| `StudentStore.Get` | src/repositories/StudentCache.ts:14-16 | finds a record exactly when the id is stored, and then it is the stored one |
| `StudentStore.List` | src/repositories/StudentCache.ts:18-20 | the listing has one entry per stored id |
| `StudentStore.ListHasEveryStored` | src/repositories/StudentCache.ts:18-20 | the current record of every stored id is listed |
| `StudentStore.ListOnlyStored` | src/repositories/StudentCache.ts:18-20 | every listed record is the current record of some stored id |
| `StudentStore.ListInOrder` | src/repositories/StudentCache.ts:18-20 | the listing follows the insertion order of the ids |
| `StudentStore.UpsertKeepsOtherIds` | src/repositories/StudentCache.ts:10 | an upsert changes what `get` finds for its own id only |
| `StudentStore.UpsertThenGet` | src/repositories/StudentCache.ts:6-16 | after a successful upsert, `get` of its id returns the record, whatever was stored before |
| `StudentStore.UpsertNewIdAppends` | src/repositories/StudentCache.ts:10 | upserting a new id appends the record to the listing |
| `StudentStore.PutNewIdAppends` | src/repositories/StudentCache.ts:10 | `Map.set` with a new key appends its value to the iteration |
| `StudentStore.UpsertKnownIdReplaces` | src/repositories/StudentCache.ts:10 | upserting a known id replaces its entry in place and leaves the other entries where they were |
| `StudentStore.Replay` | src/repositories/StudentCache.ts:6-12 | a store built by a sequence of upserts holds only ids that were upserted |
| `StudentStore.GetNeverUpserted` | src/repositories/StudentCache.ts:14-16 | `get` of an id that no upsert used finds nothing |

## Left out

- The HTTP layer of `src/server.ts` is not part of this model: routing, JSON bodies,
  status codes, static files, `app.listen`, and the `Number`/`Boolean`/`String`
  coercions of `buildStudentRecord`. Its tests (`tests/Server.test.ts`) are left out
  with it. The calculate route computes over the record already stored under the id
  when there is one, and then ignores the request body (src/server.ts:41-45).
- IEEE-754 doubles are not modelled. Numbers are exact reals, so:
  - the `Number.isFinite` checks (src/models/Evaluation.ts:26, 29 and
    src/services/GradeCalculator.ts:88) always pass;
  - NaN does not exist;
  - binary rounding artefacts inside `Math.round(x * 100) / 100` do not arise.
- `Numeric.Round2` rounds halves up, towards +∞, as `Math.round` does. Every value
  the calculator rounds is non-negative.
- `Text.Trim` strips a fixed set of whitespace characters: space, tab, line feed,
  carriage return, vertical tab, form feed, U+00A0, U+FEFF, U+2028 and U+2029.
  `String.prototype.trim` also strips the other space separators, which this set
  lacks: U+1680, U+2000–U+200A, U+202F, U+205F and U+3000.
- `Text.Trim`: its own contract fixes when the result is empty and that its ends are
  not whitespace. That the result is the input with only its whitespace ends
  removed is stated by the lemma `Text.TrimDropsOnlyEnds`, because as a
  postcondition of `Trim` it makes every proof that uses `Trim` costly.
- `ExtraPoints.ExtraPointsPolicy.Evaluate`: the grant note "Puntos extra otorgados
  manualmente (n)" is kept as `ManuallyGranted(n)`. The number is not formatted into
  text, because JavaScript's number-to-string conversion is out of scope.
- `Errors.Message` keeps the Spanish messages as constants. The score and
  bonus-maximum messages are given with their templates' constants already
  substituted.
- `Grading.Calculate` states no bound `baseGrade ≤ 20`, because the calculator does
  not keep one: `GradingScenarios.BaseGradeCanExceedMax` shows a base grade of 20.01.
- `Evaluations.WeightedScore` states bounds on the weighted score rather than the
  formula `score * weight / 100`, which is its definition.
- `Grading.SumContributions` is a left fold from 0, like `reduce`, and its contract
  only states non-negativity. `GradingProperties.SumContributionsBound` gives an upper
  bound on the sum. `GradingProperties.OuterRoundingIsExact` states that the base
  grade equals the sum.
- `StudentCache` is a mutable class in the source. Here it is a value that each
  operation returns, so `UpsertOutcome` pairs the new store with what `upsert`
  returned or threw.
