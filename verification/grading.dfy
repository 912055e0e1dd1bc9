/** The grade calculator: validation, weighted base grade, diagnostics, the
    attendance short-circuit, the extra-points gate and the cap at 20. */
module Grading {
  import opened Wrappers
  import opened Errors
  import opened Numeric
  import opened Evaluations
  import opened Records
  import opened Attendance
  import opened ExtraPoints

  const MaxFinalGrade: real := 20.0

  const NoEvaluationsNote: string := "No se registraron evaluaciones"
  const WeightsBelow100Note: string := "La suma de pesos es menor a 100%"
  const WeightsAbove100Note: string := "La suma de pesos supera el 100%"
  const AttendanceNotMetReason: string := "Attendance requirement not met"

  /** Sum of the weights, folded from the left as `reduce` does. */
  function TotalWeight(evals: seq<ValidEvaluation>): (r: real)
    ensures 0.0 <= r
    ensures |evals| > 0 ==> 0.0 < r
  {
    if |evals| == 0 then 0.0 else TotalWeight(evals[..|evals| - 1]) + evals[|evals| - 1].weight
  }

  /** `validateManualExtra`: the requested bonus must lie in [0, 5]; a negative
      request is reported before a too large one. */
  function ValidateManualExtra(points: real): (r: Outcome<ValidationError>)
    ensures r == Pass <==> 0.0 <= points <= MaxManualExtraPoints
    ensures points < 0.0 ==> r == Fail(NegativeManualExtraPoints)
    ensures points > MaxManualExtraPoints ==> r == Fail(ManualExtraPointsAboveMax)
  {
    if points < 0.0 then Fail(NegativeManualExtraPoints)
    else if points > MaxManualExtraPoints then Fail(ManualExtraPointsAboveMax)
    else Pass
  }

  /** `ensureValidWeights`: weights may add up to at most 100. */
  function EnsureValidWeights(evals: seq<ValidEvaluation>): (r: Outcome<ValidationError>)
    ensures r == Pass <==> TotalWeight(evals) <= MaxWeight
    ensures r != Pass ==> r == Fail(WeightsAbove100)
  {
    if TotalWeight(evals) > MaxWeight then Fail(WeightsAbove100) else Pass
  }

  /** One breakdown line: the evaluation's fields and its rounded contribution. */
  function EntryOf(e: ValidEvaluation): (r: BreakdownEntry)
    ensures r.name == e.name && r.score == e.score && r.weight == e.weight
    ensures 0.0 <= r.contribution <= MaxScore
    ensures IsCents(r.contribution)
    ensures WeightedScore(e) - 0.005 < r.contribution <= WeightedScore(e) + 0.005
  {
    var c := Round2(WeightedScore(e));
    Round2Within(WeightedScore(e), 0.0, MaxScore);
    BreakdownEntry(e.name, e.score, e.weight, c)
  }

  /** The breakdown lists every evaluation, in input order, next to its
      contribution rounded to hundredths. */
  function Breakdown(evals: seq<ValidEvaluation>): (r: seq<BreakdownEntry>)
    ensures |r| == |evals|
    ensures forall i | 0 <= i < |evals| ::
      && r[i].name == evals[i].name && r[i].score == evals[i].score && r[i].weight == evals[i].weight
      && r[i].contribution == Round2(WeightedScore(evals[i]))
    ensures forall i | 0 <= i < |r| :: 0.0 <= r[i].contribution <= MaxScore
  {
    if |evals| == 0 then [] else [EntryOf(evals[0])] + Breakdown(evals[1..])
  }

  /** Sum of the contributions, folded from the left. */
  function SumContributions(b: seq<BreakdownEntry>): (r: real)
    ensures (forall i | 0 <= i < |b| :: 0.0 <= b[i].contribution) ==> 0.0 <= r
  {
    if |b| == 0 then 0.0 else SumContributions(b[..|b| - 1]) + b[|b| - 1].contribution
  }

  /** The base grade: the sum of already rounded contributions, rounded again. */
  function BaseGrade(evals: seq<ValidEvaluation>): (r: real)
    ensures 0.0 <= r
    ensures IsCents(r)
  {
    var s := SumContributions(Breakdown(evals));
    Round2Monotone(0.0, s);
    Round2OfCents(0.0);
    Round2(s)
  }

  /** The non-fatal notes about the evaluation list: none registered, and the
      total weight below or above 100. */
  function Inconsistencies(evals: seq<ValidEvaluation>): (r: seq<string>)
    ensures NoEvaluationsNote in r <==> |evals| == 0
    ensures WeightsBelow100Note in r <==> TotalWeight(evals) < MaxWeight
    ensures WeightsAbove100Note in r <==> TotalWeight(evals) > MaxWeight
    ensures forall x | x in r :: x == NoEvaluationsNote || x == WeightsBelow100Note || x == WeightsAbove100Note
    ensures |r| == (if |evals| == 0 then 1 else 0) + (if TotalWeight(evals) != MaxWeight then 1 else 0)
    ensures |evals| == 0 ==> |r| > 0 && r[0] == NoEvaluationsNote
    ensures forall i | 0 <= i < |r| :: r[i] != []
  {
    var total := TotalWeight(evals);
    var first := if |evals| == 0 then [NoEvaluationsNote] else [];
    var second :=
      if total < MaxWeight then [WeightsBelow100Note]
      else if total > MaxWeight then [WeightsAbove100Note]
      else [];
    first + second
  }

  /** `filter(Boolean)` on strings: drops the empty ones, keeps the order. */
  function KeepNonEmpty(s: seq<string>): (r: seq<string>)
    ensures |r| <= |s|
    ensures forall i | 0 <= i < |r| :: r[i] != [] && r[i] in s
    ensures forall x | x in s && x != [] :: x in r
    ensures (forall i | 0 <= i < |s| :: s[i] != []) ==> r == s
  {
    if |s| == 0 then []
    else if s[0] == [] then KeepNonEmpty(s[1..])
    else [s[0]] + KeepNonEmpty(s[1..])
  }

  /** The filter works string by string: filtering a concatenation
      concatenates the filtered parts, and one string is kept exactly when it
      is non-empty, so order and repetitions are preserved. */
  lemma {:induction false} KeepNonEmptyAppend(a: seq<string>, b: seq<string>)
    ensures KeepNonEmpty(a + b) == KeepNonEmpty(a) + KeepNonEmpty(b)
    ensures |a| == 1 ==> KeepNonEmpty(a) == if a[0] == [] then [] else a
  {
    if |a| == 0 {
      assert a + b == b;
    } else {
      assert (a + b)[0] == a[0];
      assert (a + b)[1..] == a[1..] + b;
      KeepNonEmptyAppend(a[1..], b);
      if |a| == 1 {
        assert a[1..] == [];
      }
    }
  }

  /** A present, non-empty avoided reason becomes one entry of the list. */
  function ReasonList(o: Option<string>): (r: seq<string>)
    ensures r == [] || (o.Some? && r == [o.value])
    ensures o.Some? && o.value != [] ==> r == [o.value]
    ensures o.None? ==> r == []
    ensures o.Some? && o.value == [] ==> r == []
  {
    if o.Some? && o.value != [] then [o.value] else []
  }

  /** The report of a student who missed the attendance minimum: the grade
      is forced to zero, no bonus is considered, and the ineligibility reason
      follows the earlier notes. */
  function IneligibleReport(record: StudentRecord): (r: GradeReport)
    requires !record.hasReachedMinimumClasses
    ensures r.studentId == record.id
    ensures r.evaluationBreakdown == Breakdown(record.evaluations)
    ensures r.baseGrade == Round2(SumContributions(r.evaluationBreakdown))
    ensures r.finalGrade == 0.0 && r.extraPointsApplied == 0.0
    ensures r.extraPointsAvoided == [AttendanceNotMetReason]
    ensures r.inconsistencies == Inconsistencies(record.evaluations) + [IneligibleReason]
  {
    var attendance := AttendancePolicy(record.hasReachedMinimumClasses);
    var notes := Inconsistencies(record.evaluations);
    GradeReport(record.id, BaseGrade(record.evaluations), 0.0, 0.0, Breakdown(record.evaluations),
                KeepNonEmpty(notes + [attendance.ReasonWhenIneligible()]),
                [AttendanceNotMetReason])
  }

  /** The report of an eligible student: the policy's bonus is added, the sum
      capped at 20 and rounded, and the policy's avoided reason listed. */
  function EligibleReport(record: StudentRecord): (r: GradeReport)
    requires 0.0 <= record.manualExtraPoints
    ensures r.studentId == record.id
    ensures r.evaluationBreakdown == Breakdown(record.evaluations)
    ensures r.baseGrade == Round2(SumContributions(r.evaluationBreakdown))
    ensures 0.0 <= r.finalGrade <= MaxFinalGrade
    ensures 0.0 <= r.extraPointsApplied <= MaxManualExtraPoints
    ensures r.inconsistencies == Inconsistencies(record.evaluations)
    ensures
      var outcome := ExtraPointsPolicy(record.allYearsTeachers, record.allowExtraPoints,
                                       record.manualExtraPoints).Evaluate();
      && r.extraPointsApplied == outcome.points
      && r.extraPointsAvoided == (if outcome.avoidedReason.Some? then [outcome.avoidedReason.value] else [])
      && r.finalGrade == Round2(Min(r.baseGrade + outcome.points, MaxFinalGrade))
  {
    var extra := ExtraPointsPolicy(record.allYearsTeachers, record.allowExtraPoints,
                                   record.manualExtraPoints);
    var outcome := extra.Evaluate();
    var baseGrade := BaseGrade(record.evaluations);
    PointsBounds(extra);
    var avoided := ReasonList(outcome.avoidedReason);
    assert avoided == if outcome.avoidedReason.Some? then [outcome.avoidedReason.value] else [];
    var finalGrade := CappedGrade(baseGrade, outcome.points);
    assert finalGrade == Round2(Min(baseGrade + outcome.points, MaxFinalGrade));
    GradeReport(record.id, baseGrade, outcome.points, finalGrade,
                Breakdown(record.evaluations), Inconsistencies(record.evaluations),
                avoided)
  }

  /** The final grade of an eligible student: base plus bonus, capped at 20,
      rounded to hundredths. */
  function CappedGrade(baseGrade: real, points: real): (r: real)
    requires 0.0 <= baseGrade && 0.0 <= points
    ensures 0.0 <= r <= MaxFinalGrade
    ensures r == Round2(Min(baseGrade + points, MaxFinalGrade))
  {
    var capped := Min(baseGrade + points, MaxFinalGrade);
    Round2Within(capped, 0.0, MaxFinalGrade);
    Round2(capped)
  }

  /** `calculate`. Fails on an out-of-range manual bonus (checked first) or on
      weights adding up to more than 100; otherwise reports the breakdown, the
      double-rounded base grade and, depending on attendance, either a zero
      final grade or the capped grade with the policy's bonus. */
  function Calculate(record: StudentRecord): (r: Result<GradeReport, ValidationError>)
    ensures r.Failure? <==>
      record.manualExtraPoints < 0.0 || record.manualExtraPoints > MaxManualExtraPoints
      || TotalWeight(record.evaluations) > MaxWeight
    ensures record.manualExtraPoints < 0.0 ==> r == Failure(NegativeManualExtraPoints)
    ensures record.manualExtraPoints > MaxManualExtraPoints ==> r == Failure(ManualExtraPointsAboveMax)
    ensures (0.0 <= record.manualExtraPoints <= MaxManualExtraPoints
             && TotalWeight(record.evaluations) > MaxWeight) ==> r == Failure(WeightsAbove100)
    ensures r.Success? && !record.hasReachedMinimumClasses ==> r.value == IneligibleReport(record)
    ensures r.Success? && record.hasReachedMinimumClasses ==> r.value == EligibleReport(record)
  {
    match ValidateManualExtra(record.manualExtraPoints)
    case Fail(e) => Failure(e)
    case Pass =>
      match EnsureValidWeights(record.evaluations)
      case Fail(e) => Failure(e)
      case Pass =>
        var attendance := AttendancePolicy(record.hasReachedMinimumClasses);
        if !attendance.IsEligible() then Success(IneligibleReport(record))
        else Success(EligibleReport(record))
  }
}
