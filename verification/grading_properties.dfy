/** Properties of the grade calculator that relate several of its steps. */
module GradingProperties {
  import opened Wrappers
  import opened Numeric
  import opened Evaluations
  import opened Records
  import opened Attendance
  import opened ExtraPoints
  import opened Grading

  /** A sum of values in hundredths is again in hundredths. */
  lemma CentsSum(a: real, b: real)
    requires IsCents(a) && IsCents(b)
    ensures IsCents(a + b)
  {
    var ka := (a * 100.0).Floor;
    var kb := (b * 100.0).Floor;
    assert (a + b) * 100.0 == (ka + kb) as real;
  }

  /** The sum of rounded contributions is already in hundredths. */
  lemma {:induction false} SumContributionsIsCents(b: seq<BreakdownEntry>)
    requires forall i | 0 <= i < |b| :: IsCents(b[i].contribution)
    ensures IsCents(SumContributions(b))
  {
    if |b| == 0 {
      assert 0.0 * 100.0 == 0 as real;
    } else {
      SumContributionsIsCents(b[..|b| - 1]);
      CentsSum(SumContributions(b[..|b| - 1]), b[|b| - 1].contribution);
    }
  }

  /** In exact arithmetic the second rounding of the base grade changes
      nothing: the base grade is the plain sum of the contributions. */
  lemma OuterRoundingIsExact(evals: seq<ValidEvaluation>)
    ensures BaseGrade(evals) == SumContributions(Breakdown(evals))
  {
    var b := Breakdown(evals);
    SumContributionsIsCents(b);
    Round2OfCents(SumContributions(b));
  }

  /** Each contribution exceeds its exact share by at most half a hundredth,
      so the sum exceeds 20/100 of the total weight by at most that per entry. */
  lemma {:induction false} SumContributionsBound(b: seq<BreakdownEntry>, evals: seq<ValidEvaluation>)
    requires |b| == |evals|
    requires forall i | 0 <= i < |b| :: b[i].contribution <= WeightedScore(evals[i]) + 0.005
    ensures SumContributions(b) <= MaxScore * TotalWeight(evals) / MaxWeight + 0.005 * |b| as real
  {
    if |b| > 0 {
      var n := |b| - 1;
      SumContributionsBound(b[..n], evals[..n]);
      assert evals[..n + 1][..n] == evals[..n];
      assert evals == evals[..n + 1];
    }
  }

  /** The base grade is NOT bounded by 20: double rounding can add up to half
      a hundredth per evaluation on top of it. */
  lemma BaseGradeUpperBound(evals: seq<ValidEvaluation>)
    requires TotalWeight(evals) <= MaxWeight
    ensures BaseGrade(evals) <= MaxScore + 0.005 * |evals| as real
  {
    var b := Breakdown(evals);
    SumContributionsBound(b, evals);
    OuterRoundingIsExact(evals);
  }

  /** The final grade always lies in [0, 20], and is 0 whenever attendance
      failed, whatever the scores. */
  lemma FinalGradeBounds(record: StudentRecord)
    requires Calculate(record).Success?
    ensures 0.0 <= Calculate(record).value.finalGrade <= MaxFinalGrade
    ensures !record.hasReachedMinimumClasses ==> Calculate(record).value.finalGrade == 0.0
  {
  }

  /** The "weights exceed 100%" note can never appear in a report: any record
      that would trigger it is rejected before the report is built. */
  lemma ExceedsNoteUnreachable(record: StudentRecord)
    requires Calculate(record).Success?
    ensures WeightsAbove100Note !in Calculate(record).value.inconsistencies
  {
    var notes := Inconsistencies(record.evaluations);
    if !record.hasReachedMinimumClasses {
      assert Calculate(record).value.inconsistencies == notes + [IneligibleReason];
      assert IneligibleReason != WeightsAbove100Note;
    }
  }

  /** The notes of a successful report: the evaluation-list notes, followed
      by the attendance reason for a student who missed the minimum. */
  lemma ReportNotes(record: StudentRecord)
    requires Calculate(record).Success?
    ensures TotalWeight(record.evaluations) <= MaxWeight
    ensures Calculate(record).value.inconsistencies ==
      if record.hasReachedMinimumClasses then Inconsistencies(record.evaluations)
      else Inconsistencies(record.evaluations) + [IneligibleReason]
  {
  }

  /** A successful report mentions missing evaluations exactly when there are
      none, and weights below 100 exactly when their total is below 100; the
      only other note it can carry is the attendance one, and only for a
      student who missed the minimum. */
  lemma InconsistencyNotes(record: StudentRecord)
    requires Calculate(record).Success?
    ensures NoEvaluationsNote in Calculate(record).value.inconsistencies <==> |record.evaluations| == 0
    ensures WeightsBelow100Note in Calculate(record).value.inconsistencies
            <==> TotalWeight(record.evaluations) < MaxWeight
    ensures forall x | x in Calculate(record).value.inconsistencies ::
      || x == NoEvaluationsNote
      || x == WeightsBelow100Note
      || (x == IneligibleReason && !record.hasReachedMinimumClasses)
  {
    ReportNotes(record);
    var notes := Inconsistencies(record.evaluations);
    var reported := Calculate(record).value.inconsistencies;
    assert WeightsAbove100Note !in notes;
    assert IneligibleReason != NoEvaluationsNote && IneligibleReason != WeightsBelow100Note;
    assert forall x | x in reported :: x in notes || (x == IneligibleReason && !record.hasReachedMinimumClasses);
  }

  /** For an eligible student, the bonus is granted (no avoided reason, and
      min(manual, 5) added) exactly when the votes are non-empty and unanimous
      and the current teacher allows it. */
  lemma ExtraPointsGrantedIff(record: StudentRecord)
    requires Calculate(record).Success? && record.hasReachedMinimumClasses
    ensures Calculate(record).value.extraPointsAvoided == []
            <==> Grants(record.allYearsTeachers, record.allowExtraPoints)
    ensures Grants(record.allYearsTeachers, record.allowExtraPoints) ==>
      Calculate(record).value.extraPointsApplied == Min(record.manualExtraPoints, MaxManualExtraPoints)
    ensures !Grants(record.allYearsTeachers, record.allowExtraPoints) ==>
      Calculate(record).value.extraPointsApplied == 0.0
  {
    GrantedIff(ExtraPointsPolicy(record.allYearsTeachers, record.allowExtraPoints, record.manualExtraPoints));
  }
}
