/** The calculator's example scenarios, each proved for the exact record it
    describes. */
module GradingScenarios {
  import opened Wrappers
  import opened Errors
  import opened Text
  import opened Numeric
  import opened Evaluations
  import opened Records
  import opened Attendance
  import opened ExtraPoints
  import opened Grading

  const Exam1: ValidEvaluation := Evaluation("Exam 1", 18.0, 50.0)
  const Exam2: ValidEvaluation := Evaluation("Exam 2", 16.0, 50.0)
  const Midterm: ValidEvaluation := Evaluation("Midterm", 15.0, 100.0)
  const Lab: ValidEvaluation := Evaluation("Lab", 19.0, 100.0)
  const Project: ValidEvaluation := Evaluation("Project", 20.0, 100.0)
  const Quiz: ValidEvaluation := Evaluation("Quiz", 12.0, 60.0)
  const Final: ValidEvaluation := Evaluation("Final", 18.0, 50.0)
  const Exam: ValidEvaluation := Evaluation("Exam", 18.0, 100.0)

  lemma SumsOfOne(e: ValidEvaluation)
    ensures TotalWeight([e]) == e.weight
    ensures BaseGrade([e]) == Round2(Round2(WeightedScore(e)))
  {
    var s: seq<ValidEvaluation> := [e];
    assert s[1..] == [] && s[..0] == [];
    var b := [EntryOf(e)];
    assert Breakdown(s) == b;
    assert b[..0] == [];
    assert SumContributions(b) == EntryOf(e).contribution;
  }

  lemma SumsOfTwo(e1: ValidEvaluation, e2: ValidEvaluation)
    ensures TotalWeight([e1, e2]) == e1.weight + e2.weight
    ensures BaseGrade([e1, e2]) == Round2(Round2(WeightedScore(e1)) + Round2(WeightedScore(e2)))
  {
    var s: seq<ValidEvaluation> := [e1, e2];
    var one: seq<ValidEvaluation> := [e1];
    var two: seq<ValidEvaluation> := [e2];
    assert s[..1] == one && one[..0] == [];
    assert TotalWeight(one) == e1.weight;
    assert s[1..] == two && two[1..] == [];
    assert Breakdown(two) == [EntryOf(e2)];
    var b := [EntryOf(e1), EntryOf(e2)];
    assert Breakdown(s) == b;
    assert b[..1] == [EntryOf(e1)] && b[..1][..0] == [];
    assert SumContributions(b[..1]) == EntryOf(e1).contribution;
    assert SumContributions(b) == EntryOf(e1).contribution + EntryOf(e2).contribution;
  }

  lemma SumsOfThreeEqual(e: ValidEvaluation)
    ensures TotalWeight([e, e, e]) == 3.0 * e.weight
    ensures BaseGrade([e, e, e]) == Round2(3.0 * Round2(WeightedScore(e)))
  {
    var s: seq<ValidEvaluation> := [e, e, e];
    SumsOfTwo(e, e);
    assert s[..2] == [e, e];
    var x := EntryOf(e);
    assert s[1..] == [e, e] && [e, e][1..] == [e] && [e][1..] == [];
    assert Breakdown([e]) == [x];
    assert Breakdown([e, e]) == [x, x];
    var b := [x, x, x];
    assert Breakdown(s) == b;
    assert b[..2] == [x, x] && [x, x][..1] == [x] && [x][..0] == [];
    assert SumContributions([x]) == x.contribution;
    assert SumContributions([x, x]) == 2.0 * x.contribution;
    assert SumContributions(b) == 3.0 * x.contribution;
  }

  /** Three evaluations of weight 100/3 scored 20 each: every contribution
      rounds 6.666... up to 6.67 and the base grade is 20.01, above the scale;
      only the final grade is capped back to 20. */
  lemma BaseGradeCanExceedMax()
    ensures
      var e := Evaluation("A", 20.0, 100.0 / 3.0);
      var r := Calculate(StudentRecord("s", [e, e, e], true, [true], true, 0.0));
      && r.Success?
      && r.value.baseGrade == 20.01
      && r.value.finalGrade == 20.0
  {
    var e: ValidEvaluation := Evaluation("A", 20.0, 100.0 / 3.0);
    var record := StudentRecord("s", [e, e, e], true, [true], true, 0.0);
    SumsOfThreeEqual(e);
    assert WeightedScore(e) == 20.0 / 3.0;
    assert (20.0 / 3.0 * 100.0 + 0.5).Floor == 667;
    assert Round2(WeightedScore(e)) == 6.67;
    assert (20.01 * 100.0 + 0.5).Floor == 2001;
    assert BaseGrade([e, e, e]) == 20.01;
    Round2OfCents(20.0);
    EligibleOutcome(record);
  }

  /** What a valid record of an absent student reports, in terms of the steps. */
  lemma IneligibleOutcome(record: StudentRecord)
    requires !record.hasReachedMinimumClasses
    requires 0.0 <= record.manualExtraPoints <= MaxManualExtraPoints
    requires TotalWeight(record.evaluations) <= MaxWeight
    ensures Calculate(record).Success?
    ensures Calculate(record).value.baseGrade == BaseGrade(record.evaluations)
    ensures Calculate(record).value.finalGrade == 0.0
    ensures Calculate(record).value.extraPointsApplied == 0.0
    ensures Calculate(record).value.extraPointsAvoided == [AttendanceNotMetReason]
  {
    assert Calculate(record) == Success(IneligibleReport(record));
  }

  /** What a valid record of a present student reports, in terms of the steps. */
  lemma EligibleOutcome(record: StudentRecord)
    requires record.hasReachedMinimumClasses
    requires 0.0 <= record.manualExtraPoints <= MaxManualExtraPoints
    requires TotalWeight(record.evaluations) <= MaxWeight
    ensures Calculate(record).Success?
    ensures
      var outcome := ExtraPointsPolicy(record.allYearsTeachers, record.allowExtraPoints,
                                       record.manualExtraPoints).Evaluate();
      var report := Calculate(record).value;
      && report.baseGrade == BaseGrade(record.evaluations)
      && report.extraPointsApplied == outcome.points
      && report.finalGrade == Round2(Min(BaseGrade(record.evaluations) + outcome.points, MaxFinalGrade))
      && report.extraPointsAvoided == (if outcome.avoidedReason.Some? then [outcome.avoidedReason.value] else [])
      && report.inconsistencies == Inconsistencies(record.evaluations)
  {
    assert Calculate(record) == Success(EligibleReport(record));
  }

  /** Two halves scored 18 and 16, unanimous votes, one manual point: base 17,
      final 18, nothing avoided. */
  lemma ExtraPointsGrantedScenario()
    ensures
      var r := Calculate(StudentRecord("student-1", [Exam1, Exam2], true, [true, true], true, 1.0));
      && r.Success?
      && r.value.baseGrade == 17.0
      && r.value.extraPointsApplied == 1.0
      && r.value.finalGrade == 18.0
      && r.value.extraPointsAvoided == []
  {
    var record := StudentRecord("student-1", [Exam1, Exam2], true, [true, true], true, 1.0);
    SumsOfTwo(Exam1, Exam2);
    assert WeightedScore(Exam1) == 9.0 && WeightedScore(Exam2) == 8.0;
    Round2OfCents(9.0);
    Round2OfCents(8.0);
    Round2OfCents(17.0);
    Round2OfCents(18.0);
    assert Grants([true, true], true);
    EligibleOutcome(record);
  }

  /** Missed attendance: the base grade 15 is still reported, the final grade
      is 0 and the attendance reason is listed. */
  lemma AttendanceNotMetScenario()
    ensures
      var r := Calculate(StudentRecord("student-1", [Midterm], false, [true], true, 1.0));
      && r.Success?
      && r.value.baseGrade == 15.0
      && r.value.finalGrade == 0.0
      && r.value.extraPointsApplied == 0.0
      && AttendanceNotMetReason in r.value.extraPointsAvoided
  {
    var record := StudentRecord("student-1", [Midterm], false, [true], true, 1.0);
    SumsOfOne(Midterm);
    assert WeightedScore(Midterm) == 15.0;
    Round2OfCents(15.0);
    IneligibleOutcome(record);
  }

  /** A dissenting vote: no bonus, the unanimity reason, final grade 19. */
  lemma NotUnanimousScenario()
    ensures
      var r := Calculate(StudentRecord("student-1", [Lab], true, [true, false], true, 1.0));
      && r.Success?
      && r.value.extraPointsApplied == 0.0
      && NotUnanimousReason in r.value.extraPointsAvoided
      && r.value.finalGrade == 19.0
  {
    var record := StudentRecord("student-1", [Lab], true, [true, false], true, 1.0);
    SumsOfOne(Lab);
    assert WeightedScore(Lab) == 19.0;
    Round2OfCents(19.0);
    assert ![true, false][1];
    EligibleOutcome(record);
  }

  /** A perfect score plus three extra points is capped at 20. */
  lemma CappedScenario()
    ensures
      var r := Calculate(StudentRecord("student-1", [Project], true, [true, true], true, 3.0));
      && r.Success?
      && r.value.baseGrade == 20.0
      && r.value.finalGrade == 20.0
  {
    var record := StudentRecord("student-1", [Project], true, [true, true], true, 3.0);
    SumsOfOne(Project);
    assert WeightedScore(Project) == 20.0;
    Round2OfCents(20.0);
    EligibleOutcome(record);
  }

  /** Weights 60 and 50 add up to 110: the calculation is rejected with a
      message about the weight sum. */
  lemma WeightsAbove100Scenario()
    ensures
      var r := Calculate(StudentRecord("student-1", [Quiz, Final], true, [true], true, 1.0));
      && r == Failure(WeightsAbove100)
      && Contains(Message(r.error), WeightsSumPhrase)
  {
    SumsOfTwo(Quiz, Final);
    MessagePhrases();
  }

  /** No evaluations at all: base grade 0, the matching note, no bonus. */
  lemma NoEvaluationsScenario()
    ensures
      var r := Calculate(StudentRecord("student-1", [], true, [false, false], false, 0.0));
      && r.Success?
      && r.value.baseGrade == 0.0
      && NoEvaluationsNote in r.value.inconsistencies
      && r.value.extraPointsApplied == 0.0
  {
    var record := StudentRecord("student-1", [], true, [false, false], false, 0.0);
    Round2OfCents(0.0);
    EligibleOutcome(record);
  }

  /** The current teacher's switch wins over unanimous votes: no bonus, the
      teacher's reason, final grade 18. */
  lemma TeacherDisabledScenario()
    ensures
      var r := Calculate(StudentRecord("student-1", [Exam], true, [true], false, 2.0));
      && r.Success?
      && r.value.extraPointsApplied == 0.0
      && TeacherDisabledReason in r.value.extraPointsAvoided
      && r.value.finalGrade == 18.0
  {
    var record := StudentRecord("student-1", [Exam], true, [true], false, 2.0);
    SumsOfOne(Exam);
    assert WeightedScore(Exam) == 18.0;
    Round2OfCents(18.0);
    EligibleOutcome(record);
  }

  /** Ten manual points are rejected before anything else, with a message
      about the bonus maximum. */
  lemma ManualExtraAboveMaxScenario()
    ensures
      var r := Calculate(StudentRecord("student-1", [], true, [true], true, 10.0));
      && r == Failure(ManualExtraPointsAboveMax)
      && Contains(Message(r.error), ManualExtraPhrase)
  {
    MessagePhrases();
  }
}
