/** The shapes exchanged by the calculator: the stored student record and the
    report computed from it. */
module Records {
  import opened Evaluations

  datatype StudentRecord = StudentRecord(
    id: string,
    evaluations: seq<ValidEvaluation>,
    hasReachedMinimumClasses: bool,
    allYearsTeachers: seq<bool>,
    allowExtraPoints: bool,
    manualExtraPoints: real)

  /** One line of the per-evaluation breakdown. */
  datatype BreakdownEntry = BreakdownEntry(name: string, score: real, weight: real, contribution: real)

  datatype GradeReport = GradeReport(
    studentId: string,
    baseGrade: real,
    extraPointsApplied: real,
    finalGrade: real,
    evaluationBreakdown: seq<BreakdownEntry>,
    inconsistencies: seq<string>,
    extraPointsAvoided: seq<string>)
}
