/** One graded item: a name, a score on the 0..20 scale and a percentage weight. */
module Evaluations {
  import opened Wrappers
  import opened Errors
  import opened Text

  const MinScore: real := 0.0
  const MaxScore: real := 20.0
  const MaxWeight: real := 100.0

  /** The raw constructor argument. */
  datatype EvaluationProps = EvaluationProps(name: string, score: real, weight: real)

  datatype Evaluation = Evaluation(name: string, score: real, weight: real)

  /** What every constructed evaluation satisfies: a non-empty trimmed name, a
      score in [0, 20] and a weight in (0, 100]. */
  predicate Valid(e: Evaluation) {
    && IsTrimmed(e.name)
    && MinScore <= e.score <= MaxScore
    && 0.0 < e.weight <= MaxWeight
  }

  /** Evaluations can only be obtained through `NewEvaluation`, so the rest of
      the model works with validated ones. */
  type ValidEvaluation = e: Evaluation | Valid(e) witness Evaluation("x", 0.0, 1.0)

  /** `validate`: checks name, then score, then weight, and fails on the
      first field that is out of bounds. */
  function Validate(p: EvaluationProps): (r: Outcome<ValidationError>)
    ensures r == Pass <==>
      !IsBlank(p.name) && MinScore <= p.score <= MaxScore && 0.0 < p.weight <= MaxWeight
    ensures IsBlank(p.name) ==> r == Fail(EvaluationNameRequired)
    ensures !IsBlank(p.name) && !(MinScore <= p.score <= MaxScore) ==> r == Fail(ScoreOutOfRange)
    ensures !IsBlank(p.name) && MinScore <= p.score <= MaxScore && !(0.0 < p.weight <= MaxWeight)
      ==> r == Fail(WeightOutOfRange)
  {
    if IsBlank(p.name) then
      Fail(EvaluationNameRequired)
    else if p.score < MinScore || p.score > MaxScore then
      Fail(ScoreOutOfRange)
    else if p.weight <= 0.0 || p.weight > MaxWeight then
      Fail(WeightOutOfRange)
    else
      Pass
  }

  /** The constructor: validates, then stores the trimmed name and the score
      and weight as given. */
  function NewEvaluation(p: EvaluationProps): (r: Result<ValidEvaluation, ValidationError>)
    ensures r.Success? <==> Validate(p) == Pass
    ensures r.Failure? ==> Validate(p) == Fail(r.error)
    ensures r.Success? ==>
      r.value.name == Trim(p.name) && r.value.score == p.score && r.value.weight == p.weight
  {
    match Validate(p)
    case Fail(error) => Failure(error)
    case Pass => Success(Stored(p))
  }

  /** The fields a constructor stores once validation has passed. */
  function Stored(p: EvaluationProps): (e: ValidEvaluation)
    requires !IsBlank(p.name) && MinScore <= p.score <= MaxScore && 0.0 < p.weight <= MaxWeight
    ensures e.name == Trim(p.name) && e.score == p.score && e.weight == p.weight
  {
    TrimOfNonBlank(p.name);
    Checked(Trim(p.name), p.score, p.weight)
  }

  /** An evaluation built from fields already known to pass validation. */
  function Checked(name: string, score: real, weight: real): (e: ValidEvaluation)
    requires IsTrimmed(name) && MinScore <= score <= MaxScore && 0.0 < weight <= MaxWeight
    ensures e.name == name && e.score == score && e.weight == weight
  {
    Evaluation(name, score, weight)
  }

  /** `getWeightedScore`: the share of the 0..20 scale this evaluation brings,
      score * weight / 100, unrounded. */
  function WeightedScore(e: ValidEvaluation): (r: real)
    ensures 0.0 <= r <= e.score
    ensures r <= 20.0 * e.weight / 100.0
  {
    ProductBounds(e.score, e.weight, 20.0, 100.0);
    assert e.score * e.weight <= 20.0 * e.weight;
    e.score * e.weight / 100.0
  }

  lemma ProductNonNegative(a: real, b: real)
    requires 0.0 <= a && 0.0 <= b
    ensures 0.0 <= a * b
  {
  }

  /** Bounds of a product of two bounded non-negative factors. */
  lemma ProductBounds(a: real, b: real, aMax: real, bMax: real)
    requires 0.0 <= a <= aMax && 0.0 <= b <= bMax
    ensures 0.0 <= a * b <= a * bMax && a * b <= aMax * b
  {
    ProductNonNegative(a, b);
    ProductNonNegative(a, bMax - b);
    assert a * (bMax - b) == a * bMax - a * b;
    ProductNonNegative(aMax - a, b);
    assert (aMax - a) * b == aMax * b - a * b;
  }

  /** The fields of a constructed evaluation rebuild exactly that evaluation. */
  lemma NewEvaluationRoundTrip(e: ValidEvaluation)
    ensures NewEvaluation(EvaluationProps(e.name, e.score, e.weight)) == Success(e)
  {
    TrimOfTrimmed(e.name);
  }

  /** A name is rejected exactly when trimming leaves nothing of it. */
  lemma NameRejectedIffTrimEmpty(p: EvaluationProps)
    ensures NewEvaluation(p) == Failure(EvaluationNameRequired) <==> Trim(p.name) == []
  {
  }
}
