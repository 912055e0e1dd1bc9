/** The single error kind of the grade calculator: a validation error carrying a
    (Spanish) human-readable message. Each way of failing is one constructor. */
module Errors {
  import opened Text

  datatype ValidationError =
    | EvaluationNameRequired
    | ScoreOutOfRange
    | WeightOutOfRange
    | StudentIdRequired
    | NegativeManualExtraPoints
    | ManualExtraPointsAboveMax
    | WeightsAbove100

  /** The phrases the calculator's callers match thrown messages on. */
  const WeightsSumPhrase: string := "suma de pesos no puede superar 100%"
  const ManualExtraPhrase: string := "puntos extra manuales no pueden superar"

  /** The message the original attaches to each error; the bonus maximum is
      the template's constant 5, already substituted. */
  function Message(e: ValidationError): string {
    match e
    case EvaluationNameRequired => "El nombre de la evaluación es obligatorio"
    case ScoreOutOfRange => "La nota debe estar entre 0 y 20"
    case WeightOutOfRange => "El peso de la evaluación debe estar entre 0 y 100"
    case StudentIdRequired => "El código del estudiante es obligatorio"
    case NegativeManualExtraPoints => "Los puntos extra manuales deben ser cero o positivos"
    case ManualExtraPointsAboveMax => "Los " + ManualExtraPhrase + " 5"
    case WeightsAbove100 => "La " + WeightsSumPhrase
  }

  /** The two calculator errors carry the phrases callers match on. */
  lemma MessagePhrases()
    ensures Contains(Message(WeightsAbove100), WeightsSumPhrase)
    ensures Contains(Message(ManualExtraPointsAboveMax), ManualExtraPhrase)
  {
    OccursInMiddle("La ", WeightsSumPhrase, "");
    assert "La " + WeightsSumPhrase + "" == "La " + WeightsSumPhrase;
    OccursInMiddle("Los ", ManualExtraPhrase, " 5");
  }
}
