/** The extra-points policy: bonus points are granted only on unanimous teacher
    agreement and only when the current teacher allows them. */
module ExtraPoints {
  import opened Wrappers
  import opened Numeric

  const MaxManualExtraPoints: real := 5.0

  const NoVotesReason: string := "No hay votos de docentes para puntos extra"
  const TeacherDisabledReason: string := "El docente actual desactivó los puntos extra"
  const NotUnanimousReason: string := "No hubo acuerdo unánime entre los docentes para puntos extra"

  /** The success note "Puntos extra otorgados manualmente (<applied>)"; the
      amount is kept as a number rather than formatted into text. */
  datatype GrantNote = ManuallyGranted(applied: real)

  datatype ExtraPointsResult = ExtraPointsResult(
    points: real,
    reason: Option<GrantNote>,
    avoidedReason: Option<string>)

  /** `votes.every(Boolean)`, scanning from the front. */
  function Every(votes: seq<bool>): bool
  {
    |votes| == 0 || (votes[0] && Every(votes[1..]))
  }

  /** `Every` holds exactly when no vote is false. */
  lemma {:induction false} EveryIffAllTrue(votes: seq<bool>)
    ensures Every(votes) <==> forall i | 0 <= i < |votes| :: votes[i]
  {
    if |votes| > 0 {
      EveryIffAllTrue(votes[1..]);
      assert forall i | 1 <= i < |votes| :: votes[i] == votes[1..][i - 1];
    }
  }

  /** The three conditions under which points are granted. */
  predicate Grants(votes: seq<bool>, allow: bool) {
    |votes| > 0 && allow && forall i | 0 <= i < |votes| :: votes[i]
  }

  datatype ExtraPointsPolicy = ExtraPointsPolicy(
    teachersAgreement: seq<bool>,
    allowExtraPoints: bool,
    manualExtraPoints: real)
  {
    /** The priority chain: no votes, then the current teacher's switch, then
        unanimity; only a request passing all three earns min(manual, 5). */
    function Evaluate(): (r: ExtraPointsResult)
      ensures |teachersAgreement| == 0 ==>
        r == ExtraPointsResult(0.0, None, Some(NoVotesReason))
      ensures |teachersAgreement| > 0 && !allowExtraPoints ==>
        r == ExtraPointsResult(0.0, None, Some(TeacherDisabledReason))
      ensures |teachersAgreement| > 0 && allowExtraPoints
              && (exists i | 0 <= i < |teachersAgreement| :: !teachersAgreement[i]) ==>
        r == ExtraPointsResult(0.0, None, Some(NotUnanimousReason))
      ensures Grants(teachersAgreement, allowExtraPoints) ==>
        && r.points == Min(manualExtraPoints, MaxManualExtraPoints)
        && r.reason == Some(ManuallyGranted(r.points))
        && r.avoidedReason == None
      ensures r.reason.Some? != r.avoidedReason.Some?
      ensures r.avoidedReason.Some? ==> r.avoidedReason.value != []
    {
      EveryIffAllTrue(teachersAgreement);
      if |teachersAgreement| == 0 then
        ExtraPointsResult(0.0, None, Some(NoVotesReason))
      else if !allowExtraPoints then
        ExtraPointsResult(0.0, None, Some(TeacherDisabledReason))
      else if !Every(teachersAgreement) then
        ExtraPointsResult(0.0, None, Some(NotUnanimousReason))
      else
        var applied := Min(manualExtraPoints, MaxManualExtraPoints);
        ExtraPointsResult(applied, Some(ManuallyGranted(applied)), None)
    }
  }

  /** Points are only ever positive on a granting request, and a request for a
      non-negative amount never earns more than five points. */
  lemma PointsBounds(p: ExtraPointsPolicy)
    ensures p.Evaluate().points > 0.0 ==> Grants(p.teachersAgreement, p.allowExtraPoints)
    ensures p.manualExtraPoints >= 0.0 ==> 0.0 <= p.Evaluate().points <= MaxManualExtraPoints
  {
  }

  /** A result without an avoided reason is exactly a granting request. */
  lemma GrantedIff(p: ExtraPointsPolicy)
    ensures p.Evaluate().avoidedReason.None? <==> Grants(p.teachersAgreement, p.allowExtraPoints)
  {
  }

  /** The three avoided reasons are distinguishable, so callers can tell the
      refusals apart; none of them is empty. */
  lemma AvoidedReasonsDistinct()
    ensures NoVotesReason != TeacherDisabledReason
    ensures NoVotesReason != NotUnanimousReason
    ensures TeacherDisabledReason != NotUnanimousReason
    ensures NoVotesReason != [] && TeacherDisabledReason != [] && NotUnanimousReason != []
  {
  }
}
