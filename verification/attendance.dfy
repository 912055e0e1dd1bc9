/** The attendance gate: a student who did not reach the minimum number of
    classes gets no grade. */
module Attendance {

  const IneligibleReason: string := "El estudiante no cumplió la asistencia mínima"

  datatype AttendancePolicy = AttendancePolicy(minimumReached: bool) {

    /** Eligibility is the attendance flag, unchanged. */
    function IsEligible(): (r: bool)
      ensures r <==> minimumReached
    {
      minimumReached
    }

    /** Empty for an eligible student, the fixed diagnostic otherwise. */
    function ReasonWhenIneligible(): (r: string)
      ensures r == [] <==> IsEligible()
      ensures !IsEligible() ==> r == IneligibleReason
    {
      if minimumReached then "" else IneligibleReason
    }
  }
}
