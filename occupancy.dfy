/**
 The "spots remaining" figures that `session_detail` shows
 (coderdojochi/views.py). Mentors see what is left of half the session's
 capacity (Python 2 floor division); guardians and anonymous visitors see
 what is left of the whole capacity. Nothing is clamped: an over-full
 session shows a negative number.
 */
module Occupancy {

  /** Who is looking at the session page. */
  datatype Viewer = MentorViewer | GuardianViewer | AnonymousViewer

  /** `session_obj.capacity / 2 - session_obj.mentors.all().count()` */
  function MentorSpotsRemaining(capacity: int, mentorCount: nat): (r: int)
    ensures 2 * (r + mentorCount) <= capacity < 2 * (r + mentorCount) + 2
  {
    capacity / 2 - mentorCount
  }

  /** `session_obj.capacity - session_obj.get_current_students().all().count()` */
  function StudentSpotsRemaining(capacity: int, studentCount: nat): (r: int)
    ensures r + studentCount == capacity
  {
    capacity - studentCount
  }

  /** The figure `session_detail` computes for each kind of viewer. */
  function SpotsRemaining(capacity: int, mentorCount: nat, studentCount: nat, viewer: Viewer): (r: int)
    ensures viewer.MentorViewer? ==> 2 * (r + mentorCount) <= capacity < 2 * (r + mentorCount) + 2
    ensures !viewer.MentorViewer? ==> r + studentCount == capacity
  {
    match viewer
    case MentorViewer => MentorSpotsRemaining(capacity, mentorCount)
    case GuardianViewer => StudentSpotsRemaining(capacity, studentCount)
    case AnonymousViewer => StudentSpotsRemaining(capacity, studentCount)
  }

  /** The student-facing figure is negative exactly when more students hold a place than the capacity. */
  lemma StudentSpotsSign(capacity: int, studentCount: nat)
    ensures StudentSpotsRemaining(capacity, studentCount) < 0 <==> studentCount > capacity
    ensures StudentSpotsRemaining(capacity, studentCount) == 0 <==> studentCount == capacity
  {
  }

  /** The mentor-facing figure is positive exactly when fewer mentors than half the capacity (rounded down) are signed up. */
  lemma MentorSpotsSign(capacity: int, mentorCount: nat)
    ensures MentorSpotsRemaining(capacity, mentorCount) > 0 <==> 2 * (mentorCount + 1) <= capacity
  {
  }

  /**
   Guardians and mentors count against different shares: students against the
   full capacity (not the other half), mentors against half of it.
   */
  lemma ViewersDiffer(capacity: int, mentorCount: nat, studentCount: nat)
    ensures SpotsRemaining(capacity, mentorCount, studentCount, GuardianViewer)
         == SpotsRemaining(capacity, mentorCount, studentCount, AnonymousViewer)
    ensures SpotsRemaining(capacity, mentorCount, studentCount, GuardianViewer)
         - SpotsRemaining(capacity, mentorCount, studentCount, MentorViewer)
         == capacity - capacity / 2 + mentorCount - studentCount
  {
  }

  /**
   Worked figures: five students in a session of ten still leave five places
   (the full capacity counts), nothing is clamped, and half of an odd capacity
   rounds down.
   */
  lemma Examples()
    ensures SpotsRemaining(10, 0, 5, GuardianViewer) == 5
    ensures SpotsRemaining(10, 3, 0, MentorViewer) == 2
    ensures SpotsRemaining(11, 5, 0, MentorViewer) == 0
    ensures SpotsRemaining(10, 0, 12, AnonymousViewer) == -2
    ensures SpotsRemaining(4, 3, 0, MentorViewer) == -1
  {
  }
}
