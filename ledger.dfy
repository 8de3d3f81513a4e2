/**
 The registration ledger behind the sign-up, waitlist and check-in handlers of
 coderdojochi/views.py. The database relations those handlers change are the
 fields of one `Ledger` object: each session's confirmed mentors and its two
 waitlists, each meeting's mentors, and the table of orders (a student's
 place in a session, taken by a guardian).

 Every sign-up request is a toggle: it withdraws the actor when already
 signed up, and signs them up otherwise. Only a sign-up sends a
 confirmation; the model returns that confirmation instead of mailing it.
 */
module Registration {
  import opened Wrappers
  import Occupancy

  type SessionId = nat
  type MeetingId = nat
  type MentorId = nat
  type GuardianId = nat
  type StudentId = nat
  type OrderId = nat

  /** A point in time as the clock reports it (`datetime.now()`). */
  type Instant = nat

  datatype Person = Person(firstName: string, lastName: string)

  /** `first_name + ' ' + last_name` */
  function FullName(p: Person): string {
    p.firstName + " " + p.lastName
  }

  /** A student's place in a session: who took it, from which address, and the check-in record. */
  datatype Order = Order(guardian: GuardianId, student: StudentId, session: SessionId, ip: string,
                         checkIn: Option<Instant>, alternateGuardian: Option<string>)

  /** The parts of a class session the ledger reads and changes. */
  datatype SessionState = SessionState(capacity: int, mentors: set<MentorId>,
                                       waitlistStudents: set<StudentId>, waitlistMentors: set<MentorId>)

  /** The user behind a request: a mentor, or a guardian acting for one student. */
  datatype Actor = MentorActor(mentor: MentorId) | GuardianActor(guardian: GuardianId, student: StudentId)

  /** A confirmation to send: subject, mail template, the event, and the student for a guardian's sign-up. */
  datatype Notice = Notice(subject: string, template: string, event: nat, student: Option<StudentId>)

  const ClassSubject := "Upcoming class confirmation"
  const MentorClassTemplate := "coderdojochi-class-confirm-mentor"
  const GuardianClassTemplate := "coderdojochi-class-confirm-guardian"
  const MeetingSubject := "Upcoming mentor meeting confirmation"
  const MentorMeetingTemplate := "coderdojochi-meeting-confirm-mentor"

  /** The confirmation that a class sign-up by `actor` sends. */
  function ClassNotice(sessionId: SessionId, actor: Actor): (n: Notice)
    ensures n.subject == ClassSubject && n.event == sessionId
    ensures n.template == MentorClassTemplate <==> actor.MentorActor?
    ensures n.template == GuardianClassTemplate <==> actor.GuardianActor?
    ensures n.student.Some? <==> actor.GuardianActor?
    ensures actor.GuardianActor? ==> n.student.value == actor.student
  {
    match actor
    case MentorActor(_) => Notice(ClassSubject, MentorClassTemplate, sessionId, None)
    case GuardianActor(_, student) => Notice(ClassSubject, GuardianClassTemplate, sessionId, Some(student))
  }

  /** Outcome of a sign-up request: a lookup failed (404), the actor was withdrawn, or signed up with a confirmation. */
  datatype SignUpResult = NotFound | Withdrawn | SignedUp(notice: Notice)

  /** The posted waitlist form: `waitlist` ('student' or another non-empty value for mentors), `account_id`, `remove`. */
  datatype WaitlistForm = WaitlistForm(waitlist: string, accountId: nat, remove: string)

  /** Outcome of a waitlist request. */
  datatype WaitlistResult = WaitlistNotFound | InvalidRequest | LeftWaitlist | JoinedWaitlist

  /** Outcome of a staff check-in request. */
  datatype CheckInResult = Forbidden | CheckInNotFound | InvalidOrder | Toggled(order: OrderId, checkedIn: bool)

  /** `remove` if present, else `add`: the mentor toggle of both sign-up handlers. */
  function Toggle<T>(s: set<T>, x: T): (r: set<T>)
    ensures x in r <==> x !in s
    ensures r - {x} == s - {x}
  {
    if x in s then s - {x} else s + {x}
  }

  /** Toggling twice restores the set. */
  lemma ToggleTwice<T>(s: set<T>, x: T)
    ensures Toggle(Toggle(s, x), x) == s
  {
  }

  /** `waitlist.remove(x)` when `remove`, else `waitlist.add(x)`. */
  function UpdateWaitlist<T>(s: set<T>, x: T, remove: bool): (r: set<T>)
    ensures x in r <==> !remove
    ensures r - {x} == s - {x}
  {
    if remove then s - {x} else s + {x}
  }

  /** Repeating a waitlist request changes nothing more: adding twice is adding once. */
  lemma UpdateWaitlistIdempotent<T>(s: set<T>, x: T, remove: bool)
    ensures UpdateWaitlist(UpdateWaitlist(s, x, remove), x, remove) == UpdateWaitlist(s, x, remove)
  {
  }

  /** `student.is_registered_for_session(session)`: the student holds an order for the session. */
  predicate HoldsOrder(orders: map<OrderId, Order>, student: StudentId, session: SessionId)
    ensures HoldsOrder(orders, student, session) <==> student in CurrentStudents(orders, session)
  {
    exists o | o in orders :: orders[o].student == student && orders[o].session == session
  }

  /** `session.get_current_students()`: the students holding an order for the session. */
  function CurrentStudents(orders: map<OrderId, Order>, session: SessionId): (r: set<StudentId>)
    ensures forall o | o in orders && orders[o].session == session :: orders[o].student in r
    ensures forall st | st in r :: exists o | o in orders :: orders[o].session == session && orders[o].student == st
  {
    set o | o in orders && orders[o].session == session :: orders[o].student
  }

  /** At most one order per (student, session). */
  predicate OnePerStudentSession(orders: map<OrderId, Order>) {
    forall o1, o2 | o1 in orders && o2 in orders ::
      orders[o1].student == orders[o2].student && orders[o1].session == orders[o2].session ==> o1 == o2
  }

  /** The order table after `order.delete()` of the student's order for the session. */
  function WithoutRegistration(orders: map<OrderId, Order>, student: StudentId, session: SessionId): (r: map<OrderId, Order>)
    ensures !HoldsOrder(r, student, session)
    ensures forall o | o in orders :: o in r <==> !(orders[o].student == student && orders[o].session == session)
    ensures forall o | o in r :: o in orders && r[o] == orders[o]
  {
    map o | o in orders && !(orders[o].student == student && orders[o].session == session) :: orders[o]
  }

  /** Withdrawing a student removes exactly one order when the table holds at most one per (student, session). */
  lemma {:induction false} WithdrawRemovesOneOrder(orders: map<OrderId, Order>, student: StudentId, session: SessionId)
    requires OnePerStudentSession(orders)
    requires HoldsOrder(orders, student, session)
    ensures |WithoutRegistration(orders, student, session)| == |orders| - 1
  {
    var o :| o in orders && orders[o].student == student && orders[o].session == session;
    assert WithoutRegistration(orders, student, session).Keys == orders.Keys - {o};
  }

  /** Signing a student up and withdrawing again leaves the order table as it was. */
  lemma {:induction false} SignUpThenWithdraw(orders: map<OrderId, Order>, id: OrderId, order: Order)
    requires id !in orders
    requires !HoldsOrder(orders, order.student, order.session)
    ensures WithoutRegistration(orders[id := order], order.student, order.session) == orders
  {
    var r := WithoutRegistration(orders[id := order], order.student, order.session);
    assert r.Keys == orders.Keys;
  }

  /** A new order for a student without one keeps the table at one order per (student, session). */
  lemma NewOrderKeepsOnePerStudentSession(orders: map<OrderId, Order>, id: OrderId, order: Order)
    requires OnePerStudentSession(orders)
    requires id !in orders
    requires !HoldsOrder(orders, order.student, order.session)
    ensures OnePerStudentSession(orders[id := order])
  {
  }

  /** A sign-up adds exactly its student to the session's current students, taking one place; other sessions are untouched. */
  lemma {:induction false} SignUpTakesOnePlace(orders: map<OrderId, Order>, id: OrderId, order: Order)
    requires id !in orders
    requires !HoldsOrder(orders, order.student, order.session)
    ensures CurrentStudents(orders[id := order], order.session) == CurrentStudents(orders, order.session) + {order.student}
    ensures |CurrentStudents(orders[id := order], order.session)| == |CurrentStudents(orders, order.session)| + 1
    ensures forall s | s != order.session :: CurrentStudents(orders[id := order], s) == CurrentStudents(orders, s)
  {
    var after := orders[id := order];
    forall s, st | st in CurrentStudents(after, s)
      ensures st in CurrentStudents(orders, s) || (s == order.session && st == order.student)
    {
      var o :| o in after && after[o].session == s && after[o].student == st;
      if o != id {
        assert orders[o].session == s && orders[o].student == st;
      }
    }
    forall s, st | st in CurrentStudents(orders, s)
      ensures st in CurrentStudents(after, s)
    {
      var o :| o in orders && orders[o].session == s && orders[o].student == st;
      assert o in after && after[o] == orders[o];
    }
    assert id in after && after[id] == order;
    assert order.student in CurrentStudents(after, order.session);
  }

  /** A withdrawal removes exactly its student from the session's current students, freeing one place. */
  lemma {:induction false} WithdrawFreesOnePlace(orders: map<OrderId, Order>, student: StudentId, session: SessionId)
    requires HoldsOrder(orders, student, session)
    ensures CurrentStudents(WithoutRegistration(orders, student, session), session) == CurrentStudents(orders, session) - {student}
    ensures |CurrentStudents(WithoutRegistration(orders, student, session), session)| == |CurrentStudents(orders, session)| - 1
  {
    var after := WithoutRegistration(orders, student, session);
    forall st | st in CurrentStudents(orders, session) - {student}
      ensures st in CurrentStudents(after, session)
    {
      var o :| o in orders && orders[o].session == session && orders[o].student == st;
      assert o in after;
    }
  }

  /**
   The staff check-in toggle on one order: `check_in` is cleared when set and
   set to `now` otherwise; `alternate_guardian` takes the submitted name unless
   that is the guardian's own "first last"; nothing else changes.
   */
  function CheckIn(order: Order, now: Instant, submitted: string, guardian: Person): (r: Order)
    ensures r.checkIn.Some? <==> order.checkIn.None?
    ensures r.checkIn.Some? ==> r.checkIn.value == now
    ensures FullName(guardian) != submitted ==> r.alternateGuardian == Some(submitted)
    ensures FullName(guardian) == submitted ==> r.alternateGuardian == order.alternateGuardian
    ensures r.(checkIn := order.checkIn, alternateGuardian := order.alternateGuardian) == order
  {
    var checkIn := if order.checkIn.Some? then None else Some(now);
    var alternate := if FullName(guardian) != submitted then Some(submitted) else order.alternateGuardian;
    order.(checkIn := checkIn, alternateGuardian := alternate)
  }

  /** Checking a student in and out again with the same form clears the check-in; the alternate guardian is set once. */
  lemma CheckInTwice(order: Order, t1: Instant, t2: Instant, submitted: string, guardian: Person)
    requires order.checkIn.None?
    ensures CheckIn(CheckIn(order, t1, submitted, guardian), t2, submitted, guardian)
         == CheckIn(order, t1, submitted, guardian).(checkIn := None)
  {
  }

  class Ledger {
    var sessions: map<SessionId, SessionState>
    var meetings: map<MeetingId, set<MentorId>>
    var orders: map<OrderId, Order>
    var nextOrderId: OrderId
    var mentors: set<MentorId>
    var students: set<StudentId>
    var guardians: map<GuardianId, Person>

    /** Orders refer to existing rows, ids below the next one are taken, and one order per (student, session). */
    ghost predicate Valid()
      reads this
    {
      && (forall o | o in orders ::
            && o < nextOrderId
            && orders[o].session in sessions
            && orders[o].student in students
            && orders[o].guardian in guardians)
      && OnePerStudentSession(orders)
    }

    /** A ledger with the given sessions, meetings and people, and no orders yet. */
    constructor (sessions: map<SessionId, SessionState>, meetings: map<MeetingId, set<MentorId>>,
                 mentors: set<MentorId>, students: set<StudentId>, guardians: map<GuardianId, Person>)
      ensures Valid()
      ensures this.sessions == sessions && this.meetings == meetings && this.orders == map[]
      ensures this.mentors == mentors && this.students == students && this.guardians == guardians
    {
      this.sessions := sessions;
      this.meetings := meetings;
      this.orders := map[];
      this.nextOrderId := 0;
      this.mentors := mentors;
      this.students := students;
      this.guardians := guardians;
    }

    /** The lookups of the actor's own records (`get_object_or_404`) succeed. */
    predicate KnownActor(actor: Actor)
      reads this
    {
      match actor
      case MentorActor(m) => m in mentors
      case GuardianActor(g, s) => g in guardians && s in students
    }

    /** `user_signed_up` of `session_sign_up`. */
    function IsSignedUp(sessionId: SessionId, actor: Actor): (b: bool)
      reads this
      requires sessionId in sessions
      ensures actor.MentorActor? ==> (b <==> actor.mentor in sessions[sessionId].mentors)
      ensures actor.GuardianActor? ==> (b <==> actor.student in CurrentStudents(orders, sessionId))
    {
      match actor
      case MentorActor(m) => m in sessions[sessionId].mentors
      case GuardianActor(_, s) =>
        HoldsOrder(orders, s, sessionId)
    }

    /** `spots_remaining` of `session_detail`, for the viewer's role. */
    function SpotsRemaining(sessionId: SessionId, viewer: Occupancy.Viewer): (r: int)
      reads this
      requires sessionId in sessions
      ensures viewer.MentorViewer? ==>
        2 * (r + |sessions[sessionId].mentors|) <= sessions[sessionId].capacity < 2 * (r + |sessions[sessionId].mentors|) + 2
      ensures !viewer.MentorViewer? ==> r + |CurrentStudents(orders, sessionId)| == sessions[sessionId].capacity
    {
      var s := sessions[sessionId];
      Occupancy.SpotsRemaining(s.capacity, |s.mentors|, |CurrentStudents(orders, sessionId)|, viewer)
    }

    /**
     `session_sign_up` on POST. A mentor is removed from the session's mentors
     when present and added otherwise. A guardian's student has the order
     deleted when registered, and otherwise gets a new order from this address.
     No capacity check is made, and waitlists are left alone.
     */
    method SessionSignUp(sessionId: SessionId, actor: Actor, ip: string) returns (result: SignUpResult)
      requires Valid()
      modifies this
      ensures Valid()
      ensures meetings == old(meetings) && mentors == old(mentors)
      ensures students == old(students) && guardians == old(guardians)
      ensures nextOrderId == if sessionId in old(sessions) && old(KnownActor(actor)) && actor.GuardianActor? && !old(IsSignedUp(sessionId, actor))
                             then old(nextOrderId) + 1 else old(nextOrderId)
      ensures sessionId !in old(sessions) || !old(KnownActor(actor)) ==>
        result == NotFound && sessions == old(sessions) && orders == old(orders)
      ensures sessionId in old(sessions) && old(KnownActor(actor)) ==>
        result == if old(IsSignedUp(sessionId, actor)) then Withdrawn else SignedUp(ClassNotice(sessionId, actor))
      ensures sessionId in old(sessions) && old(KnownActor(actor)) && actor.MentorActor? ==>
        && orders == old(orders)
        && sessions == old(sessions)[sessionId := old(sessions[sessionId]).(mentors := Toggle(old(sessions[sessionId].mentors), actor.mentor))]
      ensures sessionId in old(sessions) && old(KnownActor(actor)) && actor.GuardianActor? ==>
        && sessions == old(sessions)
        && orders == if old(IsSignedUp(sessionId, actor))
                     then WithoutRegistration(old(orders), actor.student, sessionId)
                     else old(orders)[old(nextOrderId) := Order(actor.guardian, actor.student, sessionId, ip, None, None)]
    {
      if sessionId !in sessions || !KnownActor(actor) {
        return NotFound;
      }
      var signedUp := IsSignedUp(sessionId, actor);
      match actor {
        case MentorActor(m) =>
          var s := sessions[sessionId];
          sessions := sessions[sessionId := s.(mentors := Toggle(s.mentors, m))];
        case GuardianActor(g, st) =>
          if signedUp {
            orders := WithoutRegistration(orders, st, sessionId);
          } else {
            // `get_or_create` keyed by (guardian, student, session, ip): no order of this
            // student for this session exists, so it always creates.
            NewOrderKeepsOnePerStudentSession(orders, nextOrderId, Order(g, st, sessionId, ip, None, None));
            orders := orders[nextOrderId := Order(g, st, sessionId, ip, None, None)];
            nextOrderId := nextOrderId + 1;
          }
      }
      result := if signedUp then Withdrawn else SignedUp(ClassNotice(sessionId, actor));
    }

    /** `meeting_sign_up` on POST: the mentor toggle on the meeting's mentors. */
    method MeetingSignUp(meetingId: MeetingId, mentor: MentorId) returns (result: SignUpResult)
      requires Valid()
      modifies this
      ensures Valid()
      ensures sessions == old(sessions) && orders == old(orders) && mentors == old(mentors)
      ensures students == old(students) && guardians == old(guardians) && nextOrderId == old(nextOrderId)
      ensures meetingId !in old(meetings) || mentor !in mentors ==> result == NotFound && meetings == old(meetings)
      ensures meetingId in old(meetings) && mentor in mentors ==>
        && meetings == old(meetings)[meetingId := Toggle(old(meetings[meetingId]), mentor)]
        && result == if mentor in old(meetings[meetingId]) then Withdrawn
                     else SignedUp(Notice(MeetingSubject, MentorMeetingTemplate, meetingId, None))
    {
      if meetingId !in meetings || mentor !in mentors {
        return NotFound;
      }
      var signedUp := mentor in meetings[meetingId];
      meetings := meetings[meetingId := Toggle(meetings[meetingId], mentor)];
      result := if signedUp then Withdrawn else SignedUp(Notice(MeetingSubject, MentorMeetingTemplate, meetingId, None));
    }

    /**
     The waitlist form of `session_detail`. An empty `waitlist` field is an
     invalid request; 'student' picks the student waitlist, any other value the
     mentor waitlist; `remove == 'true'` removes, anything else adds. Confirmed
     mentors and orders are untouched.
     */
    method Waitlist(sessionId: SessionId, form: WaitlistForm) returns (result: WaitlistResult)
      requires Valid()
      modifies this
      ensures Valid()
      ensures orders == old(orders) && meetings == old(meetings) && mentors == old(mentors)
      ensures students == old(students) && guardians == old(guardians) && nextOrderId == old(nextOrderId)
      ensures sessionId !in old(sessions) ==> result == WaitlistNotFound && sessions == old(sessions)
      ensures sessionId in old(sessions) && form.waitlist == "" ==> result == InvalidRequest && sessions == old(sessions)
      ensures sessionId in old(sessions) && form.waitlist == "student" && form.accountId !in students ==>
        result == WaitlistNotFound && sessions == old(sessions)
      ensures sessionId in old(sessions) && form.waitlist == "student" && form.accountId in students ==>
        && sessions == old(sessions)[sessionId := old(sessions[sessionId]).(waitlistStudents :=
             UpdateWaitlist(old(sessions[sessionId].waitlistStudents), form.accountId, form.remove == "true"))]
        && result == if form.remove == "true" then LeftWaitlist else JoinedWaitlist
      ensures sessionId in old(sessions) && form.waitlist != "" && form.waitlist != "student" && form.accountId !in mentors ==>
        result == WaitlistNotFound && sessions == old(sessions)
      ensures sessionId in old(sessions) && form.waitlist != "" && form.waitlist != "student" && form.accountId in mentors ==>
        && sessions == old(sessions)[sessionId := old(sessions[sessionId]).(waitlistMentors :=
             UpdateWaitlist(old(sessions[sessionId].waitlistMentors), form.accountId, form.remove == "true"))]
        && result == if form.remove == "true" then LeftWaitlist else JoinedWaitlist
    {
      if sessionId !in sessions {
        return WaitlistNotFound;
      }
      if form.waitlist == "" {
        return InvalidRequest;
      }
      var remove := form.remove == "true";
      var s := sessions[sessionId];
      if form.waitlist == "student" {
        if form.accountId !in students {
          return WaitlistNotFound;
        }
        sessions := sessions[sessionId := s.(waitlistStudents := UpdateWaitlist(s.waitlistStudents, form.accountId, remove))];
      } else {
        if form.accountId !in mentors {
          return WaitlistNotFound;
        }
        sessions := sessions[sessionId := s.(waitlistMentors := UpdateWaitlist(s.waitlistMentors, form.accountId, remove))];
      }
      result := if remove then LeftWaitlist else JoinedWaitlist;
    }

    /**
     `session_check_in` on POST: staff only; the session must exist; a form
     without an order id is invalid; the order is looked up by id alone (it
     need not belong to the session) and gets the check-in toggle.
     */
    method SessionCheckIn(isStaff: bool, sessionId: SessionId, orderId: Option<OrderId>,
                          submittedAlternate: string, now: Instant) returns (result: CheckInResult)
      requires Valid()
      modifies this
      ensures Valid()
      ensures sessions == old(sessions) && meetings == old(meetings) && mentors == old(mentors)
      ensures students == old(students) && guardians == old(guardians) && nextOrderId == old(nextOrderId)
      ensures !isStaff ==> result == Forbidden && orders == old(orders)
      ensures isStaff && sessionId !in sessions ==> result == CheckInNotFound && orders == old(orders)
      ensures isStaff && sessionId in sessions && orderId.None? ==> result == InvalidOrder && orders == old(orders)
      ensures isStaff && sessionId in sessions && orderId.Some? && orderId.value !in old(orders) ==>
        result == CheckInNotFound && orders == old(orders)
      ensures isStaff && sessionId in sessions && orderId.Some? && orderId.value in old(orders) ==>
        && orders == old(orders)[orderId.value := CheckIn(old(orders[orderId.value]), now, submittedAlternate,
                                                          guardians[old(orders[orderId.value]).guardian])]
        && result == Toggled(orderId.value, old(orders[orderId.value]).checkIn.None?)
    {
      if !isStaff {
        return Forbidden;
      }
      if sessionId !in sessions {
        return CheckInNotFound;
      }
      if orderId.None? {
        return InvalidOrder;
      }
      var id := orderId.value;
      if id !in orders {
        return CheckInNotFound;
      }
      var order := orders[id];
      var updated := CheckIn(order, now, submittedAlternate, guardians[order.guardian]);
      orders := orders[id := updated];
      result := Toggled(id, updated.checkIn.Some?);
    }
  }
}

/**
 Round trips through the ledger's own methods: a mentor who signs up and then
 withdraws, and a guardian who registers a student and then withdraws, leave
 the sessions and orders as they found them, and only the first request
 produces a confirmation.
 */
module RegistrationRoundTrips {
  import opened Wrappers
  import opened Registration

  method MentorSignUpTwice(ledger: Ledger, sessionId: SessionId, mentor: MentorId)
    returns (first: SignUpResult, second: SignUpResult)
    requires ledger.Valid() && sessionId in ledger.sessions && mentor in ledger.mentors
    requires mentor !in ledger.sessions[sessionId].mentors
    modifies ledger
    ensures ledger.Valid()
    ensures first.SignedUp? && first.notice.template == MentorClassTemplate && second == Withdrawn
    ensures ledger.sessions == old(ledger.sessions) && ledger.orders == old(ledger.orders)
  {
    first := ledger.SessionSignUp(sessionId, MentorActor(mentor), "");
    second := ledger.SessionSignUp(sessionId, MentorActor(mentor), "");
    ToggleTwice(old(ledger.sessions[sessionId].mentors), mentor);
    assert ledger.sessions[sessionId] == old(ledger.sessions[sessionId]);
  }

  method GuardianSignUpTwice(ledger: Ledger, sessionId: SessionId, guardian: GuardianId, student: StudentId, ip: string)
    returns (first: SignUpResult, second: SignUpResult)
    requires ledger.Valid() && sessionId in ledger.sessions
    requires guardian in ledger.guardians && student in ledger.students
    requires student !in CurrentStudents(ledger.orders, sessionId)
    modifies ledger
    ensures ledger.Valid()
    ensures first == SignedUp(Notice(ClassSubject, GuardianClassTemplate, sessionId, Some(student)))
    ensures second == Withdrawn
    ensures ledger.sessions == old(ledger.sessions) && ledger.orders == old(ledger.orders)
  {
    ghost var id := ledger.nextOrderId;
    assert id !in ledger.orders;
    first := ledger.SessionSignUp(sessionId, GuardianActor(guardian, student), ip);
    second := ledger.SessionSignUp(sessionId, GuardianActor(guardian, student), ip);
    SignUpThenWithdraw(old(ledger.orders), id, Order(guardian, student, sessionId, ip, None, None));
  }

  method MeetingSignUpTwice(ledger: Ledger, meetingId: MeetingId, mentor: MentorId)
    returns (first: SignUpResult, second: SignUpResult)
    requires ledger.Valid() && meetingId in ledger.meetings && mentor in ledger.mentors
    modifies ledger
    ensures ledger.Valid()
    ensures first.SignedUp? != second.SignedUp? && !(first.Withdrawn? && second.Withdrawn?)
    ensures ledger.meetings == old(ledger.meetings)
  {
    first := ledger.MeetingSignUp(meetingId, mentor);
    second := ledger.MeetingSignUp(meetingId, mentor);
    ToggleTwice(old(ledger.meetings[meetingId]), mentor);
  }
}
