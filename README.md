# CoderDojoChi registration core, modelled in Dafny

This project models the registration logic of the CoderDojoChi web site
(`coderdojochi/views.py`): how class sessions and mentor meetings take and
release mentors and students, how their waitlists change, how staff check
students in, how many places each kind of visitor is shown as remaining,
and how the month calendar of classes groups and colours sessions. The
Django handlers mix this logic with database queries and page rendering;
the model keeps only the logic.

- `wrappers.dfy` (`Wrappers`): the `Option` type.
- `dates.dfy` (`Dates`): `add_months`, with Python 2 floor division, the
  Gregorian month lengths of `calendar.monthrange`, and the year range of
  Python's `date` (a year outside 1..9999 is an error, `None`).
- `occupancy.dfy` (`Occupancy`): the "spots remaining" figures of
  `session_detail`. Mentors see `capacity / 2 - mentors` (rounded down);
  guardians and anonymous visitors see `capacity - current students`, which
  uses the full capacity. Neither figure is clamped at zero.
- `calendar.dfy` (`SessionCalendar`): `group_by_day` as
  `dict(groupby(...))` (runs of consecutive equal days; a later run of a day
  replaces an earlier one), and `formatday` as a method whose loop classifies
  each session link as `unavailable` exactly when the remaining count is 0.
- `ledger.dfy` (`Registration`, `RegistrationRoundTrips`): class `Ledger`
  holds the relations the handlers change. These are each session's
  mentors and its two waitlists, each meeting's mentors, and the order
  table. Its methods are the POST branches of `session_sign_up`,
  `meeting_sign_up`, the waitlist form of `session_detail`, and
  `session_check_in`. Each sign-up is a toggle: withdraw when signed up,
  sign up otherwise. Only the sign-up branch returns a confirmation
  `Notice` (the subject and mail template the handler passes to the mailer).
  A lookup that fails (`get_object_or_404`, or `Model.objects.get` raising)
  becomes a not-found result with no change.

The model follows the code where it differs from the intended design of
the system:
- sign-up never checks capacity, so a session can be over-filled, and the
  spots remaining can then be negative;
- nothing stops an actor from being on a waitlist and confirmed at once:
  sign-up leaves the waitlists alone and a waitlist add does not look at
  confirmed membership;
- a withdrawal is a hard delete of the order;
- the guardian is not checked to own the student they sign up;
- check-in looks an order up by id alone, without checking that it belongs
  to the session in the URL.

`coderdojochi/models.py` is not part of this model. The model takes
`is_registered_for_session` and `get_current_students` to mean "the
student holds an order for that session".

## Model

| member | source | states |
|---|---|---|
| Dates.AddMonths | coderdojochi/views.py:99-105 | the result exists exactly when the shifted month lies in years 1..9999; it is a valid date whose month index (year*12 + month-1) is the source's plus `months`, with the day clamped to the target month's length |
| Dates.FloorDivision | coderdojochi/views.py:100-102 | quotient and remainder by a positive divisor are Python 2 floor division: remainder in 0..k-1 |
| Dates.MonthIndexInjective | coderdojochi/views.py:100-102 | a month index determines the year and month, so the carried year and `% 12 + 1` month are unique |
| Dates.DaysInMonth | coderdojochi/views.py:103 | month lengths are 28..31; 29 exactly for February of a Gregorian leap year, 30 exactly for April, June, September, November |
| Dates.YearLength | coderdojochi/views.py:103 | the twelve month lengths add up to 366 days exactly in a leap year and to 365 otherwise |
| Dates.AddMonthsRoundTrip | coderdojochi/views.py:99-105 | shifting by n and back by -n returns the original date when the day was not clamped |
| Dates.AddMonthsCompose | coderdojochi/views.py:99-105 | for a day of at most 28, shifting by a then b equals shifting by a+b |
| Dates.FirstOfMonthNeighbours | coderdojochi/views.py:251-253 | the calendar's previous and next month links from the first of a month land on the first |
| Dates.ClampToLeapFebruary | coderdojochi/views.py:103 | Jan 31 + 1 month is Feb 29 in 2024 and Feb 28 in 2023; 1900 is not a leap year, 2000 is |
| Dates.BorrowAndRange | coderdojochi/views.py:100-105 | -1 month from January borrows a year, +1 from December carries one, and leaving years 1..9999 is an error |
| Occupancy.MentorSpotsRemaining | coderdojochi/views.py:320 | the mentor figure is floor(capacity/2) - mentors, characterised without division |
| Occupancy.StudentSpotsRemaining | coderdojochi/views.py:326-328 | the guardian/anonymous figure plus the current students equals the full capacity |
| Occupancy.SpotsRemaining | coderdojochi/views.py:316-328 | mentors get the half-capacity figure, guardians and anonymous visitors the full-capacity one |
| Occupancy.StudentSpotsSign | coderdojochi/views.py:326-328 | the student figure is negative exactly when students exceed capacity (no clamping) and zero exactly at capacity |
| Occupancy.MentorSpotsSign | coderdojochi/views.py:320 | the mentor figure is positive exactly when 2*(mentors+1) <= capacity |
| Occupancy.ViewersDiffer | coderdojochi/views.py:316-328 | guardian and anonymous figures agree; they differ from the mentor figure by capacity - capacity/2 + mentors - students |
| Occupancy.Examples | coderdojochi/views.py:316-328 | worked figures, including a negative one and rounding down of odd capacities |
| SessionCalendar.Runs | coderdojochi/views.py:620-624 | `groupby` cuts the sessions into non-empty runs of one day each, adjacent runs on different days, which laid end to end give back the input |
| SessionCalendar.GroupByDaySorted | coderdojochi/views.py:620-624 | on sessions sorted by day, `group_by_day` has exactly the session days as keys, each mapped to that day's sessions in order |
| SessionCalendar.GroupByDayMerge | coderdojochi/views.py:620-624 | on sorted input, a first session on the same day as the next run joins that day's existing entry |
| SessionCalendar.GroupByDayNewRun | coderdojochi/views.py:620-624 | on sorted input, a first session on a new day adds a key not present before, holding just that session |
| SessionCalendar.LaterRunsAreLater | coderdojochi/views.py:620-624 | on sorted sessions every run after the first is on a later day than the first session |
| SessionCalendar.UnsortedInputLosesSessions | coderdojochi/views.py:620-624 | for sessions on days 5, 6, 5 in that order, the dict keeps only the last session of day 5: the first one is lost |
| SessionCalendar.LaterRunWins | coderdojochi/views.py:622 | for any runs, a run whose day no later run repeats is the value `dict` keeps for that day |
| SessionCalendar.ToDict | coderdojochi/views.py:622 | `dict` of the (day, items) pairs: every pair's day is a key |
| SessionCalendar.ToDictValues | coderdojochi/views.py:622 | every value `dict` keeps is the items of some pair with that key |
| SessionCalendar.GroupByDay | coderdojochi/views.py:620-624 | whatever the input order, the keys are exactly the days on which some session starts |
| SessionCalendar.GroupByDayRuns | coderdojochi/views.py:620-624 | whatever the input order, each key holds a non-empty list of sessions that all start on that day |
| SessionCalendar.Classify | coderdojochi/views.py:605-606 | a link is unavailable exactly when capacity minus current students is 0 |
| SessionCalendar.OverfullShownAvailable | coderdojochi/views.py:605-606 | an over-full session (negative remainder) is shown as available |
| SessionCalendar.FormatDay | coderdojochi/views.py:596-614 | day 0 is the blank cell and only it; otherwise the cell is marked today iff it is today's date, filled iff sessions start that day, and has one link per such session in order, unavailable iff its remainder is 0 |
| Registration.ClassNotice | coderdojochi/views.py:387-431 | a class confirmation uses the mentor template for a mentor and the guardian template, naming the student, for a guardian |
| Registration.Toggle | coderdojochi/views.py:365-369 | after the toggle the member is present iff it was absent; no other member changes |
| Registration.ToggleTwice | coderdojochi/views.py:365-369 | toggling twice restores the mentor set |
| Registration.UpdateWaitlist | coderdojochi/views.py:284-302 | after the request the actor is on the waitlist iff `remove` was not 'true'; nobody else changes |
| Registration.UpdateWaitlistIdempotent | coderdojochi/views.py:284-302 | repeating a waitlist request changes nothing more: adding twice equals adding once |
| Registration.HoldsOrder | coderdojochi/views.py:358 | `is_registered_for_session`, read as "the student holds an order for the session": true exactly when the student is among the session's current students |
| Registration.CurrentStudents | coderdojochi/views.py:326-328 | `get_current_students`, read as "the students holding an order for the session" (also used at views.py line 605): every order of the session contributes its student, and every student in the set holds such an order |
| Registration.WithoutRegistration | coderdojochi/views.py:371-374 | deleting the student's order leaves no order for that (student, session) and every other order as it was |
| Registration.WithdrawRemovesOneOrder | coderdojochi/views.py:371-374 | with one order per (student, session), a withdrawal deletes exactly one order |
| Registration.SignUpThenWithdraw | coderdojochi/views.py:371-377 | creating an order for an unregistered student and withdrawing again restores the order table |
| Registration.NewOrderKeepsOnePerStudentSession | coderdojochi/views.py:375-377 | creating an order only for an unregistered student keeps at most one order per (student, session) |
| Registration.SignUpTakesOnePlace | coderdojochi/views.py:375-377 | a sign-up adds exactly its student to the session's current students (one place fewer) and changes no other session's students |
| Registration.WithdrawFreesOnePlace | coderdojochi/views.py:371-374 | a withdrawal removes exactly its student from the current students (one place more) |
| Registration.CheckIn | coderdojochi/views.py:795-801 | check-in is set to now iff it was unset, else cleared; the alternate guardian becomes the submitted name unless it equals the guardian's "first last"; nothing else changes |
| Registration.CheckInTwice | coderdojochi/views.py:795-801 | checking in and out with the same form clears the check-in and sets the alternate guardian once |
| Registration.Ledger.IsSignedUp | coderdojochi/views.py:352-358 | a mentor is signed up iff among the session's mentors; a student iff among its current students |
| Registration.Ledger.SpotsRemaining | coderdojochi/views.py:316-328 | the session page's figure from the ledger's mentor set and current students, per viewer |
| Registration.Ledger.SessionSignUp | coderdojochi/views.py:342-431 | not found changes nothing; otherwise a mentor is toggled in the session's mentors, or a student's order deleted or created with the next order id; a confirmation is returned exactly when the actor was not signed up; the order counter advances exactly when an order is created; no capacity check; one order per (student, session) is kept |
| Registration.Ledger.MeetingSignUp | coderdojochi/views.py:457-499 | the mentor is toggled in the meeting's mentors; the meeting confirmation is returned exactly on the add branch; nothing else changes, the order counter included |
| Registration.Ledger.Waitlist | coderdojochi/views.py:278-304 | an empty field is invalid; 'student' updates the student waitlist, anything else the mentor waitlist; 'true' removes, else adds; unknown ids change nothing; confirmed mentors, orders and the order counter are untouched |
| Registration.Ledger.SessionCheckIn | coderdojochi/views.py:780-805 | non-staff, a missing session, a missing order id field and an unknown order change nothing; otherwise only that order gets the check-in toggle |
| RegistrationRoundTrips.MentorSignUpTwice | coderdojochi/views.py:352-369 | a mentor's sign-up then withdrawal restores sessions and orders; only the first returns a confirmation |
| RegistrationRoundTrips.GuardianSignUpTwice | coderdojochi/views.py:356-377 | a guardian's sign-up then withdrawal restores the order table; only the first returns the guardian confirmation |
| RegistrationRoundTrips.MeetingSignUpTwice | coderdojochi/views.py:460-473 | two meeting requests give one confirmation and one withdrawal and restore the meeting's mentors |

## Left out

- Request and response handling is not modelled: redirects, `messages`, templates, `render_to_response`, `login_required`. The GET paths are only the queries `IsSignedUp` and `SpotsRemaining`.
- The role check that sends a user without a role to `welcome` is not modelled. The request's user is taken as already resolved to a mentor id or a (guardian, student) pair, so the role string is not modelled either.
- Form parsing is not modelled: the `int(...)` of `account_id`, and POST keys that are missing and would raise `KeyError`. The form fields are assumed present.
- Email is not sent: `sendSystemEmail` and its merge variables (`arrow` date formatting, location fields, the global merge variables) are left out. The model returns the subject, template and event of the confirmation.
- `formatday`'s HTML strings are not modelled: the weekday CSS class names, the link markup and escaping. The `formatmonth` week grid from `HTMLCalendar` is library code and is left out too. The cell is a datatype that carries the weekday index.
- The query filters of the `sessions` view are not modelled: active sessions, future end date, the year and month, ordered by start. `GroupByDaySorted` takes their result's order, sorted by day, as its requirement.
- Registration forms, `welcome`, `dojo`, `student_detail`, `donate`, `verifyDonation`, `session_stats`, `cdc_admin` and the listing pages are not part of this core.
- Concurrency is not modelled: the code uses no transactions, and two requests can interleave between the membership read and the write.
- `coderdojochi/models.py` is not part of this model. The `Order.active` flag and model field defaults are not modelled: a new order has no check-in and no alternate guardian. `capacity` is an unbounded integer.
- Mentor, student and guardian records are sets of ids. Creating or editing them, and adding sessions or meetings, is admin work and is not modelled.
