/**
 The month view of upcoming classes (`SessionsCalendar` in
 coderdojochi/views.py): sessions are grouped by the day of the month they
 start on, and each day cell of the month grid is classified.
 */
module SessionCalendar {
  import opened Dates
  import Occupancy

  /** What the calendar reads of a session: its id, the day of month of its start, its capacity and its current student count. */
  datatype CalendarSession = CalendarSession(id: nat, day: int, capacity: int, currentStudents: nat)

  /** One group that `itertools.groupby` yields: a key and the consecutive items that share it. */
  datatype Run = Run(day: int, items: seq<CalendarSession>)

  /** The runs laid end to end. */
  function Flatten(rs: seq<Run>): seq<CalendarSession> {
    if rs == [] then [] else rs[0].items + Flatten(rs[1..])
  }

  predicate AllOnDay(items: seq<CalendarSession>, day: int) {
    forall i | 0 <= i < |items| :: items[i].day == day
  }

  /**
   `groupby(sessions, field)` with `field` the day of the start date: the
   input cut into maximal runs of consecutive sessions starting on the same day.
   */
  function Runs(sessions: seq<CalendarSession>): (rs: seq<Run>)
    ensures Flatten(rs) == sessions
    ensures forall i | 0 <= i < |rs| :: rs[i].items != [] && AllOnDay(rs[i].items, rs[i].day)
    ensures forall i | 0 < i < |rs| :: rs[i - 1].day != rs[i].day
    ensures sessions != [] ==> rs != [] && rs[0].day == sessions[0].day
  {
    if sessions == [] then []
    else
      var first := sessions[0];
      var rest := Runs(sessions[1..]);
      if rest != [] && rest[0].day == first.day then
        assert Flatten(rest) == rest[0].items + Flatten(rest[1..]);
        [Run(first.day, [first] + rest[0].items)] + rest[1..]
      else
        [Run(first.day, [first])] + rest
  }

  /**
   `dict(pairs)`: every pair's key becomes a key; a later pair with the same
   key replaces an earlier one (LaterRunWins).
   */
  function ToDict(rs: seq<Run>): (r: map<int, seq<CalendarSession>>)
    ensures forall i | 0 <= i < |rs| :: rs[i].day in r
  {
    if rs == [] then map[]
    else
      var rest := ToDict(rs[1..]);
      assert forall i | 1 <= i < |rs| :: rs[i] == rs[1..][i - 1];
      map[rs[0].day := rs[0].items] + rest
  }

  /** Every value `dict` keeps comes from a pair with that key. */
  lemma {:induction false} ToDictValues(rs: seq<Run>)
    ensures forall d | d in ToDict(rs) :: exists i | 0 <= i < |rs| :: rs[i].day == d && ToDict(rs)[d] == rs[i].items
  {
    if rs != [] {
      ToDictValues(rs[1..]);
      forall d | d in ToDict(rs) ensures exists i | 0 <= i < |rs| :: rs[i].day == d && ToDict(rs)[d] == rs[i].items {
        if d != rs[0].day {
          assert ToDict(rs) == map[rs[0].day := rs[0].items] + ToDict(rs[1..]);
          assert d in ToDict(rs[1..]) && ToDict(rs)[d] == ToDict(rs[1..])[d];
          var j :| 0 <= j < |rs[1..]| && rs[1..][j].day == d && ToDict(rs[1..])[d] == rs[1..][j].items;
          assert rs[j + 1] == rs[1..][j];
        }
      }
    }
  }

  /** The pair of a key that no later pair repeats is the one `dict` keeps. */
  lemma {:induction false} LaterRunWins(rs: seq<Run>, i: int)
    requires 0 <= i < |rs| && forall j | i < j < |rs| :: rs[j].day != rs[i].day
    ensures rs[i].day in ToDict(rs) && ToDict(rs)[rs[i].day] == rs[i].items
  {
    if i > 0 {
      LaterRunWins(rs[1..], i - 1);
    } else {
      NotAKey(rs[1..], rs[0].day);
    }
  }

  /**
   `SessionsCalendar.group_by_day`: the keys are exactly the days on which
   some session starts, whatever the input order.
   */
  function GroupByDay(sessions: seq<CalendarSession>): (r: map<int, seq<CalendarSession>>)
    ensures r.Keys == Days(sessions)
  {
    GroupByDayKeys(sessions);
    ToDict(Runs(sessions))
  }

  /** Whatever the input order, each key of `group_by_day` holds a non-empty run of sessions on that day. */
  lemma GroupByDayRuns(sessions: seq<CalendarSession>)
    ensures forall d | d in GroupByDay(sessions) :: GroupByDay(sessions)[d] != [] && AllOnDay(GroupByDay(sessions)[d], d)
  {
    ToDictValues(Runs(sessions));
  }

  lemma {:induction false} GroupByDayKeys(sessions: seq<CalendarSession>)
    ensures ToDict(Runs(sessions)).Keys == Days(sessions)
  {
    if sessions != [] {
      var first, tail := sessions[0], sessions[1..];
      GroupByDayKeys(tail);
      var rest := Runs(tail);
      if rest != [] && rest[0].day == first.day {
        var runs := [Run(first.day, [first] + rest[0].items)] + rest[1..];
        assert Runs(sessions) == runs && runs[1..] == rest[1..];
        assert ToDict(runs).Keys == {first.day} + ToDict(rest[1..]).Keys;
        assert ToDict(rest).Keys == {first.day} + ToDict(rest[1..]).Keys;
      } else {
        var runs := [Run(first.day, [first])] + rest;
        assert Runs(sessions) == runs && runs[1..] == rest;
      }
    }
  }

  /** The days on which some session starts. */
  function Days(sessions: seq<CalendarSession>): set<int> {
    if sessions == [] then {} else {sessions[0].day} + Days(sessions[1..])
  }

  /** The sessions that start on `day`, in their original order. */
  function OnDay(sessions: seq<CalendarSession>, day: int): (r: seq<CalendarSession>)
    ensures AllOnDay(r, day)
    ensures r != [] <==> day in Days(sessions)
  {
    if sessions == [] then []
    else if sessions[0].day == day then [sessions[0]] + OnDay(sessions[1..], day)
    else OnDay(sessions[1..], day)
  }

  /** The order the `sessions` view hands over: by start date, so within one month by day. */
  predicate SortedByDay(sessions: seq<CalendarSession>) {
    forall i, j | 0 <= i < j < |sessions| :: sessions[i].day <= sessions[j].day
  }

  lemma {:induction false} NotAKey(rs: seq<Run>, day: int)
    requires forall i | 0 <= i < |rs| :: rs[i].day != day
    ensures day !in ToDict(rs)
  {
    if rs != [] {
      NotAKey(rs[1..], day);
    }
  }

  /** On sorted input, every run after the first starts on a later day than the first session. */
  lemma {:induction false} LaterRunsAreLater(sessions: seq<CalendarSession>)
    requires SortedByDay(sessions) && sessions != []
    ensures forall i | 1 <= i < |Runs(sessions)| :: Runs(sessions)[i].day > sessions[0].day
  {
    var tail := sessions[1..];
    if tail != [] {
      assert SortedByDay(tail);
      LaterRunsAreLater(tail);
      assert tail[0].day >= sessions[0].day;
    }
  }

  /** The first session merges into the run of the next one: its day is already a key. */
  lemma {:induction false} GroupByDayMerge(sessions: seq<CalendarSession>)
    requires SortedByDay(sessions) && |sessions| > 1
    requires Runs(sessions[1..])[0].day == sessions[0].day
    ensures sessions[0].day in GroupByDay(sessions[1..])
    ensures GroupByDay(sessions[1..])[sessions[0].day] == Runs(sessions[1..])[0].items
    ensures GroupByDay(sessions) == GroupByDay(sessions[1..])[sessions[0].day := [sessions[0]] + Runs(sessions[1..])[0].items]
  {
    var first, tail := sessions[0], sessions[1..];
    assert SortedByDay(tail);
    var rest := Runs(tail);
    LaterRunsAreLater(tail);
    NotAKey(rest[1..], first.day);
    assert ToDict(rest) == map[first.day := rest[0].items] + ToDict(rest[1..]);
  }

  /** The first session starts a run of its own: its day is not yet a key. */
  lemma {:induction false} GroupByDayNewRun(sessions: seq<CalendarSession>)
    requires SortedByDay(sessions) && sessions != []
    requires sessions[1..] != [] ==> Runs(sessions[1..])[0].day != sessions[0].day
    ensures sessions[0].day !in GroupByDay(sessions[1..])
    ensures GroupByDay(sessions) == GroupByDay(sessions[1..])[sessions[0].day := [sessions[0]]]
  {
    var first, tail := sessions[0], sessions[1..];
    var rest := Runs(tail);
    if tail != [] {
      assert SortedByDay(tail);
      LaterRunsAreLater(tail);
      assert tail[0].day > first.day;
    }
    NotAKey(rest, first.day);
    var runs := [Run(first.day, [first])] + rest;
    assert Runs(sessions) == runs && runs[1..] == rest;
    var m := ToDict(rest);
    assert ToDict(runs) == map[first.day := [first]] + m;
    assert map[first.day := [first]] + m == m[first.day := [first]];
  }

  /**
   For sessions sorted by start day, `group_by_day` maps exactly the days on
   which some session starts, each to that day's sessions in their original order.
   */
  lemma {:induction false} GroupByDaySorted(sessions: seq<CalendarSession>)
    requires SortedByDay(sessions)
    ensures GroupByDay(sessions).Keys == Days(sessions)
    ensures forall d | d in Days(sessions) :: GroupByDay(sessions)[d] == OnDay(sessions, d)
  {
    if sessions != [] {
      var tail := sessions[1..];
      assert SortedByDay(tail);
      GroupByDaySorted(tail);
      var first := sessions[0];
      if tail != [] && Runs(tail)[0].day == first.day {
        GroupByDayMerge(sessions);
      } else {
        GroupByDayNewRun(sessions);
        assert OnDay(tail, first.day) == [];
        assert [first] + OnDay(tail, first.day) == [first];
      }
    }
  }

  /**
   On unsorted input a later run of a day replaces an earlier one (LaterRunWins):
   here the first session of day 5 is lost. The `sessions` view always sorts first.
   */
  lemma UnsortedInputLosesSessions()
    ensures var a, b, c := CalendarSession(1, 5, 10, 0), CalendarSession(2, 6, 10, 0), CalendarSession(3, 5, 10, 0);
      GroupByDay([a, b, c]) == map[5 := [c], 6 := [b]]
  {
    var a, b, c := CalendarSession(1, 5, 10, 0), CalendarSession(2, 6, 10, 0), CalendarSession(3, 5, 10, 0);
    assert [a, b, c][1..] == [b, c] && [b, c][1..] == [c] && [c][1..] == [];
    assert Runs([c]) == [Run(5, [c])];
    assert Runs([b, c]) == [Run(6, [b]), Run(5, [c])];
    var runs := [Run(5, [a]), Run(6, [b]), Run(5, [c])];
    assert Runs([a, b, c]) == runs;
    assert runs[1..] == [Run(6, [b]), Run(5, [c])] && runs[1..][1..] == [Run(5, [c])] && [Run(5, [c])][1..] == [];
    assert ToDict([Run(5, [c])]) == map[5 := [c]];
    assert ToDict(runs[1..]) == map[6 := [b], 5 := [c]];
  }

  /** How a session link is coloured. */
  datatype LinkStatus = Available | Unavailable

  datatype Link = Link(session: nat, status: LinkStatus)

  /** A cell of the month grid: a blank outside the month, else the day with its markers and links. */
  datatype Cell = NoDay | DayCell(day: int, weekday: int, today: bool, filled: bool, links: seq<Link>)

  /** `'unavailable' if not remaining_spots else 'available'` */
  function Classify(s: CalendarSession): (status: LinkStatus)
    ensures status == Unavailable <==> Occupancy.StudentSpotsRemaining(s.capacity, s.currentStudents) == 0
  {
    if Occupancy.StudentSpotsRemaining(s.capacity, s.currentStudents) == 0 then Unavailable else Available
  }

  /** An over-full session (negative spots remaining) is still shown as available. */
  lemma OverfullShownAvailable(s: CalendarSession)
    requires s.currentStudents > s.capacity
    ensures Classify(s) == Available
  {
  }

  /**
   `SessionsCalendar.formatday`: day 0 is a blank cell; any other day is
   marked today when it is `today`, filled when some session starts on it, and
   gets one link per session of that day, in order.
   */
  method FormatDay(year: int, month: int, day: int, weekday: int, today: Date,
                   byDay: map<int, seq<CalendarSession>>) returns (cell: Cell)
    requires day == 0 || ValidDate(Date(year, month, day))
    requires 0 <= weekday < 7
    ensures cell.NoDay? <==> day == 0
    ensures cell.DayCell? ==> cell.day == day && cell.weekday == weekday
    ensures cell.DayCell? ==> (cell.today <==> today == Date(year, month, day))
    ensures cell.DayCell? ==> (cell.filled <==> day in byDay)
    ensures cell.DayCell? && day !in byDay ==> cell.links == []
    ensures cell.DayCell? && day in byDay ==>
      && |cell.links| == |byDay[day]|
      && forall k | 0 <= k < |cell.links| ::
           && cell.links[k].session == byDay[day][k].id
           && (cell.links[k].status == Unavailable <==> byDay[day][k].capacity - byDay[day][k].currentStudents == 0)
  {
    if day == 0 {
      return NoDay;
    }
    var isToday := today == Date(year, month, day);
    var filled := day in byDay;
    var links: seq<Link> := [];
    if filled {
      var sessions := byDay[day];
      for i := 0 to |sessions|
        invariant |links| == i
        invariant forall k | 0 <= k < i ::
          && links[k].session == sessions[k].id
          && (links[k].status == Unavailable <==> sessions[k].capacity - sessions[k].currentStudents == 0)
      {
        links := links + [Link(sessions[i].id, Classify(sessions[i]))];
      }
    }
    cell := DayCell(day, weekday, isToday, filled, links);
  }
}
