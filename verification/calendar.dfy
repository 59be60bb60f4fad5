/** The calendar view (src/components/Calendar.jsx): the month grid, the
    deadlines falling on a day, and the two "upcoming" lists.

    The displayed month is given as a year and a 0-based month, as Date's
    getFullYear and getMonth return them. Parsing a due date (`new Date(s)`)
    is the parameter `instant`: the time it denotes in milliseconds, or None
    for text that is not a date. */
module CalendarView {
  import opened Common
  import opened Store

  // ---------------------------------------------------------------------
  // The month grid
  // ---------------------------------------------------------------------

  predicate LeapYear(year: int)
  {
    year % 4 == 0 && (year % 100 != 0 || year % 400 == 0)
  }

  /** `new Date(year, month + 1, 0).getDate()`: the length of a month of the
      proleptic Gregorian calendar; `month` counts from 0. */
  function DaysInMonth(year: int, month: nat): (r: nat)
    requires month < 12
    ensures 28 <= r <= 31
    ensures r == 29 <==> month == 1 && LeapYear(year)
    ensures r == 28 <==> month == 1 && !LeapYear(year)
  {
    if month == 1 then (if LeapYear(year) then 29 else 28)
    else if month in {3, 5, 8, 10} then 30
    else 31
  }

  const MonthOffsets: seq<int> := [0, 3, 2, 5, 0, 3, 5, 1, 4, 6, 2, 4]

  /** Days the weekday advances over the years before `y` (mod 7). */
  function YearShift(y: int): int
  {
    y + y / 4 - y / 100 + y / 400
  }

  /** `new Date(year, month, 1).getDay()`: the weekday (0 is Sunday) of the
      first of the month, by Sakamoto's rule. */
  function FirstWeekday(year: int, month: nat): (r: nat)
    requires month < 12
    ensures r < 7
  {
    var y := if month < 2 then year - 1 else year;
    (YearShift(y) + MonthOffsets[month] + 1) % 7
  }

  /** Sakamoto's rule fixed to the real calendar: 1 January 2024 was a
      Monday and 1 March 2024 a Friday. */
  lemma FirstWeekdayOnKnownDates()
    ensures FirstWeekday(2024, 0) == 1 && FirstWeekday(2024, 2) == 5
  {
  }

  /** Crossing from `year - 1` into `year` advances the weekday by one day,
      two after a leap day. */
  lemma YearShiftStep(year: int)
    ensures YearShift(year) == YearShift(year - 1) + 1 + (if LeapYear(year) then 1 else 0)
  {
    DivStep(year, 4);
    DivStep(year, 100);
    DivStep(year, 400);
  }

  /** The two calendar rules agree: a month starts on the weekday that
      follows the previous month's last day. */
  lemma WeekdaysFollowMonthLengths(year: int, month: nat)
    requires month < 12
    ensures month < 11 ==> FirstWeekday(year, month + 1) == (FirstWeekday(year, month) + DaysInMonth(year, month)) % 7
    ensures month == 11 ==> FirstWeekday(year + 1, 0) == (FirstWeekday(year, month) + DaysInMonth(year, month)) % 7
  {
    var y := if month < 2 then year - 1 else year;
    var a := YearShift(y) + MonthOffsets[month] + 1;
    var d := DaysInMonth(year, month);
    var b := if month < 11 then YearShift(if month + 1 < 2 then year - 1 else year) + MonthOffsets[month + 1] + 1
             else YearShift(year) + MonthOffsets[0] + 1;
    var c := if month in {3, 6, 9, 11} then 5 else 4;
    if month == 1 {
      YearShiftStep(year);
    }
    assert a + d == b + c * 7;
    ModOfSum(a, d, 7);
    ModAddMultiple(b, 7, c);
  }

  /** getDaysInMonth: `startingDayOfWeek` blank cells, then the days
      1 .. daysInMonth in order. */
  method MonthGrid(startingDayOfWeek: nat, daysInMonth: nat) returns (days: seq<Option<nat>>)
    ensures |days| == startingDayOfWeek + daysInMonth
    ensures forall i :: 0 <= i < startingDayOfWeek ==> days[i].None?
    ensures forall i :: startingDayOfWeek <= i < |days| ==> days[i] == Some(i - startingDayOfWeek + 1)
  {
    days := [];
    var i := 0;
    while i < startingDayOfWeek
      invariant 0 <= i <= startingDayOfWeek
      invariant |days| == i
      invariant forall j :: 0 <= j < i ==> days[j].None?
    {
      days := days + [None];
      i := i + 1;
    }
    var day := 1;
    while day <= daysInMonth
      invariant 1 <= day <= daysInMonth + 1
      invariant |days| == startingDayOfWeek + day - 1
      invariant forall j :: 0 <= j < startingDayOfWeek ==> days[j].None?
      invariant forall j :: startingDayOfWeek <= j < |days| ==> days[j] == Some(j - startingDayOfWeek + 1)
    {
      days := days + [Some(day)];
      day := day + 1;
    }
  }

  /** The grid of a displayed month: every day of the month appears once,
      after as many blanks as the weekday of the first. */
  method DisplayedMonthGrid(year: int, month: nat) returns (days: seq<Option<nat>>)
    requires month < 12
    ensures |days| == FirstWeekday(year, month) + DaysInMonth(year, month)
    ensures forall i :: 0 <= i < FirstWeekday(year, month) ==> days[i].None?
    ensures forall d :: 1 <= d <= DaysInMonth(year, month) ==>
              days[FirstWeekday(year, month) + d - 1] == Some(d)
    ensures forall i :: 0 <= i < |days| && days[i].Some? ==> 1 <= days[i].value <= DaysInMonth(year, month)
  {
    days := MonthGrid(FirstWeekday(year, month), DaysInMonth(year, month));
  }

  // ---------------------------------------------------------------------
  // The date key
  // ---------------------------------------------------------------------

  /** `${year}-${pad2(month + 1)}-${pad2(day)}`, the text compared with due
      dates. */
  function DateKey(year: nat, month: nat, day: nat): (r: string)
    ensures month < 99 && day < 100 ==>
              |r| == |NatToString(year)| + 6 && r[..|NatToString(year)|] == NatToString(year) &&
              r[|r| - 6] == '-' && r[|r| - 3] == '-' &&
              ParseNat(r[|r| - 5..|r| - 3]) == Some(month + 1) && ParseNat(r[|r| - 2..]) == Some(day)
  {
    var r := NatToString(year) + "-" + Pad2(month + 1) + "-" + Pad2(day);
    assert month < 99 && day < 100 ==> r[|r| - 5..|r| - 3] == Pad2(month + 1) && r[|r| - 2..] == Pad2(day);
    r
  }

  /** The full-date form of section 5.6 of RFC 3339: four-digit year, two-digit
      month 01-12 and two-digit day 01-28/29/30/31 as the month allows. */
  predicate IsFullDate(s: string)
  {
    |s| == 10 && s[4] == '-' && s[7] == '-'
    && AllDigits(s[..4]) && AllDigits(s[5..7]) && AllDigits(s[8..])
    && 1 <= DigitsValue(s[5..7]) <= 12
    && 1 <= DigitsValue(s[8..]) <= DaysInMonth(DigitsValue(s[..4]), DigitsValue(s[5..7]) - 1)
  }

  /** Reads a full-date back into year, 1-based month and day. */
  function ParseFullDate(s: string): (r: Option<(nat, nat, nat)>)
    ensures r.Some? <==> IsFullDate(s)
  {
    if IsFullDate(s) then Some((DigitsValue(s[..4]), DigitsValue(s[5..7]), DigitsValue(s[8..]))) else None
  }

  /** For a four-digit year and a real day of the month the key is an RFC 3339
      full-date naming exactly that day (with the month counted from 1). */
  lemma DateKeyIsFullDate(year: nat, month: nat, day: nat)
    requires 1000 <= year <= 9999 && month < 12 && 1 <= day <= DaysInMonth(year, month)
    ensures ParseFullDate(DateKey(year, month, day)) == Some((year, month + 1, day))
  {
    FourDigits(year);
    ParseNatToString(year);
    var key := DateKey(year, month, day);
    assert key[..4] == NatToString(year);
    assert key[5..7] == Pad2(month + 1);
    assert key[8..] == Pad2(day);
  }

  /** Different days of four-digit years never share a key. */
  lemma DateKeyInjective(y1: nat, m1: nat, d1: nat, y2: nat, m2: nat, d2: nat)
    requires 1000 <= y1 <= 9999 && m1 < 12 && 1 <= d1 <= DaysInMonth(y1, m1)
    requires 1000 <= y2 <= 9999 && m2 < 12 && 1 <= d2 <= DaysInMonth(y2, m2)
    requires DateKey(y1, m1, d1) == DateKey(y2, m2, d2)
    ensures y1 == y2 && m1 == m2 && d1 == d2
  {
    DateKeyIsFullDate(y1, m1, d1);
    DateKeyIsFullDate(y2, m2, d2);
  }

  // ---------------------------------------------------------------------
  // Deadlines on a day
  // ---------------------------------------------------------------------

  datatype CalendarEvent = ProjectDeadline(project: Project) | TaskDeadline(task: Task)
  {
    function Title(): string
    {
      match this
      case ProjectDeadline(p) => p.name
      case TaskDeadline(t) => t.title
    }

    function Color(): string
    {
      if ProjectDeadline? then "bg-blue-500" else "bg-green-500"
    }
  }

  function ProjectDueOn(key: string): Project -> bool
  {
    (p: Project) => p.dueDate == key
  }

  function TaskDueOn(key: string): Task -> bool
  {
    (t: Task) => t.dueDate == key
  }

  function AsProjectDeadline(): Project -> CalendarEvent
  {
    (p: Project) => ProjectDeadline(p)
  }

  function AsTaskDeadline(): Task -> CalendarEvent
  {
    (t: Task) => TaskDeadline(t)
  }

  /** The deadlines whose due date is exactly `key`: projects first, then
      tasks, each in store order. */
  function EventsOn(projects: seq<Project>, tasks: seq<Task>, key: string): seq<CalendarEvent>
  {
    MapSeq(Filter(projects, ProjectDueOn(key)), AsProjectDeadline())
    + MapSeq(Filter(tasks, TaskDueOn(key)), AsTaskDeadline())
  }

  /** getEventsForDate: a blank cell (or day 0) has no events; otherwise the
      two forEach loops push the matching projects, then the matching tasks. */
  method EventsForDate(projects: seq<Project>, tasks: seq<Task>, year: nat, month: nat, day: Option<nat>)
    returns (events: seq<CalendarEvent>)
    ensures day.None? || day.value == 0 ==> events == []
    ensures day.Some? && day.value != 0 ==> events == EventsOn(projects, tasks, DateKey(year, month, day.value))
  {
    if day.None? || day.value == 0 {
      return [];
    }
    events := CollectDeadlines(projects, tasks, DateKey(year, month, day.value));
  }

  /** The two forEach loops of getEventsForDate, for the day's key. */
  method CollectDeadlines(projects: seq<Project>, tasks: seq<Task>, key: string) returns (events: seq<CalendarEvent>)
    ensures events == EventsOn(projects, tasks, key)
  {
    events := [];
    var i := 0;
    while i < |projects|
      invariant 0 <= i <= |projects|
      invariant events == MapSeq(Filter(projects[..i], ProjectDueOn(key)), AsProjectDeadline())
    {
      FilterSnoc(projects, i, ProjectDueOn(key));
      if projects[i].dueDate == key {
        MapSeqSnoc(Filter(projects[..i], ProjectDueOn(key)), projects[i], AsProjectDeadline());
        events := events + [ProjectDeadline(projects[i])];
      }
      i := i + 1;
    }
    assert projects[..i] == projects;
    var j := 0;
    ghost var before := events;
    while j < |tasks|
      invariant 0 <= j <= |tasks|
      invariant events == before + MapSeq(Filter(tasks[..j], TaskDueOn(key)), AsTaskDeadline())
    {
      FilterSnoc(tasks, j, TaskDueOn(key));
      if tasks[j].dueDate == key {
        ghost var kept := Filter(tasks[..j], TaskDueOn(key));
        MapSeqSnoc(kept, tasks[j], AsTaskDeadline());
        assert before + MapSeq(kept, AsTaskDeadline()) + [TaskDeadline(tasks[j])] == before + (MapSeq(kept, AsTaskDeadline()) + [TaskDeadline(tasks[j])]);
        events := events + [TaskDeadline(tasks[j])];
      }
      j := j + 1;
    }
    assert tasks[..j] == tasks;
  }

  /** A project is among the day's events exactly when its due date is the
      key. */
  lemma ProjectOnDayExactly(projects: seq<Project>, tasks: seq<Task>, key: string, i: nat)
    requires i < |projects|
    ensures ProjectDeadline(projects[i]) in EventsOn(projects, tasks, key) <==> projects[i].dueDate == key
  {
    var ps := Filter(projects, ProjectDueOn(key));
    var events := EventsOn(projects, tasks, key);
    FilterIsSelection(projects, ProjectDueOn(key));
    MapSeqAt(ps, AsProjectDeadline());
    MapSeqAt(Filter(tasks, TaskDueOn(key)), AsTaskDeadline());
    if projects[i].dueDate == key {
      var ix := Selected(projects, ProjectDueOn(key));
      var m :| 0 <= m < |ix| && ix[m] == i;
      assert events[m] == ProjectDeadline(projects[i]);
    }
    if ProjectDeadline(projects[i]) in events {
      var m :| 0 <= m < |events| && events[m] == ProjectDeadline(projects[i]);
      assert m < |ps| && ps[m] == projects[i];
    }
  }

  /** A task is among the day's events exactly when its due date is the key. */
  lemma TaskOnDayExactly(projects: seq<Project>, tasks: seq<Task>, key: string, i: nat)
    requires i < |tasks|
    ensures TaskDeadline(tasks[i]) in EventsOn(projects, tasks, key) <==> tasks[i].dueDate == key
  {
    var ps := Filter(projects, ProjectDueOn(key));
    var ts := Filter(tasks, TaskDueOn(key));
    var events := EventsOn(projects, tasks, key);
    FilterIsSelection(tasks, TaskDueOn(key));
    assert events == MapSeq(ps, AsProjectDeadline()) + MapSeq(ts, AsTaskDeadline());
    MapSeqAt(ps, AsProjectDeadline());
    MapSeqAt(ts, AsTaskDeadline());
    if tasks[i].dueDate == key {
      var ix := Selected(tasks, TaskDueOn(key));
      var m :| 0 <= m < |ix| && ix[m] == i;
      assert events[|ps| + m] == TaskDeadline(tasks[i]);
    }
    if TaskDeadline(tasks[i]) in events {
      var m :| 0 <= m < |events| && events[m] == TaskDeadline(tasks[i]);
      assert m >= |ps| && ts[m - |ps|] == tasks[i];
    }
  }

  /** Every project deadline of a day is listed before every task deadline. */
  lemma ProjectsBeforeTasks(projects: seq<Project>, tasks: seq<Task>, key: string)
    ensures var events := EventsOn(projects, tasks, key);
            forall a, b :: 0 <= a < b < |events| ==> !(events[a].TaskDeadline? && events[b].ProjectDeadline?)
  {
    MapSeqAt(Filter(projects, ProjectDueOn(key)), AsProjectDeadline());
    MapSeqAt(Filter(tasks, TaskDueOn(key)), AsTaskDeadline());
  }

  /** isToday: a real day of the displayed month that is today's date. */
  function IsToday(day: Option<nat>, shownYear: int, shownMonth: nat, todayYear: int, todayMonth: nat, todayDate: nat): (r: bool)
    ensures r ==> day.Some? && day.value != 0
    ensures r <==> day == Some(todayDate) && todayDate != 0 && shownYear == todayYear && shownMonth == todayMonth
  {
    day.Some? && day.value != 0 && shownYear == todayYear && shownMonth == todayMonth && day.value == todayDate
  }

  // ---------------------------------------------------------------------
  // Upcoming deadlines
  // ---------------------------------------------------------------------

  /** `new Date(due) >= today`: an invalid date compares false. */
  function NotPast<T>(due: T -> string, instant: string -> Option<int>, now: int): T -> bool
  {
    (x: T) => instant(due(x)).Some? && instant(due(x)).value >= now
  }

  /** The sort key `new Date(due)`; every item that reaches the sort has a
      valid date, so the 0 of an invalid one is never used. */
  function DueKey<T>(due: T -> string, instant: string -> Option<int>): T -> int
  {
    (x: T) => InstantOrZero(instant, due(x))
  }

  /** `.filter(not past).sort(by due date).slice(0, 5)`. */
  function Upcoming<T>(items: seq<T>, due: T -> string, instant: string -> Option<int>, now: int): (r: seq<T>)
    ensures |r| <= 5
    ensures forall k :: 0 <= k < |r| ==> instant(due(r[k])).Some? && instant(due(r[k])).value >= now
    ensures SortedBy(r, DueKey(due, instant))
    ensures r <= SortBy(Filter(items, NotPast(due, instant, now)), DueKey(due, instant))
  {
    var pending := Filter(items, NotPast(due, instant, now));
    SortByKeeps(pending, DueKey(due, instant), NotPast(due, instant, now));
    Take(SortBy(pending, DueKey(due, instant)), 5)
  }

  /** The list shows the soonest upcoming items: none left out is due
      earlier than one shown, and it is short only when fewer are pending. */
  lemma UpcomingIsSoonest<T>(items: seq<T>, due: T -> string, instant: string -> Option<int>, now: int)
    ensures var sorted := SortBy(Filter(items, NotPast(due, instant, now)), DueKey(due, instant));
            var r := Upcoming(items, due, instant, now);
            |r| == Min(5, |sorted|) &&
            multiset(sorted) == multiset(Filter(items, NotPast(due, instant, now))) &&
            forall a, b :: 0 <= a < |r| <= b < |sorted| ==>
              DueKey(due, instant)(r[a]) <= DueKey(due, instant)(sorted[b])
  {
  }

  function ProjectDue(): Project -> string { (p: Project) => p.dueDate }
  function TaskDue(): Task -> string { (t: Task) => t.dueDate }

  /** The "projects due soon" list. */
  function UpcomingProjects(projects: seq<Project>, instant: string -> Option<int>, now: int): (r: seq<Project>)
    ensures |r| <= 5
    ensures forall k :: 0 <= k < |r| ==> instant(r[k].dueDate).Some? && instant(r[k].dueDate).value >= now
  {
    Upcoming(projects, ProjectDue(), instant, now)
  }

  /** The "tasks due soon" list. */
  function UpcomingTasks(tasks: seq<Task>, instant: string -> Option<int>, now: int): (r: seq<Task>)
    ensures |r| <= 5
    ensures forall k :: 0 <= k < |r| ==> instant(r[k].dueDate).Some? && instant(r[k].dueDate).value >= now
  {
    Upcoming(tasks, TaskDue(), instant, now)
  }
}
