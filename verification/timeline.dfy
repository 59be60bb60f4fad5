/** The timeline view (src/components/Timeline.jsx): one event per project
    and per task, narrowed to a selected project, sorted by date and
    filtered to a window of days around now.

    Parsing a date is the parameter `instant` (milliseconds, or None for an
    Invalid Date) and the current time is the parameter `now`. */
module TimelineView {
  import opened Common
  import opened Store

  datatype EventKind = ProjectEvent | TaskEvent

  datatype TimelineEvent = TimelineEvent(
    id: string, kind: EventKind, title: string, date: string, description: string,
    progress: int, status: string, assignee: string, priority: Option<string>, color: string)

  /** `text || fallback` on a string that may be missing (None) or empty. */
  function OrElse(text: Option<string>, fallback: string): (r: string)
    ensures r == fallback <==> text.None? || text.value == "" || text.value == fallback
    ensures r != fallback ==> text == Some(r)
  {
    if text.Some? && text.value != "" then text.value else fallback
  }

  const Unspecified: string := "ไม่ระบุ"
  const PersonalTask: string := "งานส่วนตัว"

  // ---------------------------------------------------------------------
  // Building the events
  // ---------------------------------------------------------------------

  function ProjectEventId(id: int): string { "project-" + IntToString(id) }
  function TaskEventId(id: int): string { "task-" + IntToString(id) }

  /** A project event id never equals a task event id, and each kind of id
      names a single project or task. */
  lemma EventIdsDistinguish(a: int, b: int)
    ensures ProjectEventId(a) != TaskEventId(b)
    ensures ProjectEventId(a) == ProjectEventId(b) <==> a == b
    ensures TaskEventId(a) == TaskEventId(b) <==> a == b
  {
    assert ProjectEventId(a)[0] == 'p' && TaskEventId(b)[0] == 't';
    if ProjectEventId(a) == ProjectEventId(b) {
      assert ProjectEventId(a)[8..] == IntToString(a);
      assert ProjectEventId(b)[8..] == IntToString(b);
      IntToStringInjective(a, b);
    }
    if TaskEventId(a) == TaskEventId(b) {
      assert TaskEventId(a)[5..] == IntToString(a);
      assert TaskEventId(b)[5..] == IntToString(b);
      IntToStringInjective(a, b);
    }
  }

  /** A task's progress on the timeline: done is 100, in progress 50. */
  function TaskProgress(status: string): (r: int)
    ensures r in {0, 50, 100}
    ensures r == 100 <==> status == "Done"
    ensures r == 50 <==> status == "In Progress"
  {
    if status == "Done" then 100 else if status == "In Progress" then 50 else 0
  }

  function TaskColor(status: string): (r: string)
    ensures r == "bg-gray-500" <==> status != "Done" && status != "In Progress"
  {
    if status == "Done" then "bg-green-500" else if status == "In Progress" then "bg-yellow-500" else "bg-gray-500"
  }

  /** The event of a project; the assignee is its first member, if any. */
  function ProjectEventFor(p: Project): (e: TimelineEvent)
    ensures e.kind == ProjectEvent && e.id == ProjectEventId(p.id) && e.date == p.dueDate
    ensures e.assignee == Unspecified <==> p.members == [] || p.members[0].name in {"", Unspecified}
  {
    TimelineEvent(ProjectEventId(p.id), ProjectEvent, "โครงการ: " + p.name, p.dueDate, p.description,
                  p.progress, p.status, OrElse(if p.members == [] then None else Some(p.members[0].name), Unspecified),
                  None, "bg-blue-500")
  }

  /** The event of a task: the description names its project (the first with
      its id), and the assignee is looked up among that project's members
      only. */
  function TaskEventFor(projects: seq<Project>, t: Task): (e: TimelineEvent)
    ensures e.kind == TaskEvent && e.id == TaskEventId(t.id) && e.date == t.dueDate
    ensures e.progress == TaskProgress(t.status) && e.priority == Some(t.priority)
    ensures FindProject(projects, t.projectId).None? ==> e.description == PersonalTask && e.assignee == Unspecified
  {
    var project := FindProject(projects, t.projectId);
    var assignee := if project.Some? then FindMember(project.value.members, t.assigneeId) else None;
    TimelineEvent(TaskEventId(t.id), TaskEvent, "งาน: " + t.title, t.dueDate,
                  OrElse(if project.Some? then Some(project.value.name) else None, PersonalTask),
                  TaskProgress(t.status), t.status,
                  OrElse(if assignee.Some? then Some(assignee.value.name) else None, Unspecified),
                  Some(t.priority), TaskColor(t.status))
  }

  function ProjectToEvent(): Project -> TimelineEvent
  {
    (p: Project) => ProjectEventFor(p)
  }

  function TaskToEvent(projects: seq<Project>): Task -> TimelineEvent
  {
    (t: Task) => TaskEventFor(projects, t)
  }

  /** The project filter: "all" or the decimal id of the project. */
  function ProjectSelected(selected: string): Project -> bool
  {
    (p: Project) => selected == "all" || selected == IntToString(p.id)
  }

  /** For a task, a selection other than "all" is compared with the task's
      project id; a personal task has none (its `toString` throws). */
  function TaskSelected(selected: string): Task -> bool
  {
    (t: Task) => selected == "all" || (t.projectId.Some? && selected == IntToString(t.projectId.value))
  }

  /** The task that makes the view throw: a personal task while a project
      is selected. */
  function ThrowsOn(selected: string): Task -> bool
  {
    (t: Task) => selected != "all" && t.projectId.None?
  }

  /** With a project selected, a personal task makes the view throw. */
  predicate Throws(tasks: seq<Task>, selected: string)
  {
    selected != "all" && exists i :: 0 <= i < |tasks| && tasks[i].projectId.None?
  }

  /** The events in the order the two forEach loops push them. */
  function EventsInStoreOrder(projects: seq<Project>, tasks: seq<Task>, selected: string): seq<TimelineEvent>
  {
    MapSeq(Filter(projects, ProjectSelected(selected)), ProjectToEvent())
    + MapSeq(Filter(tasks, TaskSelected(selected)), TaskToEvent(projects))
  }

  /** The sort key `new Date(event.date)`; see the README for invalid dates. */
  function SortKey(instant: string -> Option<int>): TimelineEvent -> int
  {
    (e: TimelineEvent) => InstantOrZero(instant, e.date)
  }

  /** createTimelineEvents: both loops, then the sort by date. The result
      is None when the view throws. */
  method CreateTimelineEvents(projects: seq<Project>, tasks: seq<Task>, selected: string, instant: string -> Option<int>)
    returns (r: Option<seq<TimelineEvent>>)
    ensures r.None? <==> Throws(tasks, selected)
    ensures r.Some? ==> SortedBy(r.value, SortKey(instant))
    ensures r.Some? ==> multiset(r.value) == multiset(EventsInStoreOrder(projects, tasks, selected))
  {
    var events := PushProjectEvents(projects, selected);
    var all := PushEach(events, tasks, ThrowsOn(selected), TaskSelected(selected), TaskToEvent(projects));
    if all.None? {
      return None;
    }
    r := Some(SortBy(all.value, SortKey(instant)));
  }

  /** The first forEach: an event for each selected project. */
  method PushProjectEvents(projects: seq<Project>, selected: string) returns (events: seq<TimelineEvent>)
    ensures events == MapSeq(Filter(projects, ProjectSelected(selected)), ProjectToEvent())
  {
    events := [];
    var i := 0;
    while i < |projects|
      invariant 0 <= i <= |projects|
      invariant events == [] + MapSeq(Filter(projects[..i], ProjectSelected(selected)), ProjectToEvent())
    {
      MapFilterSnoc([], projects, i, ProjectSelected(selected), ProjectToEvent());
      if ProjectSelected(selected)(projects[i]) {
        events := events + [ProjectToEvent()(projects[i])];
      }
      i := i + 1;
    }
    assert projects[..i] == projects;
  }

  /** Choosing "all" shows one event per project and per task and never
      throws. */
  lemma AllShowsEverything(projects: seq<Project>, tasks: seq<Task>)
    ensures !Throws(tasks, "all")
    ensures |EventsInStoreOrder(projects, tasks, "all")| == |projects| + |tasks|
  {
    FilterKeepsAll(projects, ProjectSelected("all"));
    FilterKeepsAll(tasks, TaskSelected("all"));
  }

  /** Choosing a project by its id keeps exactly the project with that id and
      the tasks that belong to it. */
  lemma SelectingAProject(id: int, p: Project, t: Task)
    ensures ProjectSelected(IntToString(id))(p) <==> p.id == id
    ensures TaskSelected(IntToString(id))(t) <==> t.projectId == Some(id)
  {
    if IntToString(id) == IntToString(p.id) {
      IntToStringInjective(id, p.id);
    }
    if t.projectId.Some? && IntToString(id) == IntToString(t.projectId.value) {
      IntToStringInjective(id, t.projectId.value);
    }
  }

  function ProjectIdOf(): Project -> int { (p: Project) => p.id }
  function TaskIdOf(): Task -> int { (t: Task) => t.id }

  lemma ProjectEventIdAt(ps: seq<Project>, a: nat)
    requires a < |ps|
    ensures MapSeq(ps, ProjectToEvent())[a].id == ProjectEventId(ps[a].id)
  {
    MapSeqAt(ps, ProjectToEvent());
  }

  lemma TaskEventIdAt(projects: seq<Project>, ts: seq<Task>, a: nat)
    requires a < |ts|
    ensures MapSeq(ts, TaskToEvent(projects))[a].id == TaskEventId(ts[a].id)
  {
    MapSeqAt(ts, TaskToEvent(projects));
  }

  predicate DistinctIds(events: seq<TimelineEvent>)
  {
    forall a, b :: 0 <= a < b < |events| ==> events[a].id != events[b].id
  }

  /** Events of distinct projects have distinct ids. */
  lemma {:induction false} ProjectEventIdsDistinct(ps: seq<Project>)
    requires forall i, j :: 0 <= i < j < |ps| ==> ps[i].id != ps[j].id
    ensures DistinctIds(MapSeq(ps, ProjectToEvent()))
  {
    forall a, b | 0 <= a < b < |ps|
      ensures MapSeq(ps, ProjectToEvent())[a].id != MapSeq(ps, ProjectToEvent())[b].id
    {
      ProjectEventIdAt(ps, a);
      ProjectEventIdAt(ps, b);
      EventIdsDistinguish(ps[a].id, ps[b].id);
    }
  }

  /** Events of distinct tasks have distinct ids. */
  lemma {:induction false} TaskEventIdsDistinct(projects: seq<Project>, ts: seq<Task>)
    requires forall i, j :: 0 <= i < j < |ts| ==> ts[i].id != ts[j].id
    ensures DistinctIds(MapSeq(ts, TaskToEvent(projects)))
  {
    forall a, b | 0 <= a < b < |ts|
      ensures MapSeq(ts, TaskToEvent(projects))[a].id != MapSeq(ts, TaskToEvent(projects))[b].id
    {
      TaskEventIdAt(projects, ts, a);
      TaskEventIdAt(projects, ts, b);
      EventIdsDistinguish(ts[a].id, ts[b].id);
    }
  }

  /** Every id of `events` starts with `c`. */
  predicate IdsStartWith(events: seq<TimelineEvent>, c: char)
  {
    forall a :: 0 <= a < |events| ==> events[a].id != [] && events[a].id[0] == c
  }

  lemma {:induction false} ProjectEventIdsStartWithP(ps: seq<Project>)
    ensures IdsStartWith(MapSeq(ps, ProjectToEvent()), 'p')
  {
    forall a | 0 <= a < |ps|
      ensures MapSeq(ps, ProjectToEvent())[a].id != [] && MapSeq(ps, ProjectToEvent())[a].id[0] == 'p'
    {
      ProjectEventIdAt(ps, a);
    }
  }

  lemma {:induction false} TaskEventIdsStartWithT(projects: seq<Project>, ts: seq<Task>)
    ensures IdsStartWith(MapSeq(ts, TaskToEvent(projects)), 't')
  {
    forall a | 0 <= a < |ts|
      ensures MapSeq(ts, TaskToEvent(projects))[a].id != [] && MapSeq(ts, TaskToEvent(projects))[a].id[0] == 't'
    {
      TaskEventIdAt(projects, ts, a);
    }
  }

  /** Two lists of distinct ids whose ids start with different letters join
      into one list of distinct ids. */
  lemma DistinctIdsConcat(pe: seq<TimelineEvent>, te: seq<TimelineEvent>)
    requires DistinctIds(pe) && DistinctIds(te)
    requires IdsStartWith(pe, 'p') && IdsStartWith(te, 't')
    ensures DistinctIds(pe + te)
  {
    var events := pe + te;
    forall a, b | 0 <= a < b < |events|
      ensures events[a].id != events[b].id
    {
      if b < |pe| {
        assert events[a] == pe[a] && events[b] == pe[b];
      } else if a < |pe| {
        assert events[a] == pe[a] && events[b] == te[b - |pe|];
        assert events[a].id[0] != events[b].id[0];
      } else {
        assert events[a] == te[a - |pe|] && events[b] == te[b - |pe|];
      }
    }
  }

  /** With unique project and task ids, no two events share an id (the React
      key of a row). */
  lemma EventIdsUnique(projects: seq<Project>, tasks: seq<Task>, selected: string)
    requires UniqueProjectIds(projects) && UniqueTaskIds(tasks)
    ensures DistinctIds(EventsInStoreOrder(projects, tasks, selected))
  {
    var ps := Filter(projects, ProjectSelected(selected));
    var ts := Filter(tasks, TaskSelected(selected));
    FilterKeepsDistinct(projects, ProjectSelected(selected), ProjectIdOf());
    FilterKeepsDistinct(tasks, TaskSelected(selected), TaskIdOf());
    ProjectEventIdsDistinct(ps);
    TaskEventIdsDistinct(projects, ts);
    ProjectEventIdsStartWithP(ps);
    TaskEventIdsStartWithT(projects, ts);
    DistinctIdsConcat(MapSeq(ps, ProjectToEvent()), MapSeq(ts, TaskToEvent(projects)));
  }

  // ---------------------------------------------------------------------
  // The time window
  // ---------------------------------------------------------------------

  const DayMs: int := 1000 * 60 * 60 * 24

  /** `Math.ceil((event - now) / day)`. */
  function DiffDays(eventMs: int, nowMs: int): (r: int)
    ensures DayMs * (r - 1) < eventMs - nowMs <= DayMs * r
  {
    -((nowMs - eventMs) / DayMs)
  }

  /** The number of days either side of now a range keeps; None keeps
      everything. */
  function RangeDays(range: string): (r: Option<nat>)
    ensures r.Some? <==> range in {"week", "month", "quarter"}
  {
    match range
    case "week" => Some(7)
    case "month" => Some(30)
    case "quarter" => Some(90)
    case _ => None
  }

  /** The filter callback: an Invalid Date gives NaN days, which every
      comparison rejects. */
  function InRange(range: string, instant: string -> Option<int>, now: int): TimelineEvent -> bool
  {
    (e: TimelineEvent) =>
      RangeDays(range).None? ||
      (instant(e.date).Some? &&
       var n: int := RangeDays(range).value;
       -n <= DiffDays(instant(e.date).value, now) <= n)
  }

  /** filterEventsByTimeRange. */
  function FilterByTimeRange(events: seq<TimelineEvent>, range: string, instant: string -> Option<int>, now: int): (r: seq<TimelineEvent>)
    ensures forall k :: 0 <= k < |r| ==> InRange(range, instant, now)(r[k])
  {
    Filter(events, InRange(range, instant, now))
  }

  /** The range filter keeps exactly the events in the window, in order. */
  lemma {:induction false} FilterByTimeRangeExactly(events: seq<TimelineEvent>, range: string, instant: string -> Option<int>, now: int)
    ensures var ix := Selected(events, InRange(range, instant, now));
            var r := FilterByTimeRange(events, range, instant, now);
            |ix| == |r| && StrictlyIncreasing(ix) &&
            (forall k :: 0 <= k < |ix| ==> ix[k] < |events| && r[k] == events[ix[k]]) &&
            (forall i :: 0 <= i < |events| ==> (InRange(range, instant, now)(events[i]) <==> i in ix))
  {
    FilterIsSelection(events, InRange(range, instant, now));
  }

  /** The exact window of a range of `n` days: an event is kept when it lies
      at most `n` days ahead, or less than `n + 1` days behind. */
  lemma WindowInMilliseconds(range: string, instant: string -> Option<int>, now: int, e: TimelineEvent)
    requires RangeDays(range).Some? && instant(e.date).Some?
    ensures var n := RangeDays(range).value;
            var d := instant(e.date).value - now;
            InRange(range, instant, now)(e) <==> -DayMs * (n + 1) < d <= DayMs * n
  {
  }

  /** An event whose date cannot be parsed shows only when no window is
      chosen. */
  lemma InvalidDateOnlyWithoutWindow(range: string, instant: string -> Option<int>, now: int, e: TimelineEvent)
    requires instant(e.date).None?
    ensures InRange(range, instant, now)(e) <==> range !in {"week", "month", "quarter"}
  {
  }

  /** The windows nest: filtering the month's events down to the week gives
      the week's events, and likewise month within quarter and quarter
      within the unfiltered list. */
  lemma WindowsNest(events: seq<TimelineEvent>, instant: string -> Option<int>, now: int)
    ensures FilterByTimeRange(FilterByTimeRange(events, "month", instant, now), "week", instant, now)
         == FilterByTimeRange(events, "week", instant, now)
    ensures FilterByTimeRange(FilterByTimeRange(events, "quarter", instant, now), "month", instant, now)
         == FilterByTimeRange(events, "month", instant, now)
    ensures FilterByTimeRange(events, "all", instant, now) == events
  {
    assert RangeDays("week") == Some(7) && RangeDays("month") == Some(30) && RangeDays("quarter") == Some(90);
    assert RangeDays("all").None?;
    FilterNested(events, InRange("week", instant, now), InRange("month", instant, now));
    FilterNested(events, InRange("month", instant, now), InRange("quarter", instant, now));
    FilterKeepsAll(events, InRange("all", instant, now));
  }

  /** A range other than week, month or quarter keeps every event. */
  lemma OtherRangesKeepAll(events: seq<TimelineEvent>, range: string, instant: string -> Option<int>, now: int)
    requires range !in {"week", "month", "quarter"}
    ensures FilterByTimeRange(events, range, instant, now) == events
  {
    assert RangeDays(range).None?;
    FilterKeepsAll(events, InRange(range, instant, now));
  }

  // ---------------------------------------------------------------------
  // Colours
  // ---------------------------------------------------------------------

  /** getStatusColor: the text colour of a status. */
  function StatusColor(status: string): (r: string)
    ensures r == "text-gray-600" <==> status !in {"Done", "In Progress", "Review"}
    ensures status == "Done" <==> r == "text-green-600"
  {
    match status
    case "Done" => "text-green-600"
    case "In Progress" => "text-blue-600"
    case "Review" => "text-yellow-600"
    case _ => "text-gray-600"
  }

  /** getPriorityColor: the border colour of a priority. */
  function PriorityColor(priority: string): (r: string)
    ensures r == "border-gray-500" <==> priority !in {"High", "Medium", "Low"}
    ensures priority == "High" <==> r == "border-red-500"
  {
    match priority
    case "High" => "border-red-500"
    case "Medium" => "border-yellow-500"
    case "Low" => "border-green-500"
    case _ => "border-gray-500"
  }
}
