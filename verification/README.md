# Project-management app: a verified model of its logic

This is a model of the logic inside a single-page React project-management
app. It covers a Pomodoro timer, an in-memory store of projects and tasks,
and the views that query that store:

- a todo list;
- a Kanban board;
- a calendar;
- a timeline;
- a dashboard;
- a project page.

The rendering is not modelled. What each screen computes from the store is
modelled, and so is what each handler does to the store.

## Modules

- `common.dfy` (`Common`): shared vocabulary.
  - `Option`.
  - Decimal text: `Number.prototype.toString`, `padStart(2, '0')`, and the reading back of digits.
  - ASCII lower-casing.
  - The sequence operations the JavaScript uses: `filter`, `map`, `find`, `map` with a per-record override, a stable ascending `sort`, and `slice(0, n)`.
  - A forEach-and-push loop that may throw.
  - A few integer-division facts.
- `pomodoro.dfy` (`Pomodoro`): the timer.
  - Pure transition functions: session lengths, completion, the countdown step, the clock face and the session label.
  - A class `PomodoroTimer` whose methods are the event handlers.
  - Each method also covers the effect React runs after the handler, which re-arms the countdown when the session or the settings change.
  - Lemmas about the work / short-break / long-break cycle.
- `store.dfy` (`Store`): the context provider.
  - Records `Project`, `Task` and `Member`.
  - Partial updates written as patches.
  - The pure functions that compute each new collection.
  - A class `ProjectStore` whose methods replace its `projects` and `tasks` fields.
  - The seed data, and lemmas about updating, adding and deleting.
- `names.dfy` (`Names`): what the todo list and the Kanban board share.
  - The project-name and assignee-name lookups.
  - The add-task form.
- `todo.dfy` (`TodoView`), `kanban.dfy` (`KanbanView`), `calendar.dfy` (`CalendarView`), `timeline.dfy` (`TimelineView`), `dashboard.dfy` (`DashboardView`) and `project_detail.dfy` (`ProjectDetailView`): one module per screen.

Things the model abstracts:

- Clocks and date parsing are parameters.
  - `now` is the current time in milliseconds.
  - `instant(s)` is the time the text `s` denotes, or `None` for an Invalid Date.
  - `AddTask` receives the `Date.now()` value and the ISO text that `addTask` reads from the clock.
- The logged-in user's id is a parameter (`Option<int>`).
- The answer to the deletion dialog is a boolean parameter.
- JavaScript `null` and `NaN` are `None`. A comparison with `NaN` matches nothing, so a `None` id finds no record.

## Where the model follows the code rather than the intended design

**Settings edits re-arm the countdown on every keystroke.** Each settings input replaces the `settings` object immediately (`src/components/PomodoroTimer.jsx:345`, `:359`, `:373`, `:387`). The re-arm effect watches `settings` (`:54`). So every keystroke re-arms `timeLeft`, without stopping a running timer (`Pomodoro.PomodoroTimer.EditSettings`). Saving only closes the panel and resets (`SaveSettings`).

**Selecting the current session again does not re-arm.** React leaves the state unchanged when it is set to the same value. So the re-arm effect does not run (`SelectSession`).

**An interval of 0 never gives a long break.** `count % 0` is `NaN` in JavaScript, and `NaN` equals nothing. So a long-break interval of 0 always gives a short break (`Pomodoro.LongBreakDue`).

**The timeline throws on a personal task when a project is selected.** With a specific project selected, the timeline calls `toString` on every task's `projectId`. A personal task has a `null` project id, so the view throws. `TimelineView.CreateTimelineEvents` returns `None` exactly when a project is selected and some task's project id is `None`. Because `None` also stands for `NaN`, a task whose project id were `NaN` would make the model throw where JavaScript renders `"NaN"`. The add-task forms never store such an id from a select option.

**An empty dashboard average is `None`.** The dashboard average of zero projects is `NaN` (`0 / 0`). It is modelled as `None` rather than excluded by a precondition.

**The timeline window is exact to the millisecond.** The day difference is `Math.ceil` of a millisecond difference. So a range of `n` days keeps events at most `n` days ahead and less than `n + 1` days behind. For example, an event 7.9 days in the past passes the week filter.

## Model

| member | source | states |
|---|---|---|
| Pomodoro.SessionSeconds | src/components/PomodoroTimer.jsx:45-54 | the countdown is re-armed to the session's configured minutes times 60 |
| Pomodoro.Completed | src/components/PomodoroTimer.jsx:69-83 | completing work adds exactly one to the count and goes to the long break iff the new count is a multiple of the interval (short break otherwise); completing a break returns to work with the count unchanged |
| Pomodoro.CountdownStep | src/components/PomodoroTimer.jsx:30-36 | the updater fires completion iff the previous value is at most 1, and then yields 0; otherwise it yields the previous value minus one, which stays positive |
| Pomodoro.SessionLabel | src/components/PomodoroTimer.jsx:137-144 | each session has its own label and the fallback "Session" is never shown |
| Pomodoro.FormatTime | src/components/PomodoroTimer.jsx:131-135 | the clock face has a colon before the last two characters, and is five characters long below 100 minutes |
| Pomodoro.FormatTimeRoundTrip | src/components/PomodoroTimer.jsx:131-135 | reading the clock face back as minutes and seconds gives the seconds shown |
| Pomodoro.FormatTimeInjective | src/components/PomodoroTimer.jsx:131-135 | different countdown values show different clock faces |
| Pomodoro.WorkCycles | src/components/PomodoroTimer.jsx:69-83 | from a multiple of the interval `k`, every work session plus break adds one to the count and returns to work, for fewer than `k` sessions |
| Pomodoro.LongBreakAfterInterval | src/components/PomodoroTimer.jsx:69-83 | after `2k - 1` completions from a multiple of `k`, the timer is in the long break with the count advanced by `k` |
| Pomodoro.DefaultCycle | src/components/PomodoroTimer.jsx:12-17 | with the 25/5/15/4 defaults, the seventh completion enters the long break with four work sessions done |
| Pomodoro.PomodoroTimer.constructor | src/components/PomodoroTimer.jsx:8-17 | the timer mounts stopped, in work, with 25:00 left, count 0 and the default settings |
| Pomodoro.PomodoroTimer.Complete | src/components/PomodoroTimer.jsx:62-84 | completion stops the timer, moves to the next session as `Completed` says, and re-arms the countdown for it |
| Pomodoro.PomodoroTimer.Tick | src/components/PomodoroTimer.jsx:27-43 | a stopped timer does not tick; a tick above 1 second counts down by one; a tick at 1 or 0 completes the session; the countdown never goes below 0 or above the session length |
| Pomodoro.PomodoroTimer.StartPause | src/components/PomodoroTimer.jsx:86-88 | only the running flag flips |
| Pomodoro.PomodoroTimer.Reset | src/components/PomodoroTimer.jsx:90-99 | stops, keeps session and count, and re-arms the current session |
| Pomodoro.PomodoroTimer.Skip | src/components/PomodoroTimer.jsx:101-104 | the same session, count and countdown as a natural completion, whatever time is left |
| Pomodoro.PomodoroTimer.SelectSession | src/components/PomodoroTimer.jsx:208-226 | only the session changes (running flag and count kept); the countdown is re-armed iff the session actually changed |
| Pomodoro.PomodoroTimer.EditSettings | src/components/PomodoroTimer.jsx:340-388 | the new settings apply at once and re-arm the current session, leaving the running flag as it was |
| Pomodoro.PomodoroTimer.SaveSettings | src/components/PomodoroTimer.jsx:155-159 | saving performs a reset |
| Pomodoro.DefaultCycleBySkipping | src/components/PomodoroTimer.jsx:101-104 | from a fresh timer, seven skips reach the long break with four work sessions counted |
| Store.UpdatedProjects | src/context/ProjectContext.jsx:87-91 | same length and order; every project with the id is overridden by the patch; every other project is unchanged |
| Store.UpdatedTasks | src/context/ProjectContext.jsx:93-97 | same length and order; every task with the id is overridden by the patch; every other task is unchanged |
| Store.TasksWithout | src/context/ProjectContext.jsx:108-110 | no remaining task has the deleted id |
| Store.FindProject | src/components/TodoList.jsx:37 | the first project with the id, absent iff the id is missing or names no project |
| Store.FindMember | src/components/TodoList.jsx:43 | the first member with the id, absent iff the id is missing or names no member |
| Store.UpdateUnknownTask | src/context/ProjectContext.jsx:93-97 | an update naming no task leaves the tasks identical |
| Store.UpdateUnknownProject | src/context/ProjectContext.jsx:87-91 | an update naming no project leaves the projects identical |
| Store.StatusUpdateChangesOnlyStatus | src/context/ProjectContext.jsx:93-97 | a `{ status }` update changes only the status field of the tasks with that id |
| Store.UpdateTasksIdempotent | src/context/ProjectContext.jsx:93-97 | applying the same update twice equals applying it once |
| Store.UpdateKeepsIdsUnique | src/context/ProjectContext.jsx:93-97 | an update that does not rewrite ids keeps task ids unique |
| Store.AddKeepsIdsUniqueIffFresh | src/context/ProjectContext.jsx:99-106 | after adding, task ids stay unique exactly when the clock value is not already a task id |
| Store.DeleteRemovesExactly | src/context/ProjectContext.jsx:108-110 | deletion keeps exactly the tasks with another id, in their original order and multiplicity (an increasing selection of indices); no task with the id remains; it changes nothing when the id is absent |
| Store.DeleteIdempotent | src/context/ProjectContext.jsx:108-110 | deleting the same id twice equals deleting it once |
| Store.DeleteCount | src/context/ProjectContext.jsx:108-110 | the list shrinks by the number of tasks with the id, which is one when ids are unique and the id exists |
| Store.ProjectStore.constructor | src/context/ProjectContext.jsx:20-85 | the store starts with the seeded projects and tasks |
| Store.ProjectStore.UpdateProject | src/context/ProjectContext.jsx:87-91 | projects become `UpdatedProjects` of the old ones; tasks are untouched |
| Store.ProjectStore.UpdateTask | src/context/ProjectContext.jsx:93-97 | tasks become `UpdatedTasks` of the old ones; projects are untouched |
| Store.ProjectStore.AddTask | src/context/ProjectContext.jsx:99-106 | exactly one record is appended: the draft with the clock value as id and the ISO text as creation time |
| Store.ProjectStore.DeleteTask | src/context/ProjectContext.jsx:108-110 | tasks become `TasksWithout` of the old ones; projects are untouched |
| Store.SeedInvariants | src/context/ProjectContext.jsx:20-80 | seeded project and task ids are unique; every seeded task names a seeded project; every seeded progress is in 0..100 |
| Names.ProjectNameOr | src/components/TodoList.jsx:36-39 | the name of the first project with that id when there is one, else the fallback |
| Names.MemberAcross | src/components/TodoList.jsx:41-47 | the member found scanning projects in order: absent iff no project has a member with the id; otherwise the first member with that id in the first project that has one |
| Names.AssigneeName | src/components/TodoList.jsx:41-47 | the loop returns the name of the first member found across the projects, else "Unassigned" |
| Names.FormId | src/components/TodoList.jsx:56 | a form value parses to an id iff it is a non-empty string of digits |
| TodoView.FilteredTasks | src/components/TodoList.jsx:24-34 | every listed task matches both the search term (ignoring case) and the filter |
| TodoView.FilteredTasksExactly | src/components/TodoList.jsx:24-34 | the list is exactly the order-preserving subsequence of tasks matching search and filter |
| TodoView.AllWithEmptySearch | src/components/TodoList.jsx:25-27 | "all" with an empty search lists every task |
| TodoView.UnknownFilterListsNothing | src/components/TodoList.jsx:26-31 | a filter other than the five known values lists nothing |
| TodoView.PendingCompletedPartition | src/components/TodoList.jsx:29-30 | for one search term, "pending" and "completed" are disjoint and together list every search match |
| TodoView.ToggledStatus | src/components/TodoList.jsx:70-73 | the result is "Todo" iff the status was "Done", else "Done" |
| TodoView.ToggleTwice | src/components/TodoList.jsx:70-73 | toggling twice restores the status iff it was "Todo" or "Done"; other statuses come back as "Todo" |
| TodoView.HandleToggleComplete | src/components/TodoList.jsx:70-73 | the store's tasks get the toggled status for that id; projects are untouched |
| TodoView.ProjectName | src/components/TodoList.jsx:36-39 | the name of the first project with the task's project id; a task without a known project is shown as "Personal Task" |
| TodoView.TodoDraft | src/components/TodoList.jsx:52-57 | the draft has status "Todo"; an empty project choice becomes a personal task; otherwise the project is the parsed id |
| TodoView.HandleAddTask | src/components/TodoList.jsx:49-68 | nothing is added without a title; otherwise exactly the draft is appended |
| KanbanView.TasksByStatus | src/components/Kanban.jsx:26-28 | every task in a column has the column's status |
| KanbanView.TasksByStatusExactly | src/components/Kanban.jsx:26-28 | a column is exactly the order-preserving subsequence of tasks with its status |
| KanbanView.ColumnCountsAddUp | src/components/Kanban.jsx:19-24 | the four column counts add up to the number of tasks whose status is a column id |
| KanbanView.PriorityColor | src/components/Kanban.jsx:30-37 | total, with the gray border exactly for unknown priorities |
| KanbanView.ProjectName | src/components/Kanban.jsx:39-42 | the name of the first project with the task's project id; a task without a known project is shown as "Unknown Project" |
| KanbanView.KanbanDraft | src/components/Kanban.jsx:55-60 | the draft has status "Todo" and the parsed project id |
| KanbanView.HandleAddTask | src/components/Kanban.jsx:52-70 | a task is added iff both title and project are filled in, always with status "Todo" |
| KanbanView.HandleStatusChange | src/components/Kanban.jsx:72-74 | only the status of the target task changes |
| KanbanView.HandleDeleteTask | src/components/Kanban.jsx:76-80 | deletes iff confirmed; otherwise the store is unchanged |
| CalendarView.DaysInMonth | src/components/Calendar.jsx:23-24 | months have 28 to 31 days: 29 iff February of a leap year, 28 iff February otherwise |
| CalendarView.FirstWeekday | src/components/Calendar.jsx:22-25 | the weekday of the first of the month is in 0..6 |
| CalendarView.FirstWeekdayOnKnownDates | src/components/Calendar.jsx:22-25 | the rule agrees with the real calendar: 1 January 2024 is a Monday and 1 March 2024 a Friday |
| CalendarView.WeekdaysFollowMonthLengths | src/components/Calendar.jsx:22-25 | the next month starts `DaysInMonth` days later in the week, across year ends too |
| CalendarView.MonthGrid | src/components/Calendar.jsx:27-39 | the grid is `startingDayOfWeek` blanks followed by 1..daysInMonth in order |
| CalendarView.DisplayedMonthGrid | src/components/Calendar.jsx:19-40 | every day of the month appears once, after as many blanks as the first's weekday |
| CalendarView.DateKey | src/components/Calendar.jsx:45 | the key is the year's digits, a dash, the two-digit month counted from 1, a dash and the two-digit day, and both fields read back as those numbers |
| CalendarView.ParseFullDate | src/components/Calendar.jsx:45 | reads a text back as a date iff it is an RFC 3339 full-date |
| CalendarView.DateKeyIsFullDate | src/components/Calendar.jsx:45 | for a four-digit year the key is the RFC 3339 full-date of that day, with the month counted from 1 |
| CalendarView.DateKeyInjective | src/components/Calendar.jsx:45 | different days never share a key |
| CalendarView.EventsForDate | src/components/Calendar.jsx:42-74 | a blank cell has no events; any other day has the deadlines due on its key |
| CalendarView.CollectDeadlines | src/components/Calendar.jsx:50-71 | the two loops push the matching projects, then the matching tasks, in store order |
| CalendarView.ProjectOnDayExactly | src/components/Calendar.jsx:50-59 | a project is among the day's events iff its due date equals the key |
| CalendarView.TaskOnDayExactly | src/components/Calendar.jsx:62-71 | a task is among the day's events iff its due date equals the key |
| CalendarView.ProjectsBeforeTasks | src/components/Calendar.jsx:50-71 | every project deadline comes before every task deadline |
| CalendarView.IsToday | src/components/Calendar.jsx:84-89 | true iff the cell is a real day equal to today's date in the displayed month and year |
| CalendarView.Upcoming | src/components/Calendar.jsx:168-171 | at most five items, all due now or later, in ascending due order, and a prefix of the sorted pending items |
| CalendarView.UpcomingIsSoonest | src/components/Calendar.jsx:168-171 | the list is as long as it can be (up to five), and no pending item left out is due before one shown |
| CalendarView.UpcomingProjects | src/components/Calendar.jsx:168-171 | at most five projects, none of them past due |
| CalendarView.UpcomingTasks | src/components/Calendar.jsx:192-195 | at most five tasks, none of them past due |
| TimelineView.OrElse | src/components/Timeline.jsx:28 | the fallback is used exactly for a missing or empty text |
| TimelineView.EventIdsDistinguish | src/components/Timeline.jsx:21 | project and task event ids never collide, and each kind of id is injective |
| TimelineView.TaskProgress | src/components/Timeline.jsx:46 | progress is in {0, 50, 100}: 100 iff done, 50 iff in progress |
| TimelineView.TaskColor | src/components/Timeline.jsx:50-51 | gray exactly for tasks neither done nor in progress |
| TimelineView.ProjectEventFor | src/components/Timeline.jsx:18-32 | a project event carries the project's id and due date; the assignee is unspecified iff there is no first member with a name |
| TimelineView.TaskEventFor | src/components/Timeline.jsx:35-54 | a task event carries the task's id, due date, progress and priority; a task without a known project is a personal task with no assignee |
| TimelineView.CreateTimelineEvents | src/components/Timeline.jsx:14-58 | throws iff a project is selected while a personal task exists; otherwise the events are a permutation of the pushed events, sorted by date |
| TimelineView.PushProjectEvents | src/components/Timeline.jsx:18-32 | one event per selected project, in store order |
| TimelineView.AllShowsEverything | src/components/Timeline.jsx:18-54 | with "all", nothing throws and there is one event per project and per task |
| TimelineView.SelectingAProject | src/components/Timeline.jsx:19 | selecting a project id keeps exactly that project and the tasks belonging to it |
| TimelineView.EventIdsUnique | src/components/Timeline.jsx:21 | with unique project and task ids, no two events share an id |
| TimelineView.DiffDays | src/components/Timeline.jsx:65-67 | the ceiling of the millisecond difference divided by a day |
| TimelineView.RangeDays | src/components/Timeline.jsx:69-78 | only week, month and quarter set a window |
| TimelineView.FilterByTimeRange | src/components/Timeline.jsx:62-82 | every kept event lies in the range's window |
| TimelineView.FilterByTimeRangeExactly | src/components/Timeline.jsx:62-82 | the filter keeps exactly the events in the window, in order |
| TimelineView.WindowInMilliseconds | src/components/Timeline.jsx:65-78 | an `n`-day range keeps events at most `n` days ahead and less than `n + 1` days behind |
| TimelineView.InvalidDateOnlyWithoutWindow | src/components/Timeline.jsx:65-78 | an unparsable date is kept iff no window is chosen |
| TimelineView.WindowsNest | src/components/Timeline.jsx:69-78 | week within month within quarter, and "all" keeps every event |
| TimelineView.OtherRangesKeepAll | src/components/Timeline.jsx:76-77 | any range other than week, month or quarter keeps every event |
| TimelineView.StatusColor | src/components/Timeline.jsx:86-93 | total, with gray exactly for unknown statuses |
| TimelineView.PriorityColor | src/components/Timeline.jsx:95-102 | total, with gray exactly for unknown priorities |
| DashboardView.CompletedProjects | src/components/Dashboard.jsx:37 | the number of projects at 100 is at most the total |
| DashboardView.InProgressProjects | src/components/Dashboard.jsx:38 | the number of projects strictly between 0 and 100 is at most the total |
| DashboardView.CountersPartition | src/components/Dashboard.jsx:36-38 | with progress in 0..100, completed plus in-progress plus not-started equals the total |
| DashboardView.ProgressSumBounds | src/components/Dashboard.jsx:39 | the progress sum lies between 0 and 100 times the number of projects |
| DashboardView.AverageProgress | src/components/Dashboard.jsx:39 | absent iff there are no projects; otherwise the mean rounded half-up |
| DashboardView.AverageIsUnique | src/components/Dashboard.jsx:39 | the rounding bounds admit a single integer |
| DashboardView.AverageInRange | src/components/Dashboard.jsx:39 | the average of percentages is in 0..100 |
| DashboardView.StatusColor | src/components/Dashboard.jsx:20-27 | total, with gray exactly for unknown statuses (the same map as src/components/ProjectDetail.jsx:37-44) |
| DashboardView.StatusBadge | src/components/ProjectDetail.jsx:46-53 | total, with "status-todo" exactly for unknown statuses (the same map as the card badge at src/components/Dashboard.jsx:119-123) |
| DashboardView.ProgressColor | src/components/Dashboard.jsx:29-34 | green iff at least 80, blue iff 50..79, yellow iff 30..49, red iff below 30 |
| DashboardView.ProgressColorMonotone | src/components/Dashboard.jsx:29-34 | more progress never shows a lower-ranked colour |
| DashboardView.ShownAvatars | src/components/Dashboard.jsx:143 | exactly the first min(3, n) of the n members are shown, in order |
| DashboardView.MoreMembersBadge | src/components/Dashboard.jsx:152-154 | the "+n" badge appears iff there are more than three members, and then shows n - 3, so avatars and badge account for every member |
| DashboardView.AvatarsAccountForEveryone | src/components/Dashboard.jsx:143-154 | shown avatars plus the badge count equal the number of members |
| DashboardView.ShownCurrentTasks | src/components/Dashboard.jsx:163 | exactly the first min(2, n) of the n current tasks are shown, in order |
| ProjectDetailView.ProjectTasks | src/components/ProjectDetail.jsx:22 | every listed task belongs to the route's project; a non-numeric route id lists none |
| ProjectDetailView.ProjectTasksExactly | src/components/ProjectDetail.jsx:22 | the list is exactly the order-preserving subsequence of tasks with the route's project id |
| ProjectDetailView.Page | src/components/ProjectDetail.jsx:21-35 | not found iff the route id is not plain decimal digits or names no project; otherwise the first project with that id, with its tasks |
| ProjectDetailView.PageOfListedProject | src/components/ProjectDetail.jsx:21-22 | with unique ids, the route of a listed project's decimal id shows that project |
| ProjectDetailView.PriorityColor | src/components/ProjectDetail.jsx:55-62 | total, with the gray classes exactly for unknown priorities |
| Common.Pad2 | src/components/PomodoroTimer.jsx:134 | `padStart(2, '0')` gives at least two digits, exactly two below 100, and reads back as the number |
| Common.IntToString | src/components/Timeline.jsx:19 | a non-empty rendering that starts with '-' iff the number is negative |
| Common.IntToStringInjective | src/components/Timeline.jsx:19 | distinct ids render as distinct strings |
| Common.Lower | src/components/TodoList.jsx:25 | lower-casing keeps the length and leaves no ASCII capital |
| Common.SortBy | src/components/Timeline.jsx:57 | the sort returns a permutation of its input in ascending key order |
| Common.Take | src/components/Dashboard.jsx:143 | `slice(0, n)` is a prefix of length min(n, length) |
| Common.PushEach | src/components/Timeline.jsx:35-54 | the forEach throws iff some element fails; otherwise it appends the mapped selected elements in order |

## Left out

- Rendering and routing are not modelled: JSX, Tailwind layout classes, `src/App.jsx` and `src/components/Navigation.jsx`. Only the colour and label maps are modelled, as total string functions.
- Log-in is not modelled: `src/components/Login.jsx` and its authentication context are not part of this model. The user's id is a parameter of the todo filter.
- Audio is not modelled: the notification sound, the music player, and volume and mute. These are foreign calls and floating point.
- The interval's lifecycle is not modelled: `setInterval`/`clearInterval` and effect scheduling are one abstract `Tick`.
  - The interval callback keeps the completion handler from when running started. So a session switched while running could complete as the old one.
  - The model completes the current session instead.
- Pomodoro.PomodoroTimer.EditSettings: minutes are natural numbers. `parseInt` of an empty or negative input (NaN or a negative length) is not modelled.
- Progress-bar widths are not modelled, because they are floating-point percentages.
- Date handling is not modelled:
  - date parsing, `Date.now()`, `toISOString` and `toLocaleDateString`;
  - the month navigation by `setMonth`;
  - the timeline's date formatting.

  Parsed dates are the parameter `instant`, and the current time is a parameter.
- TimelineView.CreateTimelineEvents: events with an invalid date sort with key 0. The JavaScript comparator returns NaN for them, and the resulting order depends on the engine.
- DashboardView.AverageProgress: the rounding is exact integer half-up rounding of sum / n. The floating-point division before `Math.round` is not modelled.
- Common.Lower: only ASCII letters are lower-cased. Thai and other scripts have no case and are kept.
- Names.FormId: `parseInt` accepts only plain decimal digits here. Its leniency (leading blanks, a sign, trailing garbage) is not modelled.
- ProjectDetailView.Page: the route id is read with `Names.FormId`, so a route such as `/project/1abc`, which `parseInt` reads as 1, is "not found" here.
- KanbanView.HandleDeleteTask: `window.confirm` is a boolean parameter.
- The store's `loading` flag is not modelled.
- TodoView.TodoDraft: the todo form's `personal` checkbox is not modelled. It only hides the project select, which keeps whatever it held. The spread copies the checkbox into the stored task as an extra field, and `Task` has no such field. The draft takes the project field of the form as given.
- Form state resets and the showing or hiding of panels after a submit are not modelled.
- Pomodoro.SessionLabel: the `default` label "Session" is unreachable because the session is one of three values. The contract states that it is never shown.
- The priority colour map of the todo list (`src/components/TodoList.jsx:75-82`) and `getStatusIcon` are not modelled. They are presentation helpers of the same shape as the modelled colour maps.
