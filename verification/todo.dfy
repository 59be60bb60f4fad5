/** The Todo list view (src/components/TodoList.jsx): search and filter over
    the tasks, the completion toggle, and the add-task form. */
module TodoView {
  import opened Common
  import opened Store
  import Names

  /** The title contains the search term, ignoring ASCII case. */
  predicate MatchesSearch(t: Task, term: string)
  {
    Contains(Lower(t.title), Lower(term))
  }

  /** The filter drop-down; `userId` is the logged-in user's id, if any, and
      a task without an assignee is nobody's. */
  predicate MatchesFilter(t: Task, filter: string, userId: Option<int>)
  {
    filter == "all"
    || (filter == "my" && userId.Some? && t.assigneeId == userId)
    || (filter == "pending" && t.status != "Done")
    || (filter == "completed" && t.status == "Done")
    || (filter == "high" && t.priority == "High")
  }

  predicate Shown(t: Task, term: string, filter: string, userId: Option<int>)
  {
    MatchesSearch(t, term) && MatchesFilter(t, filter, userId)
  }

  function ShownBy(term: string, filter: string, userId: Option<int>): Task -> bool
  {
    (t: Task) => Shown(t, term, filter, userId)
  }

  /** filteredTasks. */
  function FilteredTasks(tasks: seq<Task>, term: string, filter: string, userId: Option<int>): (r: seq<Task>)
    ensures forall k :: 0 <= k < |r| ==> MatchesSearch(r[k], term) && MatchesFilter(r[k], filter, userId)
  {
    Filter(tasks, ShownBy(term, filter, userId))
  }

  /** filteredTasks is exactly the order-preserving subsequence of the tasks
      that match both the search term and the filter. */
  lemma {:induction false} FilteredTasksExactly(tasks: seq<Task>, term: string, filter: string, userId: Option<int>)
    ensures var ix := Selected(tasks, ShownBy(term, filter, userId));
            var r := FilteredTasks(tasks, term, filter, userId);
            |ix| == |r| && StrictlyIncreasing(ix) &&
            (forall k :: 0 <= k < |ix| ==> ix[k] < |tasks| && r[k] == tasks[ix[k]]) &&
            (forall i :: 0 <= i < |tasks| ==> (Shown(tasks[i], term, filter, userId) <==> i in ix))
  {
    FilterIsSelection(tasks, ShownBy(term, filter, userId));
  }

  /** With the "all" filter and an empty search box every task is listed. */
  lemma AllWithEmptySearch(tasks: seq<Task>, userId: Option<int>)
    ensures FilteredTasks(tasks, "", "all", userId) == tasks
  {
    forall k | 0 <= k < |tasks| ensures Shown(tasks[k], "", "all", userId) {
      assert Lower("") == "";
    }
    FilterKeepsAll(tasks, ShownBy("", "all", userId));
  }

  /** A filter value outside the five known ones lists nothing. */
  lemma UnknownFilterListsNothing(tasks: seq<Task>, term: string, filter: string, userId: Option<int>)
    requires filter !in {"all", "my", "pending", "completed", "high"}
    ensures FilteredTasks(tasks, term, filter, userId) == []
  {
    FilterDropsAll(tasks, ShownBy(term, filter, userId));
  }

  /** For one search term, "pending" and "completed" never list the same
      task, and together they list as many tasks as match the search. */
  lemma PendingCompletedPartition(tasks: seq<Task>, term: string, userId: Option<int>)
    ensures forall i, j :: 0 <= i < |FilteredTasks(tasks, term, "pending", userId)| &&
                           0 <= j < |FilteredTasks(tasks, term, "completed", userId)| ==>
              FilteredTasks(tasks, term, "pending", userId)[i] != FilteredTasks(tasks, term, "completed", userId)[j]
    ensures |FilteredTasks(tasks, term, "pending", userId)| + |FilteredTasks(tasks, term, "completed", userId)|
         == |Filter(tasks, (t: Task) => MatchesSearch(t, term))|
  {
    FilterSplitCount(tasks, (t: Task) => MatchesSearch(t, term),
                     ShownBy(term, "pending", userId), ShownBy(term, "completed", userId));
  }

  /** handleToggleComplete's new status: a done task reopens as "Todo",
      any other becomes "Done". */
  function ToggledStatus(status: string): (r: string)
    ensures r in {"Todo", "Done"}
    ensures r == "Todo" <==> status == "Done"
  {
    if status == "Done" then "Todo" else "Done"
  }

  /** Toggling twice restores the status exactly when it was "Todo" or
      "Done"; "In Progress" and "Review" come back as "Todo". */
  lemma ToggleTwice(status: string)
    ensures ToggledStatus(ToggledStatus(status)) == status <==> status in {"Todo", "Done"}
    ensures status !in {"Todo", "Done"} ==> ToggledStatus(ToggledStatus(status)) == "Todo"
  {
  }

  method HandleToggleComplete(store: ProjectStore, taskId: int, currentStatus: string)
    modifies store
    ensures store.tasks == UpdatedTasks(old(store.tasks), taskId, StatusPatch(ToggledStatus(currentStatus)))
    ensures store.projects == old(store.projects)
  {
    store.UpdateTask(taskId, StatusPatch(ToggledStatus(currentStatus)));
  }

  function ProjectName(projects: seq<Project>, projectId: Option<int>): (r: string)
    ensures !Names.HasProjectIdOpt(projects, projectId) ==> r == "Personal Task"
    ensures Names.HasProjectIdOpt(projects, projectId) ==>
              exists k :: 0 <= k < |projects| && projects[k].id == projectId.value && r == projects[k].name &&
                          forall j :: 0 <= j < k ==> projects[j].id != projectId.value
  {
    Names.ProjectNameOr(projects, projectId, "Personal Task")
  }

  /** The fields handleAddTask passes to addTask: status "Todo", and an empty
      project choice becomes a personal task. */
  function TodoDraft(form: Names.TaskForm): (d: TaskDraft)
    ensures d.status == "Todo" && d.title == form.title
    ensures form.projectId == "" ==> d.projectId.None?
    ensures form.projectId != "" ==> d.projectId == Names.FormId(form.projectId)
  {
    TaskDraft(form.title, if form.projectId != "" then Names.FormId(form.projectId) else None,
              Names.FormId(form.assigneeId), "Todo", form.priority, form.dueDate)
  }

  /** handleAddTask: nothing is added without a title. */
  method HandleAddTask(store: ProjectStore, form: Names.TaskForm, now: int, isoNow: string)
    modifies store
    ensures form.title == "" ==> store.tasks == old(store.tasks)
    ensures form.title != "" ==> store.tasks == old(store.tasks) + [NewTask(TodoDraft(form), now, isoNow)]
    ensures store.projects == old(store.projects)
  {
    if form.title != "" {
      store.AddTask(TodoDraft(form), now, isoNow);
    }
  }
}
