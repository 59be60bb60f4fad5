/** The Kanban board (src/components/Kanban.jsx): four status columns over
    the tasks, the add-task form, status changes and confirmed deletion. */
module KanbanView {
  import opened Common
  import opened Store
  import Names

  /** The column ids, left to right. */
  const Columns: seq<string> := ["Todo", "In Progress", "Review", "Done"]

  function HasStatus(status: string): Task -> bool
  {
    (t: Task) => t.status == status
  }

  /** getTasksByStatus. */
  function TasksByStatus(tasks: seq<Task>, status: string): (r: seq<Task>)
    ensures forall k :: 0 <= k < |r| ==> r[k].status == status
  {
    Filter(tasks, HasStatus(status))
  }

  /** A column holds exactly the tasks with its status, in store order. */
  lemma {:induction false} TasksByStatusExactly(tasks: seq<Task>, status: string)
    ensures var ix := Selected(tasks, HasStatus(status));
            var r := TasksByStatus(tasks, status);
            |ix| == |r| && StrictlyIncreasing(ix) &&
            (forall k :: 0 <= k < |ix| ==> ix[k] < |tasks| && r[k] == tasks[ix[k]]) &&
            (forall i :: 0 <= i < |tasks| ==> (tasks[i].status == status <==> i in ix))
  {
    FilterIsSelection(tasks, HasStatus(status));
  }

  function InSomeColumn(): Task -> bool
  {
    (t: Task) => t.status in Columns
  }

  /** The four column counts add up to the number of tasks whose status is
      one of the column ids; a task with any other status is on no column. */
  lemma {:induction false} ColumnCountsAddUp(tasks: seq<Task>)
    ensures |TasksByStatus(tasks, "Todo")| + |TasksByStatus(tasks, "In Progress")|
          + |TasksByStatus(tasks, "Review")| + |TasksByStatus(tasks, "Done")|
         == |Filter(tasks, InSomeColumn())|
  {
    var firstTwo := (t: Task) => t.status == "Todo" || t.status == "In Progress";
    var lastTwo := (t: Task) => t.status == "Review" || t.status == "Done";
    FilterSplitCount(tasks, firstTwo, HasStatus("Todo"), HasStatus("In Progress"));
    FilterSplitCount(tasks, lastTwo, HasStatus("Review"), HasStatus("Done"));
    FilterSplitCount(tasks, InSomeColumn(), firstTwo, lastTwo);
  }

  /** getPriorityColor: the left border colour of a card. */
  function PriorityColor(priority: string): (r: string)
    ensures r == "border-l-gray-500" <==> priority !in {"High", "Medium", "Low"}
    ensures priority == "High" <==> r == "border-l-red-500"
  {
    match priority
    case "High" => "border-l-red-500"
    case "Medium" => "border-l-yellow-500"
    case "Low" => "border-l-green-500"
    case _ => "border-l-gray-500"
  }

  function ProjectName(projects: seq<Project>, projectId: Option<int>): (r: string)
    ensures !Names.HasProjectIdOpt(projects, projectId) ==> r == "Unknown Project"
    ensures Names.HasProjectIdOpt(projects, projectId) ==>
              exists k :: 0 <= k < |projects| && projects[k].id == projectId.value && r == projects[k].name &&
                          forall j :: 0 <= j < k ==> projects[j].id != projectId.value
  {
    Names.ProjectNameOr(projects, projectId, "Unknown Project")
  }

  /** The fields handleAddTask passes to addTask. */
  function KanbanDraft(form: Names.TaskForm): (d: TaskDraft)
    ensures d.status == "Todo" && d.title == form.title
    ensures d.projectId == Names.FormId(form.projectId)
  {
    TaskDraft(form.title, Names.FormId(form.projectId), Names.FormId(form.assigneeId),
              "Todo", form.priority, form.dueDate)
  }

  /** handleAddTask: a task is added only when both the title and the
      project are filled in, and always with status "Todo". */
  method HandleAddTask(store: ProjectStore, form: Names.TaskForm, now: int, isoNow: string)
    modifies store
    ensures form.title == "" || form.projectId == "" ==> store.tasks == old(store.tasks)
    ensures form.title != "" && form.projectId != "" ==>
              store.tasks == old(store.tasks) + [NewTask(KanbanDraft(form), now, isoNow)]
    ensures store.projects == old(store.projects)
  {
    if form.title != "" && form.projectId != "" {
      store.AddTask(KanbanDraft(form), now, isoNow);
    }
  }

  /** handleStatusChange: only the status of the target task changes. */
  method HandleStatusChange(store: ProjectStore, taskId: int, newStatus: string)
    modifies store
    ensures store.tasks == UpdatedTasks(old(store.tasks), taskId, StatusPatch(newStatus))
    ensures store.projects == old(store.projects)
  {
    store.UpdateTask(taskId, StatusPatch(newStatus));
  }

  /** handleDeleteTask, with the answer to the confirmation dialog as input. */
  method HandleDeleteTask(store: ProjectStore, taskId: int, confirmed: bool)
    modifies store
    ensures confirmed ==> store.tasks == TasksWithout(old(store.tasks), taskId)
    ensures !confirmed ==> store.tasks == old(store.tasks)
    ensures store.projects == old(store.projects)
  {
    if confirmed {
      store.DeleteTask(taskId);
    }
  }
}
