/** The in-memory project and task store (src/context/ProjectContext.jsx).

    Records are typed: a field the source leaves out of an object is `None`
    here, and `null` is `None` as well. A partial update (`{ ...record,
    ...updates }`) is a patch whose `Some` fields override the record's. */
module Store {
  import opened Common

  datatype Member = Member(id: int, name: string, avatar: string, role: string)

  /** A free-form "current task" line of a project, not linked to any Task. */
  datatype TaskSummary = TaskSummary(assignee: string, task: string, dueDate: string)

  datatype Project = Project(
    id: int, name: string, description: string, image: string, progress: int,
    dueDate: string, status: string, members: seq<Member>, currentTasks: seq<TaskSummary>)

  /** A task; `projectId == None` is a personal task. `createdAt` is only set
      on tasks made by AddTask. */
  datatype Task = Task(
    id: int, title: string, projectId: Option<int>, assigneeId: Option<int>,
    status: string, priority: string, dueDate: string, createdAt: Option<string>)

  datatype ProjectPatch = ProjectPatch(
    id: Option<int>, name: Option<string>, description: Option<string>, image: Option<string>,
    progress: Option<int>, dueDate: Option<string>, status: Option<string>,
    members: Option<seq<Member>>, currentTasks: Option<seq<TaskSummary>>)

  datatype TaskPatch = TaskPatch(
    id: Option<int>, title: Option<string>, projectId: Option<Option<int>>, assigneeId: Option<Option<int>>,
    status: Option<string>, priority: Option<string>, dueDate: Option<string>, createdAt: Option<Option<string>>)

  /** The fields a view hands to addTask. */
  datatype TaskDraft = TaskDraft(
    title: string, projectId: Option<int>, assigneeId: Option<int>,
    status: string, priority: string, dueDate: string)

  const EmptyProjectPatch: ProjectPatch := ProjectPatch(None, None, None, None, None, None, None, None, None)
  const EmptyTaskPatch: TaskPatch := TaskPatch(None, None, None, None, None, None, None, None)

  /** `{ status: s }`, the only update the views send. */
  function StatusPatch(status: string): TaskPatch
  {
    EmptyTaskPatch.(status := Some(status))
  }

  function Override<T>(current: T, update: Option<T>): T
  {
    if update.Some? then update.value else current
  }

  /** `{ ...project, ...updates }`. */
  function ApplyProjectPatch(p: Project, u: ProjectPatch): Project
  {
    Project(Override(p.id, u.id), Override(p.name, u.name), Override(p.description, u.description),
            Override(p.image, u.image), Override(p.progress, u.progress), Override(p.dueDate, u.dueDate),
            Override(p.status, u.status), Override(p.members, u.members),
            Override(p.currentTasks, u.currentTasks))
  }

  /** `{ ...task, ...updates }`. */
  function ApplyTaskPatch(t: Task, u: TaskPatch): Task
  {
    Task(Override(t.id, u.id), Override(t.title, u.title), Override(t.projectId, u.projectId),
         Override(t.assigneeId, u.assigneeId), Override(t.status, u.status),
         Override(t.priority, u.priority), Override(t.dueDate, u.dueDate),
         Override(t.createdAt, u.createdAt))
  }

  /** The record addTask appends: the draft stamped with the clock value as
      its id and the clock's ISO text as its creation time. */
  function NewTask(d: TaskDraft, now: int, isoNow: string): Task
  {
    Task(now, d.title, d.projectId, d.assigneeId, d.status, d.priority, d.dueDate, Some(isoNow))
  }

  // ---------------------------------------------------------------------
  // The new collections each mutation computes
  // ---------------------------------------------------------------------

  /** updateProject's `prev.map(...)`. */
  function UpdatedProjects(projects: seq<Project>, id: int, u: ProjectPatch): (r: seq<Project>)
    ensures |r| == |projects|
    ensures forall k :: 0 <= k < |projects| && projects[k].id == id ==> r[k] == ApplyProjectPatch(projects[k], u)
    ensures forall k :: 0 <= k < |projects| && projects[k].id != id ==> r[k] == projects[k]
  {
    ReplaceWhere(projects, (p: Project) => p.id == id, (p: Project) => ApplyProjectPatch(p, u))
  }

  /** updateTask's `prev.map(...)`. */
  function UpdatedTasks(tasks: seq<Task>, id: int, u: TaskPatch): (r: seq<Task>)
    ensures |r| == |tasks|
    ensures forall k :: 0 <= k < |tasks| && tasks[k].id == id ==> r[k] == ApplyTaskPatch(tasks[k], u)
    ensures forall k :: 0 <= k < |tasks| && tasks[k].id != id ==> r[k] == tasks[k]
  {
    ReplaceWhere(tasks, (t: Task) => t.id == id, (t: Task) => ApplyTaskPatch(t, u))
  }

  predicate KeepsTask(t: Task, id: int) { t.id != id }

  /** deleteTask's `prev.filter(...)`. */
  function TasksWithout(tasks: seq<Task>, id: int): (r: seq<Task>)
    ensures forall k :: 0 <= k < |r| ==> r[k].id != id
  {
    Filter(tasks, (t: Task) => KeepsTask(t, id))
  }

  predicate HasTaskId(tasks: seq<Task>, id: int)
  {
    exists k :: 0 <= k < |tasks| && tasks[k].id == id
  }

  predicate HasProjectId(projects: seq<Project>, id: int)
  {
    exists k :: 0 <= k < |projects| && projects[k].id == id
  }

  predicate UniqueTaskIds(tasks: seq<Task>)
  {
    forall i, j :: 0 <= i < j < |tasks| ==> tasks[i].id != tasks[j].id
  }

  predicate UniqueProjectIds(projects: seq<Project>)
  {
    forall i, j :: 0 <= i < j < |projects| ==> projects[i].id != projects[j].id
  }

  /** projects.find(p => p.id === id); a missing or non-numeric id matches
      no project. */
  function FindProject(projects: seq<Project>, id: Option<int>): (r: Option<Project>)
    ensures r.None? <==> id.None? || !HasProjectId(projects, id.value)
    ensures r.Some? ==> r.value.id == id.value
    ensures r.Some? ==> exists k :: 0 <= k < |projects| && projects[k] == r.value &&
                          forall j :: 0 <= j < k ==> projects[j].id != id.value
  {
    Find(projects, (p: Project) => id.Some? && p.id == id.value)
  }

  /** project.members.find(m => m.id === id). */
  function FindMember(members: seq<Member>, id: Option<int>): (r: Option<Member>)
    ensures r.None? <==> id.None? || forall k :: 0 <= k < |members| ==> members[k].id != id.value
    ensures r.Some? ==> r.value.id == id.value
    ensures r.Some? ==> exists k :: 0 <= k < |members| && members[k] == r.value &&
                          forall j :: 0 <= j < k ==> members[j].id != id.value
  {
    Find(members, (m: Member) => id.Some? && m.id == id.value)
  }

  // ---------------------------------------------------------------------
  // What the mutations promise
  // ---------------------------------------------------------------------

  /** An update naming no existing task leaves the tasks as they were. */
  lemma UpdateUnknownTask(tasks: seq<Task>, id: int, u: TaskPatch)
    requires !HasTaskId(tasks, id)
    ensures UpdatedTasks(tasks, id, u) == tasks
  {
    var r := UpdatedTasks(tasks, id, u);
    assert forall k :: 0 <= k < |tasks| ==> r[k] == tasks[k];
  }

  /** An update naming no existing project leaves the projects as they were. */
  lemma UpdateUnknownProject(projects: seq<Project>, id: int, u: ProjectPatch)
    requires !HasProjectId(projects, id)
    ensures UpdatedProjects(projects, id, u) == projects
  {
    var r := UpdatedProjects(projects, id, u);
    assert forall k :: 0 <= k < |projects| ==> r[k] == projects[k];
  }

  /** `{ status }` changes only the status of the tasks with that id. */
  lemma StatusUpdateChangesOnlyStatus(tasks: seq<Task>, id: int, status: string)
    ensures |UpdatedTasks(tasks, id, StatusPatch(status))| == |tasks|
    ensures forall k :: 0 <= k < |tasks| ==>
              UpdatedTasks(tasks, id, StatusPatch(status))[k]
                == if tasks[k].id == id then tasks[k].(status := status) else tasks[k]
  {
  }

  /** Applying the same update twice is applying it once. */
  lemma UpdateTasksIdempotent(tasks: seq<Task>, id: int, u: TaskPatch)
    requires u.id.None? || u.id == Some(id)
    ensures UpdatedTasks(UpdatedTasks(tasks, id, u), id, u) == UpdatedTasks(tasks, id, u)
  {
    var once := UpdatedTasks(tasks, id, u);
    var twice := UpdatedTasks(once, id, u);
    forall k | 0 <= k < |tasks| ensures twice[k] == once[k] {
      if tasks[k].id == id {
        assert once[k].id == id;
      }
    }
  }

  /** An update that does not rewrite ids keeps task ids unique. */
  lemma UpdateKeepsIdsUnique(tasks: seq<Task>, id: int, u: TaskPatch)
    requires UniqueTaskIds(tasks) && u.id.None?
    ensures UniqueTaskIds(UpdatedTasks(tasks, id, u))
  {
    var r := UpdatedTasks(tasks, id, u);
    assert forall k :: 0 <= k < |tasks| ==> r[k].id == tasks[k].id;
  }

  /** Adding a task keeps task ids unique exactly when the clock value it is
      stamped with is not already some task's id. */
  lemma AddKeepsIdsUniqueIffFresh(tasks: seq<Task>, d: TaskDraft, now: int, isoNow: string)
    requires UniqueTaskIds(tasks)
    ensures UniqueTaskIds(tasks + [NewTask(d, now, isoNow)]) <==> !HasTaskId(tasks, now)
  {
    var r := tasks + [NewTask(d, now, isoNow)];
    if HasTaskId(tasks, now) {
      var k :| 0 <= k < |tasks| && tasks[k].id == now;
      assert r[k].id == r[|tasks|].id;
    }
  }

  /** deleteTask removes exactly the tasks with that id and keeps the others
      in order: the result is the subsequence of the tasks whose id differs. */
  lemma DeleteRemovesExactly(tasks: seq<Task>, id: int)
    ensures var ix := Selected(tasks, (t: Task) => KeepsTask(t, id));
            var r := TasksWithout(tasks, id);
            |ix| == |r| && StrictlyIncreasing(ix) &&
            (forall k :: 0 <= k < |ix| ==> ix[k] < |tasks| && r[k] == tasks[ix[k]]) &&
            (forall i :: 0 <= i < |tasks| ==> (tasks[i].id != id <==> i in ix))
    ensures !HasTaskId(TasksWithout(tasks, id), id)
    ensures forall k :: 0 <= k < |tasks| && tasks[k].id != id ==>
              exists m :: 0 <= m < |TasksWithout(tasks, id)| && TasksWithout(tasks, id)[m] == tasks[k]
    ensures !HasTaskId(tasks, id) ==> TasksWithout(tasks, id) == tasks
  {
    var p := (t: Task) => KeepsTask(t, id);
    FilterIsSelection(tasks, p);
    var sel := Selected(tasks, p);
    forall k | 0 <= k < |tasks| && tasks[k].id != id
      ensures exists m :: 0 <= m < |TasksWithout(tasks, id)| && TasksWithout(tasks, id)[m] == tasks[k]
    {
      assert k in sel;
      var m :| 0 <= m < |sel| && sel[m] == k;
      assert TasksWithout(tasks, id)[m] == tasks[k];
    }
    if !HasTaskId(tasks, id) {
      FilterKeepsAll(tasks, p);
    }
  }

  /** Deleting the same id twice is deleting it once. */
  lemma DeleteIdempotent(tasks: seq<Task>, id: int)
    ensures TasksWithout(TasksWithout(tasks, id), id) == TasksWithout(tasks, id)
  {
    FilterIdempotent(tasks, (t: Task) => KeepsTask(t, id));
  }

  function CountTasksWithId(tasks: seq<Task>, id: int): nat
  {
    |Filter(tasks, (t: Task) => t.id == id)|
  }

  /** deleteTask shortens the list by the number of tasks bearing the id;
      with unique ids, by one when the id exists. */
  lemma DeleteCount(tasks: seq<Task>, id: int)
    ensures |TasksWithout(tasks, id)| + CountTasksWithId(tasks, id) == |tasks|
    ensures UniqueTaskIds(tasks) && HasTaskId(tasks, id) ==> |TasksWithout(tasks, id)| == |tasks| - 1
  {
    var all := (t: Task) => true;
    FilterKeepsAll(tasks, all);
    FilterSplitCount(tasks, all, (t: Task) => KeepsTask(t, id), (t: Task) => t.id == id);
    if UniqueTaskIds(tasks) && HasTaskId(tasks, id) {
      var k :| 0 <= k < |tasks| && tasks[k].id == id;
      OnlyOneWithId(tasks, id, k);
    }
  }

  lemma {:induction false} OnlyOneWithId(tasks: seq<Task>, id: int, k: nat)
    requires UniqueTaskIds(tasks) && k < |tasks| && tasks[k].id == id
    ensures CountTasksWithId(tasks, id) == 1
  {
    var p := (t: Task) => t.id == id;
    var n := |tasks| - 1;
    if k == n {
      FilterDropsAll(tasks[..n], p);
    } else {
      OnlyOneWithId(tasks[..n], id, k);
      assert tasks[n].id != id;
    }
  }

  // ---------------------------------------------------------------------
  // The store
  // ---------------------------------------------------------------------

  class ProjectStore {
    var projects: seq<Project>
    var tasks: seq<Task>

    /** The provider once its mount effect has seeded the data. */
    constructor ()
      ensures projects == SeedProjects && tasks == SeedTasks
    {
      projects := SeedProjects;
      tasks := SeedTasks;
    }

    method UpdateProject(id: int, u: ProjectPatch)
      modifies this
      ensures projects == UpdatedProjects(old(projects), id, u)
      ensures tasks == old(tasks)
    {
      projects := UpdatedProjects(projects, id, u);
    }

    method UpdateTask(id: int, u: TaskPatch)
      modifies this
      ensures tasks == UpdatedTasks(old(tasks), id, u)
      ensures projects == old(projects)
    {
      tasks := UpdatedTasks(tasks, id, u);
    }

    /** addTask, given the two clock readings it makes: Date.now() and the
        ISO text of new Date(). */
    method AddTask(d: TaskDraft, now: int, isoNow: string)
      modifies this
      ensures tasks == old(tasks) + [NewTask(d, now, isoNow)]
      ensures projects == old(projects)
    {
      tasks := tasks + [NewTask(d, now, isoNow)];
    }

    method DeleteTask(id: int)
      modifies this
      ensures tasks == TasksWithout(old(tasks), id)
      ensures projects == old(projects)
    {
      tasks := TasksWithout(tasks, id);
    }
  }

  // ---------------------------------------------------------------------
  // Seed data
  // ---------------------------------------------------------------------

  const SeedProjects: seq<Project> := [
    Project(1, "E-commerce Platform",
      "Building a modern e-commerce platform with React and Node.js",
      "https://images.unsplash.com/photo-1556742049-0cfed4f6a45d?w=400&h=200&fit=crop",
      75, "2024-03-15", "In Progress",
      [ Member(1, "สมชาย ใจดี", "https://images.unsplash.com/photo-1472099645785-5658abf4ff4e?w=50&h=50&fit=crop&crop=face", "Project Manager"),
        Member(2, "สมหญิง รักงาน", "https://images.unsplash.com/photo-1494790108755-2616b9a6d1e3?w=50&h=50&fit=crop&crop=face", "Frontend Developer"),
        Member(3, "วิชาญ โค้ดดี", "https://images.unsplash.com/photo-1507003211169-0a1dd7228f2d?w=50&h=50&fit=crop&crop=face", "Backend Developer") ],
      [ TaskSummary("สมหญิง รักงาน", "Shopping Cart UI", "2024-02-20"),
        TaskSummary("วิชาญ โค้ดดี", "Payment API Integration", "2024-02-22") ]),
    Project(2, "Mobile Banking App",
      "Secure mobile banking application with biometric authentication",
      "https://images.unsplash.com/photo-1563013544-824ae1b704d3?w=400&h=200&fit=crop",
      45, "2024-04-30", "In Progress",
      [ Member(4, "ประยุทธ์ มือโปร", "https://images.unsplash.com/photo-1500648767791-00dcc994a43e?w=50&h=50&fit=crop&crop=face", "Mobile Developer"),
        Member(5, "อรทัย ดีไซน์", "https://images.unsplash.com/photo-1438761681033-6461ffad8d80?w=50&h=50&fit=crop&crop=face", "UI/UX Designer") ],
      [ TaskSummary("ประยุทธ์ มือโปร", "Biometric Authentication", "2024-02-25"),
        TaskSummary("อรทัย ดีไซน์", "User Interface Design", "2024-02-18") ]),
    Project(3, "Data Analytics Dashboard",
      "Real-time analytics dashboard for business intelligence",
      "https://images.unsplash.com/photo-1551288049-bebda4e38f71?w=400&h=200&fit=crop",
      90, "2024-02-28", "Review",
      [ Member(6, "ดาต้า วิเคราะห์", "https://images.unsplash.com/photo-1519244703995-f4e0f30006d5?w=50&h=50&fit=crop&crop=face", "Data Analyst"),
        Member(7, "ชาร์ต กราฟิก", "https://images.unsplash.com/photo-1544725176-7c40e5a71c5e?w=50&h=50&fit=crop&crop=face", "Frontend Developer") ],
      [ TaskSummary("ดาต้า วิเคราะห์", "Performance Optimization", "2024-02-16"),
        TaskSummary("ชาร์ต กราฟิก", "Final UI Polish", "2024-02-17") ])
  ]

  const SeedTasks: seq<Task> := [
    Task(1, "Design Homepage", Some(1), Some(2), "In Progress", "High", "2024-02-20", None),
    Task(2, "Setup Database", Some(1), Some(3), "Done", "High", "2024-02-15", None),
    Task(3, "User Authentication", Some(2), Some(4), "In Progress", "Medium", "2024-02-25", None),
    Task(4, "Data Visualization", Some(3), Some(6), "Review", "Low", "2024-02-16", None)
  ]

  /** The seeded ids are unique, every seeded task belongs to a seeded
      project, and every seeded progress is a percentage. */
  lemma SeedInvariants()
    ensures UniqueProjectIds(SeedProjects) && UniqueTaskIds(SeedTasks)
    ensures forall k :: 0 <= k < |SeedTasks| ==>
              SeedTasks[k].projectId.Some? && HasProjectId(SeedProjects, SeedTasks[k].projectId.value)
    ensures forall k :: 0 <= k < |SeedProjects| ==> 0 <= SeedProjects[k].progress <= 100
  {
    assert SeedProjects[0].id == 1 && SeedProjects[1].id == 2 && SeedProjects[2].id == 3;
  }
}
