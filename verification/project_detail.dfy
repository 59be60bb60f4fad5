/** The project page (src/components/ProjectDetail.jsx): the project named by
    the route, its tasks, and the colour and badge maps of the page. */
module ProjectDetailView {
  import opened Common
  import opened Store
  import Names

  /** What the page renders: the not-found message, or a project with its
      tasks. */
  datatype ProjectPage = NotFound | Found(project: Project, tasks: seq<Task>)

  function BelongsTo(id: int): Task -> bool
  {
    (t: Task) => t.projectId == Some(id)
  }

  /** projectTasks, `tasks.filter(t => t.projectId === parseInt(id))`: a route
      id that is not a number (NaN) matches no task. */
  function ProjectTasks(tasks: seq<Task>, routeId: Option<int>): (r: seq<Task>)
    ensures forall k :: 0 <= k < |r| ==> routeId.Some? && r[k].projectId == routeId
    ensures routeId.None? ==> r == []
  {
    if routeId.None? then [] else Filter(tasks, BelongsTo(routeId.value))
  }

  /** projectTasks is exactly the order-preserving subsequence of the tasks
      that belong to the route's project. */
  lemma {:induction false} ProjectTasksExactly(tasks: seq<Task>, id: int)
    ensures var ix := Selected(tasks, BelongsTo(id));
            var r := ProjectTasks(tasks, Some(id));
            |ix| == |r| && StrictlyIncreasing(ix) &&
            (forall k :: 0 <= k < |ix| ==> ix[k] < |tasks| && r[k] == tasks[ix[k]]) &&
            (forall i :: 0 <= i < |tasks| ==> (tasks[i].projectId == Some(id) <==> i in ix))
  {
    FilterIsSelection(tasks, BelongsTo(id));
  }

  /** The page for the route parameter `idText`: the first project whose id
      it parses to, else the not-found branch. */
  function Page(projects: seq<Project>, tasks: seq<Task>, idText: string): (r: ProjectPage)
    ensures r.NotFound? <==> Names.FormId(idText).None? || !HasProjectId(projects, Names.FormId(idText).value)
    ensures r.Found? ==> r.project.id == Names.FormId(idText).value
    ensures r.Found? ==> exists k :: 0 <= k < |projects| && projects[k] == r.project &&
                          forall j :: 0 <= j < k ==> projects[j].id != r.project.id
    ensures r.Found? ==> r.tasks == ProjectTasks(tasks, Some(r.project.id))
  {
    var routeId := Names.FormId(idText);
    match FindProject(projects, routeId)
    case None => NotFound
    case Some(p) => Found(p, ProjectTasks(tasks, routeId))
  }

  /** The page of a project reached by its decimal id shows that project. */
  lemma PageOfListedProject(projects: seq<Project>, tasks: seq<Task>, k: nat)
    requires k < |projects| && UniqueProjectIds(projects) && projects[k].id >= 0
    ensures Page(projects, tasks, NatToString(projects[k].id)) == Found(projects[k], ProjectTasks(tasks, Some(projects[k].id)))
  {
    var id := projects[k].id;
    ParseNatToString(id);
    var page := Page(projects, tasks, NatToString(id));
    assert HasProjectId(projects, id);
    var m :| 0 <= m < |projects| && projects[m] == page.project &&
             forall j :: 0 <= j < m ==> projects[j].id != page.project.id;
    assert m == k;
  }

  /** getPriorityColor of this page. */
  function PriorityColor(priority: string): (r: string)
    ensures r == "text-gray-600 bg-gray-50 border-gray-200" <==> priority !in {"High", "Medium", "Low"}
    ensures priority == "High" <==> r == "text-red-600 bg-red-50 border-red-200"
  {
    match priority
    case "High" => "text-red-600 bg-red-50 border-red-200"
    case "Medium" => "text-yellow-600 bg-yellow-50 border-yellow-200"
    case "Low" => "text-green-600 bg-green-50 border-green-200"
    case _ => "text-gray-600 bg-gray-50 border-gray-200"
  }
}
