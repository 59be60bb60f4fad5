/** What the Todo and Kanban views share: the name lookups getProjectName
    and getAssigneeName (written identically in src/components/TodoList.jsx
    and src/components/Kanban.jsx apart from the project-name fallback) and
    the add-task form they both read. */
module Names {
  import opened Common
  import opened Store

  /** The name of the first project with that id, else `fallback`. */
  function ProjectNameOr(projects: seq<Project>, id: Option<int>, fallback: string): (r: string)
    ensures !HasProjectIdOpt(projects, id) ==> r == fallback
    ensures HasProjectIdOpt(projects, id) ==>
              exists k :: 0 <= k < |projects| && projects[k].id == id.value && r == projects[k].name &&
                          forall j :: 0 <= j < k ==> projects[j].id != id.value
  {
    match FindProject(projects, id)
    case Some(p) => p.name
    case None => fallback
  }

  predicate HasProjectIdOpt(projects: seq<Project>, id: Option<int>)
  {
    id.Some? && HasProjectId(projects, id.value)
  }

  predicate HasMember(p: Project, id: Option<int>)
  {
    id.Some? && exists k :: 0 <= k < |p.members| && p.members[k].id == id.value
  }

  /** The member found by scanning the projects in order and, inside the first
      project that has one, its members in order. */
  function MemberAcross(projects: seq<Project>, id: Option<int>): (r: Option<Member>)
    ensures r.None? <==> forall k :: 0 <= k < |projects| ==> !HasMember(projects[k], id)
    ensures r.Some? ==> id.Some? && r.value.id == id.value
    ensures r.Some? ==> exists k :: 0 <= k < |projects| && r.value in projects[k].members
    ensures r.Some? ==> exists k :: 0 <= k < |projects| && HasMember(projects[k], id) &&
                          (forall j :: 0 <= j < k ==> !HasMember(projects[j], id)) &&
                          r == FindMember(projects[k].members, id)
  {
    if projects == [] then None
    else match FindMember(projects[0].members, id)
      case Some(m) => Some(m)
      case None =>
        var rest := MemberAcross(projects[1..], id);
        assert forall k :: 1 <= k < |projects| ==> projects[k] == projects[1..][k - 1];
        rest
  }

  /** getAssigneeName: the `for … of` loop over the projects that returns the
      first member found, else "Unassigned". */
  method AssigneeName(projects: seq<Project>, id: Option<int>) returns (name: string)
    ensures MemberAcross(projects, id).Some? ==> name == MemberAcross(projects, id).value.name
    ensures MemberAcross(projects, id).None? ==> name == "Unassigned"
  {
    var i := 0;
    while i < |projects|
      invariant 0 <= i <= |projects|
      invariant MemberAcross(projects[i..], id) == MemberAcross(projects, id)
    {
      var member := FindMember(projects[i].members, id);
      if member.Some? {
        return member.value.name;
      }
      assert projects[i..][1..] == projects[i + 1..];
      i := i + 1;
    }
    name := "Unassigned";
  }

  /** The add-task form as typed: the selects hold decimal ids or "". */
  datatype TaskForm = TaskForm(title: string, projectId: string, assigneeId: string, priority: string, dueDate: string)

  /** parseInt on a select value: None stands for NaN. */
  function FormId(s: string): (r: Option<int>)
    ensures r.Some? <==> s != [] && AllDigits(s)
  {
    match ParseNat(s)
    case Some(n) => Some(n)
    case None => None
  }
}
