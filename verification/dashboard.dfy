/** The dashboard (src/components/Dashboard.jsx): the four counters over the
    projects, and what each project card shows. */
module DashboardView {
  import opened Common
  import opened Store

  // ---------------------------------------------------------------------
  // Counters
  // ---------------------------------------------------------------------

  function IsComplete(): Project -> bool { (p: Project) => p.progress == 100 }
  function IsUnderWay(): Project -> bool { (p: Project) => 0 < p.progress < 100 }
  function IsNotStarted(): Project -> bool { (p: Project) => p.progress == 0 }

  /** completedProjects. */
  function CompletedProjects(projects: seq<Project>): (r: nat)
    ensures r <= |projects|
  {
    |Filter(projects, IsComplete())|
  }

  /** inProgressProjects. */
  function InProgressProjects(projects: seq<Project>): (r: nat)
    ensures r <= |projects|
  {
    |Filter(projects, IsUnderWay())|
  }

  predicate ProgressInRange(projects: seq<Project>)
  {
    forall k :: 0 <= k < |projects| ==> 0 <= projects[k].progress <= 100
  }

  /** With every progress in 0..100, the completed, the under-way and the
      not-started projects add up to all of them. */
  lemma {:induction false} CountersPartition(projects: seq<Project>)
    requires ProgressInRange(projects)
    ensures CompletedProjects(projects) + InProgressProjects(projects) + |Filter(projects, IsNotStarted())|
         == |projects|
  {
    var started := (p: Project) => 0 < p.progress <= 100;
    var any := (p: Project) => 0 <= p.progress <= 100;
    FilterSplitCount(projects, started, IsComplete(), IsUnderWay());
    FilterSplitCount(projects, any, started, IsNotStarted());
    FilterKeepsAll(projects, any);
  }

  /** `projects.reduce((sum, p) => sum + p.progress, 0)`. */
  function ProgressSum(projects: seq<Project>): int
  {
    if projects == [] then 0 else ProgressSum(projects[..|projects| - 1]) + projects[|projects| - 1].progress
  }

  lemma {:induction false} ProgressSumBounds(projects: seq<Project>)
    requires ProgressInRange(projects)
    ensures 0 <= ProgressSum(projects) <= 100 * |projects|
  {
    if projects != [] {
      ProgressSumBounds(projects[..|projects| - 1]);
    }
  }

  /** averageProgress: `Math.round(sum / n)`, which is `floor(sum / n + 1/2)`;
      with no projects the division gives NaN, here None. */
  function AverageProgress(projects: seq<Project>): (r: Option<int>)
    ensures r.None? <==> projects == []
    ensures r.Some? ==> 2 * |projects| * r.value - |projects| <= 2 * ProgressSum(projects) < 2 * |projects| * r.value + |projects|
  {
    if projects == [] then None
    else
      var n, sum := |projects|, ProgressSum(projects);
      var q := (2 * sum + n) / (2 * n);
      assert 2 * n * q <= 2 * sum + n < 2 * n * q + 2 * n;
      Some(q)
  }

  /** The rounding bounds admit one value only, so they define the average. */
  lemma AverageIsUnique(sum: int, n: nat, a: int, b: int)
    requires n > 0
    requires 2 * n * a - n <= 2 * sum < 2 * n * a + n
    requires 2 * n * b - n <= 2 * sum < 2 * n * b + n
    ensures a == b
  {
    if a < b {
      MulAtLeast(b - a, 2 * n);
    } else if b < a {
      MulAtLeast(a - b, 2 * n);
    }
  }

  /** The average of percentages is a percentage. */
  lemma AverageInRange(projects: seq<Project>)
    requires projects != [] && ProgressInRange(projects)
    ensures 0 <= AverageProgress(projects).value <= 100
  {
    ProgressSumBounds(projects);
    var n, r := |projects|, AverageProgress(projects).value;
    if r > 100 {
      MulAtLeast(r - 100, 2 * n);
    }
  }

  // ---------------------------------------------------------------------
  // Colours and badges
  // ---------------------------------------------------------------------

  /** getStatusColor (the same map as in src/components/ProjectDetail.jsx). */
  function StatusColor(status: string): (r: string)
    ensures r == "bg-gray-500" <==> status !in {"Done", "In Progress", "Review"}
    ensures status == "Done" <==> r == "bg-green-500"
  {
    match status
    case "Done" => "bg-green-500"
    case "In Progress" => "bg-blue-500"
    case "Review" => "bg-yellow-500"
    case _ => "bg-gray-500"
  }

  /** The status badge class (inline on a card here, getTaskStatusBadge in
      src/components/ProjectDetail.jsx). */
  function StatusBadge(status: string): (r: string)
    ensures r == "status-todo" <==> status !in {"Done", "In Progress", "Review"}
    ensures status == "Done" <==> r == "status-done"
  {
    if status == "Done" then "status-done"
    else if status == "In Progress" then "status-progress"
    else if status == "Review" then "status-review"
    else "status-todo"
  }

  /** getProgressColor. */
  function ProgressColor(progress: int): (r: string)
    ensures r == "bg-green-500" <==> progress >= 80
    ensures r == "bg-blue-500" <==> 50 <= progress < 80
    ensures r == "bg-yellow-500" <==> 30 <= progress < 50
    ensures r == "bg-red-500" <==> progress < 30
  {
    if progress >= 80 then "bg-green-500"
    else if progress >= 50 then "bg-blue-500"
    else if progress >= 30 then "bg-yellow-500"
    else "bg-red-500"
  }

  /** The colours in the order the thresholds rank them. */
  function ColorRank(color: string): nat
  {
    match color
    case "bg-red-500" => 0
    case "bg-yellow-500" => 1
    case "bg-blue-500" => 2
    case _ => 3
  }

  /** More progress never shows a lower-ranked colour. */
  lemma ProgressColorMonotone(a: int, b: int)
    requires a <= b
    ensures ColorRank(ProgressColor(a)) <= ColorRank(ProgressColor(b))
  {
  }

  // ---------------------------------------------------------------------
  // A project card
  // ---------------------------------------------------------------------

  /** The avatars shown: the first three members. */
  function ShownAvatars(members: seq<Member>): (r: seq<Member>)
    ensures |r| == Min(3, |members|) && r <= members
    ensures |members| <= 3 ==> r == members
  {
    Take(members, 3)
  }

  /** The `+n` badge after the avatars, present only beyond three members. */
  function MoreMembersBadge(members: seq<Member>): (r: Option<nat>)
    ensures r.Some? <==> |members| > 3
    ensures r.Some? ==> r.value == |members| - 3 && r.value > 0
  {
    if |members| > 3 then Some(|members| - 3) else None
  }

  /** Every member is either shown or counted by the badge, once. */
  lemma AvatarsAccountForEveryone(members: seq<Member>)
    ensures |ShownAvatars(members)| + (if MoreMembersBadge(members).Some? then MoreMembersBadge(members).value else 0)
         == |members|
  {
  }

  /** The current-task lines shown: the first two. */
  function ShownCurrentTasks(currentTasks: seq<TaskSummary>): (r: seq<TaskSummary>)
    ensures |r| == Min(2, |currentTasks|) && r <= currentTasks
    ensures |currentTasks| <= 2 ==> r == currentTasks
  {
    Take(currentTasks, 2)
  }
}
