/** The manager routes' team aggregation: per-member task counts and performance
    score, team selection, department statistics, the two endpoints that build
    them, and the cookie token rule of `get_current_user`. */
module TeamPerformance {
  import opened Wrappers
  import opened ErrorHandlers

  /** A task row as the aggregation reads it; dates are compared only with `<=`. */
  datatype Task = Task(assignedTo: int, status: string, dueDate: int, completedDate: int)

  /** An employee row as the aggregation reads it; the department column is nullable. */
  datatype Employee = Employee(
    employeeId: int, firstName: string, lastName: string,
    email: string, position: string, department: Option<int>)

  predicate IsCompleted(t: Task)
  {
    t.status == "completed"
  }

  predicate IsOnTime(t: Task)
  {
    t.status == "completed" && t.completedDate <= t.dueDate
  }

  /** `len([t for t in tasks if p(t)])`. */
  function Count(tasks: seq<Task>, p: Task -> bool): (n: nat)
    ensures n <= |tasks|
  {
    if tasks == [] then 0
    else (if p(tasks[0]) then 1 else 0) + Count(tasks[1..], p)
  }

  lemma {:induction false} CountAppend(a: seq<Task>, b: seq<Task>, p: Task -> bool)
    ensures Count(a + b, p) == Count(a, p) + Count(b, p)
  {
    if a == [] {
      assert a + b == b;
    } else {
      assert (a + b)[1..] == a[1..] + b;
      CountAppend(a[1..], b, p);
    }
  }

  /** A filter that refines another counts no more. */
  lemma {:induction false} CountMonotone(tasks: seq<Task>, p: Task -> bool, q: Task -> bool)
    requires forall t :: p(t) ==> q(t)
    ensures Count(tasks, p) <= Count(tasks, q)
  {
    if tasks != [] {
      CountMonotone(tasks[1..], p, q);
    }
  }

  /** Counts depend on the multiset of tasks only, not on their order. */
  lemma {:induction false} CountPermutation(a: seq<Task>, b: seq<Task>, p: Task -> bool)
    requires multiset(a) == multiset(b)
    ensures Count(a, p) == Count(b, p)
    decreases |a|
  {
    if a == [] {
      assert |b| == |multiset(b)| == 0;
    } else {
      var x := a[0];
      assert x in multiset(b);
      var j :| 0 <= j < |b| && b[j] == x;
      var rest := b[..j] + b[j + 1..];
      assert b == b[..j] + [x] + b[j + 1..];
      assert a == [x] + a[1..];
      assert multiset(b) == multiset(b[..j]) + multiset{x} + multiset(b[j + 1..]);
      assert multiset(a) == multiset{x} + multiset(a[1..]);
      assert multiset(rest) == multiset(b[..j]) + multiset(b[j + 1..]);
      assert multiset(a[1..]) == multiset(a) - multiset{x};
      assert multiset(rest) == multiset(b) - multiset{x};
      CountPermutation(a[1..], rest, p);
      CountAppend(b[..j] + [x], b[j + 1..], p);
      CountAppend(b[..j], [x], p);
      CountAppend(b[..j], b[j + 1..], p);
      assert [x][1..] == [];
    }
  }

  /** `0 <= a / b <= 1` for `a <= b`, and the quotient is 1 only when `a == b`. */
  lemma RateBounds(a: nat, b: nat)
    requires 0 < b
    ensures 0.0 <= (a as real) / (b as real)
    ensures a <= b ==> (a as real) / (b as real) <= 1.0
    ensures (a as real) / (b as real) == 1.0 <==> a == b
  {
    var q := (a as real) / (b as real);
    assert q * (b as real) == a as real;
  }

  /** The performance figure of a member with `total` tasks, `completed` of them
      completed and `onTime` of those completed by their due date. */
  function PerformanceScore(total: nat, completed: nat, onTime: nat): (score: real)
    ensures total == 0 || completed == 0 ==> score == 0.0
    ensures total > 0 && completed > 0 ==>
      score == 70.0 * (completed as real) / (total as real) + 30.0 * (onTime as real) / (completed as real)
    ensures onTime <= completed <= total ==> 0.0 <= score <= 100.0
    ensures onTime <= completed <= total ==>
      (score == 100.0 <==> 0 < total && completed == total && onTime == completed)
  {
    if total > 0 then
      RateBounds(completed, total);
      var completionRate := (completed as real / total as real) * 100.0;
      var onTimeRate := if completed > 0 then RateBounds(onTime, completed); (onTime as real / completed as real) * 100.0 else 0.0;
      completionRate * 0.7 + onTimeRate * 0.3
    else
      0.0
  }

  /** One member's counts and score. */
  datatype TaskStats = TaskStats(total: nat, completed: nat, onTime: nat, score: real)

  /** The figures the aggregation promises of every member. */
  predicate WellFormed(s: TaskStats)
  {
    s.onTime <= s.completed <= s.total && 0.0 <= s.score <= 100.0
  }

  /** The per-member block shared by both team endpoints. */
  function MemberStats(tasks: seq<Task>): (r: TaskStats)
    ensures r.total == |tasks| && WellFormed(r)
    ensures r.completed == Count(tasks, IsCompleted) && r.onTime == Count(tasks, IsOnTime)
    ensures r.score == PerformanceScore(r.total, r.completed, r.onTime)
    ensures tasks == [] ==> r == TaskStats(0, 0, 0, 0.0)
  {
    var completed := Count(tasks, IsCompleted);
    var onTime := Count(tasks, IsOnTime);
    CountMonotone(tasks, IsOnTime, IsCompleted);
    TaskStats(|tasks|, completed, onTime, PerformanceScore(|tasks|, completed, onTime))
  }

  /** Reordering a member's tasks changes neither counts nor score. */
  lemma TaskOrderIrrelevant(a: seq<Task>, b: seq<Task>)
    requires multiset(a) == multiset(b)
    ensures MemberStats(a) == MemberStats(b)
  {
    assert |a| == |multiset(a)| == |multiset(b)| == |b|;
    CountPermutation(a, b, IsCompleted);
    CountPermutation(a, b, IsOnTime);
  }

  /** One task on time, one late and one pending score 70 * 2/3 + 30 * 1/2. */
  lemma ThreeTaskExample()
    ensures MemberStats([Task(1, "completed", 5, 3), Task(1, "completed", 5, 7), Task(1, "pending", 5, 0)])
         == TaskStats(3, 2, 1, 185.0 / 3.0)
  {
    var tasks := [Task(1, "completed", 5, 3), Task(1, "completed", 5, 7), Task(1, "pending", 5, 0)];
    assert tasks[1..][1..][1..] == [];
    assert Count(tasks, IsCompleted) == 2;
    assert Count(tasks, IsOnTime) == 1;
  }

  /** The tasks query of a member: the tasks assigned to `employeeId`, in table order. */
  function TasksAssignedTo(tasks: seq<Task>, employeeId: int): (r: seq<Task>)
    ensures |r| <= |tasks|
    ensures forall t :: t in r <==> t in tasks && t.assignedTo == employeeId
    ensures forall t :: multiset(r)[t] == if t.assignedTo == employeeId then multiset(tasks)[t] else 0
  {
    if tasks == [] then []
    else
      assert tasks == [tasks[0]] + tasks[1..];
      (if tasks[0].assignedTo == employeeId then [tasks[0]] else []) + TasksAssignedTo(tasks[1..], employeeId)
  }

  /** The team filter: the manager's department, the manager excluded. */
  predicate OnTeamOf(e: Employee, manager: Employee)
  {
    e.department == manager.department && e.employeeId != manager.employeeId
  }

  /** The team query: employees of the manager's department other than the manager,
      in table order. Comparing the optional departments with `==` is what the ORM's
      SQL does: a NULL department matches exactly the NULL departments (`IS NULL`). */
  function TeamMembers(employees: seq<Employee>, manager: Employee): (team: seq<Employee>)
    ensures |team| <= |employees|
    ensures forall e :: e in team <==> e in employees && OnTeamOf(e, manager)
    ensures forall e :: multiset(team)[e] == if OnTeamOf(e, manager) then multiset(employees)[e] else 0
  {
    if employees == [] then []
    else
      assert employees == [employees[0]] + employees[1..];
      var e := employees[0];
      (if OnTeamOf(e, manager) then [e] else [])
        + TeamMembers(employees[1..], manager)
  }

  /** A manager without a department gets the other employees without one. */
  lemma NullDepartmentTeam()
    ensures var a := Employee(1, "A", "A", "a@x.y", "Manager", None);
      var b := Employee(2, "B", "B", "b@x.y", "Analyst", None);
      var c := Employee(3, "C", "C", "c@x.y", "Analyst", Some(7));
      TeamMembers([a, b, c], a) == [b]
  {
    var a := Employee(1, "A", "A", "a@x.y", "Manager", None);
    var b := Employee(2, "B", "B", "b@x.y", "Analyst", None);
    var c := Employee(3, "C", "C", "c@x.y", "Analyst", Some(7));
    assert [a, b, c][1..] == [b, c];
    assert [b, c][1..] == [c];
    assert TeamMembers([c], a) == [] by {
      assert [c][1..] == [];
    }
    assert TeamMembers([b, c], a) == [b];
  }

  /** The manager is never part of the team. */
  lemma ManagerExcluded(employees: seq<Employee>, manager: Employee)
    ensures manager !in TeamMembers(employees, manager)
  {
  }

  /** One `team_data` entry of the team overview page. */
  datatype OverviewEntry = OverviewEntry(
    employeeId: int, name: string, position: string, email: string, stats: TaskStats)

  /** One `team_performance` entry of the performance-data endpoint. */
  datatype PerformanceEntry = PerformanceEntry(employeeId: int, name: string, stats: TaskStats)

  function FullName(e: Employee): string
  {
    e.firstName + " " + e.lastName
  }

  function OverviewEntryOf(member: Employee, tasks: seq<Task>): OverviewEntry
  {
    OverviewEntry(member.employeeId, FullName(member), member.position, member.email,
                  MemberStats(TasksAssignedTo(tasks, member.employeeId)))
  }

  function PerformanceEntryOf(member: Employee, tasks: seq<Task>): PerformanceEntry
  {
    PerformanceEntry(member.employeeId, FullName(member), MemberStats(TasksAssignedTo(tasks, member.employeeId)))
  }

  /** Component-wise sums of counts and scores. */
  function SumStats(s: seq<OverviewEntry>): TaskStats
  {
    if s == [] then TaskStats(0, 0, 0, 0.0)
    else
      var head := s[0].stats;
      var rest := SumStats(s[1..]);
      TaskStats(head.total + rest.total, head.completed + rest.completed,
                head.onTime + rest.onTime, head.score + rest.score)
  }

  /** Summed counts keep `on_time <= completed <= total`, and the summed score lies
      between 0 and 100 per member. */
  lemma {:induction false} SumStatsBounds(s: seq<OverviewEntry>)
    ensures (forall i :: 0 <= i < |s| ==> WellFormed(s[i].stats)) ==>
      var sum := SumStats(s);
      sum.onTime <= sum.completed <= sum.total && 0.0 <= sum.score <= 100.0 * (|s| as real)
  {
    if s != [] && forall i :: 0 <= i < |s| ==> WellFormed(s[i].stats) {
      assert forall i :: 0 <= i < |s[1..]| ==> s[1..][i] == s[i + 1];
      SumStatsBounds(s[1..]);
      assert WellFormed(s[0].stats);
    }
  }

  /** A mean of values in `[0, 100]` lies in `[0, 100]`. */
  lemma MeanBound(sum: real, n: real)
    requires n > 0.0
    ensures (sum / n) * n == sum
    ensures 0.0 <= sum ==> 0.0 <= sum / n
    ensures sum <= 100.0 * n ==> sum / n <= 100.0
  {
  }

  /** The summed score of members who all score `x` is `|s| * x`. */
  lemma {:induction false} SumOfUniformScores(s: seq<OverviewEntry>, x: real)
    requires forall i :: 0 <= i < |s| ==> s[i].stats.score == x
    ensures SumStats(s).score == (|s| as real) * x
  {
    if s != [] {
      SumOfUniformScores(s[1..], x);
      assert s[0].stats.score == x;
    }
  }

  /** `department_stats` of the team overview. */
  datatype DepartmentStats = DepartmentStats(
    totalMembers: nat, averagePerformance: real, totalTasks: nat, completedTasks: nat, onTimeTasks: nat)

  /** Member count from the team, mean score (0 for no entries) and task sums from
      the entries. */
  function ComputeDepartmentStats(team: seq<Employee>, teamData: seq<OverviewEntry>): (r: DepartmentStats)
    ensures r.totalMembers == |team|
    ensures teamData == [] ==> r == DepartmentStats(|team|, 0.0, 0, 0, 0)
    ensures teamData != [] ==> r.averagePerformance * (|teamData| as real) == SumStats(teamData).score
    ensures r.totalTasks == SumStats(teamData).total && r.completedTasks == SumStats(teamData).completed
         && r.onTimeTasks == SumStats(teamData).onTime
    ensures (forall i :: 0 <= i < |teamData| ==> WellFormed(teamData[i].stats)) ==>
      0.0 <= r.averagePerformance <= 100.0 && r.onTimeTasks <= r.completedTasks <= r.totalTasks
  {
    var sum := SumStats(teamData);
    var n := |teamData| as real;
    SumStatsBounds(teamData);
    var average := if teamData != [] then MeanBound(sum.score, n); sum.score / n else 0.0;
    DepartmentStats(|team|, average, sum.total, sum.completed, sum.onTime)
  }

  /** When every member has the same score, that is the average. */
  lemma UniformAverage(team: seq<Employee>, teamData: seq<OverviewEntry>, x: real)
    requires teamData != []
    requires forall i :: 0 <= i < |teamData| ==> teamData[i].stats.score == x
    ensures ComputeDepartmentStats(team, teamData).averagePerformance == x
  {
    SumOfUniformScores(teamData, x);
  }

  /** The `for member in team_members` loop of the team overview. */
  method BuildTeamData(members: seq<Employee>, tasks: seq<Task>) returns (teamData: seq<OverviewEntry>)
    ensures |teamData| == |members|
    ensures forall i :: 0 <= i < |members| ==> teamData[i] == OverviewEntryOf(members[i], tasks)
  {
    teamData := [];
    for i := 0 to |members|
      invariant |teamData| == i
      invariant forall j :: 0 <= j < i ==> teamData[j] == OverviewEntryOf(members[j], tasks)
    {
      var member := members[i];
      var stats := MemberStats(TasksAssignedTo(tasks, member.employeeId));
      teamData := teamData + [OverviewEntry(member.employeeId, FullName(member), member.position, member.email, stats)];
    }
  }

  /** The `for member in team_members` loop of the performance-data endpoint. */
  method BuildTeamPerformance(members: seq<Employee>, tasks: seq<Task>) returns (performance: seq<PerformanceEntry>)
    ensures |performance| == |members|
    ensures forall i :: 0 <= i < |members| ==> performance[i] == PerformanceEntryOf(members[i], tasks)
  {
    performance := [];
    for i := 0 to |members|
      invariant |performance| == i
      invariant forall j :: 0 <= j < i ==> performance[j] == PerformanceEntryOf(members[j], tasks)
    {
      var member := members[i];
      var stats := MemberStats(TasksAssignedTo(tasks, member.employeeId));
      performance := performance + [PerformanceEntry(member.employeeId, FullName(member), stats)];
    }
  }

  /** What the team overview answers. */
  datatype OverviewResponse =
    | Redirect(location: string, status: nat)
    | OverviewError(error: HttpError)
    | OverviewPage(teamMembers: seq<OverviewEntry>, departmentStats: DepartmentStats, departmentName: Option<int>)

  /** `team_overview`. `user` is what `get_current_user` returned (the token's subject);
      `manager` is the employee row found for that user. */
  method TeamOverview(user: Option<string>, manager: Option<Employee>, employees: seq<Employee>, tasks: seq<Task>)
    returns (r: OverviewResponse)
    ensures user.None? ==> r == Redirect("/", 303)
    ensures user.Some? && manager.None? ==> r == OverviewError(HttpError(404, "Manager not found"))
    ensures user.Some? && manager.Some? ==>
      var team := TeamMembers(employees, manager.value);
      && r.OverviewPage?
      && |r.teamMembers| == |team| == r.departmentStats.totalMembers
      && (forall i :: 0 <= i < |team| ==>
            r.teamMembers[i] == OverviewEntryOf(team[i], tasks)
            && r.teamMembers[i].stats == MemberStats(TasksAssignedTo(tasks, team[i].employeeId)))
      && r.departmentStats == ComputeDepartmentStats(team, r.teamMembers)
      && 0.0 <= r.departmentStats.averagePerformance <= 100.0
      && r.departmentName == manager.value.department
  {
    if user.None? {
      return Redirect("/", 303);
    }
    if manager.None? {
      return OverviewError(HttpError(404, "Manager not found"));
    }
    var team := TeamMembers(employees, manager.value);
    var teamData := BuildTeamData(team, tasks);
    var stats := ComputeDepartmentStats(team, teamData);
    r := OverviewPage(teamData, stats, manager.value.department);
  }

  /** What the performance-data endpoint answers. */
  datatype PerformanceResponse =
    | PerformanceError(error: HttpError)
    | PerformanceData(teamPerformance: seq<PerformanceEntry>, timestamp: string)

  /** `get_team_performance_data`; `now` is the server clock's reading. */
  method TeamPerformanceData(user: Option<string>, manager: Option<Employee>, employees: seq<Employee>,
                             tasks: seq<Task>, now: string)
    returns (r: PerformanceResponse)
    ensures user.None? ==> r == PerformanceError(HttpError(401, "Not authenticated"))
    ensures user.Some? && manager.None? ==> r == PerformanceError(HttpError(404, "Manager not found"))
    ensures user.Some? && manager.Some? ==>
      var team := TeamMembers(employees, manager.value);
      && r.PerformanceData? && r.timestamp == now
      && |r.teamPerformance| == |team|
      && forall i :: 0 <= i < |team| ==>
           r.teamPerformance[i] == PerformanceEntryOf(team[i], tasks)
           && r.teamPerformance[i].stats == MemberStats(TasksAssignedTo(tasks, team[i].employeeId))
  {
    if user.None? {
      return PerformanceError(HttpError(401, "Not authenticated"));
    }
    if manager.None? {
      return PerformanceError(HttpError(404, "Manager not found"));
    }
    var team := TeamMembers(employees, manager.value);
    var performance := BuildTeamPerformance(team, tasks);
    r := PerformanceData(performance, now);
  }

  /** The scheme prefix a cookie token may carry. */
  const BearerPrefix: string := "Bearer "

  predicate HasBearerPrefix(s: string)
  {
    |s| >= |BearerPrefix| && s[..|BearerPrefix|] == BearerPrefix
  }

  /** The token `get_current_user` hands to verification: none for a missing or empty
      cookie, the cookie without its `"Bearer "` prefix, or the cookie unchanged. */
  function TokenFromCookie(cookie: Option<string>): (token: Option<string>)
    ensures token.Some? <==> cookie.Some? && cookie.value != ""
    ensures token.Some? && HasBearerPrefix(cookie.value) ==>
      cookie.value == BearerPrefix + token.value && |token.value| == |cookie.value| - 7
    ensures token.Some? && !HasBearerPrefix(cookie.value) ==> token.value == cookie.value
  {
    match cookie
    case None => None
    case Some(s) =>
      if s == "" then None
      else if HasBearerPrefix(s) then
        assert s == s[..7] + s[7..];
        Some(s[7..])
      else Some(s)
  }

  /** Putting the prefix in front of any token and reading the cookie back gives the token. */
  lemma BearerRoundTrip(t: string)
    ensures TokenFromCookie(Some(BearerPrefix + t)) == Some(t)
  {
    assert (BearerPrefix + t)[..7] == BearerPrefix;
  }
}
