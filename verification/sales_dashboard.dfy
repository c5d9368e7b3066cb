/**
 * The sales dashboard endpoint: after the authentication and department
 * checks it pairs each of the user's sourcing requests with a task, tallies
 * the requests by effective status, and lists up to five recently completed
 * requests. The database queries are parameters: each one either delivers
 * its rows or fails with a message.
 */
module SalesDashboard {
  import opened Js
  import opened Optional
  import opened SourcingStatus

  datatype Request = Request(id: int, status: string)
  datatype Task = Task(id: int, requestId: int, status: string)

  // ---------------------------------------------------------------------------
  // Pairing requests with tasks

  /** Reference definition: the index of the last task of request `id`, or
      -1 when it has none. */
  function LastTaskIndex(tasks: seq<Task>, id: int): (r: int)
    ensures -1 <= r < |tasks|
    ensures r >= 0 ==> tasks[r].requestId == id
    ensures forall j :: r < j < |tasks| ==> tasks[j].requestId != id
  {
    if |tasks| == 0 then -1
    else if tasks[|tasks| - 1].requestId == id then |tasks| - 1
    else LastTaskIndex(tasks[..|tasks| - 1], id)
  }

  /** `tasks.forEach(task => tasksMap.set(task.sourcing_request_id, task))`:
      a request id maps to a task exactly when some task names it, and then
      to the last such task. */
  function TasksMap(tasks: seq<Task>): (m: map<int, Task>)
    ensures forall id :: id in m <==> LastTaskIndex(tasks, id) >= 0
    ensures forall id :: id in m ==> m[id] == tasks[LastTaskIndex(tasks, id)]
  {
    if |tasks| == 0 then map[]
    else
      var prefix := tasks[..|tasks| - 1];
      var last := tasks[|tasks| - 1];
      var m := TasksMap(prefix)[last.requestId := last];
      assert forall id :: id != last.requestId ==> LastTaskIndex(tasks, id) == LastTaskIndex(prefix, id);
      assert forall id :: id != last.requestId && LastTaskIndex(prefix, id) >= 0 ==>
        tasks[LastTaskIndex(prefix, id)] == prefix[LastTaskIndex(prefix, id)];
      m
  }

  /** The task a request is shown with: `tasksMap.get(req.id)`, if any. */
  function TaskOf(m: map<int, Task>, r: Request): Option<Task> {
    if r.id in m then Some(m[r.id]) else None
  }

  /** The status the request is counted under. */
  function CountedStatus(m: map<int, Task>, r: Request): string {
    var t := TaskOf(m, r);
    EffectiveStatus(if t.Some? then Some(t.value.status) else None, r.status)
  }

  // ---------------------------------------------------------------------------
  // Tally

  datatype Bucket = Pending | InProgress | Completed | Uncounted

  /** 'pending', 'unassigned' and 'assigned' all count as pending; any
      status other than these and 'in_progress' and 'completed' counts
      nowhere. */
  function BucketOf(status: string): Bucket {
    if status == "pending" || status == "unassigned" || status == "assigned" then Pending
    else if status == "in_progress" then InProgress
    else if status == "completed" then Completed
    else Uncounted
  }

  /** Reference definition: the number of requests counted in `b`. */
  function Count(m: map<int, Task>, requests: seq<Request>, b: Bucket): nat {
    if |requests| == 0 then 0
    else Count(m, requests[..|requests| - 1], b) + (if BucketOf(CountedStatus(m, requests[|requests| - 1])) == b then 1 else 0)
  }

  /** Every request falls in exactly one bucket. */
  lemma {:induction false} BucketsPartition(m: map<int, Task>, requests: seq<Request>)
    ensures Count(m, requests, Pending) + Count(m, requests, InProgress) + Count(m, requests, Completed)
          + Count(m, requests, Uncounted) == |requests|
  {
    if |requests| > 0 {
      BucketsPartition(m, requests[..|requests| - 1]);
    }
  }

  datatype Stats = Stats(pending: nat, inProgress: nat, completed: nat, total: nat)

  /** The `requestsWithTasks.forEach` tally. */
  method Tally(m: map<int, Task>, requests: seq<Request>) returns (stats: Stats)
    ensures stats.pending == Count(m, requests, Pending)
    ensures stats.inProgress == Count(m, requests, InProgress)
    ensures stats.completed == Count(m, requests, Completed)
    ensures stats.total == |requests|
    ensures stats.pending + stats.inProgress + stats.completed <= stats.total
  {
    stats := Stats(0, 0, 0, |requests|);
    var i := 0;
    while i < |requests|
      invariant i <= |requests| && stats.total == |requests|
      invariant stats.pending == Count(m, requests[..i], Pending)
      invariant stats.inProgress == Count(m, requests[..i], InProgress)
      invariant stats.completed == Count(m, requests[..i], Completed)
    {
      assert requests[..i + 1][..i] == requests[..i];
      var b := BucketOf(CountedStatus(m, requests[i]));
      if b == Pending {
        stats := stats.(pending := stats.pending + 1);
      } else if b == InProgress {
        stats := stats.(inProgress := stats.inProgress + 1);
      } else if b == Completed {
        stats := stats.(completed := stats.completed + 1);
      }
      i := i + 1;
    }
    assert requests[..i] == requests;
    BucketsPartition(m, requests);
  }

  // ---------------------------------------------------------------------------
  // Recently completed requests

  /** A row of the recent-completed query, newest first as the database
      orders it, with the tasks the join returns. A null task field is "". */
  datatype TaskSummary = TaskSummary(status: string, completedAt: string)
  datatype RecentRow = RecentRow(id: int, status: string, updatedAt: string, tasks: seq<TaskSummary>)

  /** An entry of `recentCompleted`: the row and its `completed_at`. */
  datatype Recent = Recent(row: RecentRow, completedAt: string)

  const RecentLimit: nat := 5

  /** `req.sourcing_tasks?.[0]?.status === 'completed'` */
  predicate FirstTaskCompleted(row: RecentRow) {
    |row.tasks| > 0 && row.tasks[0].status == "completed"
  }

  /** `req.sourcing_tasks?.[0]?.completed_at || req.updated_at` */
  function CompletedAt(row: RecentRow): string
    requires FirstTaskCompleted(row)
  {
    OrElse(row.tasks[0].completedAt, row.updatedAt)
  }

  /** `filter(...).slice(0, 5).map(...)`: the first five rows whose first
      task is completed, in the order the query returned them, each dated
      by the task's completion, else by the request's last update. */
  function RecentCompleted(rows: seq<RecentRow>): (r: seq<Recent>)
    ensures |r| <= RecentLimit
    ensures |r| == Min(RecentLimit, |Filter(rows, FirstTaskCompleted)|)
    ensures forall k :: 0 <= k < |r| ==> r[k].row == Filter(rows, FirstTaskCompleted)[k]
    ensures forall k :: 0 <= k < |r| ==> FirstTaskCompleted(r[k].row) && r[k].row in rows
    ensures forall k :: 0 <= k < |r| ==>
      (r[k].row.tasks[0].completedAt != "" ==> r[k].completedAt == r[k].row.tasks[0].completedAt)
      && (r[k].row.tasks[0].completedAt == "" ==> r[k].completedAt == r[k].row.updatedAt)
  {
    var done := Filter(rows, FirstTaskCompleted);
    var top := Slice(done, 0, RecentLimit);
    assert forall k :: 0 <= k < |top| ==> top[k] in rows by {
      forall k | 0 <= k < |top|
        ensures top[k] in rows
      {
        FilterMembers(rows, FirstTaskCompleted, top[k]);
      }
    }
    seq(|top|, k requires 0 <= k < |top| => Recent(top[k], CompletedAt(top[k])))
  }

  /** With at most five completed rows, every one of them is listed. */
  lemma {:induction false} FewCompletedAllListed(rows: seq<RecentRow>, row: RecentRow)
    requires |Filter(rows, FirstTaskCompleted)| <= RecentLimit
    requires row in rows && FirstTaskCompleted(row)
    ensures exists k :: 0 <= k < |RecentCompleted(rows)| && RecentCompleted(rows)[k].row == row
  {
    FilterMembers(rows, FirstTaskCompleted, row);
    var done := Filter(rows, FirstTaskCompleted);
    var k :| 0 <= k < |done| && done[k] == row;
    assert RecentCompleted(rows)[k].row == row;
  }

  // ---------------------------------------------------------------------------
  // The handler

  /** One database query: its rows, or the error it failed with. */
  datatype Query<T> = Rows(rows: T) | Failed(message: string)

  /** The response: the statistics and the recent list, or an error status
      with its message. */
  datatype Reply =
    | Dashboard(stats: Stats, recent: seq<Recent>)
    | Error(code: nat, message: string)

  /** `GET /api/dashboard/sales`. `signedIn` is false when the auth call
      fails or finds no user; `department` is `None` when the user row
      cannot be read. The tally runs before the recent query's error is
      looked at, so a failed recent query still answers 500. */
  method Get(signedIn: bool, department: Option<string>, requests: Query<seq<Request>>,
             tasks: Query<seq<Task>>, recent: Query<seq<RecentRow>>) returns (reply: Reply)
    ensures !signedIn <==> reply == Error(401, "Not authenticated")
    ensures signedIn && (department.None? || department.value != "sales") <==> reply == Error(403, "Unauthorized")
    ensures reply.Error? && reply.code == 500 <==>
      signedIn && department == Some("sales") && (requests.Failed? || tasks.Failed? || recent.Failed?)
    ensures reply.Dashboard? ==>
      && requests.Rows? && tasks.Rows? && recent.Rows?
      && reply.stats.total == |requests.rows|
      && reply.stats.pending == Count(TasksMap(tasks.rows), requests.rows, Pending)
      && reply.stats.inProgress == Count(TasksMap(tasks.rows), requests.rows, InProgress)
      && reply.stats.completed == Count(TasksMap(tasks.rows), requests.rows, Completed)
      && reply.stats.pending + reply.stats.inProgress + reply.stats.completed <= reply.stats.total
      && reply.recent == RecentCompleted(recent.rows)
  {
    if !signedIn {
      return Error(401, "Not authenticated");
    }
    if department.None? || department.value != "sales" {
      return Error(403, "Unauthorized");
    }
    if requests.Failed? {
      return Error(500, requests.message);
    }
    if tasks.Failed? {
      return Error(500, tasks.message);
    }
    var m := TasksMap(tasks.rows);
    var stats := Tally(m, requests.rows);
    if recent.Failed? {
      return Error(500, recent.message);
    }
    reply := Dashboard(stats, RecentCompleted(recent.rows));
  }
}
