/** The outbox that the drains take their tasks from. */
module TaskQueue {
  import opened Wrappers
  import opened AgentLoop

  datatype Status = Pending | InProgress | Dead | Completed

  datatype Row = Row(taskType: string, status: Status, retryCount: nat, nextRetryAt: int)

  /** A claimed task, with the retry count stored when it was claimed. */
  datatype Task = Task(id: nat, retryCount: nat)

  predicate Claimable(row: Row, taskType: string, now: int) {
    row.taskType == taskType && row.status.Pending? && row.nextRetryAt <= now
  }

  function Min(a: int, b: int): int {
    if a <= b then a else b
  }

  function Power2(n: nat): nat {
    if n == 0 then 1 else 2 * Power2(n - 1)
  }

  /** fail_conflict_task's exponential backoff, capped at an hour. */
  function Backoff(retryCount: nat): int {
    Min(Power2(retryCount), 3600)
  }

  predicate NoneLeft(rows: seq<Row>, taskType: string, now: int) {
    forall i :: 0 <= i < |rows| ==> !Claimable(rows[i], taskType, now)
  }

  /** The task is that of an eligible row, with the retry count stored there. */
  predicate Eligible(rows: seq<Row>, taskType: string, now: int, task: Task) {
    task.id < |rows| && Claimable(rows[task.id], taskType, now) && task.retryCount == rows[task.id].retryCount
  }

  /** The rows with one of them claimed. */
  function Held(rows: seq<Row>, id: nat): seq<Row>
    requires id < |rows|
  {
    rows[id := rows[id].(status := InProgress)]
  }

  /** None of the entries is for this queue. */
  predicate Elsewhere(more: seq<Row>, taskType: string) {
    forall i :: 0 <= i < |more| ==> more[i].taskType != taskType
  }

  /** The row of a task after one failed run. */
  function AfterFailure(row: Row, retryCount: nat, maxRetries: int, now: int): Row {
    if retryCount + 1 >= maxRetries then row.(status := Dead)
    else row.(status := Pending, retryCount := retryCount + 1, nextRetryAt := now + Backoff(retryCount + 1))
  }

  /** How a row has moved after some failed runs; a completed or dead one does
      not move. */
  ghost predicate RowMoved(was: Row, now: Row, fails: nat, maxRetries: int) {
    && now.taskType == was.taskType
    && (was.status.Dead? || was.status.Completed? ==> now == was && fails == 0)
    && now.retryCount >= was.retryCount
    && (now.retryCount > was.retryCount ==> now.retryCount < maxRetries)
    && (if now.status.Dead? && !was.status.Dead?
        then fails == now.retryCount - was.retryCount + 1 && now.retryCount + 1 >= maxRetries
        else fails == now.retryCount - was.retryCount)
  }

  /** The row of a claimed task once its report is in. */
  function Settled(row: Row, report: Report, retryCount: nat, maxRetries: int, now: int): Row {
    match report
    case Complete => row.(status := Completed)
    case Fail => AfterFailure(row, retryCount, maxRetries, now)
    case Nothing => row
  }

  /** The wait before a retry: a second, doubling, up to an hour. */
  function Delay(retryCount: nat): int {
    if retryCount == 0 then 1
    else if 2 * Delay(retryCount - 1) <= 3600 then 2 * Delay(retryCount - 1)
    else 3600
  }

  lemma {:induction false} BackoffDoubles(retryCount: nat)
    ensures Backoff(retryCount) == Delay(retryCount)
  {
    if retryCount > 0 {
      BackoffDoubles(retryCount - 1);
    }
  }

  /** How a row stands once this report on it is in. */
  ghost predicate StandsAfter(row: Row, report: Report, now: int) {
    match report
    case Complete => row.status.Completed?
    case Nothing => row.status.InProgress?
    case Fail => row.status.Dead? || (row.status.Pending? && row.nextRetryAt == now + Delay(row.retryCount))
  }

  lemma SettledStands(row: Row, report: Report, retryCount: nat, maxRetries: int, now: int)
    requires row.status.InProgress?
    ensures var next := Settled(row, report, retryCount, maxRetries, now);
      && StandsAfter(next, report, now)
      && (report.Fail? ==> (next.status.Dead? <==> retryCount + 1 >= maxRetries))
      && (report.Fail? && !next.status.Dead? ==> next.retryCount == retryCount + 1)
      && (!report.Fail? ==> next.retryCount == row.retryCount)
  {
    BackoffDoubles(retryCount + 1);
  }

  class Outbox {
    var rows: seq<Row>

    constructor (rows: seq<Row>)
      ensures this.rows == rows
    {
      this.rows := rows;
    }

    /** Atomic claim of the first eligible task, if any. */
    method Dequeue(taskType: string, now: int) returns (task: Option<Task>)
      modifies this
      ensures task.None? ==> rows == old(rows) && NoneLeft(rows, taskType, now)
      ensures task.Some? ==>
        Eligible(old(rows), taskType, now, task.value) && rows == Held(old(rows), task.value.id)
      ensures task.None? <==> forall i :: 0 <= i < |old(rows)| ==>
        old(rows)[i].taskType != taskType || !old(rows)[i].status.Pending? || now < old(rows)[i].nextRetryAt
    {
      for i := 0 to |rows|
        invariant rows == old(rows)
        invariant forall j :: 0 <= j < i ==> !Claimable(rows[j], taskType, now)
      {
        if Claimable(rows[i], taskType, now) {
          task := Some(Task(i, rows[i].retryCount));
          rows := rows[i := rows[i].(status := InProgress)];
          return;
        }
      }
      task := None;
    }

    method Enqueue(more: seq<Row>)
      modifies this
      ensures rows == old(rows) + more
    {
      rows := rows + more;
    }

    method Settle(id: nat, row: Row)
      requires id < |rows|
      modifies this
      ensures rows == old(rows)[id := row]
    {
      rows := rows[id := row];
    }
  }
}
