/** The jobs row of PostgreSQL and the statements that change it
    (app/storage/postgres/client.py). */
module JobRow {
  import opened Common

  datatype Status = Pending | Running | NeedsReview | Paused | Completed | Failed {

    /** The statuses a settlement may still turn into an outcome. */
    predicate Active() {
      Pending? || Running? || NeedsReview?
    }
  }

  /** pageStored says whether crawl_log holds a row with status 'completed'. */
  datatype Row = Row(status: Status, resumeStatus: Option<Status>, activeTasks: int, pageStored: bool)

  const FRESH_ROW := Row(Pending, None, 0, false)

  function RegisterTasks(row: Row, count: int): Row {
    if count <= 0 then row else row.(activeTasks := row.activeTasks + count)
  }

  function Decremented(n: int): int {
    Max(n - 1, 0)
  }

  /** The two UPDATE statements of complete_job_task. */
  function CompleteTask(row: Row, failed: bool): Row {
    if failed then
      if row.status.Completed? || row.status.Paused? then row
      else row.(status := Failed, activeTasks := Decremented(row.activeTasks))
    else
      row.(activeTasks := Decremented(row.activeTasks),
           status := if row.activeTasks <= 1 && row.status.Active()
                     then (if row.pageStored then Completed else Failed)
                     else row.status)
  }

  /** update_job_status: terminal statuses are guarded differently from active ones. */
  function UpdateStatus(row: Row, status: Status): Row {
    match status
    case Completed => row.(status := Completed)
    case Failed => if row.status.Completed? then row else row.(status := Failed)
    case NeedsReview => if row.status.Completed? then row else row.(status := NeedsReview)
    case _ => if row.status.Active() then row.(status := status) else row
  }

  function Pause(row: Row): Row {
    if row.status.Active() then row.(status := Paused, resumeStatus := Some(row.status)) else row
  }

  function Resume(row: Row): Row {
    if !row.status.Paused? then row
    else row.(status := match row.resumeStatus
                        case Some(s) => if s.Active() then s else Running
                        case None => Running,
              resumeStatus := None)
  }

  /** Pausing and resuming an active row gives it back without its old resume_status. A finished
      row is left alone and a row that is already paused is resumed where it was to go. */
  lemma PauseThenResume(row: Row)
    ensures Resume(Pause(row)) ==
              if row.status.Active() then row.(resumeStatus := None)
              else if row.status.Paused? then Resume(row)
              else row
    ensures !row.status.Paused? ==> Resume(Pause(row)).status == row.status
  {
  }

  /** Which writes of update_job_status leave a finished job finished as it was: all but
      completed and needs_review over failed. */
  lemma TerminalKeptExactly(row: Row, status: Status)
    requires row.status.Completed? || row.status.Failed?
    ensures UpdateStatus(row, status).status == row.status
            <==> row.status.Completed? || !(status.Completed? || status.NeedsReview?)
  {
  }

  /** pg_client: the object through which every process reads and writes the row. */
  class JobTable {
    var row: Row

    constructor ()
      ensures row == FRESH_ROW
    {
      row := FRESH_ROW;
    }

    method RegisterJobTasks(taskCount: int)
      modifies this
      ensures row == RegisterTasks(old(row), taskCount)
      ensures row == old(row).(activeTasks := old(row).activeTasks + Max(taskCount, 0))
    {
      if taskCount <= 0 { return; }
      row := row.(activeTasks := row.activeTasks + taskCount);
    }

    method CompleteJobTask(failed: bool) returns (finalStatus: Option<Status>)
      modifies this
      ensures row == CompleteTask(old(row), failed)
      ensures finalStatus == if failed && (old(row).status.Completed? || old(row).status.Paused?)
                             then None else Some(row.status)
      ensures row.resumeStatus == old(row.resumeStatus) && row.pageStored == old(row.pageStored)
      ensures failed && old(row.status) in {Completed, Paused} ==> row == old(row)
      ensures failed && old(row.status) !in {Completed, Paused} ==> row.status == Failed
      ensures !failed && old(row.activeTasks) <= 1 && old(row.status) in {Pending, Running, NeedsReview} ==>
                row.status == if row.pageStored then Completed else Failed
      ensures !failed && (old(row.activeTasks) > 1 || old(row.status) !in {Pending, Running, NeedsReview}) ==>
                row.status == old(row.status)
      ensures !(failed && old(row.status) in {Completed, Paused}) ==>
                row.activeTasks == if old(row.activeTasks) >= 1 then old(row.activeTasks) - 1 else 0
    {
      if failed {
        if row.status.Completed? || row.status.Paused? {
          return None;
        }
        row := row.(status := Failed, activeTasks := Decremented(row.activeTasks));
      } else {
        var last := row.activeTasks <= 1 && row.status.Active();
        row := row.(activeTasks := Decremented(row.activeTasks));
        if last {
          row := row.(status := if row.pageStored then Completed else Failed);
        }
      }
      return Some(row.status);
    }

    method FailJob()
      modifies this
      ensures row == UpdateStatus(old(row), Failed)
      ensures row == if old(row.status) == Completed then old(row) else old(row).(status := Failed)
    {
      if !row.status.Completed? {
        row := row.(status := Failed);
      }
    }

    method MarkRunning()
      modifies this
      ensures row == UpdateStatus(old(row), Running)
      ensures row == if old(row.status) in {Pending, Running, NeedsReview} then old(row).(status := Running)
                     else old(row)
    {
      if row.status.Active() {
        row := row.(status := Running);
      }
    }
  }
}
