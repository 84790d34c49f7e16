/**
 * Task bookkeeping of lilac/tasks.py: the TaskManager's map from task id to
 * TaskInfo, the status changes PENDING -> COMPLETED / ERROR, the manifest's
 * progress average, and the progress reporter that wraps an iterator.
 *
 * Task ids (uuid4 in the source), timestamps (`datetime.now()`) and the
 * elapsed-time text of the completion message are parameters.
 */
module Tasks {
  import opened Wrappers

  type TaskId = string

  /** An ISO-8601 timestamp string. */
  type Timestamp = string

  datatype TaskStatus = Pending | Completed | Error

  datatype TaskType = DatasetLoad | DatasetMap

  /** Metadata about a task; the source mutates these fields in place. */
  datatype TaskInfo = TaskInfo(
    name: string,
    startTimestamp: Timestamp,
    status: TaskStatus,
    endTimestamp: Option<Timestamp>,
    taskType: Option<TaskType>,
    message: Option<string>,
    details: Option<string>,
    description: Option<string>,
    error: Option<string>,
    totalLen: Option<int>,
    totalProgress: Option<int>)

  /** What `manifest` returns: every task, and the average progress of the tasks that are not COMPLETED (failed ones included). */
  datatype TaskManifest = TaskManifest(tasks: map<TaskId, TaskInfo>, progress: Option<real>)

  /** A new task, as `task_id` creates it. */
  function NewTask(name: string, taskType: Option<TaskType>, description: Option<string>,
                   totalLen: Option<int>, now: Timestamp): (t: TaskInfo)
    ensures t.status == Pending && t.name == name && t.startTimestamp == now
    ensures t.taskType == taskType && t.description == description && t.totalLen == totalLen
    ensures t.totalProgress.None? && t.endTimestamp.None? && t.error.None?
    ensures t.message.None? && t.details.None?
  {
    TaskInfo(name, now, Pending, None, taskType, None, None, description, None, totalLen, None)
  }

  /** `report_task_progress` on one task: only `total_progress` changes. */
  function Report(t: TaskInfo, progress: int): (r: TaskInfo)
    ensures r.totalProgress == Some(progress)
    ensures r.(totalProgress := t.totalProgress) == t
  {
    t.(totalProgress := Some(progress))
  }

  /** `set_task_error` on one task: whatever the status was, it becomes ERROR. */
  function Fail(t: TaskInfo, error: string, now: Timestamp): (r: TaskInfo)
    ensures r.status == Error && r.error == Some(error) && r.endTimestamp == Some(now)
    ensures r.(status := t.status, error := t.error, endTimestamp := t.endTimestamp) == t
  {
    t.(status := Error, error := Some(error), endTimestamp := Some(now))
  }

  /** The message of a completed task; the elapsed-time text comes from the caller. */
  function CompletedMessage(elapsed: string): string
  {
    "Completed in " + elapsed
  }

  /**
   * `set_task_completed` on one task: the end timestamp is always set; an
   * ERROR task keeps its status, message and error.
   */
  function Complete(t: TaskInfo, now: Timestamp, elapsed: string): (r: TaskInfo)
    ensures r.endTimestamp == Some(now)
    ensures t.status == Error ==> r == t.(endTimestamp := Some(now))
    ensures t.status != Error ==> r.status == Completed && r.message == Some(CompletedMessage(elapsed))
    ensures r.(status := t.status, message := t.message, endTimestamp := t.endTimestamp) == t
  {
    var ended := t.(endTimestamp := Some(now));
    if t.status != Error then ended.(status := Completed, message := Some(CompletedMessage(elapsed)))
    else ended
  }

  /** One call that changes a task. */
  datatype Step =
    | ReportStep(progress: int)
    | FailStep(error: string, failedAt: Timestamp)
    | CompleteStep(completedAt: Timestamp, elapsed: string)

  function Apply(t: TaskInfo, step: Step): TaskInfo
  {
    match step
    case ReportStep(p) => Report(t, p)
    case FailStep(e, at) => Fail(t, e, at)
    case CompleteStep(at, elapsed) => Complete(t, at, elapsed)
  }

  /** The task after the steps, in order. */
  function Run(t: TaskInfo, steps: seq<Step>): TaskInfo
    decreases |steps|
  {
    if steps == [] then t else Run(Apply(t, steps[0]), steps[1..])
  }

  /** The error message of the last failing step, if any. */
  function LastError(steps: seq<Step>): Option<string>
  {
    if steps == [] then None
    else if steps[|steps| - 1].FailStep? then Some(steps[|steps| - 1].error)
    else LastError(steps[..|steps| - 1])
  }

  /**
   * ERROR is final: once a task has failed, no sequence of calls takes it
   * out of ERROR, and its error is the one of the last failure.
   */
  lemma {:induction false} ErrorIsFinal(t: TaskInfo, steps: seq<Step>)
    requires t.status == Error
    ensures Run(t, steps).status == Error
    ensures Run(t, steps).error == if LastError(steps).Some? then LastError(steps) else t.error
    decreases |steps|
  {
    if steps != [] {
      ErrorIsFinal(Apply(t, steps[0]), steps[1..]);
      LastErrorOfTail(steps);
    }
  }

  lemma {:induction false} LastErrorOfTail(steps: seq<Step>)
    requires steps != []
    ensures LastError(steps) ==
      if LastError(steps[1..]).Some? then LastError(steps[1..])
      else if steps[0].FailStep? then Some(steps[0].error) else None
    decreases |steps|
  {
    if |steps| > 1 {
      assert steps[..|steps| - 1][1..] == steps[1..][..|steps| - 2];
      LastErrorOfTail(steps[..|steps| - 1]);
    }
  }

  /**
   * A task is still PENDING exactly when it was PENDING and no call has
   * failed or completed it; its name and start never change.
   */
  lemma {:induction false} PendingUntilFinished(t: TaskInfo, steps: seq<Step>)
    ensures Run(t, steps).status == Pending <==>
      t.status == Pending && forall i :: 0 <= i < |steps| ==> steps[i].ReportStep?
    ensures Run(t, steps).name == t.name && Run(t, steps).startTimestamp == t.startTimestamp
    decreases |steps|
  {
    if steps != [] {
      PendingUntilFinished(Apply(t, steps[0]), steps[1..]);
      if Apply(t, steps[0]).status == Pending {
        assert forall i :: 1 <= i < |steps| ==> steps[i] == steps[1..][i - 1];
      }
      if Run(t, steps).status != Pending && t.status == Pending && steps[0].ReportStep? {
        var i :| 0 <= i < |steps[1..]| && !steps[1..][i].ReportStep?;
        assert !steps[i + 1].ReportStep?;
      }
    }
  }

  /** A task that `manifest` averages over: some progress, a length, and not completed. */
  predicate HasProgress(t: TaskInfo)
  {
    && t.totalProgress.Some? && t.totalProgress.value != 0
    && t.totalLen.Some? && t.totalLen.value != 0
    && t.status != Completed
  }

  /** The progress fractions of the tasks that have progress, in dict order. */
  function Fractions(tasks: map<TaskId, TaskInfo>, order: seq<TaskId>): seq<real>
  {
    if order == [] then []
    else
      var id := order[|order| - 1];
      var rest := Fractions(tasks, order[..|order| - 1]);
      if id in tasks && HasProgress(tasks[id]) then
        rest + [tasks[id].totalProgress.value as real / tasks[id].totalLen.value as real]
      else rest
  }

  function Sum(xs: seq<real>): real
  {
    if xs == [] then 0.0 else Sum(xs[..|xs| - 1]) + xs[|xs| - 1]
  }

  /** The average of the fractions, or None when there are none. */
  function Average(xs: seq<real>): Option<real>
  {
    if xs == [] then None else Some(Sum(xs) / |xs| as real)
  }

  /** `order` lists the keys of `tasks` once each: Python's insertion order of the dict. */
  ghost predicate WellOrdered(tasks: map<TaskId, TaskInfo>, order: seq<TaskId>)
  {
    && (forall i, j :: 0 <= i < j < |order| ==> order[i] != order[j])
    && (forall id :: id in tasks <==> id in order)
  }

  /** The manifest's progress is None exactly when no task has progress. */
  lemma {:induction false} NoProgressIffNoTaskHasProgress(tasks: map<TaskId, TaskInfo>, order: seq<TaskId>)
    requires forall id :: id in order ==> id in tasks
    ensures Fractions(tasks, order) == [] <==> forall i :: 0 <= i < |order| ==> !HasProgress(tasks[order[i]])
  {
    if order != [] {
      var prefix := order[..|order| - 1];
      NoProgressIffNoTaskHasProgress(tasks, prefix);
      assert forall i :: 0 <= i < |prefix| ==> prefix[i] == order[i];
    }
  }

  /** When every averaged task's progress is within its length, the average is a fraction in [0, 1]. */
  lemma {:induction false} AverageIsFraction(tasks: map<TaskId, TaskInfo>, order: seq<TaskId>)
    requires forall id :: id in tasks && HasProgress(tasks[id]) ==>
      0 <= tasks[id].totalProgress.value <= tasks[id].totalLen.value
    ensures Average(Fractions(tasks, order)).Some? ==>
      0.0 <= Average(Fractions(tasks, order)).value <= 1.0
  {
    var xs := Fractions(tasks, order);
    FractionsInUnitInterval(tasks, order);
    SumBounds(xs);
  }

  lemma {:induction false} FractionsInUnitInterval(tasks: map<TaskId, TaskInfo>, order: seq<TaskId>)
    requires forall id :: id in tasks && HasProgress(tasks[id]) ==>
      0 <= tasks[id].totalProgress.value <= tasks[id].totalLen.value
    ensures forall i :: 0 <= i < |Fractions(tasks, order)| ==> 0.0 <= Fractions(tasks, order)[i] <= 1.0
  {
    if order != [] {
      FractionsInUnitInterval(tasks, order[..|order| - 1]);
      var id := order[|order| - 1];
      if id in tasks && HasProgress(tasks[id]) {
        var p := tasks[id].totalProgress.value as real;
        var n := tasks[id].totalLen.value as real;
        assert 0.0 < n && 0.0 <= p <= n;
        assert p / n <= 1.0;
      }
    }
  }

  lemma {:induction false} SumBounds(xs: seq<real>)
    requires forall i :: 0 <= i < |xs| ==> 0.0 <= xs[i] <= 1.0
    ensures 0.0 <= Sum(xs) <= |xs| as real
  {
    if xs != [] {
      SumBounds(xs[..|xs| - 1]);
    }
  }

  /**
   * What `get_progress_bar` writes into the task before iterating: a
   * non-zero estimated length and a non-empty description replace the
   * task's own.
   */
  function Prepare(t: TaskInfo, estimatedLen: Option<int>, taskDescription: Option<string>): (r: TaskInfo)
    ensures r.status == t.status && r.totalProgress == t.totalProgress
    ensures r.totalLen == if estimatedLen.Some? && estimatedLen.value != 0 then estimatedLen else t.totalLen
    ensures r.description == if taskDescription.Some? && taskDescription.value != "" then taskDescription else t.description
    ensures r.(totalLen := t.totalLen, description := t.description) == t
  {
    var t1 := if estimatedLen.Some? && estimatedLen.value != 0 then t.(totalLen := estimatedLen) else t;
    if taskDescription.Some? && taskDescription.value != "" then t1.(description := taskDescription) else t1
  }

  /** The task once k items have gone through the reporter: progress `offset + k`, nothing reported yet for k = 0. */
  function Reported(t: TaskInfo, offset: int, k: nat): (r: TaskInfo)
    ensures k == 0 ==> r == t
    ensures k > 0 ==> r.totalProgress == Some(offset + k)
    ensures r.(totalProgress := t.totalProgress) == t
  {
    if k == 0 then t else Report(t, offset + k)
  }

  /** The end of `progress_reporter`: an exception from the input fails the task, exhaustion completes it. */
  function Finish(t: TaskInfo, inputError: Option<string>, now: Timestamp, elapsed: string): TaskInfo
  {
    if inputError.Some? then Fail(t, inputError.value, now) else Complete(t, now, elapsed)
  }

  /** lilac's TaskManager: task infos by id, kept in the order the ids were first added. */
  class TaskManager {
    var tasks: map<TaskId, TaskInfo>
    var order: seq<TaskId>

    ghost predicate Valid()
      reads this
    {
      WellOrdered(tasks, order)
    }

    constructor ()
      ensures Valid() && tasks == map[] && order == []
    {
      tasks := map[];
      order := [];
    }

    /** `get_task_info`: the task's info, or KeyError for an unknown id. */
    method GetTaskInfo(taskId: TaskId) returns (r: Result<TaskInfo>)
      ensures r.Ok? <==> taskId in tasks
      ensures r.Ok? ==> r.value == tasks[taskId]
      ensures r.Err? ==> r.error == KeyError
    {
      if taskId !in tasks {
        return Err(KeyError);
      }
      r := Ok(tasks[taskId]);
    }

    /** `manifest`: all tasks, and the average progress fraction over the tasks with progress and length that are not COMPLETED, failed ones included. */
    method Manifest() returns (m: TaskManifest)
      requires Valid()
      ensures m.tasks == tasks
      ensures m.progress == Average(Fractions(tasks, order))
      ensures m.progress.None? <==> forall id :: id in tasks ==> !HasProgress(tasks[id])
    {
      var sum := 0.0;
      var count := 0;
      for i := 0 to |order|
        invariant sum == Sum(Fractions(tasks, order[..i]))
        invariant count == |Fractions(tasks, order[..i])|
      {
        assert order[..i + 1][..i] == order[..i];
        var task := tasks[order[i]];
        if HasProgress(task) {
          sum := sum + task.totalProgress.value as real / task.totalLen.value as real;
          count := count + 1;
        }
      }
      assert order[..|order|] == order;
      NoProgressIffNoTaskHasProgress(tasks, order);
      m := TaskManifest(tasks, if count == 0 then None else Some(sum / count as real));
    }

    /**
     * `task_id`: registers a PENDING task under a new id (`taskId`, drawn
     * by the caller in place of uuid4) and returns the id.
     */
    method NewTaskId(name: string, taskType: Option<TaskType>, description: Option<string>,
                     totalLen: Option<int>, taskId: TaskId, now: Timestamp) returns (id: TaskId)
      requires Valid()
      modifies this
      ensures Valid()
      ensures id == taskId
      ensures tasks == old(tasks)[taskId := NewTask(name, taskType, description, totalLen, now)]
      ensures order == if taskId in old(tasks) then old(order) else old(order) + [taskId]
    {
      if taskId !in tasks {
        order := order + [taskId];
      }
      tasks := tasks[taskId := NewTask(name, taskType, description, totalLen, now)];
      id := taskId;
    }

    /** `report_task_progress`: sets the task's progress; KeyError for an unknown id. */
    method ReportTaskProgress(taskId: TaskId, progress: int) returns (r: Result<()>)
      requires Valid()
      modifies this
      ensures Valid() && order == old(order)
      ensures r.Err? <==> taskId !in old(tasks)
      ensures r.Err? ==> r.error == KeyError && tasks == old(tasks)
      ensures r.Ok? ==> tasks == old(tasks)[taskId := Report(old(tasks)[taskId], progress)]
    {
      if taskId !in tasks {
        return Err(KeyError);
      }
      tasks := tasks[taskId := Report(tasks[taskId], progress)];
      r := Ok(());
    }

    /** `set_task_error`: marks the task ERROR with the message; KeyError for an unknown id. */
    method SetTaskError(taskId: TaskId, error: string, now: Timestamp) returns (r: Result<()>)
      requires Valid()
      modifies this
      ensures Valid() && order == old(order)
      ensures r.Err? <==> taskId !in old(tasks)
      ensures r.Err? ==> r.error == KeyError && tasks == old(tasks)
      ensures r.Ok? ==> tasks == old(tasks)[taskId := Fail(old(tasks)[taskId], error, now)]
    {
      if taskId !in tasks {
        return Err(KeyError);
      }
      tasks := tasks[taskId := Fail(tasks[taskId], error, now)];
      r := Ok(());
    }

    /** `set_task_completed`: ends the task, and completes it unless it is in ERROR; KeyError for an unknown id. */
    method SetTaskCompleted(taskId: TaskId, now: Timestamp, elapsed: string) returns (r: Result<()>)
      requires Valid()
      modifies this
      ensures Valid() && order == old(order)
      ensures r.Err? <==> taskId !in old(tasks)
      ensures r.Err? ==> r.error == KeyError && tasks == old(tasks)
      ensures r.Ok? ==> tasks == old(tasks)[taskId := Complete(old(tasks)[taskId], now, elapsed)]
    {
      if taskId !in tasks {
        return Err(KeyError);
      }
      tasks := tasks[taskId := Complete(tasks[taskId], now, elapsed)];
      r := Ok(());
    }

    /**
     * The loop of `progress_reporter`: hands each item on, then reports
     * the progress so far.
     */
    method ReportItems<T>(taskId: TaskId, offset: int, items: seq<T>) returns (yielded: seq<T>)
      requires Valid() && taskId in tasks
      modifies this
      ensures Valid() && order == old(order)
      ensures yielded == items
      ensures tasks == old(tasks)[taskId := Reported(old(tasks)[taskId], offset, |items|)]
    {
      ghost var start := tasks[taskId];
      var progress := offset;
      yielded := [];
      for i := 0 to |items|
        invariant Valid() && order == old(order)
        invariant progress == offset + i
        invariant yielded == items[..i]
        invariant tasks == old(tasks)[taskId := Reported(start, offset, i)]
      {
        progress := progress + 1;
        yielded := yielded + [items[i]];
        var _ := ReportTaskProgress(taskId, progress);
        assert Report(Reported(start, offset, i), progress) == Reported(start, offset, i + 1);
        assert tasks == old(tasks)[taskId := Reported(start, offset, i + 1)];
      }
      assert items[..|items|] == items;
    }

    /**
     * The end of `progress_reporter`: `set_task_error` with the input's
     * exception message, or `set_task_completed` once the input is exhausted.
     */
    method FinishTask(taskId: TaskId, inputError: Option<string>, now: Timestamp, elapsed: string)
      requires Valid() && taskId in tasks
      modifies this
      ensures Valid() && order == old(order)
      ensures tasks == old(tasks)[taskId := Finish(old(tasks)[taskId], inputError, now, elapsed)]
    {
      if inputError.Some? {
        var _ := SetTaskError(taskId, inputError.value, now);
      } else {
        var _ := SetTaskCompleted(taskId, now, elapsed);
      }
    }

    /**
     * `get_progress_bar(task_id, ...)` applied to an iterator, drained by
     * the consumer. The iterator yields `items` and then either ends or
     * raises an exception with message `inputError`. After the k-th item
     * has been handed on the reported progress is `offset + k`; an
     * exhausted input completes the task, an exception marks it ERROR and
     * is raised again.
     */
    method ProgressReporter<T>(taskId: TaskId, estimatedLen: Option<int>, taskDescription: Option<string>,
                               offset: int, items: seq<T>, inputError: Option<string>,
                               now: Timestamp, elapsed: string)
      returns (yielded: seq<T>, r: Result<Option<string>>)
      requires Valid()
      modifies this
      ensures Valid() && order == old(order)
      ensures r.Err? <==> taskId !in old(tasks)
      ensures r.Err? ==> r.error == KeyError && tasks == old(tasks) && yielded == []
      ensures r.Ok? ==> yielded == items && r.value == inputError
      ensures r.Ok? ==>
        var reported := Reported(Prepare(old(tasks)[taskId], estimatedLen, taskDescription), offset, |items|);
        tasks == old(tasks)[taskId := Finish(reported, inputError, now, elapsed)]
    {
      if taskId !in tasks {
        return [], Err(KeyError);
      }
      var prepared := Prepare(tasks[taskId], estimatedLen, taskDescription);
      tasks := tasks[taskId := prepared];
      yielded := ReportItems(taskId, offset, items);
      FinishTask(taskId, inputError, now, elapsed);
      r := Ok(inputError);
    }
  }
}
