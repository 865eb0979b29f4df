/**
 * The task-queue records the agents and the bot exchange with the Google Tasks service, and the
 * queue itself as an abstract object that records the completions and renames asked of it.
 */
module TaskModel {
  import opened Wrappers

  /** One task list (a project): `{'id': ..., 'title': ...}`. */
  datatype TaskList = TaskList(id: string, title: string)

  /** One pending task; `notes` is `task.get('notes', '')`, so an absent note is "". */
  datatype Task = Task(id: string, title: string, notes: string)

  /** A mutation asked of the queue service. */
  datatype QueueOp =
    | Complete(taskId: string, listId: Option<string>)
    | Rename(taskId: string, newTitle: string, listId: Option<string>)

  /** The position of the first list whose title is `title` (`next(l for l in lists if l['title'] == title)`). */
  function FirstIndexWithTitle(lists: seq<TaskList>, title: string): (r: Option<nat>)
    ensures r.Some? ==> r.value < |lists| && lists[r.value].title == title
    ensures forall j :: 0 <= j < |lists| && (r.None? || j < r.value) ==> lists[j].title != title
  {
    if lists == [] then None
    else if lists[0].title == title then Some(0)
    else match FirstIndexWithTitle(lists[1..], title)
      case None => None
      case Some(i) => Some(i + 1)
  }

  /** The first list titled `title`, if any. */
  function FirstWithTitle(lists: seq<TaskList>, title: string): Option<TaskList> {
    match FirstIndexWithTitle(lists, title)
    case Some(i) => Some(lists[i])
    case None => None
  }

  /** The titles of `lists`, in order. */
  function Titles(lists: seq<TaskList>): (ts: seq<string>)
    ensures |ts| == |lists| && forall i :: 0 <= i < |lists| ==> ts[i] == lists[i].title
  {
    seq(|lists|, i requires 0 <= i < |lists| => lists[i].title)
  }

  /**
   * The requests the service records when `op` is asked and it answers `failure`: the request
   * itself, or nothing when the call raises (`get_service()` or `execute()` failing).
   */
  function Carried(op: QueueOp, failure: Option<string>): (r: seq<QueueOp>)
    ensures failure.None? <==> r == [op]
    ensures failure.Some? <==> r == []
  {
    if failure.None? then [op] else []
  }

  /**
   * The task service, reduced to the mutations the agents ask of it. Each request is given the
   * service's answer: `None` when it goes through, or the message of the exception it raises.
   */
  class TaskQueue {
    var ops: seq<QueueOp>

    constructor ()
      ensures ops == []
    {
      ops := [];
    }

    /** `tasks_service.complete_task(task_id, tasklist_id=list_id)`. */
    method Complete(taskId: string, listId: Option<string>, failure: Option<string>) returns (raised: Option<string>)
      modifies this
      ensures raised == failure
      ensures ops == old(ops) + Carried(QueueOp.Complete(taskId, listId), failure)
    {
      if failure.None? {
        ops := ops + [QueueOp.Complete(taskId, listId)];
      }
      raised := failure;
    }

    /** Renaming a task; the agent calls it `update_task_title`. */
    method Rename(taskId: string, newTitle: string, listId: Option<string>, failure: Option<string>) returns (raised: Option<string>)
      modifies this
      ensures raised == failure
      ensures ops == old(ops) + Carried(QueueOp.Rename(taskId, newTitle, listId), failure)
    {
      if failure.None? {
        ops := ops + [QueueOp.Rename(taskId, newTitle, listId)];
      }
      raised := failure;
    }
  }
}
