/**
 * The FinLivo task agent of agents/finlivo/agent.py: it watches one Google Tasks list, resolves
 * each pending task to a file of the project, runs the senior edit procedure on it, and completes
 * the task on success or marks it "[FAILED]" so that it is not picked up again.
 */
module FinLivo {
  import opened Wrappers
  import opened Strings
  import Paths
  import opened Disk
  import opened TaskModel
  import opened EditEngine
  import opened EditEngineFacts

  /** agents/finlivo/config.py. */
  const ProjectDir := "/Users/nodir/Desktop/Livo/fin-app-back"
  const ListName := "FinLivo"
  const MaxRetries := 3

  /** The title prefix that marks a task the agent gave up on. */
  const FailedMarker := "[FAILED]"

  /** Seconds `loop` sleeps after each pass, whatever happened in it. */
  const CycleDelay := 10

  /**
   * What the outside world answers while one task is processed: the project outline, the model's
   * file suggestion for a task description and outline, the edit's model replies and test runs,
   * and the task service's answer to the completion or rename (`None`, or the exception it raises).
   */
  datatype TaskOracles = TaskOracles(
    structure: string, suggest: (string, string) -> Reply, model: ModelOracle, tests: TestOracle,
    service: Option<string>)

  /** `f"{title}. {notes}"`, the description the file resolver is asked about. */
  function TaskDescription(title: string, notes: string): string {
    title + ". " + notes
  }

  /** How `find_file` ended. */
  datatype Resolution =
    | Suggested(path: string)       // the model's suggestion, which exists
    | Guessed(path: string)         // the first dotted word, not checked
    | Unresolved                    // `None`
    | ResolverFailed(message: string)  // the suggestion call raised

  /** `find_file(title, notes)` on the tree `files`. */
  function FindFile(files: map<string, string>, title: string, notes: string, o: TaskOracles): Resolution {
    match o.suggest(TaskDescription(title, notes), o.structure)
    case Raised(m) => ResolverFailed(m)
    case Text(recommended) =>
      if recommended != "" && Paths.Join(ProjectDir, recommended) in files then
        Suggested(Paths.Join(ProjectDir, recommended))
      else
        match FirstWithDot(Words(title + " " + notes))
        case Some(w) => Guessed(Paths.Join(ProjectDir, w))
        case None => Unresolved
  }

  /** The file `process_task` edits, if `find_file` gave one that exists. */
  function Target(files: map<string, string>, r: Resolution): Option<string> {
    match r
    case Suggested(p) => if p != "" && p in files then Some(p) else None
    case Guessed(p) => if p != "" && p in files then Some(p) else None
    case _ => None
  }

  /** The edit `process_task` asks for: the title is the instruction. */
  function TaskEdit(context: string, task: Task, path: string, o: TaskOracles): EditCall {
    EditCall(path, task.title, context, ProjectDir, MaxRetries, o.model, o.tests)
  }

  /** `"[FAILED] " + title`. */
  function FailedTitle(title: string): string {
    FailedMarker + " " + title
  }

  /** What processing one task did: the tree afterwards, its mutations, the queue requests, and an escaping exception. */
  datatype TaskStep = TaskStep(files: map<string, string>, ops: seq<Op>, queued: seq<QueueOp>, error: Option<string>)

  function NoStep(files: map<string, string>): TaskStep {
    TaskStep(files, [], [], None)
  }

  predicate Skips(task: Task) {
    StartsWith(task.title, FailedMarker)
  }

  /** What `process_task` does once `find_file` has answered `r`. */
  function ResolvedStep(files: map<string, string>, context: string, listId: Option<string>, task: Task, o: TaskOracles, r: Resolution): TaskStep {
    if r.ResolverFailed? then TaskStep(files, [], [], Some(r.message))
    else
      match Target(files, r)
      case None => NoStep(files)
      case Some(path) => AfterEdit(SeniorEdit(files, TaskEdit(context, task, path, o)), task, listId, o.service)
  }

  /** The request `process_task` makes after the edit: complete the task on "✅", rename it otherwise. */
  function Request(e: EditOutcome, task: Task, listId: Option<string>): QueueOp {
    if Contains(e.message, "✅") then QueueOp.Complete(task.id, listId)
    else QueueOp.Rename(task.id, FailedTitle(task.title), listId)
  }

  /**
   * What `process_task` does with the edit's report, the service answering `failure`: a request
   * that raises is not recorded, and its exception escapes `process_task`.
   */
  function AfterEdit(e: EditOutcome, task: Task, listId: Option<string>, failure: Option<string>): TaskStep {
    TaskStep(e.files, e.ops, Carried(Request(e, task, listId), failure), failure)
  }

  /** `process_task(task)` with the agent's `context` and `list_id`. */
  function ProcessTaskSpec(files: map<string, string>, context: string, listId: Option<string>, task: Task, o: TaskOracles): TaskStep {
    if Skips(task) then NoStep(files)
    else ResolvedStep(files, context, listId, task, o, FindFile(files, task.title, task.notes, o))
  }

  /** What a pass of `loop` did: the tree, the mutations, the queue requests, and the exception that ended it. */
  datatype CycleState = CycleState(files: map<string, string>, ops: seq<Op>, queued: seq<QueueOp>, error: Option<string>)

  /** The effect of processing one task, given the tree, the task and its position in the pass. */
  type Step = (map<string, string>, Task, nat) -> TaskStep

  /**
   * The tasks of a pass from position `i` on, in order, starting on the tree `files`, with `step`
   * processing each; an exception ends the pass.
   */
  function PassFrom(step: Step, files: map<string, string>, tasks: seq<Task>, i: nat): CycleState
    requires i <= |tasks|
    decreases |tasks| - i
  {
    if i == |tasks| then CycleState(files, [], [], None)
    else
      var s := step(files, tasks[i], i);
      if s.error.Some? then CycleState(s.files, s.ops, s.queued, s.error)
      else
        var rest := PassFrom(step, s.files, tasks, i + 1);
        CycleState(rest.files, s.ops + rest.ops, s.queued + rest.queued, rest.error)
  }

  function PassAfter(ops: seq<Op>, queued: seq<QueueOp>, c: CycleState): CycleState {
    CycleState(c.files, ops + c.ops, queued + c.queued, c.error)
  }

  /** One task of a pass: an exception ends it, otherwise the rest of the pass follows. */
  lemma PassStep(step: Step, files: map<string, string>, tasks: seq<Task>, i: nat,
                 ops: seq<Op>, queued: seq<QueueOp>, whole: CycleState)
    requires i < |tasks| && whole == PassAfter(ops, queued, PassFrom(step, files, tasks, i))
    ensures var s := step(files, tasks[i], i);
      && (s.error.Some? ==> whole == CycleState(s.files, ops + s.ops, queued + s.queued, s.error))
      && (s.error.None? ==> whole == PassAfter(ops + s.ops, queued + s.queued, PassFrom(step, s.files, tasks, i + 1)))
  {
    var s := step(files, tasks[i], i);
    if s.error.None? {
      var rest := PassFrom(step, s.files, tasks, i + 1);
      AppendAssoc(ops, s.ops, rest.ops);
      AppendAssoc(queued, s.queued, rest.queued);
    }
  }

  /** `process_task` as the step of a pass, with the agent's context and list. */
  function StepOf(context: string, listId: Option<string>, oracles: nat -> TaskOracles): Step {
    (files: map<string, string>, task: Task, i: nat) => ProcessTaskSpec(files, context, listId, task, oracles(i))
  }

  /** One pass of `loop` on the fetched tasks (a failed fetch is caught like any other exception). */
  function Cycle(files: map<string, string>, context: string, listId: Option<string>, fetched: Fetch<seq<Task>>,
                 oracles: nat -> TaskOracles): CycleState {
    match fetched
    case FetchFailed(m) => CycleState(files, [], [], Some(m))
    case Fetched(tasks) => PassFrom(StepOf(context, listId, oracles), files, tasks, 0)
  }

  /** The id `start` looks up: that of the first list titled "FinLivo". */
  function ListIdOf(lists: seq<TaskList>): Option<string> {
    match FirstWithTitle(lists, ListName)
    case Some(l) => Some(l.id)
    case None => None
  }

  /** `FinLivoAgent`: the loaded project context and the watched list. */
  class Agent {
    var context: string
    var listId: Option<string>

    constructor ()
      ensures context == "" && listId == None
    {
      context := "";
      listId := None;
    }

    /**
     * `start` up to its call of `loop`: store the loaded context, look up the list; the result
     * says whether the loop is entered (an id that is missing or empty stops the agent).
     */
    method Start(localContext: string, lists: Fetch<seq<TaskList>>) returns (started: bool)
      modifies this
      ensures context == localContext
      ensures lists.FetchFailed? ==> listId == old(listId) && !started
      ensures lists.Fetched? ==> listId == ListIdOf(lists.value) && started == (listId.Some? && listId.value != "")
    {
      context := localContext;
      match lists
      case FetchFailed(_) =>
        return false;
      case Fetched(ls) =>
        var found := FirstWithTitle(ls, ListName);
        listId := if found.Some? then Some(found.value.id) else None;
        started := listId.Some? && listId.value != "";
    }

    /** `process_task(task)`, with the declared signature of `apply_senior_edit`. */
    method ProcessTask(disk: Disk, queue: TaskQueue, task: Task, o: TaskOracles) returns (raised: Option<string>)
      modifies disk, queue
      ensures var s := ProcessTaskSpec(old(disk.files), context, listId, task, o);
        disk.files == s.files && disk.log == old(disk.log) + s.ops && queue.ops == old(queue.ops) + s.queued
        && raised == s.error
    {
      if StartsWith(task.title, FailedMarker) {
        return None;
      }
      var r := FindFile(disk.files, task.title, task.notes, o);
      if r.ResolverFailed? {
        return Some(r.message);
      }
      var target := Target(disk.files, r);
      if target.None? {
        return None;
      }
      var path := target.value;
      ghost var call := TaskEdit(context, task, path, o);
      var result := ApplySeniorEdit(disk, path, task.title, context, ProjectDir, MaxRetries, o.model, o.tests);
      if Contains(result, "✅") {
        raised := queue.Complete(task.id, listId, o.service);
      } else {
        raised := queue.Rename(task.id, FailedTitle(task.title), listId, o.service);
      }
    }

    /**
     * One pass of `loop`: process the fetched tasks in order until one raises, then sleep; the
     * result is the delay slept and the exception caught, if any.
     */
    method RunCycle(disk: Disk, queue: TaskQueue, fetched: Fetch<seq<Task>>, oracles: nat -> TaskOracles)
      returns (delay: nat, error: Option<string>)
      modifies disk, queue
      ensures var c := Cycle(old(disk.files), context, listId, fetched, oracles);
        disk.files == c.files && disk.log == old(disk.log) + c.ops && queue.ops == old(queue.ops) + c.queued
        && error == c.error
      ensures delay == CycleDelay
    {
      delay := CycleDelay;
      if fetched.FetchFailed? {
        return delay, Some(fetched.message);
      }
      var tasks := fetched.value;
      ghost var step := StepOf(context, listId, oracles);
      ghost var whole := PassFrom(step, disk.files, tasks, 0);
      ghost var ops: seq<Op>, queued: seq<QueueOp> := [], [];
      ghost var log0, queued0 := disk.log, queue.ops;
      var i := 0;
      while i < |tasks|
        invariant 0 <= i <= |tasks|
        invariant whole == PassAfter(ops, queued, PassFrom(step, disk.files, tasks, i))
        invariant disk.log == log0 + ops && queue.ops == queued0 + queued
      {
        PassStep(step, disk.files, tasks, i, ops, queued, whole);
        ghost var s := step(disk.files, tasks[i], i);
        var raised := ProcessTask(disk, queue, tasks[i], oracles(i));
        AppendAssoc(log0, ops, s.ops);
        AppendAssoc(queued0, queued, s.queued);
        if raised.Some? {
          return delay, raised;
        }
        ops, queued := ops + s.ops, queued + s.queued;
        i := i + 1;
      }
      error := None;
    }
  }
}
