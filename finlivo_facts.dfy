/** What the FinLivo agent promises about one task, one pass and the file it picks. */
module FinLivoFacts {
  import opened Wrappers
  import opened Strings
  import Paths
  import opened Disk
  import opened TaskModel
  import opened EditEngine
  import opened EditEngineFacts
  import opened FinLivo

  /** A task marked "[FAILED]" is left alone: no resolver call, no edit, no queue request. */
  lemma SkipFailed(files: map<string, string>, context: string, listId: Option<string>, task: Task, o: TaskOracles)
    requires StartsWith(task.title, "[FAILED]")
    ensures ProcessTaskSpec(files, context, listId, task, o) == TaskStep(files, [], [], None)
  {
  }

  /** The failure title carries the marker. */
  lemma FailedTitleMarked(title: string)
    ensures StartsWith(FailedTitle(title), FailedMarker)
  {
    assert FailedTitle(title)[..|FailedMarker|] == FailedMarker;
  }

  /**
   * The rename asked on failure makes the task one that every later pass skips, whatever the tree,
   * the notes and the oracles are then.
   */
  lemma RenamedTaskSkipped(files: map<string, string>, context: string, listId: Option<string>, task: Task,
                           o: TaskOracles, laterFiles: map<string, string>, laterNotes: string, later: TaskOracles)
    requires var s := ProcessTaskSpec(files, context, listId, task, o); s.queued != [] && s.queued[0].Rename?
    ensures var s := ProcessTaskSpec(files, context, listId, task, o);
      && s.queued == [QueueOp.Rename(task.id, FailedTitle(task.title), listId)]
      && ProcessTaskSpec(laterFiles, context, listId, Task(task.id, s.queued[0].newTitle, laterNotes), later)
         == TaskStep(laterFiles, [], [], None)
  {
    FailedTitleMarked(task.title);
  }

  /**
   * On a task that is not skipped and whose file resolves and exists, the senior edit runs on that
   * file with the title as instruction; the task is completed exactly when an attempt passed, and
   * renamed "[FAILED] <title>" otherwise. A request the service fails is not recorded, and its
   * exception is what `process_task` raises.
   */
  lemma CompleteIffSuccess(files: map<string, string>, context: string, listId: Option<string>, task: Task,
                           o: TaskOracles, path: string)
    requires !StartsWith(task.title, FailedMarker)
    requires Target(files, FindFile(files, task.title, task.notes, o)) == Some(path)
    ensures var s := ProcessTaskSpec(files, context, listId, task, o);
      var call := TaskEdit(context, task, path, o);
      var e := SeniorEdit(files, call);
      var passed := EditTrace(files, call, PromptFor(call), CleanCodeBlock).end.Passed?;
      && s.files == e.files && s.ops == e.ops && s.error == o.service
      && (o.service.None? && passed ==> s.queued == [QueueOp.Complete(task.id, listId)])
      && (o.service.None? && !passed ==> s.queued == [QueueOp.Rename(task.id, FailedTitle(task.title), listId)])
      && (o.service.Some? ==> s.queued == [])
  {
    var call := TaskEdit(context, task, path, o);
    ReportMarksSuccess(files, call, PromptFor(call), CleanCodeBlock);
  }

  /** A task with no existing target stays pending: nothing is edited, completed or renamed. */
  lemma NoTargetUntouched(files: map<string, string>, context: string, listId: Option<string>, task: Task, o: TaskOracles)
    requires !FindFile(files, task.title, task.notes, o).ResolverFailed?
    requires Target(files, FindFile(files, task.title, task.notes, o)).None?
    ensures ProcessTaskSpec(files, context, listId, task, o) == TaskStep(files, [], [], None)
  {
  }

  /** Whatever happens to a task, the queue is asked at most one thing, about that task only. */
  lemma OneRequestForTheTask(files: map<string, string>, context: string, listId: Option<string>, task: Task, o: TaskOracles)
    ensures var s := ProcessTaskSpec(files, context, listId, task, o);
      |s.queued| <= 1 && forall q :: q in s.queued ==> q.taskId == task.id && q.listId == listId
  {
    if !Skips(task) {
      ResolvedRequests(files, context, listId, task, o, FindFile(files, task.title, task.notes, o));
    }
  }

  /** Whatever `find_file` answered, the task asks at most one thing, about itself. */
  lemma ResolvedRequests(files: map<string, string>, context: string, listId: Option<string>, task: Task, o: TaskOracles, r: Resolution)
    ensures var s := ResolvedStep(files, context, listId, task, o, r);
      |s.queued| <= 1 && forall q :: q in s.queued ==> q.taskId == task.id && q.listId == listId
  {
    if !r.ResolverFailed? && Target(files, r).Some? {
      var path := Target(files, r).value;
      EditRequests(SeniorEdit(files, TaskEdit(context, task, path, o)), task, listId, o.service);
    }
  }

  /**
   * Whatever the edit reported, the task asks one thing, about itself; it is recorded exactly when
   * the service does not raise, and the service's exception is the step's.
   */
  lemma EditRequests(e: EditOutcome, task: Task, listId: Option<string>, failure: Option<string>)
    ensures var s := AfterEdit(e, task, listId, failure);
      && s.error == failure && (failure.None? <==> |s.queued| == 1) && (failure.Some? <==> s.queued == [])
      && forall q :: q in s.queued ==> q.taskId == task.id && q.listId == listId
  {
  }

  /**
   * The model's suggestion is taken only when it is non-empty and names an existing file under the
   * project directory; a suggested target always exists.
   */
  lemma SuggestionChecked(files: map<string, string>, title: string, notes: string, o: TaskOracles)
    ensures var r := FindFile(files, title, notes, o);
      var reply := o.suggest(TaskDescription(title, notes), o.structure);
      && (r.Suggested? <==> reply.Text? && reply.content != "" && Paths.Join(ProjectDir, reply.content) in files)
      && (r.Suggested? ==> r.path == Paths.Join(ProjectDir, reply.content) && r.path in files)
      && (r.ResolverFailed? <==> reply.Raised?)
  {
  }

  /**
   * Without a usable suggestion, the fallback is the project directory joined with the first word
   * of title and notes that contains a '.', unchecked; with no such word, nothing is found.
   */
  lemma FallbackFirstDottedWord(files: map<string, string>, title: string, notes: string, o: TaskOracles)
    requires var reply := o.suggest(TaskDescription(title, notes), o.structure);
      reply.Text? && !(reply.content != "" && Paths.Join(ProjectDir, reply.content) in files)
    ensures var r := FindFile(files, title, notes, o); var ws := Words(title + " " + notes);
      && (r.Unresolved? <==> forall i :: 0 <= i < |ws| ==> '.' !in ws[i])
      && (r.Guessed? ==> exists i :: (0 <= i < |ws| && '.' in ws[i] && r.path == Paths.Join(ProjectDir, ws[i])
            && forall j :: 0 <= j < i ==> '.' !in ws[j]))
      && (r.Suggested? || r.ResolverFailed?) == false
  {
    var ws := Words(title + " " + notes);
    var first := FirstWithDot(ws);
    assert FindFile(files, title, notes, o) == if first.Some? then Guessed(Paths.Join(ProjectDir, first.value)) else Unresolved;
    if first.Some? {
      var i :| 0 <= i < |ws| && ws[i] == first.value && forall j :: 0 <= j < i ==> '.' !in ws[j];
      assert '.' in ws[i];
    }
  }

  /** A dotted word in the title wins over the notes: the fallback does not depend on the notes then. */
  lemma TitleNamesTheFile(files: map<string, string>, title: string, notes: string, o: TaskOracles, w: string)
    requires var reply := o.suggest(TaskDescription(title, notes), o.structure);
      reply.Text? && !(reply.content != "" && Paths.Join(ProjectDir, reply.content) in files)
    requires FirstWithDot(Words(title)) == Some(w)
    ensures FindFile(files, title, notes, o) == Guessed(Paths.Join(ProjectDir, w))
  {
    WordsOfSpaceJoin(title, notes);
    FirstWithDotAppend(Words(title), Words(notes));
  }

  /** `start` watches the first list titled "FinLivo"; with no such list it finds no id. */
  lemma ListIdIsFirstMatch(lists: seq<TaskList>)
    ensures ListIdOf(lists).None? <==> forall j :: 0 <= j < |lists| ==> lists[j].title != ListName
    ensures ListIdOf(lists).Some? ==> exists i :: (0 <= i < |lists| && lists[i].title == ListName
      && ListIdOf(lists).value == lists[i].id && forall j :: 0 <= j < i ==> lists[j].title != ListName)
  {
    var r := FirstIndexWithTitle(lists, ListName);
    if r.Some? {
      assert lists[r.value].title == ListName;
    }
  }

  /** A step that leaves every task of a pass alone makes the whole pass a no-op. */
  lemma {:induction false} PassOfNoSteps(step: Step, files: map<string, string>, tasks: seq<Task>, i: nat)
    requires i <= |tasks|
    requires forall f, j :: i <= j < |tasks| ==> step(f, tasks[j], j) == TaskStep(f, [], [], None)
    ensures PassFrom(step, files, tasks, i) == CycleState(files, [], [], None)
    decreases |tasks| - i
  {
    if i < |tasks| {
      assert step(files, tasks[i], i) == TaskStep(files, [], [], None);
      PassOfNoSteps(step, files, tasks, i + 1);
      var none: seq<Op>, asked: seq<QueueOp> := [], [];
      assert none + none == none && asked + asked == asked;
    }
  }

  /** A pass over tasks that are all marked "[FAILED]" changes nothing and asks nothing. */
  lemma FailedTasksIdle(files: map<string, string>, context: string, listId: Option<string>, tasks: seq<Task>,
                        oracles: nat -> TaskOracles)
    requires forall j :: 0 <= j < |tasks| ==> StartsWith(tasks[j].title, FailedMarker)
    ensures Cycle(files, context, listId, Fetched(tasks), oracles) == CycleState(files, [], [], None)
  {
    var step := StepOf(context, listId, oracles);
    forall f, j | 0 <= j < |tasks|
      ensures step(f, tasks[j], j) == TaskStep(f, [], [], None)
    {
      SkipFailed(f, context, listId, tasks[j], oracles(j));
    }
    PassOfNoSteps(step, files, tasks, 0);
  }

  /** Every request a pass makes names one of the tasks it was given. */
  lemma {:induction false} PassRequestsNameItsTasks(step: Step, files: map<string, string>, tasks: seq<Task>, i: nat)
    requires i <= |tasks|
    requires forall f, j :: i <= j < |tasks| ==> forall q :: q in step(f, tasks[j], j).queued ==> q.taskId == tasks[j].id
    ensures forall q :: q in PassFrom(step, files, tasks, i).queued ==> exists j :: i <= j < |tasks| && q.taskId == tasks[j].id
    decreases |tasks| - i
  {
    if i < |tasks| {
      var s := step(files, tasks[i], i);
      if s.error.None? {
        PassRequestsNameItsTasks(step, s.files, tasks, i + 1);
      }
    }
  }

  /** The agent completes or renames only tasks it fetched in that pass. */
  lemma CycleTouchesFetchedTasks(files: map<string, string>, context: string, listId: Option<string>, tasks: seq<Task>,
                                 oracles: nat -> TaskOracles)
    ensures forall q :: q in Cycle(files, context, listId, Fetched(tasks), oracles).queued ==>
      exists j :: 0 <= j < |tasks| && q.taskId == tasks[j].id
  {
    var step := StepOf(context, listId, oracles);
    forall f, j | 0 <= j < |tasks|
      ensures forall q :: q in step(f, tasks[j], j).queued ==> q.taskId == tasks[j].id
    {
      OneRequestForTheTask(f, context, listId, tasks[j], oracles(j));
    }
    PassRequestsNameItsTasks(step, files, tasks, 0);
  }

  /**
   * When the first task's completion or rename raises, `loop` catches it and the pass ends there:
   * the later tasks are neither edited nor asked about.
   */
  lemma FailedRequestEndsPass(files: map<string, string>, context: string, listId: Option<string>, tasks: seq<Task>,
                              oracles: nat -> TaskOracles, path: string)
    requires |tasks| > 0 && !StartsWith(tasks[0].title, FailedMarker)
    requires Target(files, FindFile(files, tasks[0].title, tasks[0].notes, oracles(0))) == Some(path)
    requires oracles(0).service.Some?
    ensures var c := Cycle(files, context, listId, Fetched(tasks), oracles);
      var e := SeniorEdit(files, TaskEdit(context, tasks[0], path, oracles(0)));
      c == CycleState(e.files, e.ops, [], oracles(0).service)
  {
    CompleteIffSuccess(files, context, listId, tasks[0], oracles(0), path);
  }

  /** A failed fetch is caught: nothing changes and the pass still ends with the usual sleep. */
  lemma FetchFailureCaught(files: map<string, string>, context: string, listId: Option<string>, message: string,
                           oracles: nat -> TaskOracles)
    ensures Cycle(files, context, listId, FetchFailed(message), oracles) == CycleState(files, [], [], Some(message))
  {
  }
}
