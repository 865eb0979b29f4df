/**
 * `process_task` of agents/finlivo/agent.py exactly as written, where it differs from the
 * interfaces it calls: the edit call passes `run_tests=config.RUN_TESTS`, and the failure branch
 * calls `tasks_service.update_task_title`. Neither name exists, so each raises AttributeError.
 */
module FinLivoAsWritten {
  import opened Wrappers
  import opened Strings
  import Paths
  import opened Disk
  import opened TaskModel
  import opened EditEngine
  import opened EditEngineFacts
  import opened FinLivo
  import opened FinLivoFacts

  /** Raised when the arguments of the edit call are evaluated (agents/finlivo/config.py has no `RUN_TESTS`). */
  const RunTestsMissing := "AttributeError: module 'agents.finlivo.config' has no attribute 'RUN_TESTS'"

  /** Raised by the rename on failure (`TasksService` has no `update_task_title`). */
  const UpdateTitleMissing := "AttributeError: 'TasksService' object has no attribute 'update_task_title'"

  /** `process_task` as written: every resolved, existing target raises before the edit starts. */
  function ProcessTaskAsWritten(files: map<string, string>, context: string, listId: Option<string>, task: Task, o: TaskOracles): TaskStep {
    if Skips(task) then NoStep(files)
    else
      var r := FindFile(files, task.title, task.notes, o);
      if r.ResolverFailed? then TaskStep(files, [], [], Some(r.message))
      else
        match Target(files, r)
        case None => NoStep(files)
        case Some(_) => TaskStep(files, [], [], Some(RunTestsMissing))
  }

  /** As written, no task is ever edited, completed or renamed. */
  lemma AsWrittenNeverEdits(files: map<string, string>, context: string, listId: Option<string>, task: Task, o: TaskOracles)
    ensures var s := ProcessTaskAsWritten(files, context, listId, task, o);
      s.files == files && s.ops == [] && s.queued == []
  {
  }

  /**
   * Where the target exists, the code as written raises out of `process_task` (so `loop` abandons
   * the rest of the pass and meets the same task first on the next one), while the intended call
   * backs the file up, edits it and asks the queue for one completion or rename.
   */
  lemma RunTestsBlocksTheEdit(files: map<string, string>, context: string, listId: Option<string>, task: Task,
                              o: TaskOracles, path: string)
    requires !StartsWith(task.title, FailedMarker)
    requires Target(files, FindFile(files, task.title, task.notes, o)) == Some(path)
    ensures ProcessTaskAsWritten(files, context, listId, task, o).error == Some(RunTestsMissing)
    ensures var s := ProcessTaskSpec(files, context, listId, task, o);
      && s.error == o.service && (o.service.None? ==> |s.queued| == 1)
      && s.ops != [] && s.ops[0] == Op.Copy(path, BackupPath(path))
  {
    var call := TaskEdit(context, task, path, o);
    CompleteIffSuccess(files, context, listId, task, o, path);
    BackupFirstAndOnce(files, call, PromptFor(call), CleanCodeBlock);
  }

  /** `process_task` with the edit call repaired but the rename as written. */
  function ProcessTaskRenameAsWritten(files: map<string, string>, context: string, listId: Option<string>, task: Task, o: TaskOracles): TaskStep {
    if Skips(task) then NoStep(files)
    else
      var r := FindFile(files, task.title, task.notes, o);
      if r.ResolverFailed? then TaskStep(files, [], [], Some(r.message))
      else
        match Target(files, r)
        case None => NoStep(files)
        case Some(path) =>
          var e := SeniorEdit(files, TaskEdit(context, task, path, o));
          if Contains(e.message, "✅") then TaskStep(e.files, e.ops, Carried(QueueOp.Complete(task.id, listId), o.service), o.service)
          else TaskStep(e.files, e.ops, [], Some(UpdateTitleMissing))
  }

  /** The tree after a call only gains files, so a target that existed still does. */
  lemma TargetSurvives(files: map<string, string>, later: map<string, string>, task: Task, o: TaskOracles, path: string)
    requires files.Keys <= later.Keys
    requires Target(files, FindFile(files, task.title, task.notes, o)) == Some(path)
    ensures Target(later, FindFile(later, task.title, task.notes, o)).Some?
  {
    var reply := o.suggest(TaskDescription(task.title, task.notes), o.structure);
    if reply.content != "" && Paths.Join(ProjectDir, reply.content) in later {
      assert |Paths.Join(ProjectDir, reply.content)| > 0;
    } else {
      assert FindFile(later, task.title, task.notes, o) == FindFile(files, task.title, task.notes, o);
    }
  }

  /**
   * As written, a failed edit leaves the task unmarked: nothing is queued, the rename raises, and
   * the next pass over the same task runs the whole edit again (and so on, every pass).
   */
  lemma FailedTaskRetried(files: map<string, string>, context: string, listId: Option<string>, task: Task,
                          o: TaskOracles, path: string)
    requires !StartsWith(task.title, FailedMarker)
    requires Target(files, FindFile(files, task.title, task.notes, o)) == Some(path)
    requires var call := TaskEdit(context, task, path, o); !EditTrace(files, call, PromptFor(call), CleanCodeBlock).end.Passed?
    ensures var s := ProcessTaskRenameAsWritten(files, context, listId, task, o);
      && s.queued == [] && s.error == Some(UpdateTitleMissing)
      && ProcessTaskRenameAsWritten(s.files, context, listId, task, o).ops != []
  {
    var call := TaskEdit(context, task, path, o);
    var e := SeniorEdit(files, call);
    ReportMarksSuccess(files, call, PromptFor(call), CleanCodeBlock);
    RollbackOnFailure(files, call, PromptFor(call), CleanCodeBlock);
    TargetSurvives(files, e.files, task, o, path);
    var again := Target(e.files, FindFile(e.files, task.title, task.notes, o)).value;
    var call2 := TaskEdit(context, task, again, o);
    BackupFirstAndOnce(e.files, call2, PromptFor(call2), CleanCodeBlock);
  }
}
