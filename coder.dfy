/**
 * The earlier one-shot coder of agents/agent_coder.py: one model call per task, fences stripped
 * by three sequential checks, the backup taken only once the model has replied, and the task
 * completed whenever a target file was found.
 */
module Coder {
  import opened Wrappers
  import opened Strings
  import Paths
  import opened Disk
  import opened TaskModel
  import opened EditEngine

  const ProjectBaseDir := "/Users/nodir/Desktop/Livo/fin-app-back"
  const TargetListName := "FinLivo"

  /** The single model call of `apply_ai_edit`: a prompt in, a reply or an exception out. */
  type CoderModel = string -> Reply

  /** The editing prompt of `apply_ai_edit`, with its four-space indentation. */
  function CoderPrompt(instruction: string, code: string): string {
    "\n    You are a Senior Python Developer.\n    \n    USER INSTRUCTION: " + instruction
    + "\n    \n    FILE CONTENT:\n    " + code
    + "\n    \n    Output the FULL modified file content. Do not use Markdown blocks (```). Just raw code.\n    "
  }

  /** The three fence checks of `apply_ai_edit`, each on the result of the one before; no stripping. */
  function StripFences(text: string): string {
    var a := if StartsWith(text, PythonFence) then text[9..] else text;
    var b := if StartsWith(a, Fence) then a[3..] else a;
    if EndsWith(b, Fence) then b[..|b| - 3] else b
  }

  /** The result is the reply with at most 12 characters cut from the front and 3 from the back. */
  lemma StripFencesSlice(text: string)
    ensures var r := StripFences(text);
      exists i, j :: 0 <= i <= j <= |text| && r == text[i..j] && i in {0, 3, 9, 12} && |text| - j in {0, 3}
  {
    var a := if StartsWith(text, PythonFence) then text[9..] else text;
    var i1 := if StartsWith(text, PythonFence) then 9 else 0;
    assert a == text[i1..];
    var b := if StartsWith(a, Fence) then a[3..] else a;
    var i2 := if StartsWith(a, Fence) then i1 + 3 else i1;
    assert b == text[i2..];
    var j := if EndsWith(b, Fence) then |text| - 3 else |text|;
    assert |b| == |text| - i2;
    if EndsWith(b, Fence) {
      assert b[..|b| - 3] == text[i2..j];
    }
    assert StripFences(text) == text[i2..j];
  }

  /** Unfenced text comes back unchanged: surrounding whitespace is kept. */
  lemma StripFencesUnfenced(text: string)
    requires !StartsWith(text, Fence) && !EndsWith(text, Fence)
    ensures StripFences(text) == text
  {
    PythonFenceIsFenced(text);
  }

  /** A "```python ... ```" block gives back its body exactly (whitespace included). */
  lemma StripFencesPythonBlock(body: string)
    requires !StartsWith(body, Fence)
    ensures StripFences(PythonFence + body + Fence) == body
  {
    var text := PythonFence + body + Fence;
    assert text[..9] == PythonFence;
    var a := text[9..];
    assert a == body + Fence;
    if StartsWith(a, Fence) {
      // Only a body of fewer than three backticks makes the rest start with a fence.
      assert |body| < 3;
      var b := a[3..];
      assert b == body by {
        assert forall k :: 0 <= k < |body| ==> body[k] == '`' by {
          forall k | 0 <= k < |body|
            ensures body[k] == '`'
          {
            assert a[k] == Fence[k];
          }
        }
        assert |b| == |body|;
        forall k | 0 <= k < |b|
          ensures b[k] == body[k]
        {
          assert b[k] == a[k + 3];
        }
      }
      assert !EndsWith(b, Fence);
    } else {
      assert a[..|a| - 3] == body;
    }
  }

  /**
   * Where the two cleaners agree: the senior engine's `clean_code_block` is this coder's checks
   * followed by a strip, unless a "```python" prefix is followed by another "```", which only the
   * coder removes as well.
   */
  lemma EngineIsStrippedCoder(text: string)
    requires !(StartsWith(text, PythonFence) && StartsWith(text[9..], Fence))
    ensures CleanCodeBlock(text) == Strip(StripFences(text))
  {
    PythonFenceIsFenced(text);
    assert StripFences(text) == Unfence(text);
  }

  /** Where they differ: the coder keeps surrounding whitespace, and drops a second leading fence. */
  lemma CoderDiffersFromEngine()
    ensures StripFences(" ") == " " && CleanCodeBlock(" ") != " "
    ensures StripFences("```python```x") == "x" && CleanCodeBlock("```python```x") == "```x"
  {
    StripFencesUnfenced(" ");
    CleanTrimmed(" ");
    CoderDropsInnerFence();
    EngineKeepsInnerFence();
  }

  lemma CoderDropsInnerFence()
    ensures StripFences("```python```x") == "x"
  {
    var t := "```python```x";
    assert t[..9] == PythonFence && t[9..] == "```x";
    assert "```x"[..3] == Fence && "```x"[3..] == "x";
  }

  lemma EngineKeepsInnerFence()
    ensures CleanCodeBlock("```python```x") == "```x"
  {
    var t := "```python```x";
    assert t[..9] == PythonFence && t[9..] == "```x";
    assert "```x"[1..] == "``x";
    assert Unfence(t) == "```x";
    StripBare("```x");
  }

  /** Text with no whitespace at either end is left as it is by `strip`. */
  lemma StripBare(s: string)
    requires s != [] && !IsSpace(s[0]) && !IsSpace(s[|s| - 1])
    ensures Strip(s) == s
  {
  }

  function CoderSuccessMessage(filePath: string): string {
    "✅ Edited " + Paths.BaseName(filePath) + " (Backup: .bak)"
  }

  function AiErrorMessage(message: string): string {
    "❌ AI Error: " + message
  }

  /** `CoderPrompt` as a value the edit is parameterised by. */
  const CoderPromptOf: (string, string) -> string := (instruction: string, code: string) => CoderPrompt(instruction, code)

  /**
   * The effect of one direct edit of `filePath`, asking the model `promptOf(instruction, content)`;
   * `apply_ai_edit` is this with `CoderPromptOf`.
   */
  function DirectEdit(files: map<string, string>, filePath: string, instruction: string,
                      promptOf: (string, string) -> string, model: CoderModel): EditOutcome {
    if filePath !in files then EditOutcome(NotFoundMessage(filePath), files, [])
    else
      match model(promptOf(instruction, files[filePath]))
      case Raised(m) => EditOutcome(AiErrorMessage(m), files, [])
      case Text(raw) =>
        var newCode := StripFences(raw);
        EditOutcome(CoderSuccessMessage(filePath),
          files[BackupPath(filePath) := files[filePath]][filePath := newCode],
          [Op.Copy(filePath, BackupPath(filePath)), Op.Write(filePath, newCode)])
  }

  /** The effect of `apply_ai_edit(file_path, instruction)`. */
  function AiEdit(files: map<string, string>, filePath: string, instruction: string, model: CoderModel): EditOutcome {
    DirectEdit(files, filePath, instruction, CoderPromptOf, model)
  }

  /** `apply_ai_edit` with the prompt builder as a parameter. */
  method DirectEditOn(disk: Disk, filePath: string, instruction: string,
                      promptOf: (string, string) -> string, model: CoderModel) returns (result: string)
    modifies disk
    ensures var e := DirectEdit(old(disk.files), filePath, instruction, promptOf, model);
      result == e.message && disk.files == e.files && disk.log == old(disk.log) + e.ops
  {
    if !disk.Exists(filePath) {
      return NotFoundMessage(filePath);
    }
    var code := disk.Read(filePath);
    var reply := model(promptOf(instruction, code));
    if reply.Raised? {
      return AiErrorMessage(reply.message);
    }
    var newCode := StripFences(reply.content);
    var backupPath := BackupPath(filePath);
    disk.Copy(filePath, backupPath);
    disk.Write(filePath, newCode);
    assert disk.log == old(disk.log) + [Op.Copy(filePath, backupPath), Op.Write(filePath, newCode)];
    result := CoderSuccessMessage(filePath);
  }

  /** `apply_ai_edit(file_path, instruction)`. */
  method ApplyAiEdit(disk: Disk, filePath: string, instruction: string, model: CoderModel) returns (result: string)
    modifies disk
    ensures var e := AiEdit(old(disk.files), filePath, instruction, model);
      result == e.message && disk.files == e.files && disk.log == old(disk.log) + e.ops
  {
    result := DirectEditOn(disk, filePath, instruction, CoderPromptOf, model);
  }

  /** A missing file: "File not found: <path>" and nothing written. */
  lemma AiEditMissingFile(files: map<string, string>, filePath: string, instruction: string,
                           promptOf: (string, string) -> string, model: CoderModel)
    requires filePath !in files
    ensures var e := DirectEdit(files, filePath, instruction, promptOf, model);
      e.message == "File not found: " + filePath && e.files == files && e.ops == []
  {
  }

  /**
   * Nothing is backed up or written unless the model replied: a model error returns
   * "❌ AI Error: ..." and leaves the tree as it was; a reply backs up the original content,
   * then writes exactly the stripped reply.
   */
  lemma AiEditBackupAfterReply(files: map<string, string>, filePath: string, instruction: string,
                                promptOf: (string, string) -> string, model: CoderModel)
    requires filePath in files
    ensures var e := DirectEdit(files, filePath, instruction, promptOf, model);
      var reply := model(promptOf(instruction, files[filePath]));
      && (reply.Raised? ==> e.message == "❌ AI Error: " + reply.message && e.files == files && e.ops == [])
      && (reply.Text? ==>
            && e.ops == [Op.Copy(filePath, BackupPath(filePath)), Op.Write(filePath, StripFences(reply.content))]
            && e.files[BackupPath(filePath)] == files[filePath]
            && e.files[filePath] == StripFences(reply.content)
            && forall p :: p in files && p != filePath && p != BackupPath(filePath) ==> e.files[p] == files[p])
  {
    assert |BackupPath(filePath)| == |filePath| + 4;
  }

  /** The prompt quotes the instruction and the file's current content. */
  lemma CoderPromptCarries(instruction: string, code: string)
    ensures Contains(CoderPrompt(instruction, code), instruction) && Contains(CoderPrompt(instruction, code), code)
  {
    var p1 := "\n    You are a Senior Python Developer.\n    \n    USER INSTRUCTION: ";
    var p2 := "\n    \n    FILE CONTENT:\n    ";
    var p3 := "\n    \n    Output the FULL modified file content. Do not use Markdown blocks (```). Just raw code.\n    ";
    assert CoderPrompt(instruction, code) == p1 + instruction + (p2 + code + p3);
    ContainsInfix(p1, instruction, p2 + code + p3);
    assert CoderPrompt(instruction, code) == (p1 + instruction + p2) + code + p3;
    ContainsInfix(p1 + instruction + p2, code, p3);
  }

  /** The file the coder edits: only the first dotted word is tried, and only if it exists. */
  function CoderTarget(files: map<string, string>, title: string, notes: string): Option<string> {
    match FirstWithDot(Words(title + " " + notes))
    case None => None
    case Some(w) =>
      var candidate := Paths.Join(ProjectBaseDir, w);
      if candidate in files && candidate != "" then Some(candidate) else None
  }

  /** What the per-task body of `run_agent` did, and the exception that escaped it. */
  datatype CoderStep = CoderStep(files: map<string, string>, ops: seq<Op>, queued: seq<QueueOp>, error: Option<string>)

  /**
   * The per-task body of `run_agent`'s loop, the task service answering the completion with
   * `failure`: a raising completion is not recorded and escapes the body.
   */
  function CoderTaskSpec(files: map<string, string>, listId: string, task: Task, model: CoderModel, failure: Option<string>): CoderStep {
    match CoderTarget(files, task.title, task.notes)
    case None => CoderStep(files, [], [], None)
    case Some(path) =>
      var e := AiEdit(files, path, task.title, model);
      CoderStep(e.files, e.ops, Carried(QueueOp.Complete(task.id, Some(listId)), failure), failure)
  }

  /** The per-task body of `run_agent`'s loop. */
  method RunAgentTask(disk: Disk, queue: TaskQueue, listId: string, task: Task, model: CoderModel, failure: Option<string>)
    returns (raised: Option<string>)
    modifies disk, queue
    ensures var s := CoderTaskSpec(old(disk.files), listId, task, model, failure);
      disk.files == s.files && disk.log == old(disk.log) + s.ops && queue.ops == old(queue.ops) + s.queued
      && raised == s.error
  {
    var target := CoderTarget(disk.files, task.title, task.notes);
    raised := None;
    if target.Some? {
      var result := ApplyAiEdit(disk, target.value, task.title, model);
      raised := queue.Complete(task.id, Some(listId), failure);
    }
  }

  /**
   * The coder asks to complete a task exactly when a target file was found, whatever the edit's
   * result (a model error included); the request is recorded unless the service raises, and then
   * its exception escapes. An unmatched task is left pending and untouched.
   */
  lemma CoderCompletesIffFound(files: map<string, string>, listId: string, task: Task, model: CoderModel, failure: Option<string>)
    ensures var s := CoderTaskSpec(files, listId, task, model, failure); var t := CoderTarget(files, task.title, task.notes);
      && (t.Some? && failure.None? <==> s.queued == [QueueOp.Complete(task.id, Some(listId))])
      && (t.Some? ==> s.error == failure)
      && (t.None? ==> s.files == files && s.ops == [] && s.queued == [] && s.error == None)
      && |s.queued| <= 1
  {
  }

  /** Only the first dotted word counts: if it names no existing file, the task is unmatched. */
  lemma CoderTriesOnlyFirstWord(files: map<string, string>, title: string, notes: string)
    ensures var t := CoderTarget(files, title, notes); var first := FirstWithDot(Words(title + " " + notes));
      && (t.Some? <==> first.Some? && Paths.Join(ProjectBaseDir, first.value) in files)
      && (t.Some? ==> t.value == Paths.Join(ProjectBaseDir, first.value))
  {
    var first := FirstWithDot(Words(title + " " + notes));
    if first.Some? {
      assert |Paths.Join(ProjectBaseDir, first.value)| > 0;
    }
  }

  /**
   * Unlike the FinLivo agent, the coder has no "[FAILED]" skip: a marked task with a file is edited
   * and completed again.
   */
  lemma CoderIgnoresFailedMarker(files: map<string, string>, listId: string, task: Task, model: CoderModel, failure: Option<string>)
    requires StartsWith(task.title, "[FAILED]") && CoderTarget(files, task.title, task.notes).Some?
    ensures var s := CoderTaskSpec(files, listId, task, model, failure);
      (failure.None? ==> s.queued != []) && s.error == failure
  {
  }

  /** The effect of one task of a pass, given the tree, the task and its position. */
  type CoderStepFn = (map<string, string>, Task, nat) -> CoderStep

  /**
   * The tasks of a pass from position `i` on, in order, each step seeing the tree the previous ones
   * left; an exception ends the pass (the `except` around `run_agent`'s loop body).
   */
  function CoderPassFrom(step: CoderStepFn, files: map<string, string>, tasks: seq<Task>, i: nat): CoderStep
    requires i <= |tasks|
    decreases |tasks| - i
  {
    if i == |tasks| then CoderStep(files, [], [], None)
    else
      var s := step(files, tasks[i], i);
      if s.error.Some? then s
      else
        var rest := CoderPassFrom(step, s.files, tasks, i + 1);
        CoderStep(rest.files, s.ops + rest.ops, s.queued + rest.queued, rest.error)
  }

  /**
   * The per-task body as the step of a pass; `models(j)` answers the edit of task `j`, and
   * `services(j)` the completion asked for it.
   */
  function CoderStepOf(listId: string, models: nat -> CoderModel, services: nat -> Option<string>): CoderStepFn {
    (files: map<string, string>, task: Task, j: nat) => CoderTaskSpec(files, listId, task, models(j), services(j))
  }

  /** The `for` loop of `run_agent` over the fetched tasks. */
  function CoderPass(files: map<string, string>, listId: string, tasks: seq<Task>, models: nat -> CoderModel,
                     services: nat -> Option<string>): CoderStep {
    CoderPassFrom(CoderStepOf(listId, models, services), files, tasks, 0)
  }

  function StepsAfter(ops: seq<Op>, queued: seq<QueueOp>, c: CoderStep): CoderStep {
    CoderStep(c.files, ops + c.ops, queued + c.queued, c.error)
  }

  lemma CoderPassStep(step: CoderStepFn, files: map<string, string>, tasks: seq<Task>, i: nat,
                      ops: seq<Op>, queued: seq<QueueOp>, whole: CoderStep)
    requires i < |tasks| && whole == StepsAfter(ops, queued, CoderPassFrom(step, files, tasks, i))
    ensures var s := step(files, tasks[i], i);
      && (s.error.Some? ==> whole == CoderStep(s.files, ops + s.ops, queued + s.queued, s.error))
      && (s.error.None? ==> whole == StepsAfter(ops + s.ops, queued + s.queued, CoderPassFrom(step, s.files, tasks, i + 1)))
  {
    var s := step(files, tasks[i], i);
    if s.error.None? {
      var rest := CoderPassFrom(step, s.files, tasks, i + 1);
      AppendAssoc(ops, s.ops, rest.ops);
      AppendAssoc(queued, s.queued, rest.queued);
    }
  }

  /**
   * One pass of `run_agent`'s loop over the fetched tasks, up to the first exception, which is
   * returned (the `except` prints it and sleeps).
   */
  method RunAgentPass(disk: Disk, queue: TaskQueue, listId: string, tasks: seq<Task>, models: nat -> CoderModel,
                      services: nat -> Option<string>) returns (error: Option<string>)
    modifies disk, queue
    ensures var c := CoderPass(old(disk.files), listId, tasks, models, services);
      disk.files == c.files && disk.log == old(disk.log) + c.ops && queue.ops == old(queue.ops) + c.queued
      && error == c.error
  {
    ghost var step := CoderStepOf(listId, models, services);
    ghost var whole := CoderPassFrom(step, disk.files, tasks, 0);
    ghost var ops: seq<Op>, queued: seq<QueueOp> := [], [];
    ghost var log0, queued0 := disk.log, queue.ops;
    var i := 0;
    while i < |tasks|
      invariant 0 <= i <= |tasks|
      invariant whole == StepsAfter(ops, queued, CoderPassFrom(step, disk.files, tasks, i))
      invariant disk.log == log0 + ops && queue.ops == queued0 + queued
    {
      CoderPassStep(step, disk.files, tasks, i, ops, queued, whole);
      ghost var s := step(disk.files, tasks[i], i);
      var raised := RunAgentTask(disk, queue, listId, tasks[i], models(i), services(i));
      AppendAssoc(log0, ops, s.ops);
      AppendAssoc(queued0, queued, s.queued);
      if raised.Some? {
        return raised;
      }
      ops, queued := ops + s.ops, queued + s.queued;
      i := i + 1;
    }
    error := None;
  }

  /** A step that asks at most one completion, for its own task in `listId`, and never a rename. */
  ghost predicate CompletesOwnTask(step: CoderStepFn, listId: string, tasks: seq<Task>, i: nat) {
    forall f, j :: i <= j < |tasks| ==>
      |step(f, tasks[j], j).queued| <= 1 &&
      forall q :: q in step(f, tasks[j], j).queued ==> q == QueueOp.Complete(tasks[j].id, Some(listId))
  }

  lemma {:induction false} PassCompletions(step: CoderStepFn, files: map<string, string>, listId: string, tasks: seq<Task>, i: nat)
    requires i <= |tasks| && CompletesOwnTask(step, listId, tasks, i)
    ensures var c := CoderPassFrom(step, files, tasks, i);
      && |c.queued| <= |tasks| - i
      && forall q :: q in c.queued ==>
           q.Complete? && q.listId == Some(listId) && exists j :: i <= j < |tasks| && q.taskId == tasks[j].id
    decreases |tasks| - i
  {
    if i < |tasks| {
      var s := step(files, tasks[i], i);
      if s.error.None? {
        PassCompletions(step, s.files, listId, tasks, i + 1);
      }
    }
  }

  /**
   * A pass asks at most one completion per task, each for a fetched task, in the watched list;
   * the coder never renames.
   */
  lemma CoderPassCompletions(files: map<string, string>, listId: string, tasks: seq<Task>, models: nat -> CoderModel,
                             services: nat -> Option<string>)
    ensures var c := CoderPass(files, listId, tasks, models, services);
      && |c.queued| <= |tasks|
      && forall q :: q in c.queued ==>
           q.Complete? && q.listId == Some(listId) && exists j :: 0 <= j < |tasks| && q.taskId == tasks[j].id
  {
    var step := CoderStepOf(listId, models, services);
    forall f, j | 0 <= j < |tasks|
      ensures |step(f, tasks[j], j).queued| <= 1
      ensures forall q :: q in step(f, tasks[j], j).queued ==> q == QueueOp.Complete(tasks[j].id, Some(listId))
    {
      CoderCompletesIffFound(f, listId, tasks[j], models(j), services(j));
    }
    PassCompletions(step, files, listId, tasks, 0);
  }

  /**
   * When the first task's completion raises, the pass ends there: the later tasks are neither
   * edited nor completed.
   */
  lemma CoderFailedCompletionEndsPass(files: map<string, string>, listId: string, tasks: seq<Task>,
                                      models: nat -> CoderModel, services: nat -> Option<string>, path: string)
    requires |tasks| > 0 && CoderTarget(files, tasks[0].title, tasks[0].notes) == Some(path)
    requires services(0).Some?
    ensures var c := CoderPass(files, listId, tasks, models, services);
      var e := AiEdit(files, path, tasks[0].title, models(0));
      c == CoderStep(e.files, e.ops, [], services(0))
  {
    CoderCompletesIffFound(files, listId, tasks[0], models(0), services(0));
  }
}
