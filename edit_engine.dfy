/**
 * The edit engine of agents/common/llm.py: back up the target file, then up to `max_retries`
 * times ask the model for a new version, write it, and run the tests; stop at the first pass,
 * and restore the backup when no attempt passed.
 *
 * The model and the test runner are oracles: the i-th query (counting from 0) with a given
 * prompt gets `model(i, prompt)`, the i-th test run gets `tests(i, projectRoot)`.
 */
module EditEngine {
  import opened Wrappers
  import opened Strings
  import Paths
  import opened Disk

  /** SAFE_CONTEXT_LIMIT: how many characters of the project context go into a prompt. */
  const SafeContextLimit: nat := 50000

  /** What `query_groq` gives back: the reply text, or the text of the exception it raised. */
  datatype Reply = Text(content: string) | Raised(message: string)

  /** What `testing.run_tests` gives back: `(success, error_msg)`, or the exception it raised. */
  datatype TestRun = Verdict(passed: bool, errorText: string) | TestRaised(message: string)

  type ModelOracle = (nat, string) -> Reply
  type TestOracle = (nat, string) -> TestRun

  /** The arguments of one `apply_senior_edit` call, with the oracles it talks to. */
  datatype EditCall = EditCall(
    filePath: string, instruction: string, projectContext: string, projectRoot: string,
    maxRetries: int, model: ModelOracle, tests: TestOracle)

  const PythonFence := "```python"
  const Fence := "```"

  /** The fence removal of `clean_code_block`: one leading "```python" (or else one "```"), one trailing "```". */
  function Unfence(text: string): (r: string)
    ensures |r| <= |text|
  {
    var afterLead :=
      if StartsWith(text, PythonFence) then text[9..]
      else if StartsWith(text, Fence) then text[3..]
      else text;
    if EndsWith(afterLead, Fence) then afterLead[..|afterLead| - 3] else afterLead
  }

  /** `clean_code_block`: remove the fences, then strip. */
  function CleanCodeBlock(text: string): string {
    Strip(Unfence(text))
  }

  /** The cleaned candidate is no longer than the reply and carries no surrounding whitespace. */
  lemma CleanTrimmed(text: string)
    ensures var r := CleanCodeBlock(text);
      |r| <= |text| && (r != [] ==> !IsSpace(r[0]) && !IsSpace(r[|r| - 1]))
  {
  }

  lemma PythonFenceIsFenced(text: string)
    ensures StartsWith(text, PythonFence) ==> StartsWith(text, Fence)
  {
    if StartsWith(text, PythonFence) {
      assert text[..3] == text[..9][..3];
    }
  }

  /** A reply with no fence at either end is only stripped of surrounding whitespace. */
  lemma CleanUnfenced(text: string)
    requires !StartsWith(text, Fence) && !EndsWith(text, Fence)
    ensures CleanCodeBlock(text) == Strip(text)
  {
    PythonFenceIsFenced(text);
  }

  /** A "```python" block loses both fences; fences inside the body are left alone. */
  lemma CleanPythonFenced(body: string)
    ensures CleanCodeBlock(PythonFence + body + Fence) == Strip(body)
  {
    var text := PythonFence + body + Fence;
    assert text[..9] == PythonFence;
    assert text[9..] == body + Fence;
    var rest := body + Fence;
    assert rest[|rest| - 3..] == Fence;
    assert rest[..|rest| - 3] == body;
  }

  /** A bare "```" block loses both fences, provided its body does not itself begin with "python". */
  lemma CleanBareFenced(body: string)
    requires !StartsWith(body, "python")
    ensures CleanCodeBlock(Fence + body + Fence) == Strip(body)
  {
    var text := Fence + body + Fence;
    var rest := body + Fence;
    assert text[..3] == Fence;
    assert text[3..] == rest;
    if |text| >= 9 {
      assert text[3..9] == rest[..6];
      if |body| >= 6 {
        assert rest[..6] == body[..6];
      } else {
        assert rest[|body|] == '`';
        assert "python"[|body|] != '`';
      }
    }
    assert !StartsWith(text, PythonFence);
    assert rest[..|rest| - 3] == body;
  }

  /** `project_context[:SAFE_CONTEXT_LIMIT]`: never fails, whatever the length of the context. */
  function TruncateContext(context: string): (r: string)
    ensures |r| == if |context| <= SafeContextLimit then |context| else SafeContextLimit
    ensures r == context[..|r|]
  {
    if |context| <= SafeContextLimit then context else context[..SafeContextLimit]
  }

  /** The "PREVIOUS ERROR" paragraph, empty when `error_context` is "". */
  function ErrorSection(errorContext: string): string {
    if errorContext == "" then "" else "PREVIOUS ERROR (Files reverted, please FIX this): " + errorContext
  }

  /** Newline and the eight spaces that indent every line of the prompt template. */
  const NL := "\n        "

  const PromptPreamble :=
    NL + "You are a SENIOR PYTHON ARCHITECT & TEAM LEADER." + NL
    + NL + "GOAL: Implement the requested feature/fix while ensuring:"
    + NL + "1. NO REGRESSIONS: Do not break existing logic."
    + NL + "2. CLEAN CODE: Strict PEP8, Typing, Docstrings."
    + NL + "3. SOLID PRINCIPLES: Modular, maintainable code." + NL
    + NL + "PROJECT KNOWLEDGE BASE (Truncated to 50000 chars):" + NL

  const PromptResponseFormat :=
    NL + "RESPONSE FORMAT:"
    + NL + "1. First, provide a short <analysis> block:"
    + NL + "   - Explain your plan."
    + NL + "   - List potential risks/dependencies (what other files look at this?)."
    + NL + "   - Confirm you will maintain backward compatibility or update callers."
    + NL + "2. Then, provide the FULL VALID PYTHON CODE for the file." + NL
    + NL + "Do not output markdown backticks (```) around the code if possible, or use standard python blocks."
    + NL

  /** The fixed text of the prompt: what comes before the project context and after the error section. */
  datatype PromptTemplate = PromptTemplate(preamble: string, responseFormat: string)

  const SeniorTemplate := PromptTemplate(PromptPreamble, PromptResponseFormat)

  /** The pieces of the prompt of one attempt, the f-string of llm.py lines 52-79, in order. */
  function PromptPieces(tpl: PromptTemplate, call: EditCall, currentCode: string, errorContext: string): seq<string> {
    [ tpl.preamble,
      TruncateContext(call.projectContext),
      "..." + NL + NL + "TASK INSTRUCTION: ",
      call.instruction,
      NL + NL + "TARGET FILE: " + Paths.BaseName(call.filePath) + NL + "CURRENT CONTENT:" + NL,
      currentCode,
      NL + NL,
      ErrorSection(errorContext),
      NL + tpl.responseFormat ]
  }

  /** The prompt of one attempt; the senior edit uses `SeniorTemplate`. */
  function Prompt(tpl: PromptTemplate, call: EditCall, currentCode: string, errorContext: string): string {
    Concat(PromptPieces(tpl, call, currentCode, errorContext))
  }

  /** The prompt `apply_senior_edit` sends, from the loop variables `current_code` and `error_context`. */
  function SeniorPrompt(call: EditCall, currentCode: string, errorContext: string): string {
    Prompt(SeniorTemplate, call, currentCode, errorContext)
  }

  /** `SeniorPrompt` for one call, as a value the attempt loop is parameterised by. */
  function PromptFor(call: EditCall): (string, string) -> string {
    (currentCode: string, errorContext: string) => SeniorPrompt(call, currentCode, errorContext)
  }

  /** Each prompt quotes the capped context, the instruction, the current code and the error section. */
  lemma PromptCarries(tpl: PromptTemplate, call: EditCall, currentCode: string, errorContext: string)
    ensures var p := Prompt(tpl, call, currentCode, errorContext);
      Contains(p, TruncateContext(call.projectContext)) && Contains(p, call.instruction)
      && Contains(p, currentCode) && Contains(p, ErrorSection(errorContext))
  {
    var ps := PromptPieces(tpl, call, currentCode, errorContext);
    ContainsPiece(ps, 1);
    ContainsPiece(ps, 3);
    ContainsPiece(ps, 5);
    ContainsPiece(ps, 7);
  }

  /** How the attempt loop ended. */
  datatype LoopEnd = Passed(attempt: nat) | Exhausted | Aborted(message: string)

  /**
   * What the attempt loop did: the prompt sent at each attempt, the cleaned candidate written at
   * each attempt that got a reply, and how it ended.
   */
  datatype Trace = Trace(prompts: seq<string>, written: seq<string>, end: LoopEnd)

  /**
   * The attempts from attempt `k + 1` on, with the loop variables `current_code` and `error_context`;
   * `promptOf` builds a prompt and `clean` turns a reply into a candidate (`SeniorEdit` passes the
   * senior prompt and `CleanCodeBlock`).
   */
  function Attempts(call: EditCall, promptOf: (string, string) -> string, clean: string -> string, k: nat, currentCode: string, errorContext: string): Trace
    decreases call.maxRetries - k
  {
    if k >= call.maxRetries then Trace([], [], Exhausted)
    else
      var prompt := promptOf(currentCode, errorContext);
      match call.model(k, prompt)
      case Raised(m) => Trace([prompt], [], Aborted(m))
      case Text(raw) =>
        var candidate := clean(raw);
        match call.tests(k, call.projectRoot)
        case TestRaised(m) => Trace([prompt], [candidate], Aborted(m))
        case Verdict(passed, errorText) =>
          if passed then Trace([prompt], [candidate], Passed(k + 1))
          else
            var rest := Attempts(call, promptOf, clean, k + 1, candidate, errorText);
            Trace([prompt] + rest.prompts, [candidate] + rest.written, rest.end)
  }

  function Prepend(prompts: seq<string>, written: seq<string>, t: Trace): Trace {
    Trace(prompts + t.prompts, written + t.written, t.end)
  }

  function BackupPath(filePath: string): string {
    filePath + ".bak"
  }

  function NotFoundMessage(filePath: string): string {
    "File not found: " + filePath
  }

  function SuccessMessage(filePath: string, attempt: nat): string {
    "✅ Fixed & Verified " + Paths.BaseName(filePath) + " (Attempt " + NatToString(attempt) + ")"
  }

  function FailureMessage(maxRetries: int): string {
    "❌ Failed after " + IntToString(maxRetries) + " questions attempts. Reverted."
  }

  /** The writes of the successive candidates to `filePath`. */
  function Writes(filePath: string, written: seq<string>): (ops: seq<Op>)
    ensures |ops| == |written|
  {
    if written == [] then [] else Writes(filePath, written[..|written| - 1]) + [Op.Write(filePath, written[|written| - 1])]
  }

  /** The loop of one call, started on the file's content before the call. */
  function EditTrace(files: map<string, string>, call: EditCall, promptOf: (string, string) -> string, clean: string -> string): Trace
    requires call.filePath in files
  {
    Attempts(call, promptOf, clean, 0, files[call.filePath], "")
  }

  /** The effect of one `apply_senior_edit` call: its return string, the new tree, and the mutations made. */
  datatype EditOutcome = EditOutcome(message: string, files: map<string, string>, ops: seq<Op>)

  /** One call of the edit procedure, for a given way of building prompts and cleaning replies. */
  function Edit(files: map<string, string>, call: EditCall, promptOf: (string, string) -> string, clean: string -> string): EditOutcome {
    var path := call.filePath;
    if path !in files then EditOutcome(NotFoundMessage(path), files, [])
    else
      var original := files[path];
      var t := EditTrace(files, call, promptOf, clean);
      var backedUp := files[BackupPath(path) := original];
      if t.end.Passed? && t.written != [] then
        EditOutcome(SuccessMessage(path, t.end.attempt), backedUp[path := t.written[|t.written| - 1]],
          [Op.Copy(path, BackupPath(path))] + Writes(path, t.written))
      else
        EditOutcome(FailureMessage(call.maxRetries), backedUp[path := original],
          [Op.Copy(path, BackupPath(path))] + Writes(path, t.written) + [Op.Copy(BackupPath(path), path)])
  }

  /** `apply_senior_edit`: the edit procedure with the senior prompt and `clean_code_block`. */
  function SeniorEdit(files: map<string, string>, call: EditCall): EditOutcome {
    Edit(files, call, PromptFor(call), CleanCodeBlock)
  }

  /** An attempt whose query raised ends the loop with what was written so far. */
  lemma TraceAfterRaise(call: EditCall, promptOf: (string, string) -> string, clean: string -> string, k: nat, currentCode: string, errorContext: string,
                        prompts: seq<string>, written: seq<string>, whole: Trace)
    requires k < call.maxRetries
    requires whole == Prepend(prompts, written, Attempts(call, promptOf, clean, k, currentCode, errorContext))
    requires call.model(k, promptOf(currentCode, errorContext)).Raised?
    ensures whole.end.Aborted? && whole.written == written
  {
    assert whole.written == written + [];
  }

  /** An attempt that got a reply has written its cleaned candidate; the tests decide what follows. */
  lemma TraceAfterReply(call: EditCall, promptOf: (string, string) -> string, clean: string -> string, k: nat, currentCode: string, errorContext: string,
                        prompts: seq<string>, written: seq<string>, whole: Trace)
    requires k < call.maxRetries
    requires whole == Prepend(prompts, written, Attempts(call, promptOf, clean, k, currentCode, errorContext))
    requires call.model(k, promptOf(currentCode, errorContext)).Text?
    ensures var prompt := promptOf(currentCode, errorContext);
      var candidate := clean(call.model(k, prompt).content);
      var run := call.tests(k, call.projectRoot);
      && (run.TestRaised? ==> whole.end.Aborted? && whole.written == written + [candidate])
      && (run.Verdict? && run.passed ==> whole.end == Passed(k + 1) && whole.written == written + [candidate])
      && (run.Verdict? && !run.passed ==>
            whole == Prepend(prompts + [prompt], written + [candidate], Attempts(call, promptOf, clean, k + 1, candidate, run.errorText)))
  {
    var prompt := promptOf(currentCode, errorContext);
    var candidate := clean(call.model(k, prompt).content);
    var run := call.tests(k, call.projectRoot);
    if run.Verdict? && !run.passed {
      PrependPrepend(prompts, written, [prompt], [candidate], Attempts(call, promptOf, clean, k + 1, candidate, run.errorText));
    }
  }

  lemma PrependPrepend(p1: seq<string>, w1: seq<string>, p2: seq<string>, w2: seq<string>, t: Trace)
    ensures Prepend(p1, w1, Prepend(p2, w2, t)) == Prepend(p1 + p2, w1 + w2, t)
  {
    assert p1 + (p2 + t.prompts) == (p1 + p2) + t.prompts;
    assert w1 + (w2 + t.written) == (w1 + w2) + t.written;
  }

  lemma WritesSnoc(filePath: string, written: seq<string>, content: string)
    ensures Writes(filePath, written + [content]) == Writes(filePath, written) + [Op.Write(filePath, content)]
  {
    assert (written + [content])[..|written|] == written;
  }

  lemma EditPassed(files: map<string, string>, call: EditCall, promptOf: (string, string) -> string, clean: string -> string, written: seq<string>, attempt: nat)
    requires call.filePath in files
    requires EditTrace(files, call, promptOf, clean).end == Passed(attempt) && EditTrace(files, call, promptOf, clean).written == written && written != []
    ensures Edit(files, call, promptOf, clean) == EditOutcome(SuccessMessage(call.filePath, attempt),
      files[BackupPath(call.filePath) := files[call.filePath]][call.filePath := written[|written| - 1]],
      [Op.Copy(call.filePath, BackupPath(call.filePath))] + Writes(call.filePath, written))
  {
  }

  lemma EditFailed(files: map<string, string>, call: EditCall, promptOf: (string, string) -> string, clean: string -> string, written: seq<string>)
    requires call.filePath in files
    requires !EditTrace(files, call, promptOf, clean).end.Passed? && EditTrace(files, call, promptOf, clean).written == written
    ensures Edit(files, call, promptOf, clean) == EditOutcome(FailureMessage(call.maxRetries),
      files[BackupPath(call.filePath) := files[call.filePath]][call.filePath := files[call.filePath]],
      [Op.Copy(call.filePath, BackupPath(call.filePath))] + Writes(call.filePath, written)
        + [Op.Copy(BackupPath(call.filePath), call.filePath)])
  {
  }

  lemma UpdateSame(m: map<string, string>, key: string)
    requires key in m
    ensures m[key := m[key]] == m
  {
  }

  lemma UpdateTwice(m: map<string, string>, key: string, first: string, second: string)
    ensures m[key := first][key := second] == m[key := second]
  {
  }

  /** The last candidate written, or the original content when nothing was written. */
  function Latest(original: string, written: seq<string>): string {
    if written == [] then original else written[|written| - 1]
  }

  /**
   * The `for attempt in range(max_retries)` loop of `apply_senior_edit` (llm.py lines 44-108),
   * run on a tree whose target file holds `originalCode`: the attempt that passed, if any.
   * The model and the test runner are pure oracles, so the disk records only the writes; the
   * bound on model queries is proved on the specification's `prompts` (`AttemptsBounded`).
   */
  method AttemptLoop(disk: Disk, call: EditCall, promptOf: (string, string) -> string, clean: string -> string, originalCode: string) returns (passed: Option<nat>, ghost written: seq<string>)
    requires call.filePath in disk.files && disk.files[call.filePath] == originalCode
    modifies disk
    ensures var t := Attempts(call, promptOf, clean, 0, originalCode, "");
      && t.written == written
      && (passed.Some? <==> t.end.Passed?)
      && (passed.Some? ==> t.end == Passed(passed.value) && written != [])
    ensures disk.files == old(disk.files)[call.filePath := Latest(originalCode, written)]
    ensures disk.log == old(disk.log) + Writes(call.filePath, written)
  {
    ghost var files0 := disk.files;
    UpdateSame(files0, call.filePath);
    ghost var whole := Attempts(call, promptOf, clean, 0, originalCode, "");
    var currentCode := originalCode;
    var errorContext := "";
    ghost var prompts: seq<string> := [];
    written := [];
    var k: nat := 0;
    while k < call.maxRetries
      invariant whole == Prepend(prompts, written, Attempts(call, promptOf, clean, k, currentCode, errorContext))
      invariant |written| == k && currentCode == Latest(originalCode, written)
      invariant disk.files == files0[call.filePath := currentCode]
      invariant disk.log == old(disk.log) + Writes(call.filePath, written)
      decreases call.maxRetries - k
    {
      var prompt := promptOf(currentCode, errorContext);
      var reply := call.model(k, prompt);
      if reply.Raised? {
        TraceAfterRaise(call, promptOf, clean, k, currentCode, errorContext, prompts, written, whole);
        return None, written;
      }
      var newCode := clean(reply.content);
      disk.Write(call.filePath, newCode);
      UpdateTwice(files0, call.filePath, currentCode, newCode);
      WritesSnoc(call.filePath, written, newCode);
      AppendAssoc(old(disk.log), Writes(call.filePath, written), [Op.Write(call.filePath, newCode)]);
      TraceAfterReply(call, promptOf, clean, k, currentCode, errorContext, prompts, written, whole);
      currentCode := newCode;
      written := written + [newCode];
      var run := call.tests(k, call.projectRoot);
      if run.TestRaised? {
        return None, written;
      }
      if run.passed {
        return Some(k + 1), written;
      }
      prompts := prompts + [prompt];
      errorContext := run.errorText;
      k := k + 1;
    }
    passed := None;
  }

  /** `apply_senior_edit(file_path, instruction, project_context, project_root, max_retries)`. */
  method ApplySeniorEdit(disk: Disk, filePath: string, instruction: string, projectContext: string,
                         projectRoot: string, maxRetries: int, model: ModelOracle, tests: TestOracle)
    returns (result: string)
    modifies disk
    ensures var e := SeniorEdit(old(disk.files),
      EditCall(filePath, instruction, projectContext, projectRoot, maxRetries, model, tests));
      result == e.message && disk.files == e.files && disk.log == old(disk.log) + e.ops
  {
    var call := EditCall(filePath, instruction, projectContext, projectRoot, maxRetries, model, tests);
    if !disk.Exists(filePath) {
      return NotFoundMessage(filePath);
    }
    var originalCode := disk.Read(filePath);
    var backupPath := BackupPath(filePath);
    assert |backupPath| == |filePath| + 4;
    disk.Copy(filePath, backupPath);
    ghost var files0, log0 := disk.files, disk.log;
    var passed, written := AttemptLoop(disk, call, PromptFor(call), CleanCodeBlock, originalCode);
    AppendAssoc(old(disk.log), [Op.Copy(filePath, backupPath)], Writes(filePath, written));
    if passed.Some? {
      EditPassed(old(disk.files), call, PromptFor(call), CleanCodeBlock, written, passed.value);
      return SuccessMessage(filePath, passed.value);
    }
    disk.Copy(backupPath, filePath);
    UpdateTwice(files0, filePath, Latest(originalCode, written), originalCode);
    AppendAssoc(old(disk.log), [Op.Copy(filePath, backupPath)] + Writes(filePath, written), [Op.Copy(backupPath, filePath)]);
    EditFailed(old(disk.files), call, PromptFor(call), CleanCodeBlock, written);
    result := FailureMessage(maxRetries);
  }
}
