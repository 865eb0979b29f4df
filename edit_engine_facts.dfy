/**
 * What the edit engine of agents/common/llm.py promises, proved about its specification
 * (`Attempts`, `SeniorEdit`) for every model and test oracle.
 */
module EditEngineFacts {
  import opened Wrappers
  import opened Strings
  import opened Disk
  import opened EditEngine

  /** `len(range(1, n + 1))`: how many attempts `max_retries = n` allows. */
  function AttemptBudget(n: int): nat {
    if n < 0 then 0 else n
  }

  /**
   * The loop makes at most `max_retries - k` attempts; every attempt that got a reply wrote one
   * candidate; a pass names the attempt it happened at; running out means every attempt ran.
   */
  lemma {:induction false} AttemptsShape(call: EditCall, promptOf: (string, string) -> string, clean: string -> string, k: nat,
                                         currentCode: string, errorContext: string)
    ensures var t := Attempts(call, promptOf, clean, k, currentCode, errorContext);
      && |t.prompts| <= AttemptBudget(call.maxRetries - k)
      && |t.written| <= |t.prompts| <= |t.written| + 1
      && (|t.prompts| == |t.written| + 1 ==> t.end.Aborted?)
      && (t.end.Passed? ==> t.end.attempt == k + |t.written| && t.written != [] && |t.written| == |t.prompts|)
      && (t.end.Exhausted? ==> |t.prompts| == AttemptBudget(call.maxRetries - k) && |t.written| == |t.prompts|)
    decreases call.maxRetries - k
  {
    if k < call.maxRetries {
      var prompt := promptOf(currentCode, errorContext);
      match call.model(k, prompt)
      case Raised(_) =>
      case Text(raw) =>
        match call.tests(k, call.projectRoot)
        case TestRaised(_) =>
        case Verdict(passed, errorText) =>
          if !passed {
            AttemptsShape(call, promptOf, clean, k + 1, clean(raw), errorText);
          }
    }
  }

  /** One failed attempt: the trace is that attempt followed by the trace of the rest. */
  lemma FailedStep(call: EditCall, promptOf: (string, string) -> string, clean: string -> string, k: nat,
                   currentCode: string, errorContext: string)
    requires k < call.maxRetries
    requires call.model(k, promptOf(currentCode, errorContext)).Text?
    requires call.tests(k, call.projectRoot).Verdict? && !call.tests(k, call.projectRoot).passed
    ensures var t := Attempts(call, promptOf, clean, k, currentCode, errorContext);
      var candidate := clean(call.model(k, promptOf(currentCode, errorContext)).content);
      var rest := Attempts(call, promptOf, clean, k + 1, candidate, call.tests(k, call.projectRoot).errorText);
      && t.prompts == [promptOf(currentCode, errorContext)] + rest.prompts
      && t.written == [candidate] + rest.written
      && t.end == rest.end
  {
  }

  /** Whether the first attempt ends the loop, and how. */
  predicate FailedFirst(call: EditCall, promptOf: (string, string) -> string, clean: string -> string, k: nat,
                        currentCode: string, errorContext: string)
  {
    && k < call.maxRetries
    && call.model(k, promptOf(currentCode, errorContext)).Text?
    && call.tests(k, call.projectRoot).Verdict? && !call.tests(k, call.projectRoot).passed
  }

  /** The first prompt is built from the loop's starting code and error context. */
  lemma FirstPrompt(call: EditCall, promptOf: (string, string) -> string, clean: string -> string, k: nat,
                    currentCode: string, errorContext: string)
    ensures var t := Attempts(call, promptOf, clean, k, currentCode, errorContext);
      (t.prompts != [] <==> k < call.maxRetries)
      && (t.prompts != [] ==> t.prompts[0] == promptOf(currentCode, errorContext))
  {
  }

  /**
   * Each later prompt is built from the previous candidate and the error text of the test run
   * that rejected it.
   */
  lemma {:induction false} PromptsChained(call: EditCall, promptOf: (string, string) -> string, clean: string -> string, k: nat,
                                          currentCode: string, errorContext: string, i: nat)
    requires var t := Attempts(call, promptOf, clean, k, currentCode, errorContext); 0 < i < |t.prompts|
    ensures var t := Attempts(call, promptOf, clean, k, currentCode, errorContext);
      i <= |t.written| && call.tests(k + i - 1, call.projectRoot).Verdict?
      && t.prompts[i] == promptOf(t.written[i - 1], call.tests(k + i - 1, call.projectRoot).errorText)
    decreases i
  {
    var t := Attempts(call, promptOf, clean, k, currentCode, errorContext);
    assert FailedFirst(call, promptOf, clean, k, currentCode, errorContext);
    FailedStep(call, promptOf, clean, k, currentCode, errorContext);
    var candidate := clean(call.model(k, promptOf(currentCode, errorContext)).content);
    var errorText := call.tests(k, call.projectRoot).errorText;
    var rest := Attempts(call, promptOf, clean, k + 1, candidate, errorText);
    if i == 1 {
      FirstPrompt(call, promptOf, clean, k + 1, candidate, errorText);
    } else {
      PromptsChained(call, promptOf, clean, k + 1, candidate, errorText, i - 1);
      assert t.prompts[i] == rest.prompts[i - 1] && t.written[i - 1] == rest.written[i - 2];
    }
  }

  /** Each candidate written is the cleaned reply to the prompt of its own attempt. */
  lemma {:induction false} CandidateIsCleanedReply(call: EditCall, promptOf: (string, string) -> string, clean: string -> string, k: nat,
                                                   currentCode: string, errorContext: string, i: nat)
    requires var t := Attempts(call, promptOf, clean, k, currentCode, errorContext); i < |t.written|
    ensures var t := Attempts(call, promptOf, clean, k, currentCode, errorContext);
      i < |t.prompts| && call.model(k + i, t.prompts[i]).Text?
      && t.written[i] == clean(call.model(k + i, t.prompts[i]).content)
    decreases i
  {
    if i > 0 {
      var t := Attempts(call, promptOf, clean, k, currentCode, errorContext);
      assert FailedFirst(call, promptOf, clean, k, currentCode, errorContext);
      FailedStep(call, promptOf, clean, k, currentCode, errorContext);
      var candidate := clean(call.model(k, promptOf(currentCode, errorContext)).content);
      var errorText := call.tests(k, call.projectRoot).errorText;
      var rest := Attempts(call, promptOf, clean, k + 1, candidate, errorText);
      CandidateIsCleanedReply(call, promptOf, clean, k + 1, candidate, errorText, i - 1);
      assert t.prompts[i] == rest.prompts[i - 1] && t.written[i] == rest.written[i - 1];
    }
  }

  /** Every attempt followed by another had its candidate rejected by its test run. */
  lemma {:induction false} EarlierCandidatesFailed(call: EditCall, promptOf: (string, string) -> string, clean: string -> string, k: nat,
                                                   currentCode: string, errorContext: string, i: nat)
    requires var t := Attempts(call, promptOf, clean, k, currentCode, errorContext); i + 1 < |t.prompts|
    ensures call.tests(k + i, call.projectRoot).Verdict? && !call.tests(k + i, call.projectRoot).passed
    decreases i
  {
    assert FailedFirst(call, promptOf, clean, k, currentCode, errorContext);
    if i > 0 {
      FailedStep(call, promptOf, clean, k, currentCode, errorContext);
      var candidate := clean(call.model(k, promptOf(currentCode, errorContext)).content);
      var errorText := call.tests(k, call.projectRoot).errorText;
      EarlierCandidatesFailed(call, promptOf, clean, k + 1, candidate, errorText, i - 1);
    }
  }

  /** A pass is the verdict of the last candidate's own test run. */
  lemma {:induction false} PassedIsLastVerdict(call: EditCall, promptOf: (string, string) -> string, clean: string -> string, k: nat,
                                               currentCode: string, errorContext: string)
    requires Attempts(call, promptOf, clean, k, currentCode, errorContext).end.Passed?
    ensures var t := Attempts(call, promptOf, clean, k, currentCode, errorContext);
      t.end.attempt >= 1 && call.tests(t.end.attempt - 1, call.projectRoot).Verdict? && call.tests(t.end.attempt - 1, call.projectRoot).passed
    decreases call.maxRetries - k
  {
    if FailedFirst(call, promptOf, clean, k, currentCode, errorContext) {
      FailedStep(call, promptOf, clean, k, currentCode, errorContext);
      var candidate := clean(call.model(k, promptOf(currentCode, errorContext)).content);
      PassedIsLastVerdict(call, promptOf, clean, k + 1, candidate, call.tests(k, call.projectRoot).errorText);
    }
  }

  /** Running out of attempts means the last candidate was rejected too. */
  lemma {:induction false} ExhaustedLastFailed(call: EditCall, promptOf: (string, string) -> string, clean: string -> string, k: nat,
                                               currentCode: string, errorContext: string)
    requires var t := Attempts(call, promptOf, clean, k, currentCode, errorContext); t.end.Exhausted? && t.written != []
    ensures var t := Attempts(call, promptOf, clean, k, currentCode, errorContext);
      call.tests(k + |t.written| - 1, call.projectRoot).Verdict? && !call.tests(k + |t.written| - 1, call.projectRoot).passed
    decreases call.maxRetries - k
  {
    assert FailedFirst(call, promptOf, clean, k, currentCode, errorContext);
    FailedStep(call, promptOf, clean, k, currentCode, errorContext);
    var candidate := clean(call.model(k, promptOf(currentCode, errorContext)).content);
    var errorText := call.tests(k, call.projectRoot).errorText;
    if Attempts(call, promptOf, clean, k + 1, candidate, errorText).written != [] {
      ExhaustedLastFailed(call, promptOf, clean, k + 1, candidate, errorText);
    }
  }

  /**
   * An abort is an exception from the model (the last prompt got no candidate) or from the test
   * run of the last candidate.
   */
  lemma {:induction false} AbortedCause(call: EditCall, promptOf: (string, string) -> string, clean: string -> string, k: nat,
                                        currentCode: string, errorContext: string)
    requires Attempts(call, promptOf, clean, k, currentCode, errorContext).end.Aborted?
    ensures var t := Attempts(call, promptOf, clean, k, currentCode, errorContext);
      var n := |t.written|;
      n < |t.prompts| ==> call.model(k + n, t.prompts[n]).Raised?
    ensures var t := Attempts(call, promptOf, clean, k, currentCode, errorContext);
      var n := |t.written|;
      n == |t.prompts| ==> n > 0 && call.tests(k + n - 1, call.projectRoot).TestRaised?
    decreases call.maxRetries - k
  {
    AttemptsShape(call, promptOf, clean, k, currentCode, errorContext);
    if FailedFirst(call, promptOf, clean, k, currentCode, errorContext) {
      FailedStep(call, promptOf, clean, k, currentCode, errorContext);
      var candidate := clean(call.model(k, promptOf(currentCode, errorContext)).content);
      var errorText := call.tests(k, call.projectRoot).errorText;
      var t := Attempts(call, promptOf, clean, k, currentCode, errorContext);
      var rest := Attempts(call, promptOf, clean, k + 1, candidate, errorText);
      AbortedCause(call, promptOf, clean, k + 1, candidate, errorText);
      AttemptsShape(call, promptOf, clean, k + 1, candidate, errorText);
      if |t.written| < |t.prompts| {
        assert t.prompts[|t.written|] == rest.prompts[|rest.written|];
      }
    }
  }

  /** The number of writes to `path` among `ops`. */
  function WriteCount(ops: seq<Op>, path: string): nat {
    if ops == [] then 0
    else WriteCount(ops[..|ops| - 1], path) + (if ops[|ops| - 1].Write? && ops[|ops| - 1].path == path then 1 else 0)
  }

  lemma {:induction false} WriteCountAppend(a: seq<Op>, b: seq<Op>, path: string)
    ensures WriteCount(a + b, path) == WriteCount(a, path) + WriteCount(b, path)
    decreases |b|
  {
    if b != [] {
      var c := a + b;
      assert c[..|c| - 1] == a + b[..|b| - 1];
      assert c[|c| - 1] == b[|b| - 1];
      assert WriteCount(c, path) == WriteCount(a + b[..|b| - 1], path) + WriteCount(b, path) - WriteCount(b[..|b| - 1], path);
      WriteCountAppend(a, b[..|b| - 1], path);
    } else {
      assert a + b == a;
    }
  }

  /** `Writes` is one write per candidate, in order, all to the same path. */
  lemma {:induction false} WritesAt(filePath: string, written: seq<string>, j: nat)
    requires j < |written|
    ensures Writes(filePath, written)[j] == Op.Write(filePath, written[j])
    decreases |written|
  {
    if j < |written| - 1 {
      WritesAt(filePath, written[..|written| - 1], j);
    }
  }

  lemma {:induction false} WriteCountWrites(filePath: string, written: seq<string>)
    ensures WriteCount(Writes(filePath, written), filePath) == |written|
    decreases |written|
  {
    if written != [] {
      var w := Writes(filePath, written);
      assert w[..|w| - 1] == Writes(filePath, written[..|written| - 1]);
      WriteCountWrites(filePath, written[..|written| - 1]);
    }
  }

  /** The backup path differs from the live path, so the backup survives every write. */
  lemma BackupIsElsewhere(filePath: string)
    ensures BackupPath(filePath) != filePath
  {
    assert |BackupPath(filePath)| == |filePath| + 4;
  }

  /** A missing file: "File not found: <path>", and the tree is neither read, backed up nor written. */
  lemma MissingFileUntouched(files: map<string, string>, call: EditCall, promptOf: (string, string) -> string, clean: string -> string)
    requires call.filePath !in files
    ensures var e := Edit(files, call, promptOf, clean);
      e.message == "File not found: " + call.filePath && e.files == files && e.ops == []
  {
  }

  /** The mutations of a call on an existing file: the backup, the candidate writes, and maybe the restore. */
  function EditOps(path: string, written: seq<string>, restore: bool): seq<Op> {
    [Op.Copy(path, BackupPath(path))] + Writes(path, written)
      + (if restore then [Op.Copy(BackupPath(path), path)] else [])
  }

  lemma EditOpsShape(path: string, written: seq<string>, restore: bool)
    ensures var ops := EditOps(path, written, restore);
      && ops[0] == Op.Copy(path, BackupPath(path))
      && forall j :: 1 <= j < |ops| ==>
           (ops[j].Write? && ops[j].path == path) || (j == |ops| - 1 && ops[j] == Op.Copy(BackupPath(path), path))
  {
    var ops := EditOps(path, written, restore);
    var w := Writes(path, written);
    forall j | 1 <= j < |ops|
      ensures (ops[j].Write? && ops[j].path == path) || (j == |ops| - 1 && ops[j] == Op.Copy(BackupPath(path), path))
    {
      if j - 1 < |w| {
        WritesAt(path, written, j - 1);
        assert ops[j] == w[j - 1];
      }
    }
  }

  /**
   * The first mutation copies the live file to its backup; no later mutation touches the backup,
   * so the backup ends holding the original content; every later mutation writes the live file,
   * except a final restore from the backup.
   */
  lemma BackupFirstAndOnce(files: map<string, string>, call: EditCall, promptOf: (string, string) -> string, clean: string -> string)
    requires call.filePath in files
    ensures var e := Edit(files, call, promptOf, clean); var path := call.filePath;
      && e.ops != [] && e.ops[0] == Op.Copy(path, BackupPath(path))
      && BackupPath(path) in e.files && e.files[BackupPath(path)] == files[path]
      && forall j :: 1 <= j < |e.ops| ==>
           (e.ops[j].Write? && e.ops[j].path == path) || (j == |e.ops| - 1 && e.ops[j] == Op.Copy(BackupPath(path), path))
  {
    var path := call.filePath;
    var t := EditTrace(files, call, promptOf, clean);
    BackupIsElsewhere(path);
    var restore := !(t.end.Passed? && t.written != []);
    assert Edit(files, call, promptOf, clean).ops == EditOps(path, t.written, restore);
    EditOpsShape(path, t.written, restore);
  }

  /** At most `max_retries` model queries, and at most `max_retries` writes of the live file. */
  lemma AttemptsBounded(files: map<string, string>, call: EditCall, promptOf: (string, string) -> string, clean: string -> string)
    requires call.filePath in files
    ensures |EditTrace(files, call, promptOf, clean).prompts| <= AttemptBudget(call.maxRetries)
    ensures WriteCount(Edit(files, call, promptOf, clean).ops, call.filePath) <= AttemptBudget(call.maxRetries)
  {
    var path := call.filePath;
    var t := EditTrace(files, call, promptOf, clean);
    AttemptsShape(call, promptOf, clean, 0, files[path], "");
    BackupIsElsewhere(path);
    var copy := [Op.Copy(path, BackupPath(path))];
    WriteCountWrites(path, t.written);
    WriteCountAppend(copy, Writes(path, t.written), path);
    WriteCountAppend(copy + Writes(path, t.written), [Op.Copy(BackupPath(path), path)], path);
    assert WriteCount(copy, path) == 0 by {
      assert copy[..0] == [];
    }
    assert WriteCount([Op.Copy(BackupPath(path), path)], path) == 0 by {
      assert [Op.Copy(BackupPath(path), path)][..0] == [];
    }
  }

  /**
   * The first passing test run ends the call: the report names that attempt, the live file holds
   * the cleaned reply of that attempt, that attempt's tests passed and every earlier one failed.
   */
  lemma FirstSuccessStops(files: map<string, string>, call: EditCall, promptOf: (string, string) -> string, clean: string -> string)
    requires call.filePath in files && EditTrace(files, call, promptOf, clean).end.Passed?
    ensures var t := EditTrace(files, call, promptOf, clean); var e := Edit(files, call, promptOf, clean); var n := t.end.attempt;
      && 1 <= n == |t.written| == |t.prompts| <= AttemptBudget(call.maxRetries)
      && e.message == SuccessMessage(call.filePath, n)
      && call.model(n - 1, t.prompts[n - 1]).Text?
      && e.files[call.filePath] == clean(call.model(n - 1, t.prompts[n - 1]).content)
      && call.tests(n - 1, call.projectRoot).Verdict? && call.tests(n - 1, call.projectRoot).passed
      && forall j :: 0 <= j < n - 1 ==> call.tests(j, call.projectRoot).Verdict? && !call.tests(j, call.projectRoot).passed
  {
    var path := call.filePath;
    var t := EditTrace(files, call, promptOf, clean);
    var n := t.end.attempt;
    AttemptsShape(call, promptOf, clean, 0, files[path], "");
    PassedIsLastVerdict(call, promptOf, clean, 0, files[path], "");
    CandidateIsCleanedReply(call, promptOf, clean, 0, files[path], "", n - 1);
    forall j | 0 <= j < n - 1
      ensures call.tests(j, call.projectRoot).Verdict? && !call.tests(j, call.projectRoot).passed
    {
      EarlierCandidatesFailed(call, promptOf, clean, 0, files[path], "", j);
    }
  }

  /**
   * When no attempt passes (all failed, or an exception broke the loop) the live file is restored:
   * it and the backup hold the original content, the last mutation is the restore, and no other
   * file changes.
   */
  lemma RollbackOnFailure(files: map<string, string>, call: EditCall, promptOf: (string, string) -> string, clean: string -> string)
    requires call.filePath in files && !EditTrace(files, call, promptOf, clean).end.Passed?
    ensures var e := Edit(files, call, promptOf, clean); var path := call.filePath;
      && e.message == FailureMessage(call.maxRetries)
      && e.files[path] == files[path] && e.files[BackupPath(path)] == files[path]
      && e.ops[|e.ops| - 1] == Op.Copy(BackupPath(path), path)
      && e.files.Keys == files.Keys + {BackupPath(path)}
      && forall p :: p in files && p != BackupPath(path) ==> e.files[p] == files[p]
  {
    BackupIsElsewhere(call.filePath);
  }

  lemma SuccessMarked(filePath: string, attempt: nat)
    ensures Contains(SuccessMessage(filePath, attempt), "✅")
  {
    ContainsChar(SuccessMessage(filePath, attempt), '✅');
    assert SuccessMessage(filePath, attempt)[0] == '✅';
  }

  lemma FailureUnmarked(maxRetries: int)
    ensures !Contains(FailureMessage(maxRetries), "✅")
  {
    var digits := IntToString(maxRetries);
    var m := FailureMessage(maxRetries);
    ContainsChar(m, '✅');
    assert m == "❌ Failed after " + digits + " questions attempts. Reverted.";
    assert '✅' !in digits;
    assert '✅' !in "❌ Failed after ";
    assert '✅' !in " questions attempts. Reverted.";
  }

  /**
   * The caller reads the report for "✅": for an existing file it is there exactly when an attempt
   * passed.
   */
  lemma ReportMarksSuccess(files: map<string, string>, call: EditCall, promptOf: (string, string) -> string, clean: string -> string)
    requires call.filePath in files
    ensures Contains(Edit(files, call, promptOf, clean).message, "✅") <==> EditTrace(files, call, promptOf, clean).end.Passed?
  {
    var t := EditTrace(files, call, promptOf, clean);
    AttemptsShape(call, promptOf, clean, 0, files[call.filePath], "");
    if t.end.Passed? {
      SuccessMarked(call.filePath, t.end.attempt);
    } else {
      FailureUnmarked(call.maxRetries);
    }
  }

  /**
   * What a failed attempt hands to the next: its prompt is the senior prompt on the failed
   * candidate and that test run's error text, so it quotes both.
   */
  lemma FailureCarriedForward(files: map<string, string>, call: EditCall, promptOf: (string, string) -> string, clean: string -> string, i: nat)
    requires call.filePath in files && 0 < i < |EditTrace(files, call, promptOf, clean).prompts|
    ensures var t := EditTrace(files, call, promptOf, clean);
      && i <= |t.written| && call.tests(i - 1, call.projectRoot).Verdict?
      && !call.tests(i - 1, call.projectRoot).passed
      && var errorText := call.tests(i - 1, call.projectRoot).errorText;
      t.prompts[i] == promptOf(t.written[i - 1], errorText)
  {
    var t := EditTrace(files, call, promptOf, clean);
    var path := call.filePath;
    PromptsChained(call, promptOf, clean, 0, files[path], "", i);
    AttemptsShape(call, promptOf, clean, 0, files[path], "");
    EarlierCandidatesFailed(call, promptOf, clean, 0, files[path], "", i - 1);
  }

  /** The first attempt's prompt is built on the original content and an empty error context. */
  lemma FirstAttemptOnOriginal(files: map<string, string>, call: EditCall, promptOf: (string, string) -> string, clean: string -> string)
    requires call.filePath in files && 0 < call.maxRetries
    ensures var t := EditTrace(files, call, promptOf, clean);
      t.prompts != [] && t.prompts[0] == promptOf(files[call.filePath], "")
  {
    FirstPrompt(call, promptOf, clean, 0, files[call.filePath], "");
  }

  /**
   * With the senior prompt, the prompt after a failed attempt quotes the failed candidate as the
   * file's current content and that run's error text under the previous-error heading, next to
   * the capped context and the instruction.
   */
  lemma SeniorRetryPrompt(files: map<string, string>, call: EditCall, i: nat)
    requires call.filePath in files && 0 < i < |EditTrace(files, call, PromptFor(call), CleanCodeBlock).prompts|
    ensures var t := EditTrace(files, call, PromptFor(call), CleanCodeBlock);
      && i <= |t.written| && call.tests(i - 1, call.projectRoot).Verdict?
      && !call.tests(i - 1, call.projectRoot).passed
      && var errorText := call.tests(i - 1, call.projectRoot).errorText;
      && t.prompts[i] == SeniorPrompt(call, t.written[i - 1], errorText)
      && Contains(t.prompts[i], t.written[i - 1])
      && Contains(t.prompts[i], ErrorSection(errorText))
      && Contains(t.prompts[i], TruncateContext(call.projectContext))
      && Contains(t.prompts[i], call.instruction)
  {
    var t := EditTrace(files, call, PromptFor(call), CleanCodeBlock);
    FailureCarriedForward(files, call, PromptFor(call), CleanCodeBlock, i);
    PromptCarries(SeniorTemplate, call, t.written[i - 1], call.tests(i - 1, call.projectRoot).errorText);
  }

  /** With the senior prompt, the first attempt quotes the original content and has no error section. */
  lemma SeniorFirstPrompt(files: map<string, string>, call: EditCall)
    requires call.filePath in files && 0 < call.maxRetries
    ensures var t := EditTrace(files, call, PromptFor(call), CleanCodeBlock);
      && t.prompts != [] && t.prompts[0] == SeniorPrompt(call, files[call.filePath], "")
      && ErrorSection("") == ""
      && Contains(t.prompts[0], files[call.filePath])
  {
    FirstAttemptOnOriginal(files, call, PromptFor(call), CleanCodeBlock);
    PromptCarries(SeniorTemplate, call, files[call.filePath], "");
  }
}
