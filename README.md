# A verified model of the task bot's code-editing agents and handlers

The repository is a Telegram bot that drives Google Calendar and Google Tasks, plus two polling
agents that take tasks from a Google Tasks list and edit a Python project to carry them out. This
project models the core of that system in Dafny and proves what the code promises:

- **Edit engine** (`EditEngine`, `EditEngineFacts`; agents/common/llm.py). `clean_code_block`,
  and `apply_senior_edit` with its backup, its retry loop of model query, write and test run, and
  its restore.
- **FinLivo agent** (`FinLivo`, `FinLivoFacts`, `FinLivoAsWritten`; agents/finlivo/agent.py).
  The file resolver `find_file`, `process_task`, the list-id lookup of `start`, and one pass of
  `loop`.
- **Coder agent** (`Coder`; agents/agent_coder.py). `apply_ai_edit` with its fence checks, and one
  pass of `run_agent`.
- **Task handlers** (`TaskHandlers`; app/handlers/tasks.py). The "New task" wizard over
  `USER_STATE`, the project keyboard built in pairs, the title and list-id parsing of the
  project-selection callback, and the text handler's state transitions.
- **Lists prompt** (`Prompts`; app/services/ai/prompts.py). The section of the system prompt that
  lists task lists, each with a topic hint chosen from its title.
- **Agenda** (`Agenda`; app/handlers/calendar.py). The agenda text: start fallback, time cleanup,
  default summary.
- **Knowledge dump** (`KnowledgeDump`; scripts/prepare_kb.py). The file filter, the dump layout
  and its counters.

Shared modules:

- `Wrappers`: Option and fetch results.
- `Strings`: the Python `str` operations used.
- `Paths`: `basename`, `join` and `splitext`.
- `Disk`: the file tree, with a log of its mutations.
- `TaskModel`: tasks, lists, and a queue of requests to the task service.

The outside world is passed in as oracles, whose answers are parameters:

- the language model is a function from call index and prompt to a reply or an exception;
- the test runner is a function from call index and project root to a verdict or an exception;
- the project outline is a string;
- the task and calendar services' reads are fetch results;
- the task service's answer to each completion or rename is `None` when the request goes
  through, or the message of the exception it raises;
- the clock reading is a string.

The file tree is a map from path to content. A `Disk` object holds it and logs every copy and
write. The task service's mutations (complete, rename) are requests appended to a `TaskQueue`. A
request that raises is not recorded; its exception escapes the task, and the agent's `except`
around the pass ends the pass there.

Two behaviours a reader might not expect, which the model keeps:

- `find_file`'s keyword fallback returns the first dotted word joined to the project directory
  without checking that it exists. `process_task` checks existence afterwards.
- `apply_senior_edit` accepts any `max_retries`. A value below 1 makes no attempt and restores
  the backup at once.

## Model

| member | source | states |
|---|---|---|
| EditEngine.CleanTrimmed | agents/common/llm.py:18-23 | the cleaned candidate is no longer than the reply and has no whitespace at either end |
| EditEngine.CleanUnfenced | agents/common/llm.py:18-23 | a reply with no fence at either end is only stripped |
| EditEngine.CleanPythonFenced | agents/common/llm.py:18-23 | a "```python … ```" block gives back its stripped body |
| EditEngine.CleanBareFenced | agents/common/llm.py:18-23 | a bare "``` … ```" block gives back its stripped body, unless the body starts with "python" |
| EditEngine.TruncateContext | agents/common/llm.py:50-61 | the context is capped at 50000 characters, as a prefix, and never fails |
| EditEngine.PromptCarries | agents/common/llm.py:52-79 | each prompt quotes the capped context, the instruction, the current code and the error section |
| EditEngine.AttemptLoop | agents/common/llm.py:44-108 | the loop's writes are one per candidate in order, the live file ends holding the last candidate, and the result is the attempt that passed |
| EditEngine.ApplySeniorEdit | agents/common/llm.py:25-113 | the returned message, the new tree and the mutation log are those of the edit specification |
| EditEngineFacts.AttemptsShape | agents/common/llm.py:44-108 | at most `max_retries` attempts; each attempt with a reply wrote one candidate; a pass names its attempt; exhaustion means every attempt ran |
| EditEngineFacts.PromptsChained | agents/common/llm.py:101-104 | each later prompt is built from the previous candidate and the error text of the test run that rejected it |
| EditEngineFacts.CandidateIsCleanedReply | agents/common/llm.py:82-94 | each candidate written is the cleaned reply to the prompt of its own attempt |
| EditEngineFacts.EarlierCandidatesFailed | agents/common/llm.py:97-104 | every attempt followed by another had its candidate rejected by its test run |
| EditEngineFacts.PassedIsLastVerdict | agents/common/llm.py:97-100 | a pass is the verdict of the last candidate's own test run |
| EditEngineFacts.AbortedCause | agents/common/llm.py:106-108 | an abort is an exception from the model or from the test run of the last candidate |
| EditEngineFacts.MissingFileUntouched | agents/common/llm.py:30-31 | a missing file returns "File not found: <path>" and the tree is neither read, backed up nor written |
| EditEngineFacts.BackupFirstAndOnce | agents/common/llm.py:34-39 | the first mutation copies the live file to its backup; nothing later touches the backup, which keeps the original; every later mutation writes the live file, except a final restore |
| EditEngineFacts.AttemptsBounded | agents/common/llm.py:44 | at most `max_retries` model queries and at most `max_retries` writes of the live file |
| EditEngineFacts.FirstSuccessStops | agents/common/llm.py:82-100 | the first passing run ends the call: the report names that attempt, the live file holds that attempt's candidate, and every earlier run failed |
| EditEngineFacts.RollbackOnFailure | agents/common/llm.py:110-113 | without a pass, the live file and its backup hold the original content, the last mutation is the restore, and no other file changes |
| EditEngineFacts.ReportMarksSuccess | agents/common/llm.py:99-113 | for an existing file the report contains "✅" exactly when an attempt passed |
| EditEngineFacts.FailureCarriedForward | agents/common/llm.py:101-104 | the prompt after a failed attempt quotes that attempt's candidate and its test run's error text |
| EditEngineFacts.FirstAttemptOnOriginal | agents/common/llm.py:41-42 | the first prompt is built on the original content with an empty error context |
| EditEngineFacts.SeniorRetryPrompt | agents/common/llm.py:52-79 | with the senior prompt, a retry quotes the failed candidate as the current content and the error under the previous-error heading |
| EditEngineFacts.SeniorFirstPrompt | agents/common/llm.py:52-79 | with the senior prompt, the first attempt quotes the original content and has no error section |
| EditEngineFacts.BackupIsElsewhere | agents/common/llm.py:38 | the backup path differs from the live path |
| FinLivo.ListIdOf | agents/finlivo/agent.py:23-24 | the watched list is the first one titled "FinLivo" |
| FinLivo.PassStep | agents/finlivo/agent.py:39-40 | within a pass, an exception ends it; otherwise the rest of the pass follows on the tree the task left |
| FinLivo.Agent.Start | agents/finlivo/agent.py:13-32 | the context is loaded; the list id is that of the first "FinLivo" list; a failed fetch or no such list stops the agent |
| FinLivo.Agent.ProcessTask | agents/finlivo/agent.py:56-90 | the tree, the log and the queue change exactly as the per-task specification says, and an escaping exception (from the resolver or from a raising complete or rename request) is returned |
| FinLivo.Agent.RunCycle | agents/finlivo/agent.py:34-54 | one pass of `loop` changes the tree, the log and the queue as the pass specification says, ending at the first task that raises, whose exception is returned |
| FinLivoFacts.SkipFailed | agents/finlivo/agent.py:57-60 | a task titled "[FAILED]…" is left alone: no resolver call, no edit, no request |
| FinLivoFacts.FailedTitleMarked | agents/finlivo/agent.py:84 | the failure title carries the "[FAILED]" marker |
| FinLivoFacts.RenamedTaskSkipped | agents/finlivo/agent.py:82-85 | the rename asked on failure makes the task one that every later pass skips |
| FinLivoFacts.CompleteIffSuccess | agents/finlivo/agent.py:66-86 | for a resolved, existing target the edit runs with the title as instruction; the task is completed exactly when an attempt passed, renamed "[FAILED] <title>" otherwise; a request the service fails is not recorded and its exception is the task's |
| FinLivoFacts.NoTargetUntouched | agents/finlivo/agent.py:87-90 | a task with no existing target stays pending and nothing changes |
| FinLivoFacts.OneRequestForTheTask | agents/finlivo/agent.py:80-85 | each task asks the queue at most one thing, about that task, in the watched list |
| FinLivoFacts.SuggestionChecked | agents/finlivo/agent.py:97-106 | the model's suggestion is used exactly when it is non-empty and its join with the project directory is an existing file (an absolute suggestion is taken as is); a raising model is reported |
| FinLivoFacts.FallbackFirstDottedWord | agents/finlivo/agent.py:108-114 | without a usable suggestion, the result is the first dotted word of title and notes joined to the project directory, unchecked, and nothing when there is none |
| FinLivoFacts.TitleNamesTheFile | agents/finlivo/agent.py:109-112 | a dotted word in the title wins over the notes |
| FinLivoFacts.ListIdIsFirstMatch | agents/finlivo/agent.py:24-27 | no id exactly when no list is titled "FinLivo"; otherwise the id of the first such list |
| FinLivoFacts.FailedTasksIdle | agents/finlivo/agent.py:38-41 | a pass over tasks all marked "[FAILED]" changes nothing and asks nothing |
| FinLivoFacts.CycleTouchesFetchedTasks | agents/finlivo/agent.py:37-40 | a pass completes or renames only tasks it fetched |
| FinLivoFacts.FailedRequestEndsPass | agents/finlivo/agent.py:37-54 | when the first task's complete or rename request raises, the pass ends there with that exception: the later tasks are neither edited nor asked about |
| FinLivoFacts.EditRequests | agents/finlivo/agent.py:80-85 | after the edit one request about the task is asked; it is recorded exactly when the service does not raise, and the service's exception is the task's |
| FinLivoFacts.FetchFailureCaught | agents/finlivo/agent.py:52-54 | a failed fetch is caught and nothing changes |
| FinLivoAsWritten.AsWrittenNeverEdits | agents/finlivo/agent.py:70-77 | as written, no task is ever edited, completed or renamed |
| FinLivoAsWritten.RunTestsBlocksTheEdit | agents/finlivo/agent.py:76 | as written, an existing target raises AttributeError before the edit, while the intended call backs the file up and asks one request, recorded unless the service raises |
| FinLivoAsWritten.TargetSurvives | agents/finlivo/agent.py:92-114 | a target that resolved still resolves on a tree that only gained files |
| FinLivoAsWritten.FailedTaskRetried | agents/finlivo/agent.py:85 | as written, a failed edit queues nothing, raises on the rename, and the next pass runs the edit again |
| TaskModel.TaskQueue.Complete | app/services/tasks/service.py:29-42 | a completion is recorded when the service answers, and not when it raises, whose exception is returned |
| Coder.StripFencesSlice | agents/agent_coder.py:53-55 | the stripped reply is the reply with 0, 3, 9 or 12 characters cut from the front and 0 or 3 from the back |
| Coder.StripFencesUnfenced | agents/agent_coder.py:53-55 | unfenced text is kept as it is, whitespace included |
| Coder.StripFencesPythonBlock | agents/agent_coder.py:53-55 | a "```python … ```" block whose body does not itself start with "```" gives back its body exactly |
| Coder.EngineIsStrippedCoder | agents/agent_coder.py:53-55 | except after "```python```", the engine's cleaner is the coder's fence checks followed by a strip |
| Coder.CoderDiffersFromEngine | agents/agent_coder.py:53-55 | the coder keeps surrounding whitespace and drops a second leading fence, where the engine does neither |
| Coder.ApplyAiEdit | agents/agent_coder.py:21-68 | the message, the new tree and the log are those of the direct-edit specification with the coder's prompt |
| Coder.AiEditMissingFile | agents/agent_coder.py:23-24 | a missing file returns "File not found: <path>" and nothing is written |
| Coder.AiEditBackupAfterReply | agents/agent_coder.py:44-68 | a model error returns "❌ AI Error: …" and leaves the tree as it was; a reply backs up the original, then writes exactly the fence-stripped reply |
| Coder.CoderPromptCarries | agents/agent_coder.py:31-40 | the prompt quotes the instruction and the file's content |
| Coder.RunAgentTask | agents/agent_coder.py:86-115 | the tree, the log and the queue change exactly as the per-task specification says, and a raising completion's exception is returned |
| Coder.CoderCompletesIffFound | agents/agent_coder.py:108-115 | a completion is asked exactly when a target was found, whatever the edit's result, and recorded unless the service raises, whose exception then escapes; an unmatched task is untouched |
| Coder.CoderTriesOnlyFirstWord | agents/agent_coder.py:98-104 | only the first dotted word is tried; if it names no existing file the task is unmatched |
| Coder.CoderIgnoresFailedMarker | agents/agent_coder.py:86-112 | a "[FAILED]" task with a file is edited and asked to complete again |
| Coder.RunAgentPass | agents/agent_coder.py:84-125 | one pass changes the tree, the log and the queue as the pass specification says, ending at the first raising completion, whose exception is returned |
| Coder.CoderFailedCompletionEndsPass | agents/agent_coder.py:84-125 | when the first task's completion raises, the pass ends there: the later tasks are neither edited nor completed |
| Coder.CoderPassCompletions | agents/agent_coder.py:86-112 | a pass asks at most one completion per task, each for a fetched task in the watched list, and never renames |
| TaskHandlers.PutOnlyTouchesUser | app/handlers/tasks.py:39-42 | setting one user's state reads back as set and leaves every other user's as it was |
| TaskHandlers.PairRows | app/handlers/tasks.py:24-33 | the titles two to a row, with a last row of one when their number is odd |
| TaskHandlers.PairedRowsKeepOrder | app/handlers/tasks.py:24-33 | reading the rows in order gives back the titles in order, two per row except a last row of one |
| TaskHandlers.Wizard.HandleNewTaskWizard | app/handlers/tasks.py:18-47 | a failed fetch answers the error and changes nothing; otherwise the user's state caches the lists and the keyboard is the paired titles then a Back row |
| TaskHandlers.Wizard.HandleBack | app/handlers/tasks.py:49-53 | the user's state is removed and the main menu restored |
| TaskHandlers.Wizard.HandleText | app/handlers/tasks.py:105-166 | the answer, the new state and the created tasks are those of the text-handler specification |
| TaskHandlers.ChoosingProjectStep | app/handlers/tasks.py:119-145 | a text equal to a cached title moves the user to waiting, with the first list of that title; any other text keeps the state and creates nothing |
| TaskHandlers.WaitingForTaskStep | app/handlers/tasks.py:148-161 | the text is created as a task in the chosen list; the state is cleared exactly when the creation succeeds |
| TaskHandlers.NoStateStep | app/handlers/tasks.py:163-168 | with no state nothing is created; commands and menu labels get no reply, and other text goes to the assistant |
| TaskHandlers.WizardOrder | app/handlers/tasks.py:115-161 | the wizard only moves forward: choosing, then waiting, then no state |
| TaskHandlers.ListCallbackRoundTrip | app/handlers/tasks.py:65 | a list button's data passes the filter and decodes back to the id exactly |
| TaskHandlers.UnmarkedTitleIsFirstLine | app/handlers/tasks.py:84 | without a marker the title is the message's first line |
| TaskHandlers.DetectedTitleRecovered | app/handlers/tasks.py:79-87 | the title read back from the bot's own "Task Detected" message is the detected title, stripped |
| TaskHandlers.SelectionCreatesInChosenList | app/handlers/tasks.py:66-103 | a list button creates one task in that list with the title from the message; cancelling creates nothing |
| Prompts.HintPriority | app/services/ai/prompts.py:13-20 | each hint is given exactly when its keyword is the first of "finlivo", "finapp", "sms" that the lower-cased title contains |
| Prompts.HintIgnoresCase | app/services/ai/prompts.py:14 | the hint does not depend on letter case |
| Prompts.AppendLines | app/services/ai/prompts.py:12-22 | the loop appends the line of each list, in order |
| Prompts.BuildListsPrompt | app/services/ai/prompts.py:9-27 | the built section equals the lists-section specification |
| Prompts.SectionEmptyIffNoLists | app/services/ai/prompts.py:9-11 | the section is empty exactly when there are no lists; otherwise it opens with the header and ends with the routing text |
| Prompts.LineInPlace | app/services/ai/prompts.py:12-22 | the line of the i-th list comes right after the header and the lines before it |
| Prompts.LineFormat | app/services/ai/prompts.py:22 | each line names the list's id and title and ends the line |
| Prompts.PromptQuotesText | app/services/ai/prompts.py:29-36 | the system prompt quotes the user's text and carries the lists section |
| Agenda.CleanTime | app/handlers/calendar.py:19 | the cleaned time holds no 'T' and no '+' and is no longer than the start |
| Agenda.CleanTimeKeepsMinusOffset | app/handlers/calendar.py:19 | without '+', only the 'T's change: a '-' offset is kept |
| Agenda.CleanTimeCutsPlusOffset | app/handlers/calendar.py:19 | a '+' offset is cut off with everything after it |
| Agenda.HandleAgenda | app/handlers/calendar.py:6-24 | the message sent equals the agenda-text specification |
| Agenda.AppendStartedLines | app/handlers/calendar.py:15-20 | one line per event in order, or nothing at the first event without a start |
| Agenda.NoEventsOnly | app/handlers/calendar.py:10-12 | no event gives only the "no upcoming events" line |
| Agenda.OneLinePerEvent | app/handlers/calendar.py:14-20 | the header, then the line of each event right after the lines of the events before it |
| Agenda.LineShowsStartAndSummary | app/handlers/calendar.py:16-20 | a line shows the cleaned `dateTime`, else the cleaned `date`, and the summary or "No Title" |
| Agenda.MissingStartFails | app/handlers/calendar.py:16-24 | an event without either start form makes the reply the error message |
| KnowledgeDump.Prune | scripts/prepare_kb.py:44 | the pruned listing holds exactly the listed directories not in IGNORE_DIRS |
| KnowledgeDump.PrunedByName | scripts/prepare_kb.py:8-11 | below a reached directory, a subdirectory is walked exactly when it survives its parent's pruning |
| KnowledgeDump.IgnoredDirectoryHidesFile | scripts/prepare_kb.py:44 | a file below an ignored directory, at any depth, gets no block |
| KnowledgeDump.IgnoredNameFirst | scripts/prepare_kb.py:47-48 | an ignored file name is skipped whatever its extension |
| KnowledgeDump.OutputNeverDumped | scripts/prepare_kb.py:12-15 | the dump never includes its own output file, although ".txt" is a valid extension |
| KnowledgeDump.EnvExampleNeverMatches | scripts/prepare_kb.py:16-18 | `splitext` never yields ".env.example"; a file is selected exactly by the other extensions or the name "Dockerfile" |
| KnowledgeDump.DumpFile | scripts/prepare_kb.py:46-72 | a walked file yields its block exactly when it is reached, passes the filters and can be read |
| KnowledgeDump.GenerateDump | scripts/prepare_kb.py:29-72 | the output is the header then one block per dumped file; the counters are their number and total length |
| KnowledgeDump.DumpedFilesIff | scripts/prepare_kb.py:42-72 | a file is dumped exactly when it is walked, passes the filters and can be read |
| KnowledgeDump.DumpedInWalkOrder | scripts/prepare_kb.py:42-46 | dumping keeps the walk order |
| KnowledgeDump.HeaderFirst | scripts/prepare_kb.py:38-40 | the three header lines open the dump |
| KnowledgeDump.BlockInPlace | scripts/prepare_kb.py:62-66 | each file's block comes right after the header and the blocks before it |
| KnowledgeDump.DumpStep | scripts/prepare_kb.py:62-69 | a dumped file appends its block, adds one to the count and its length to the size; any other file changes nothing |
| KnowledgeDump.UnreadableSkipped | scripts/prepare_kb.py:58-72 | an unreadable file leaves the dump and both counters unchanged |
| KnowledgeDump.RelPathShape | scripts/prepare_kb.py:51-52 | a top-level file is shown by its name; a nested one by its directories and name joined with '/' |

## Left out

- Printing, sleeping and the infinite `while True` loops are not modelled. One pass of each
  agent loop is modelled; `KeyboardInterrupt` and the knowledge-base refresh after it are left out.
- Reading and copying files is modelled as infallible. Exceptions from `open` and `shutil.copy`,
  and directories, are not modelled: a path exists exactly when it is a key of the tree.
- The FinLivo agent calls `llm.find_relevant_file`, which agents/common/llm.py does not define.
  It is modelled as an oracle from the task description and the project outline to a reply.
- agents/common/knowledge.py is not part of this model. Its context is a given string.
- `tools.get_project_structure` and `testing.run_tests` are not part of this model. They are oracles.
- `query_groq` and the coder's direct client call are oracles returning reply text or an exception.
  A coder reply without content raises in the fence checks and is reported as an AI error, which
  the oracle's `Raised` answer covers.
- Coder.RunAgentPass: the list lookup and the empty-id exit of `run_agent` are not modelled.
  The pass takes the id and the fetched tasks as given; a raising `get_tasks`, caught by the same
  `except` before any task is touched, is not modelled.
- TaskModel.TaskQueue.Complete: a request that raises is taken as not applied; whether the service
  applied it before failing is not modelled. The same holds for `Rename`.
- TaskHandlers: `handle_refresh` and the language-model path of `handle_text` (the event parsing
  and the "Task Detected" inline keyboard) are not modelled. That path sits behind a foreign
  service call. Only the title format of the keyboard's message is used, in
  `DetectedTitleRecovered`.
- TaskHandlers.Wizard.HandleNewTaskWizard: the keyboard and answer texts are modelled; the Telegram
  markup objects (`resize_keyboard`, parse modes) are not.
- Prompts.SystemPrompt: `datetime.now().isoformat()` is a parameter. The JSON-format part of the
  template is fixed text and has no properties of its own.
- Prompts.HintPriority: `str.lower` is modelled for ASCII letters only.
- Agenda: an event with no `start` key at all raises KeyError in the source. The model gives every
  event a start record, possibly empty, so only the `None.replace` error is modelled.
- KnowledgeDump.GenerateDump: `os.walk` is a list of the files it would visit without pruning,
  in walk order. The pruning is the `Reached` condition, tied to the comprehension by
  `PrunedByName`. `len(content)` counts characters of the model's strings. The closing summary
  prints are left out.
- EditEngine and Coder: the generic helpers `Edit`, `DirectEdit`, `DirectEditOn` and `AppendLines`
  take the prompt builder or line format as a parameter. Each is instantiated once with the
  source's own.

## Findings

| source | as written | input that shows it | evidently intended | confidence | as-written member | corrected member |
|---|---|---|---|---|---|---|
| agents/finlivo/agent.py:76 | the edit call passes `run_tests=config.RUN_TESTS`, but agents/finlivo/config.py defines no `RUN_TESTS` (and `apply_senior_edit` has no such parameter), so an AttributeError is raised before the edit | any task not marked "[FAILED]" whose resolved file exists | call `apply_senior_edit` with its declared parameters | not executed | FinLivoAsWritten.RunTestsBlocksTheEdit | FinLivoFacts.CompleteIffSuccess |
| agents/finlivo/agent.py:85 | on failure the agent calls `tasks_service.update_task_title`, which the task service does not define, so the task is never marked and is edited again on every pass | a task whose edit exhausts its attempts | rename the task "[FAILED] <title>" so later passes skip it | not executed | FinLivoAsWritten.FailedTaskRetried | FinLivoFacts.RenamedTaskSkipped |
