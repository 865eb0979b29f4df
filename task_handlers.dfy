/**
 * The task wizard of app/handlers/tasks.py: the per-user state kept between chat messages, the
 * "New task" keyboard, the list callbacks of the inline keyboard and the title recovered from the
 * "Task Detected" message.
 */
module TaskHandlers {
  import opened Wrappers
  import opened Strings
  import opened TaskModel

  const AgendaLabel := "📅 Agenda"
  const NewTaskLabel := "➕ New task"
  const RefreshLabel := "🔄 Refresh Lists"
  const BackLabel := "🔙 Back"

  /** The labels of the main menu's buttons, which the free-text handler leaves to their own handlers. */
  const MenuLabels := [AgendaLabel, NewTaskLabel, RefreshLabel, BackLabel]

  /** A reply keyboard: rows of button labels. */
  type Keyboard = seq<seq<string>>

  /** `get_main_menu()`. */
  const MainMenu: Keyboard := [[AgendaLabel, NewTaskLabel], [RefreshLabel]]

  /** An entry of `USER_STATE`. */
  datatype UserState =
    | ChoosingProject(lists: seq<TaskList>)            // the lists cached for title -> id
    | WaitingForTask(listId: string, listTitle: string)

  /** A message sent back; an empty keyboard leaves the current one in place. */
  datatype Answer = Answer(text: string, keyboard: Keyboard)

  /** A `create_task(title, notes, tasklist_id)` request. */
  datatype NewTask = NewTask(title: string, notes: string, listId: string)

  /** `USER_STATE.get(user)`. */
  function StateOf(states: map<int, UserState>, user: int): Option<UserState> {
    if user in states then Some(states[user]) else None
  }

  /** The map after setting the user's entry (`None` deletes it). */
  function Put(states: map<int, UserState>, user: int, s: Option<UserState>): map<int, UserState> {
    if s.Some? then states[user := s.value] else states - {user}
  }

  /** Setting one user's entry reads back as set and leaves every other user's entry as it was. */
  lemma PutOnlyTouchesUser(states: map<int, UserState>, user: int, s: Option<UserState>)
    ensures StateOf(Put(states, user, s), user) == s
    ensures forall other :: other != user ==> StateOf(Put(states, user, s), other) == StateOf(states, other)
  {
  }

  // ---- The project keyboard ------------------------------------------------------------

  /** The rows of the "New task" keyboard: the titles two by two, a last row of one if their number is odd. */
  ghost predicate PairedRows(rows: Keyboard, titles: seq<string>) {
    && |rows| == (|titles| + 1) / 2
    && forall i :: 0 <= i < |rows| ==>
         2 * i < |titles| && rows[i] == titles[2 * i .. if 2 * i + 2 <= |titles| then 2 * i + 2 else |titles|]
  }

  /** The row-building loop of `handle_new_task_wizard`. */
  method PairRows(titles: seq<string>) returns (rows: Keyboard)
    ensures PairedRows(rows, titles)
  {
    rows := [];
    var row: seq<string> := [];
    var i := 0;
    while i < |titles|
      invariant 0 <= i <= |titles|
      invariant |row| < 2 && (i - |row|) % 2 == 0 && row == titles[i - |row| .. i]
      invariant |rows| == (i - |row|) / 2
      invariant forall k :: 0 <= k < |rows| ==> rows[k] == titles[2 * k .. 2 * k + 2]
    {
      row := row + [titles[i]];
      i := i + 1;
      if |row| == 2 {
        rows := rows + [row];
        row := [];
      }
    }
    if row != [] {
      rows := rows + [row];
    }
  }

  /** The labels of a keyboard, row after row. */
  function Flatten(rows: Keyboard): seq<string> {
    if rows == [] then [] else Flatten(rows[..|rows| - 1]) + rows[|rows| - 1]
  }

  lemma {:induction false} FlattenPaired(rows: Keyboard, titles: seq<string>, n: nat)
    requires PairedRows(rows, titles) && n <= |rows|
    ensures Flatten(rows[..n]) == titles[..if 2 * n <= |titles| then 2 * n else |titles|]
  {
    if n > 0 {
      FlattenPaired(rows, titles, n - 1);
      assert rows[..n][..n - 1] == rows[..n - 1];
    }
  }

  /**
   * Reading the paired rows in order gives back the titles in their order; every row holds two
   * titles, except a last row of one.
   */
  lemma PairedRowsKeepOrder(rows: Keyboard, titles: seq<string>)
    requires PairedRows(rows, titles)
    ensures Flatten(rows) == titles
    ensures forall i :: 0 <= i < |rows| ==> |rows[i]| == (if i == |rows| - 1 && |titles| % 2 == 1 then 1 else 2)
  {
    FlattenPaired(rows, titles, |rows|);
    assert rows[..|rows|] == rows;
  }

  // ---- The chat handlers ---------------------------------------------------------------

  /** The result of `handle_text` on one message. */
  datatype TextOutcome =
    | Answered(answer: Answer)
    | Silent         // returns without a reply
    | ToAssistant    // no wizard state: the message goes to the assistant

  datatype TextResult = TextResult(next: Option<UserState>, outcome: TextOutcome, created: seq<NewTask>)

  /** With no wizard state, commands and the menu's own buttons are left to their handlers. */
  predicate Ignored(text: string) {
    StartsWith(text, "/") || text in MenuLabels
  }

  /**
   * `handle_text` for a user in state `state`; `createError` is the exception `create_task`
   * raises, if any.
   */
  function OnText(state: Option<UserState>, text: string, createError: Option<string>): TextResult {
    match state
    case Some(ChoosingProject(lists)) =>
      (match FirstWithTitle(lists, text)
       case Some(l) =>
         TextResult(Some(WaitingForTask(l.id, l.title)),
           Answered(Answer("📝 Enter the task for **" + l.title + "**:", [[BackLabel]])), [])
       case None =>
         TextResult(state, if text == BackLabel then Silent else Answered(Answer("⚠️ Please select a project from the menu.", [])), []))
    case Some(WaitingForTask(listId, listTitle)) =>
      (match createError
       case None =>
         TextResult(None, Answered(Answer("✅ Saved **" + text + "** to **" + listTitle + "**!", MainMenu)), [NewTask(text, "", listId)])
       case Some(e) =>
         TextResult(state, Answered(Answer("❌ Error creating task: " + e, [])), [NewTask(text, "", listId)]))
    case None =>
      TextResult(None, if Ignored(text) then Silent else ToAssistant, [])
  }

  /** The bot's `USER_STATE` and the task-creation requests its handlers made. */
  class Wizard {
    var userState: map<int, UserState>
    var created: seq<NewTask>

    constructor ()
      ensures userState == map[] && created == []
    {
      userState := map[];
      created := [];
    }

    /** `handle_new_task_wizard`: offer the lists, two per row, and remember them. */
    method HandleNewTaskWizard(user: int, lists: Fetch<seq<TaskList>>) returns (answer: Answer)
      modifies this
      ensures created == old(created)
      ensures lists.FetchFailed? ==>
        userState == old(userState) && answer == Answer("❌ Error fetching projects: " + lists.message, [])
      ensures lists.Fetched? ==>
        && userState == old(userState)[user := ChoosingProject(lists.value)]
        && answer.text == "📂 **Select the Project** for the new task:"
        && |answer.keyboard| >= 1 && answer.keyboard[|answer.keyboard| - 1] == [BackLabel]
        && PairedRows(answer.keyboard[..|answer.keyboard| - 1], Titles(lists.value))
    {
      if lists.FetchFailed? {
        return Answer("❌ Error fetching projects: " + lists.message, []);
      }
      var rows := PairRows(Titles(lists.value));
      var keyboard := rows + [[BackLabel]];
      assert keyboard[..|keyboard| - 1] == rows;
      userState := userState[user := ChoosingProject(lists.value)];
      answer := Answer("📂 **Select the Project** for the new task:", keyboard);
    }

    /** `handle_back`: forget the user's wizard state, if any, and restore the menu. */
    method HandleBack(user: int) returns (answer: Answer)
      modifies this
      ensures userState == old(userState) - {user} && created == old(created)
      ensures answer == Answer("🔙 Menu Restored.", MainMenu)
    {
      if user in userState {
        userState := userState - {user};
      }
      answer := Answer("🔙 Menu Restored.", MainMenu);
    }

    /** `handle_text`, up to the hand-over to the assistant. */
    method HandleText(user: int, text: string, createError: Option<string>) returns (outcome: TextOutcome)
      modifies this
      ensures var r := OnText(StateOf(old(userState), user), text, createError);
        && outcome == r.outcome
        && userState == Put(old(userState), user, r.next)
        && created == old(created) + r.created
    {
      var r := OnText(StateOf(userState, user), text, createError);
      if r.next.Some? {
        userState := userState[user := r.next.value];
      } else {
        userState := userState - {user};
      }
      created := created + r.created;
      outcome := r.outcome;
    }
  }

  /**
   * While a project is chosen, a text equal to a cached title moves the user to waiting for the
   * task, with the first list of that title; any other text keeps the state and creates nothing.
   */
  lemma ChoosingProjectStep(lists: seq<TaskList>, text: string, createError: Option<string>)
    ensures var r := OnText(Some(ChoosingProject(lists)), text, createError);
      && r.created == []
      && ((exists i :: 0 <= i < |lists| && lists[i].title == text) <==> r.next.Some? && r.next.value.WaitingForTask?)
      && (r.next.Some? && r.next.value.WaitingForTask? ==> exists i :: (0 <= i < |lists| && lists[i].title == text
            && r.next.value == WaitingForTask(lists[i].id, lists[i].title)
            && forall j :: 0 <= j < i ==> lists[j].title != text))
      && (!(exists i :: 0 <= i < |lists| && lists[i].title == text) ==> r.next == Some(ChoosingProject(lists)))
  {
    var f := FirstIndexWithTitle(lists, text);
    if f.Some? {
      assert lists[f.value].title == text;
    }
  }

  /**
   * Waiting for the task, the text is sent to `create_task` for the chosen list; the state is
   * cleared exactly when the creation succeeds.
   */
  lemma WaitingForTaskStep(listId: string, listTitle: string, text: string, createError: Option<string>)
    ensures var r := OnText(Some(WaitingForTask(listId, listTitle)), text, createError);
      && r.created == [NewTask(text, "", listId)]
      && (r.next.None? <==> createError.None?)
      && (createError.Some? ==> r.next == Some(WaitingForTask(listId, listTitle)))
  {
  }

  /**
   * With no wizard state nothing is created and no state appears; commands and menu labels get no
   * reply, and every other text goes to the assistant.
   */
  lemma NoStateStep(text: string, createError: Option<string>)
    ensures var r := OnText(None, text, createError);
      && r.next == None && r.created == []
      && (r.outcome == Silent <==> StartsWith(text, "/") || text in MenuLabels)
      && (r.outcome == ToAssistant <==> !(StartsWith(text, "/") || text in MenuLabels))
  {
  }

  /** The wizard only moves forward: none, then choosing a project, then waiting for the task, then none. */
  lemma WizardOrder(state: Option<UserState>, text: string, createError: Option<string>)
    ensures var r := OnText(state, text, createError);
      && (state.None? ==> r.next.None?)
      && (state.Some? && state.value.ChoosingProject? ==> r.next.Some? && (r.next == state || r.next.value.WaitingForTask?))
      && (state.Some? && state.value.WaitingForTask? ==> r.next.None? || r.next == state)
  {
  }

  // ---- The list callbacks --------------------------------------------------------------

  /** `f"list:{id}"`, the callback data of a list's inline button. */
  function ListCallback(listId: string): string {
    "list:" + listId
  }

  /** The filter of `process_project_selection`. */
  predicate SelectionCallback(data: string) {
    StartsWith(data, "list:") || data == "cancel_task"
  }

  /** `data.split(":", 1)[1]`, absent where Python raises IndexError. */
  function ListIdOfCallback(data: string): Option<string> {
    After(data, ":")
  }

  /** Decoding a list button's data gives back the id exactly, whatever it contains (':' or nothing). */
  lemma ListCallbackRoundTrip(listId: string)
    ensures SelectionCallback(ListCallback(listId))
    ensures ListIdOfCallback(ListCallback(listId)) == Some(listId)
  {
    var data := ListCallback(listId);
    assert data[..5] == "list:";
    assert OccursAt(data, ":", 4) by {
      assert data[4..5] == ":";
    }
    forall j: nat | j < 4
      ensures !OccursAt(data, ":", j)
    {
      assert data[j..j + 1][0] == data[j];
    }
    IndexOfFirst(data, ":", 4);
  }

  // ---- The title of a detected task ----------------------------------------------------

  const DetectedMarker := "Task Detected: "

  /** `message.text or message.caption`: an empty text falls back to the caption. */
  function MessageText(text: Option<string>, caption: Option<string>): Option<string> {
    if text.Some? && text.value != "" then text else caption
  }

  /**
   * The title `process_project_selection` saves: after a "Task Detected: " marker, the text up to
   * the next marker and then up to the end of the line, stripped; without a marker, the first line;
   * without any text (Python raises on `None`), "Untitled Task".
   */
  function ExtractTitle(messageText: Option<string>): string {
    match messageText
    case None => "Untitled Task"
    case Some(t) =>
      match After(t, DetectedMarker)
      case Some(rest) => Strip(Before(Before(rest, DetectedMarker), "\n"))
      case None => Before(t, "\n")
  }

  /** Without a marker the title is the message's first line: a prefix of the text holding no newline. */
  lemma UnmarkedTitleIsFirstLine(t: string)
    requires !Contains(t, DetectedMarker)
    ensures var r := ExtractTitle(Some(t)); r == t[..|r|] && '\n' !in r
    ensures '\n' !in t ==> ExtractTitle(Some(t)) == t
  {
    IndexOfFindsContained(t, DetectedMarker);
    BeforeExcludes(t, '\n');
    if '\n' !in t {
      IndexOfFindsContained(t, "\n");
      ContainsChar(t, '\n');
    }
  }

  /** The first line of the bot's "Task Detected" message, before the title. */
  const DetectedPrefix := "📂 Task Detected: "

  lemma MarkerHasNoNewline()
    ensures '\n' !in DetectedMarker && |DetectedMarker| == 15
  {
  }

  /** A marker inside `title + "\n" + tail` can only start after the newline. */
  lemma NextMarkerAfterLine(title: string, tail: string)
    requires '\n' !in title && !Contains(title, DetectedMarker)
    ensures var rest := title + "\n" + tail;
      var cut := Before(rest, DetectedMarker);
      |cut| > |title| && cut[..|title| + 1] == title + "\n"
  {
    var rest := title + "\n" + tail;
    MarkerHasNoNewline();
    forall j: nat | j <= |title|
      ensures !OccursAt(rest, DetectedMarker, j)
    {
      if j + 15 <= |title| {
        assert rest[j..j + 15] == title[j..j + 15];
        assert !OccursAt(title, DetectedMarker, j);
      } else if j + 15 <= |rest| {
        assert rest[j..j + 15][|title| - j] == '\n';
      }
    }
    var cut := Before(rest, DetectedMarker);
    if IndexOf(rest, DetectedMarker).Some? {
      var k := IndexOf(rest, DetectedMarker).value;
      assert k > |title|;
    }
    assert rest[..|title| + 1] == title + "\n";
  }

  /**
   * The title read back from the bot's own "📂 Task Detected: <title>" message is the detected
   * title, stripped: the marker found is the one of the first line, and the line ends at the newline.
   */
  lemma DetectedTitleRecovered(title: string, tail: string)
    requires '\n' !in title && !Contains(title, DetectedMarker)
    ensures ExtractTitle(Some(DetectedPrefix + title + "\n" + tail)) == Strip(title)
  {
    var t := DetectedPrefix + title + "\n" + tail;
    assert t[2..17] == DetectedMarker;
    assert !OccursAt(t, DetectedMarker, 0) && !OccursAt(t, DetectedMarker, 1) by {
      assert t[0] == '📂' && t[1] == ' ';
    }
    forall j: nat | j < 2
      ensures !OccursAt(t, DetectedMarker, j)
    {
    }
    IndexOfFirst(t, DetectedMarker, 2);
    var rest := title + "\n" + tail;
    assert t[17..] == rest;
    NextMarkerAfterLine(title, tail);
    var cut := Before(rest, DetectedMarker);
    assert OccursAt(cut, "\n", |title|);
    forall j: nat | j < |title|
      ensures !OccursAt(cut, "\n", j)
    {
      assert cut[j..j + 1][0] == title[j];
    }
    IndexOfFirst(cut, "\n", |title|);
    assert cut[..|title|] == title;
  }

  // ---- The selection callback ----------------------------------------------------------

  /** What `process_project_selection` does: the final text of the edited message and the request made. */
  datatype SelectionResult = SelectionResult(finalText: string, created: seq<NewTask>)

  function ProjectSelection(data: string, messageText: Option<string>, createError: Option<string>): SelectionResult {
    if data == "cancel_task" then SelectionResult("❌ Task creation cancelled.", [])
    else
      var title := ExtractTitle(messageText);
      match ListIdOfCallback(data)
      case None => SelectionResult("❌ Invalid List Data", [])
      case Some(listId) =>
        var request := [NewTask(title, "", listId)];
        match createError
        case None => SelectionResult("✅ Saved <b>" + title + "</b> to Project!", request)
        case Some(e) => SelectionResult("❌ Error creating task: " + e, request)
  }

  /**
   * Choosing a list's button creates one task, in that list, titled from the message; cancelling
   * creates nothing.
   */
  lemma SelectionCreatesInChosenList(listId: string, messageText: Option<string>, createError: Option<string>)
    ensures ProjectSelection(ListCallback(listId), messageText, createError).created
      == [NewTask(ExtractTitle(messageText), "", listId)]
    ensures ProjectSelection("cancel_task", messageText, createError).created == []
  {
    ListCallbackRoundTrip(listId);
    assert ListCallback(listId) != "cancel_task" by {
      assert ListCallback(listId)[0] == 'l';
    }
  }
}
