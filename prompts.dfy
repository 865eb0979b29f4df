/**
 * The system prompt of app/services/ai/prompts.py: the section describing the user's task lists,
 * each with a topic hint chosen from its title, and the template the user's text is quoted in.
 */
module Prompts {
  import opened Wrappers
  import opened Strings
  import opened TaskModel

  const FinLivoHint := "(Keywords: backend, api, database, auth, python, server, livo, code)"
  const FinAppHint := "(Keywords: frontend, app, ui, client, general)"
  const SmsHint := "(Keywords: message, gateway, tcell, distribution)"

  /** The topic hint of a list, from its lower-cased title: "finlivo" first, then "finapp", then "sms". */
  function Hint(title: string): string {
    var lowered := Lower(title);
    if Contains(lowered, "finlivo") then FinLivoHint
    else if Contains(lowered, "finapp") then FinAppHint
    else if Contains(lowered, "sms") then SmsHint
    else ""
  }

  /**
   * Each hint is given exactly when its keyword is the first of the three, in priority order, that
   * the lower-cased title contains; a title with none of them gets no hint.
   */
  lemma HintPriority(title: string)
    ensures var lowered := Lower(title);
      && (Hint(title) == FinLivoHint <==> Contains(lowered, "finlivo"))
      && (Hint(title) == FinAppHint <==> !Contains(lowered, "finlivo") && Contains(lowered, "finapp"))
      && (Hint(title) == SmsHint <==> !Contains(lowered, "finlivo") && !Contains(lowered, "finapp") && Contains(lowered, "sms"))
      && (Hint(title) == "" <==> !Contains(lowered, "finlivo") && !Contains(lowered, "finapp") && !Contains(lowered, "sms"))
  {
    assert |FinLivoHint| == 68 && |FinAppHint| == 46 && |SmsHint| == 49;
  }

  /** The hint does not depend on the case of the title's letters. */
  lemma HintIgnoresCase(title: string)
    ensures Hint(Lower(title)) == Hint(title)
  {
    LowerIdempotent(title);
  }

  /** `f"- ID: '{id}', Name: '{title}' {extra_context}\n"`. */
  function ListLine(l: TaskList): string {
    "- ID: '" + l.id + "', Name: '" + l.title + "' " + Hint(l.title) + "\n"
  }

  const ListsHeader := "Available Task Lists and their likely topics:\n"

  /** The routing instructions that close the section, appended one line at a time. */
  const RoutingLead := "\nIf 'type' is 'task':\n"
  const RoutingStep1 := "1. Analyze the text for project-specific keywords (e.g. 'api' -> FinLivo).\n"
  const RoutingStep2 := "2. You MUST choose the most relevant 'list_id' from above based on context, even if the user didn't say the exact list name.\n"
  const RoutingStep3 := "3. If strictly personal or unclear, use '@default'."

  function RoutingText(): string {
    RoutingLead + RoutingStep1 + RoutingStep2 + RoutingStep3
  }

  /** `lists_prompt` for `task_lists`: empty for `None` or no lists. */
  function ListsSection(taskLists: Option<seq<TaskList>>): string {
    if taskLists.None? || taskLists.value == [] then ""
    else ListsHeader + JoinMap(ListLine, taskLists.value) + RoutingText()
  }

  /** The `for` loop of `generate_system_prompt`: append the line of each list, in order, to `prefix`. */
  method AppendLines(prefix: string, lineOf: TaskList -> string, lists: seq<TaskList>) returns (r: string)
    ensures r == prefix + JoinMap(lineOf, lists)
  {
    r := prefix;
    for i := 0 to |lists|
      invariant r == prefix + JoinMap(lineOf, lists[..i])
    {
      assert lists[..i + 1] == lists[..i] + [lists[i]];
      JoinMapSnoc(lineOf, lists[..i], lists[i]);
      r := r + lineOf(lists[i]);
    }
    assert lists[..|lists|] == lists;
  }

  /** `lists_prompt` as `generate_system_prompt` builds it. */
  method BuildListsPrompt(taskLists: Option<seq<TaskList>>) returns (listsPrompt: string)
    ensures listsPrompt == ListsSection(taskLists)
  {
    listsPrompt := "";
    if taskLists.Some? && taskLists.value != [] {
      listsPrompt := AppendLines(ListsHeader, ListLine, taskLists.value);
      ghost var lines := listsPrompt;
      listsPrompt := listsPrompt + RoutingLead;
      listsPrompt := listsPrompt + RoutingStep1;
      AppendAssoc(lines, RoutingLead, RoutingStep1);
      listsPrompt := listsPrompt + RoutingStep2;
      AppendAssoc(lines, RoutingLead + RoutingStep1, RoutingStep2);
      listsPrompt := listsPrompt + RoutingStep3;
      AppendAssoc(lines, RoutingLead + RoutingStep1 + RoutingStep2, RoutingStep3);
    }
  }

  /** The section is empty exactly when there are no lists; otherwise it opens with the header and closes with the routing text. */
  lemma SectionEmptyIffNoLists(taskLists: Option<seq<TaskList>>)
    ensures ListsSection(taskLists) == "" <==> taskLists.None? || taskLists.value == []
    ensures ListsSection(taskLists) != "" ==>
      StartsWith(ListsSection(taskLists), ListsHeader) && EndsWith(ListsSection(taskLists), RoutingText())
  {
    if taskLists.Some? && taskLists.value != [] {
      var s := ListsSection(taskLists);
      var body := JoinMap(ListLine, taskLists.value);
      assert |ListsHeader| > 0;
      assert s[..|ListsHeader|] == ListsHeader;
      assert s[|s| - |RoutingText()|..] == RoutingText();
    }
  }

  /**
   * Between a header and a footer, the line of the `i`-th list comes right after the header and
   * the lines of the lists before it: one line per list, in their order.
   */
  lemma LineInPlace(header: string, lineOf: TaskList -> string, lists: seq<TaskList>, footer: string, i: nat)
    requires i < |lists|
    ensures OccursAt(header + JoinMap(lineOf, lists) + footer, lineOf(lists[i]), |header| + |JoinMap(lineOf, lists[..i])|)
  {
    JoinMapInPlace(lineOf, lists, i);
    OccursBehind(header, JoinMap(lineOf, lists), lineOf(lists[i]), |JoinMap(lineOf, lists[..i])|);
    OccursBefore(header + JoinMap(lineOf, lists), footer, lineOf(lists[i]), |header| + |JoinMap(lineOf, lists[..i])|);
  }

  /** Each line names the list's id and title, and ends the line. */
  lemma LineFormat(l: TaskList)
    ensures StartsWith(ListLine(l), "- ID: '" + l.id + "', Name: '" + l.title + "' ")
    ensures EndsWith(ListLine(l), "\n")
  {
    var p := "- ID: '" + l.id + "', Name: '" + l.title + "' ";
    assert ListLine(l) == p + (Hint(l.title) + "\n");
    assert ListLine(l)[..|p|] == p;
  }

  // ---- The system prompt ---------------------------------------------------------------

  const IntroPiece :=
    "\n"
    + "        You are a smart calendar and tasks assistant. \n"
    + "        Current time: "

  const TimezonePiece :=
    "\n"
    + "        User Timezone: "

  const ListsPiece :=
    "\n"
    + "        \n"
    + "        "

  const TextPiece :=
    "\n"
    + "\n"
    + "        Extract the intent from the user's text: "

  const FormatPiece :=
    "\n"
    + "\n"
    + "        Determine if this is a CALENDAR EVENT (happens at a specific time, like a meeting) or a TASK (something to do, like \"buy milk\", usually without a specific duration).\n"
    + "\n"
    + "        Return a VALID JSON object.\n"
    + "\n"
    + "        ### Option 1: It is an EVENT\n"
    + "        {\n"
    + "            \"type\": \"event\",\n"
    + "            \"summary\": \"Short title\",\n"
    + "            \"start\": \"ISO 8601 (YYYY-MM-DDTHH:MM:SS)\",\n"
    + "            \"end\": \"ISO 8601\",\n"
    + "            \"description\": \"Details\",\n"
    + "            \"recurrence\": [\"RRULE...\"] or [],\n"
    + "            \"reminders\": { \"useDefault\": false, \"overrides\": [...] }\n"
    + "        }\n"
    + "\n"
    + "        ### Option 2: It is a TASK\n"
    + "        {\n"
    + "            \"type\": \"task\",\n"
    + "            \"title\": \"Short title (e.g. Buy Milk)\",\n"
    + "            \"notes\": \"Any extra details\",\n"
    + "            \"due\": \"ISO 8601 (YYYY-MM-DDTHH:MM:SS) Optional. If user says 'tomorrow', set to tomorrow morning.\",\n"
    + "            \"list_id\": \"ID of the list (or '@default')\"\n"
    + "        }\n"
    + "\n"
    + "        Time Rules:\n"
    + "        - \"Tomorrow\" means +1 day.\n"
    + "        - \"Evening\" = 18:00.\n"
    + "        \n"
    + "        Output strictly JSON.\n"
    + "        "

  /** The fixed text of the system prompt, around the time, the time zone, the lists section and the quoted text. */
  datatype SystemTemplate = SystemTemplate(intro: string, timezoneLead: string, listsLead: string, textLead: string, format: string)

  const AssistantTemplate := SystemTemplate(IntroPiece, TimezonePiece, ListsPiece, TextPiece, FormatPiece)

  /** The system prompt from a template, the clock reading, the time zone, the lists section and the user's text. */
  function Render(tpl: SystemTemplate, text: string, userTimezone: string, currentTime: string, listsPrompt: string): string {
    tpl.intro + currentTime + tpl.timezoneLead + userTimezone + tpl.listsLead + listsPrompt + tpl.textLead
    + "\"" + text + "\"" + tpl.format
  }

  /**
   * `generate_system_prompt(text, user_timezone, task_lists)` with the clock reading
   * `currentTime`.
   */
  function SystemPrompt(text: string, userTimezone: string, currentTime: string, taskLists: Option<seq<TaskList>>): string {
    Render(AssistantTemplate, text, userTimezone, currentTime, ListsSection(taskLists))
  }

  /** The prompt quotes the user's text verbatim and carries the lists section. */
  lemma PromptQuotesText(tpl: SystemTemplate, text: string, userTimezone: string, currentTime: string, listsPrompt: string)
    ensures Contains(Render(tpl, text, userTimezone, currentTime, listsPrompt), "\"" + text + "\"")
    ensures Contains(Render(tpl, text, userTimezone, currentTime, listsPrompt), listsPrompt)
  {
    var head := tpl.intro + currentTime + tpl.timezoneLead + userTimezone + tpl.listsLead;
    var tail := tpl.textLead + "\"" + text + "\"" + tpl.format;
    var p := Render(tpl, text, userTimezone, currentTime, listsPrompt);
    assert p == head + listsPrompt + tail;
    ContainsInfix(head, listsPrompt, tail);
    assert p == (head + listsPrompt + tpl.textLead) + ("\"" + text + "\"") + tpl.format;
    ContainsInfix(head + listsPrompt + tpl.textLead, "\"" + text + "\"", tpl.format);
  }
}
