/** The agenda reply of app/handlers/calendar.py: one bullet line per upcoming event. */
module Agenda {
  import opened Wrappers
  import opened Strings

  /** A calendar event as the handler reads it: the two forms of its start, and its summary, each possibly absent. */
  datatype Event = Event(dateTime: Option<string>, date: Option<string>, summary: Option<string>)

  const NoEventsText := "📅 No upcoming events found."
  const AgendaHeader := "📅 **Upcoming Events:**\n\n"

  /** What `str(e)` gives for the AttributeError of `None.replace`, raised for an event with no start at all. */
  const NoStartError := "'NoneType' object has no attribute 'replace'"

  function ErrorText(message: string): string {
    "❌ Error fetching agenda: " + message
  }

  /** `event['start'].get('dateTime', event['start'].get('date'))`. */
  function StartOf(e: Event): Option<string> {
    if e.dateTime.Some? then e.dateTime else e.date
  }

  /** `event.get('summary', 'No Title')`. */
  function SummaryOf(e: Event): string {
    if e.summary.Some? then e.summary.value else "No Title"
  }

  /** `start.replace('T', ' ').split('+')[0]`. */
  function CleanTime(start: string): (r: string)
    ensures 'T' !in r && '+' !in r
    ensures |r| <= |start|
  {
    var spaced := ReplaceChar(start, 'T', ' ');
    BeforeExcludes(spaced, '+');
    Before(spaced, "+")
  }

  /** A start without '+' keeps every character but the 'T's, a '-' offset included. */
  lemma CleanTimeKeepsMinusOffset(start: string)
    requires '+' !in start
    ensures CleanTime(start) == ReplaceChar(start, 'T', ' ')
    ensures forall i :: 0 <= i < |start| && start[i] == '-' ==> CleanTime(start)[i] == '-'
  {
    var spaced := ReplaceChar(start, 'T', ' ');
    assert '+' !in spaced;
    ContainsChar(spaced, '+');
    IndexOfFindsContained(spaced, "+");
  }

  /** A '+' offset is cut off, with everything after it. */
  lemma CleanTimeCutsPlusOffset(start: string, offset: string)
    requires '+' !in start
    ensures CleanTime(start + "+" + offset) == ReplaceChar(start, 'T', ' ')
  {
    var s := start + "+" + offset;
    var spaced := ReplaceChar(s, 'T', ' ');
    assert spaced[|start|] == '+';
    assert OccursAt(spaced, "+", |start|) by {
      assert spaced[|start|..|start| + 1] == "+";
    }
    forall j: nat | j < |start|
      ensures !OccursAt(spaced, "+", j)
    {
      assert spaced[j..j + 1][0] == spaced[j];
      assert s[j] == start[j];
    }
    IndexOfFirst(spaced, "+", |start|);
    assert spaced[..|start|] == ReplaceChar(start, 'T', ' ');
  }

  /** `f"• <b>{clean_time}</b>: {summary}\n"` for an event with a start. */
  function EventLine(e: Event): string {
    var start := if StartOf(e).Some? then StartOf(e).value else "";
    "• <b>" + CleanTime(start) + "</b>: " + SummaryOf(e) + "\n"
  }

  predicate AllStarted(events: seq<Event>) {
    forall i :: 0 <= i < |events| ==> StartOf(events[i]).Some?
  }

  /** The message `handle_agenda` sends for the fetched events. */
  function AgendaText(fetched: Fetch<seq<Event>>): string {
    match fetched
    case FetchFailed(m) => ErrorText(m)
    case Fetched(events) =>
      if events == [] then NoEventsText
      else if !AllStarted(events) then ErrorText(NoStartError)
      else AgendaHeader + JoinMap(EventLine, events)
  }

  /**
   * The loop of `handle_agenda`: appends one line per event to `prefix`, and stops with nothing at
   * the first event without a start (where the source's `replace` raises).
   */
  method AppendStartedLines(prefix: string, lineOf: Event -> string, events: seq<Event>) returns (r: Option<string>)
    ensures AllStarted(events) ==> r == Some(prefix + JoinMap(lineOf, events))
    ensures !AllStarted(events) ==> r == None
  {
    var text := prefix;
    for i := 0 to |events|
      invariant AllStarted(events[..i])
      invariant text == prefix + JoinMap(lineOf, events[..i])
    {
      if StartOf(events[i]).None? {
        assert !AllStarted(events) by {
          assert StartOf(events[i]).None?;
        }
        return None;
      }
      assert events[..i + 1] == events[..i] + [events[i]];
      JoinMapSnoc(lineOf, events[..i], events[i]);
      text := text + lineOf(events[i]);
    }
    assert events[..|events|] == events;
    return Some(text);
  }

  /** `handle_agenda` up to sending its message. */
  method HandleAgenda(fetched: Fetch<seq<Event>>) returns (text: string)
    ensures text == AgendaText(fetched)
  {
    if fetched.FetchFailed? {
      return ErrorText(fetched.message);
    }
    var events := fetched.value;
    if events == [] {
      return NoEventsText;
    }
    var lines := AppendStartedLines(AgendaHeader, EventLine, events);
    if lines.None? {
      return ErrorText(NoStartError);
    }
    return lines.value;
  }

  /** No event: only the "no upcoming events" line. */
  lemma NoEventsOnly()
    ensures AgendaText(Fetched([])) == "📅 No upcoming events found."
  {
  }

  /**
   * With every start present, the message is the header and then, in order, one line per event:
   * the line of event `i` comes right after the header and the lines of the events before it.
   */
  lemma OneLinePerEvent(events: seq<Event>, i: nat)
    requires AllStarted(events) && i < |events|
    ensures OccursAt(AgendaText(Fetched(events)), EventLine(events[i]), |AgendaHeader| + |JoinMap(EventLine, events[..i])|)
    ensures StartsWith(AgendaText(Fetched(events)), AgendaHeader)
  {
    JoinMapInPlace(EventLine, events, i);
    OccursBehind(AgendaHeader, JoinMap(EventLine, events), EventLine(events[i]), |JoinMap(EventLine, events[..i])|);
    OccursBehind(AgendaHeader, JoinMap(EventLine, events), [], 0);
  }

  /** An event's line shows its cleaned `dateTime`, else its cleaned `date`, and its summary or 'No Title'. */
  lemma LineShowsStartAndSummary(e: Event)
    requires StartOf(e).Some?
    ensures var start := if e.dateTime.Some? then e.dateTime.value else e.date.value;
      EventLine(e) == "• <b>" + CleanTime(start) + "</b>: " + (if e.summary.Some? then e.summary.value else "No Title") + "\n"
  {
  }

  /** An event with neither start form makes the whole reply the error message. */
  lemma MissingStartFails(events: seq<Event>, i: nat)
    requires i < |events| && events[i].dateTime.None? && events[i].date.None?
    ensures AgendaText(Fetched(events)) == ErrorText(NoStartError)
  {
  }
}
