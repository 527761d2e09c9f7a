/** The batch parser of a day's gateway log: its own classifier of one line, with the
    rule chain tool invocation, session, ERROR level, subsystem (no model-usage rule),
    and the loop that collects the events of a file in line order. */
module BatchClassifier {
  import opened Wrappers
  import opened Text
  import opened Regex
  import opened Events
  import opened GatewayLog
  import LiveClassifier

  /** The batch `parseLogLine`. The id is made from the event's own timestamp. */
  function ClassifyBatch(input: LogInput, now: int, dateMs: string -> int, suffix: string): Option<ActivityEvent> {
    match input
    case Malformed => None
    case Parsed(r) =>
      var msg := MessageText(r);
      var ts := RecordTs(r, now, dateMs);
      var id := EventId(ts, suffix);
      if ToolMatch(msg).Some? then
        Some(ToolEventOf(ToolMatch(msg).value, ts, id))
      else if BatchSessionWords(msg) then
        Some(NewEvent(ts, id, SessionEvent, "state", Info).(sessionKey := AgentToken(msg), message := Some(Truncate(msg, 200))))
      else if Level(r) == "ERROR" then
        Some(NewEvent(ts, id, ErrorEvent, "error", Error).(message := Some(Truncate(msg, 500))))
      else if Subsystem(r).Some? && msg != "" then
        var status := if Level(r) == "ERROR" then Error else Info;
        var text := if Truthy(r.field1) then r.field1.value else msg;
        Some(NewEvent(ts, id, MessageEvent, StripBracesQuotesSpace(Subsystem(r).value), status)
          .(message := Some(Truncate(text, 300))))
      else None
  }

  predicate BatchSessionWords(msg: string) {
    Contains(msg, "Session store") || Contains(msg, "session")
  }

  predicate AnyBatchRule(r: LogRecord) {
    var msg := MessageText(r);
    || ToolMatch(msg).Some?
    || BatchSessionWords(msg)
    || Level(r) == "ERROR"
    || (Subsystem(r).Some? && msg != "")
  }

  /** No event comes exactly from a malformed line or a record no rule applies to. */
  lemma BatchNoEvent(input: LogInput, now: int, dateMs: string -> int, suffix: string)
    ensures ClassifyBatch(input, now, dateMs, suffix).None? <==> input.Malformed? || !AnyBatchRule(input.record)
  {
  }

  /** Every batch id begins with the event's timestamp and a dash, and the timestamp is
      the record's `time` or the clock reading. */
  lemma BatchEventBasics(input: LogInput, now: int, dateMs: string -> int, suffix: string)
    requires ClassifyBatch(input, now, dateMs, suffix).Some?
    ensures var e := ClassifyBatch(input, now, dateMs, suffix).value;
      && input.Parsed? && e.ts == RecordTs(input.record, now, dateMs)
      && IntToDecimal(e.ts) + "-" <= e.id
      && (e.message.Some? ==> |e.message.value| <= 500)
  {
  }

  /** The batch parser has no model-usage rule: it never makes a model event, so a line
      that mentions `tokens` is a session, error or subsystem event or none. */
  lemma BatchNoModel(input: LogInput, now: int, dateMs: string -> int, suffix: string)
    ensures var o := ClassifyBatch(input, now, dateMs, suffix);
      o.None? || o.value.eventType != ModelEvent
  {
  }

  /** The tool rule is the live one: on a tool line both classifiers make the same event,
      apart from the id (the batch one is made from the timestamp, the live one from the
      clock). */
  lemma ToolRuleAgrees(r: LogRecord, now: int, dateMs: string -> int, liveSuffix: string, suffix: string)
    requires ToolMatch(MessageText(r)).Some?
    ensures var live := LiveClassifier.ClassifyLive(Parsed(r), now, dateMs, liveSuffix);
      var batch := ClassifyBatch(Parsed(r), now, dateMs, suffix);
      && live.Some? && batch.Some?
      && batch.value == live.value.(id := EventId(batch.value.ts, suffix))
  {
  }

  /** A message mentioning `session` or `Session store` that is no tool line is a
      session event at once, with the first `agent:` token as key when there is one and
      no key otherwise. */
  lemma BatchSessionRule(r: LogRecord, now: int, dateMs: string -> int, suffix: string)
    requires ToolMatch(MessageText(r)).None? && BatchSessionWords(MessageText(r))
    ensures var msg := MessageText(r); var o := ClassifyBatch(Parsed(r), now, dateMs, suffix);
      && o.Some? && o.value.eventType == SessionEvent && o.value.action == "state" && o.value.status == Info
      && o.value.sessionKey == AgentToken(msg)
      && (o.value.sessionKey.Some? ==> |o.value.sessionKey.value| > 6 && o.value.sessionKey.value[..6] == "agent:")
      && o.value.message == Some(Truncate(msg, 200)) && |o.value.message.value| <= 200
  {
    if AgentToken(MessageText(r)).Some? {
      var _ := AgentTokenShape(MessageText(r));
    }
  }

  /** Every remaining ERROR line is the error event `error`. */
  lemma BatchErrorRule(r: LogRecord, now: int, dateMs: string -> int, suffix: string)
    requires ToolMatch(MessageText(r)).None? && !BatchSessionWords(MessageText(r)) && Level(r) == "ERROR"
    ensures var o := ClassifyBatch(Parsed(r), now, dateMs, suffix);
      && o.Some? && o.value.eventType == ErrorEvent && o.value.action == "error" && o.value.status == Error
      && o.value.message == Some(Truncate(MessageText(r), 500))
  {
  }

  /** A subsystem event needs only a non-empty message; its status is always `info`,
      its action the subsystem's `[\w/]` name and its message field `"1"`, or the message
      when that field is empty, cut to 300 characters. */
  lemma BatchSubsystemRule(r: LogRecord, now: int, dateMs: string -> int, suffix: string)
    requires ClassifyBatch(Parsed(r), now, dateMs, suffix).Some?
    requires ClassifyBatch(Parsed(r), now, dateMs, suffix).value.eventType == MessageEvent
    ensures var msg := MessageText(r); var e := ClassifyBatch(Parsed(r), now, dateMs, suffix).value;
      && e.status == Info && Level(r) != "ERROR" && msg != ""
      && Subsystem(r).Some? && e.action == Subsystem(r).value
      && e.action != [] && (forall i :: 0 <= i < |e.action| ==> IsPathChar(e.action[i]))
      && e.message == Some(Truncate(if Truthy(r.field1) then r.field1.value else msg, 300))
  {
    SubsystemAction(r);
  }

  /** The two chains disagree on a message naming a session without an `agent:` token:
      at a level other than ERROR and without a subsystem, the live watcher makes no event
      and the batch parser a session event without a key. */
  lemma SessionWithoutToken(r: LogRecord, now: int, dateMs: string -> int, liveSuffix: string, suffix: string)
    requires var msg := MessageText(r);
      Contains(msg, "session") && ToolMatch(msg).None? && !LiveClassifier.ModelWords(msg) && AgentToken(msg).None?
    requires Level(r) != "ERROR" && Subsystem(r).None?
    ensures LiveClassifier.ClassifyLive(Parsed(r), now, dateMs, liveSuffix).None?
    ensures var o := ClassifyBatch(Parsed(r), now, dateMs, suffix);
      o.Some? && o.value.eventType == SessionEvent && o.value.sessionKey.None?
  {
  }

  // ---------------------------------------------------------------------------
  // parseLogFile

  /** One line as the batch parser reads it: the line and the clock reading and random
      suffix its classification draws. */
  datatype LineRead = LineRead(input: LogInput, now: int, suffix: string)

  function ClassifyRead(l: LineRead, dateMs: string -> int): Option<ActivityEvent> {
    ClassifyBatch(l.input, l.now, dateMs, l.suffix)
  }

  /** The events of the lines: the non-null classifications, in line order. */
  function LineEvents(lines: seq<LineRead>, dateMs: string -> int): seq<ActivityEvent> {
    if lines == [] then []
    else
      var last := ClassifyRead(lines[|lines| - 1], dateMs);
      LineEvents(lines[..|lines| - 1], dateMs) + (if last.Some? then [last.value] else [])
  }

  /** `parseLogFile`: no events for a missing file, otherwise each line's event pushed in
      order. */
  method ParseLogFile(file: Option<seq<LineRead>>, dateMs: string -> int) returns (events: seq<ActivityEvent>)
    ensures file.None? ==> events == []
    ensures file.Some? ==> events == LineEvents(file.value, dateMs)
  {
    events := [];
    if file.None? {
      return;
    }
    var lines := file.value;
    var i := 0;
    while i < |lines|
      invariant 0 <= i <= |lines|
      invariant events == LineEvents(lines[..i], dateMs)
    {
      var event := ClassifyRead(lines[i], dateMs);
      LineEventsSnoc(lines, i, dateMs);
      if event.Some? {
        events := events + [event.value];
      }
      i := i + 1;
    }
    assert lines[..i] == lines;
  }

  /** One more line adds its event when it classifies to one. */
  lemma LineEventsSnoc(lines: seq<LineRead>, i: nat, dateMs: string -> int)
    requires i < |lines|
    ensures var ev := ClassifyRead(lines[i], dateMs);
      LineEvents(lines[..i + 1], dateMs) == LineEvents(lines[..i], dateMs) + (if ev.Some? then [ev.value] else [])
  {
    assert lines[..i + 1][..i] == lines[..i];
  }

  /** The events of a file are those of its first part followed by those of the rest. */
  lemma {:induction false} LineEventsConcat(a: seq<LineRead>, b: seq<LineRead>, dateMs: string -> int)
    ensures LineEvents(a + b, dateMs) == LineEvents(a, dateMs) + LineEvents(b, dateMs)
    decreases |b|
  {
    if b == [] {
      assert a + b == a;
    } else {
      var init := b[..|b| - 1];
      assert (a + b)[..|a + b| - 1] == a + init;
      assert (a + b)[|a + b| - 1] == b[|b| - 1];
      LineEventsConcat(a, init, dateMs);
    }
  }

  /** Exactly the non-null classifications appear: an event is in the result if and only
      if some line classifies to it. */
  lemma LineEventsMembers(lines: seq<LineRead>, dateMs: string -> int, e: ActivityEvent)
    ensures e in LineEvents(lines, dateMs) <==> exists i :: 0 <= i < |lines| && ClassifyRead(lines[i], dateMs) == Some(e)
  {
    if e in LineEvents(lines, dateMs) {
      var i := LineOfEvent(lines, dateMs, e);
    }
    if exists i :: 0 <= i < |lines| && ClassifyRead(lines[i], dateMs) == Some(e) {
      var i :| 0 <= i < |lines| && ClassifyRead(lines[i], dateMs) == Some(e);
      EventOfLine(lines, dateMs, i);
    }
  }

  lemma {:induction false} LineOfEvent(lines: seq<LineRead>, dateMs: string -> int, e: ActivityEvent) returns (i: nat)
    requires e in LineEvents(lines, dateMs)
    ensures i < |lines| && ClassifyRead(lines[i], dateMs) == Some(e)
  {
    var init := lines[..|lines| - 1];
    if e in LineEvents(init, dateMs) {
      i := LineOfEvent(init, dateMs, e);
      assert init[i] == lines[i];
    } else {
      i := |lines| - 1;
    }
  }

  lemma {:induction false} EventOfLine(lines: seq<LineRead>, dateMs: string -> int, i: nat)
    requires i < |lines| && ClassifyRead(lines[i], dateMs).Some?
    ensures ClassifyRead(lines[i], dateMs).value in LineEvents(lines, dateMs)
  {
    var init := lines[..|lines| - 1];
    if i < |lines| - 1 {
      assert init[i] == lines[i];
      EventOfLine(init, dateMs, i);
    }
  }

  /** At most one event per line. */
  lemma {:induction false} LineEventsBound(lines: seq<LineRead>, dateMs: string -> int)
    ensures |LineEvents(lines, dateMs)| <= |lines|
  {
    if lines != [] {
      LineEventsBound(lines[..|lines| - 1], dateMs);
    }
  }
}
