/** The live watcher's classifier of one gateway-log line: an ordered chain of rules
    (tool invocation, model usage, session, ERROR level, subsystem) where the first rule
    that applies makes the event and a line no rule applies to makes none. */
module LiveClassifier {
  import opened Wrappers
  import opened Text
  import opened Regex
  import opened Events
  import opened GatewayLog

  /** The live `parseLogLine`. `now` is the clock reading, used for a record without a
      `time` and for the id; `dateMs` is the date parser; `suffix` the random id suffix. */
  function ClassifyLive(input: LogInput, now: int, dateMs: string -> int, suffix: string): Option<ActivityEvent> {
    match input
    case Malformed => None
    case Parsed(r) =>
      var msg := MessageText(r);
      var ts := RecordTs(r, now, dateMs);
      var id := EventId(now, suffix);
      if ToolMatch(msg).Some? then
        Some(ToolEventOf(ToolMatch(msg).value, ts, id))
      else if ModelWords(msg) then
        Some(NewEvent(ts, id, ModelEvent, "usage", Info).(message := Some(Truncate(msg, 200))))
      else if SessionWords(msg) && AgentToken(msg).Some? then
        Some(NewEvent(ts, id, SessionEvent, "state", Info).(sessionKey := AgentToken(msg), message := Some(Truncate(msg, 200))))
      else if Level(r) == "ERROR" then
        Some(NewEvent(ts, id, ErrorEvent, ErrorAction(msg).GetOr("error"), Error).(message := Some(Truncate(msg, 500))))
      else if Subsystem(r).Some? && msg != "" && Truthy(r.field1) then
        var status := if Level(r) == "ERROR" then Error else Info;
        Some(NewEvent(ts, id, MessageEvent, StripBracesQuotesSpace(Subsystem(r).value), status)
          .(message := Some(Truncate(r.field1.value, 300))))
      else None
  }

  predicate ModelWords(msg: string) {
    Contains(msg, "model.usage") || Contains(msg, "tokens")
  }

  predicate SessionWords(msg: string) {
    Contains(msg, "Session") || Contains(msg, "session")
  }

  /** Some rule of the chain applies to the record. */
  predicate AnyLiveRule(r: LogRecord) {
    var msg := MessageText(r);
    || ToolMatch(msg).Some?
    || ModelWords(msg)
    || (SessionWords(msg) && AgentToken(msg).Some?)
    || Level(r) == "ERROR"
    || (Subsystem(r).Some? && msg != "" && Truthy(r.field1))
  }

  /** No event comes exactly from a malformed line or a record no rule applies to. */
  lemma LiveNoEvent(input: LogInput, now: int, dateMs: string -> int, suffix: string)
    ensures ClassifyLive(input, now, dateMs, suffix).None? <==> input.Malformed? || !AnyLiveRule(input.record)
  {
  }

  /** Every event carries the record's timestamp and an id made from the clock reading,
      and its message is at most 500 characters long. */
  lemma LiveEventBasics(input: LogInput, now: int, dateMs: string -> int, suffix: string)
    requires ClassifyLive(input, now, dateMs, suffix).Some?
    ensures var e := ClassifyLive(input, now, dateMs, suffix).value;
      && input.Parsed?
      && e.ts == RecordTs(input.record, now, dateMs)
      && IntToDecimal(now) + "-" <= e.id
      && (e.message.Some? ==> |e.message.value| <= 500)
  {
  }

  /** The tool rule comes first: a message it matches makes a tool event whatever the
      level and whatever else the message mentions, with the lower-cased action, status
      `error` exactly for a `failed` status word and the detail as message. */
  lemma LiveToolRule(r: LogRecord, now: int, dateMs: string -> int, suffix: string)
    requires ToolMatch(MessageText(r)).Some?
    ensures var c := ToolMatch(MessageText(r)).value;
      var o := ClassifyLive(Parsed(r), now, dateMs, suffix);
      && o.Some? && o.value.eventType == ToolEvent
      && o.value.action == Lower(c.action) && LowerWord(o.value.action)
      && (o.value.status == Error <==> c.statusWord.Some? && StatusWordIs(c.statusWord.value, "failed"))
      && (o.value.status != Error ==> o.value.status == Success)
      && ToolMessageFrom(o.value.message, c.detail)
  {
    LiveToolEvent(r, now, dateMs, suffix);
    var _, _ := ToolEventMeaning(MessageText(r), RecordTs(r, now, dateMs), EventId(now, suffix));
  }

  lemma LiveToolEvent(r: LogRecord, now: int, dateMs: string -> int, suffix: string)
    requires ToolMatch(MessageText(r)).Some?
    ensures ClassifyLive(Parsed(r), now, dateMs, suffix)
      == Some(ToolEventOf(ToolMatch(MessageText(r)).value, RecordTs(r, now, dateMs), EventId(now, suffix)))
  {
  }

  /** A message that mentions `model.usage` or `tokens` and is no tool line is a model
      usage event with the message cut to 200 characters. */
  lemma LiveModelRule(r: LogRecord, now: int, dateMs: string -> int, suffix: string)
    requires ToolMatch(MessageText(r)).None? && ModelWords(MessageText(r))
    ensures var o := ClassifyLive(Parsed(r), now, dateMs, suffix);
      && o.Some? && o.value.eventType == ModelEvent && o.value.action == "usage" && o.value.status == Info
      && o.value.message == Some(Truncate(MessageText(r), 200))
  {
  }

  /** A session event comes only from a message that names a session and holds an
      `agent:` token, and its session key is the first such token, `agent:` included. */
  lemma LiveSessionRule(r: LogRecord, now: int, dateMs: string -> int, suffix: string)
    requires ClassifyLive(Parsed(r), now, dateMs, suffix).Some?
    requires ClassifyLive(Parsed(r), now, dateMs, suffix).value.eventType == SessionEvent
    ensures var msg := MessageText(r); var e := ClassifyLive(Parsed(r), now, dateMs, suffix).value;
      && SessionWords(msg) && !ModelWords(msg) && ToolMatch(msg).None?
      && e.sessionKey == AgentToken(msg) && e.sessionKey.Some?
      && |e.sessionKey.value| > 6 && e.sessionKey.value[..6] == "agent:"
      && Contains(msg, e.sessionKey.value)
      && e.action == "state" && e.status == Info && e.message == Some(Truncate(msg, 200))
  {
    LiveSessionEvent(r, now, dateMs, suffix);
    AgentTokenFound(MessageText(r));
  }

  lemma LiveSessionEvent(r: LogRecord, now: int, dateMs: string -> int, suffix: string)
    requires ClassifyLive(Parsed(r), now, dateMs, suffix).Some?
    requires ClassifyLive(Parsed(r), now, dateMs, suffix).value.eventType == SessionEvent
    ensures var msg := MessageText(r);
      && SessionWords(msg) && !ModelWords(msg) && ToolMatch(msg).None? && AgentToken(msg).Some?
      && ClassifyLive(Parsed(r), now, dateMs, suffix).value
        == NewEvent(RecordTs(r, now, dateMs), EventId(now, suffix), SessionEvent, "state", Info)
          .(sessionKey := AgentToken(msg), message := Some(Truncate(msg, 200)))
  {
  }

  /** An `agent:` token is `agent:` and at least one key character, and occurs in the
      message. */
  lemma AgentTokenFound(msg: string)
    requires AgentToken(msg).Some?
    ensures var k := AgentToken(msg).value;
      |k| > 6 && k[..6] == "agent:" && Contains(msg, k)
  {
    var p := AgentTokenShape(msg);
  }

  /** A message naming a session without an `agent:` token gets no session event: the
      line goes on to the ERROR and subsystem rules. */
  lemma LiveSessionFallsThrough(r: LogRecord, now: int, dateMs: string -> int, suffix: string)
    requires ToolMatch(MessageText(r)).None? && !ModelWords(MessageText(r))
    requires AgentToken(MessageText(r)).None?
    ensures var o := ClassifyLive(Parsed(r), now, dateMs, suffix);
      o.None? || o.value.eventType == ErrorEvent || o.value.eventType == MessageEvent
  {
  }

  /** An ERROR-level line no earlier rule took is an error event whose action is a word:
      the first bracketed word or word before `failed`, or `error`. */
  lemma LiveErrorRule(r: LogRecord, now: int, dateMs: string -> int, suffix: string)
    requires !AnyEarlierThanError(r) && Level(r) == "ERROR"
    ensures var msg := MessageText(r); var o := ClassifyLive(Parsed(r), now, dateMs, suffix);
      && o.Some? && o.value.eventType == ErrorEvent && o.value.status == Error
      && WordRun(o.value.action)
      && (ErrorAction(msg).Some? ==> o.value.action == ErrorAction(msg).value)
      && (ErrorAction(msg).None? ==> o.value.action == "error")
      && o.value.message == Some(Truncate(msg, 500))
  {
    if ErrorAction(MessageText(r)).Some? {
      ErrorActionShape(MessageText(r));
    }
  }

  predicate AnyEarlierThanError(r: LogRecord) {
    var msg := MessageText(r);
    ToolMatch(msg).Some? || ModelWords(msg) || (SessionWords(msg) && AgentToken(msg).Some?)
  }

  /** A subsystem event is never an error, because ERROR lines were taken by the rule
      before; its action is the subsystem's `[\w/]` name and its message field `"1"` cut
      to 300 characters. */
  lemma LiveSubsystemRule(r: LogRecord, now: int, dateMs: string -> int, suffix: string)
    requires ClassifyLive(Parsed(r), now, dateMs, suffix).Some?
    requires ClassifyLive(Parsed(r), now, dateMs, suffix).value.eventType == MessageEvent
    ensures var e := ClassifyLive(Parsed(r), now, dateMs, suffix).value;
      && e.status == Info && Level(r) != "ERROR"
      && Subsystem(r).Some?&& e.action == Subsystem(r).value
      && e.action != [] && (forall i :: 0 <= i < |e.action| ==> IsPathChar(e.action[i]))
      && Truthy(r.field1) && e.message == Some(Truncate(r.field1.value, 300))
  {
    SubsystemAction(r);
  }

  /** A tool line is a tool event at any level, ERROR included, and whatever else its
      record holds: `[tools] write failed: disk full` logged as an error is the tool
      `write` with status `error` and message `disk full`, not an error event. */
  lemma LiveToolBeforeError(r: LogRecord, w: string, st: string, d: string, now: int, dateMs: string -> int, suffix: string)
    requires ToolLineParts(w, st, d)
    requires r.field0 == Some(ToolLine(w, st, d))
    ensures ClassifyLive(Parsed(r), now, dateMs, suffix).Some?
    ensures var e := ClassifyLive(Parsed(r), now, dateMs, suffix).value;
      && e.eventType == ToolEvent && e.action == Lower(w)
      && (e.status == Error <==> st == "failed")
      && e.message == (if d == "" then None else Some(Truncate(d, 500)))
  {
    assert MessageText(r) == ToolLine(w, st, d);
    ToolLineMatch(w, st, d);
    LiveToolEvent(r, now, dateMs, suffix);
    ToolEventOfLine(w, st, d, RecordTs(r, now, dateMs), EventId(now, suffix));
  }

  lemma ToolEventOfLine(w: string, st: string, d: string, ts: int, id: string)
    requires st == "failed" || st == "succeeded"
    ensures var e := ToolEventOf(ToolCapture(w, Some(st), d), ts, id);
      && e.eventType == ToolEvent && e.action == Lower(w)
      && (e.status == Error <==> st == "failed")
      && e.message == (if d == "" then None else Some(Truncate(d, 500)))
  {
    if st == "succeeded" {
      assert Lower(st)[0] == 's';
    } else {
      assert Lower(st) == "failed";
    }
  }
}
