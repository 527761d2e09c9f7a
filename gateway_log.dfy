/** A gateway-log line after `JSON.parse`, and what both gateway-log classifiers read
    from it the same way: the message text, the level, the timestamp, the event id and
    the tool-invocation event. */
module GatewayLog {
  import opened Wrappers
  import opened Text
  import opened Regex
  import opened Events

  /** The `_meta` object of a log record. */
  datatype Meta = Meta(date: string, logLevelName: Option<string>, name: Option<string>)

  /** A record with its keys `"0"`, `"1"`, `time` and `_meta`, each possibly absent. */
  datatype LogRecord = LogRecord(
    field0: Option<string>,
    field1: Option<string>,
    time: Option<string>,
    meta: Option<Meta>)

  /** A line is either a record or something the classifier's `try` turns into `null`:
      text that is not JSON, or JSON `null`, whose properties cannot be read. */
  datatype LogInput = Malformed | Parsed(record: LogRecord)

  /** `entry["0"] || entry["1"] || ""`: the first of the two fields that is a non-empty
      string, or the empty string. */
  function MessageText(r: LogRecord): (msg: string)
    ensures msg == "" <==> !Truthy(r.field0) && !Truthy(r.field1)
    ensures Truthy(r.field0) ==> msg == r.field0.value
    ensures !Truthy(r.field0) && Truthy(r.field1) ==> msg == r.field1.value
  {
    if Truthy(r.field0) then r.field0.value
    else if Truthy(r.field1) then r.field1.value
    else ""
  }

  function LevelName(r: LogRecord): Option<string> {
    if r.meta.Some? then r.meta.value.logLevelName else None
  }

  /** `entry._meta?.logLevelName || "INFO"`. */
  function Level(r: LogRecord): (level: string)
    ensures level != ""
    ensures Truthy(LevelName(r)) ==> level == LevelName(r).value
    ensures !Truthy(LevelName(r)) ==> level == "INFO"
  {
    if Truthy(LevelName(r)) then LevelName(r).value else "INFO"
  }

  function MetaName(r: LogRecord): Option<string> {
    if r.meta.Some? then r.meta.value.name else None
  }

  /** `entry._meta?.name?.match(/subsystem.*?([\w/]+)/)`, its capture. */
  function Subsystem(r: LogRecord): Option<string> {
    if MetaName(r).Some? then SubsystemName(MetaName(r).value) else None
  }

  /** The subsystem event's action: the capture with braces, quotes and white space
      removed, which leaves it as it is. */
  lemma SubsystemAction(r: LogRecord)
    requires Subsystem(r).Some?
    ensures var n := Subsystem(r).value;
      StripBracesQuotesSpace(n) == n && n != [] && forall i :: 0 <= i < |n| ==> IsPathChar(n[i])
  {
    SubsystemNameShape(MetaName(r).value);
    StripKeepsPathChars(Subsystem(r).value);
  }

  /** `entry.time ? new Date(entry.time).getTime() : Date.now()`, with the date parser
      and the clock given. */
  function RecordTs(r: LogRecord, now: int, dateMs: string -> int): (ts: int)
    ensures Truthy(r.time) ==> ts == dateMs(r.time.value)
    ensures !Truthy(r.time) ==> ts == now
  {
    if Truthy(r.time) then dateMs(r.time.value) else now
  }

  /** An event id `${n}-${suffix}`: a number, a dash and a random suffix. */
  function EventId(n: int, suffix: string): (id: string)
    ensures IntToDecimal(n) + "-" <= id
  {
    IntToDecimal(n) + "-" + suffix
  }

  /** The number an id was made from can be read back from it: the id's first character
      and what follows up to the next dash. So two ids made from different numbers differ. */
  lemma EventIdPrefix(n: int, m: int, suffix: string, suffix': string)
    requires EventId(n, suffix) == EventId(m, suffix')
    ensures n == m
  {
    NumberOfId(n, suffix);
    NumberOfId(m, suffix');
    IntToDecimalInjective(n, m);
  }

  lemma NumberOfId(n: int, suffix: string)
    ensures var id := EventId(n, suffix); |id| >= 1 && IntToDecimal(n) == [id[0]] + Before(id[1..], '-')
  {
    var a := IntToDecimal(n);
    var id := EventId(n, suffix);
    assert id[1..] == a[1..] + ['-'] + suffix;
    BeforeConcat(a[1..], '-', suffix);
  }

  lemma {:induction false} BeforeConcat(x: string, c: char, rest: string)
    requires c !in x
    ensures Before(x + [c] + rest, c) == x
  {
    if x != [] {
      assert (x + [c] + rest)[1..] == x[1..] + [c] + rest;
      BeforeConcat(x[1..], c, rest);
    }
  }

  lemma IntToDecimalInjective(n: int, m: int)
    requires IntToDecimal(n) == IntToDecimal(m)
    ensures n == m
  {
    DecimalSign(n);
    DecimalSign(m);
    if n < 0 && m < 0 {
      assert NatToDecimal(-n) == IntToDecimal(n)[1..] == NatToDecimal(-m);
      NatToDecimalInjective(-n, -m);
    } else if n >= 0 && m >= 0 {
      NatToDecimalInjective(n, m);
    }
  }

  lemma DecimalSign(n: int)
    ensures IntToDecimal(n)[0] == '-' <==> n < 0
  {
    if n >= 0 {
      assert IsDigit(NatToDecimal(n)[0]);
    }
  }

  lemma {:induction false} NatToDecimalInjective(n: nat, m: nat)
    requires NatToDecimal(n) == NatToDecimal(m)
    ensures n == m
    decreases n
  {
    var r := NatToDecimal(n);
    if n < 10 && m < 10 {
      assert r[0] == DigitChar(n) && r[0] == DigitChar(m);
    } else if n >= 10 && m >= 10 {
      assert r[|r| - 1] == DigitChar(n % 10) == DigitChar(m % 10);
      assert NatToDecimal(n / 10) == r[..|r| - 1] == NatToDecimal(m / 10);
      NatToDecimalInjective(n / 10, m / 10);
    }
  }

  /** The event of the tool-invocation rule, the same in both classifiers apart from its
      id: `action` lower-cased, status `error` exactly when the status word lower-cases to
      `failed`, and the detail cut to 500 characters, absent when empty. */
  function ToolEventOf(c: ToolCapture, ts: int, id: string): (e: ActivityEvent) {
    var status := if c.statusWord.Some? && Lower(c.statusWord.value) == "failed" then Error else Success;
    var detail := Truncate(c.detail, 500);
    NewEvent(ts, id, ToolEvent, Lower(c.action), status).(message := if detail == "" then None else Some(detail))
  }

  /** A lower-case ASCII word: what a lower-cased `\w+` capture is. */
  predicate LowerWord(w: string) {
    w != [] && forall i :: 0 <= i < |w| ==> IsWordChar(w[i]) && !('A' <= w[i] <= 'Z')
  }

  /** The tool event of a matching message: its action is the word after the tag in lower
      case, its status is `error` exactly when the status word is `failed` in any letter
      case and `success` otherwise, and its message is the detail cut to at most 500
      characters on one line, absent exactly when the detail is empty. */
  lemma ToolEventMeaning(msg: string, ts: int, id: string) returns (p: nat, a: nat)
    requires ToolMatch(msg).Some?
    ensures var c := ToolMatch(msg).value; var e := ToolEventOf(c, ts, id);
      && ActionShape(msg, p, a, c.action) && e.action == Lower(c.action) && LowerWord(e.action)
      && e.eventType == ToolEvent && e.ts == ts && e.id == id && e.sessionKey.None?
      && (e.status == Error <==> c.statusWord.Some? && StatusWordIs(c.statusWord.value, "failed"))
      && (e.status != Error ==> e.status == Success)
      && ToolMessageFrom(e.message, c.detail)
  {
    var c := ToolMatch(msg).value;
    p, a := ToolMatchShape(msg);
    ToolEventFields(c, ts, id);
  }

  /** The tool event's message: absent exactly when the detail is empty, otherwise the
      detail's first 500 characters (all of it when it is shorter), with no line
      terminator. */
  ghost predicate ToolMessageFrom(m: Option<string>, detail: string) {
    && (m.None? <==> detail == "")
    && (m.Some? ==> m.value == Truncate(detail, 500) && m.value <= detail && DetailShape(m.value))
    && (m.Some? ==> |m.value| == (if |detail| <= 500 then |detail| else 500))
  }

  lemma ToolEventFields(c: ToolCapture, ts: int, id: string)
    requires StatusShape(c.statusWord) && DetailShape(c.detail)
    requires c.action != [] && forall i :: 0 <= i < |c.action| ==> IsWordChar(c.action[i])
    ensures var e := ToolEventOf(c, ts, id);
      && LowerWord(e.action)
      && (e.status == Error <==> c.statusWord.Some? && StatusWordIs(c.statusWord.value, "failed"))
      && ToolMessageFrom(e.message, c.detail)
  {
    var e := ToolEventOf(c, ts, id);
    if c.statusWord.Some? {
      LowerIsFailed(c.statusWord.value);
    }
    forall i | 0 <= i < |e.action| ensures IsWordChar(e.action[i]) && !('A' <= e.action[i] <= 'Z') {
      assert e.action[i] == LowerChar(c.action[i]);
    }
    if e.message.Some? {
      var m := e.message.value;
      forall i | 0 <= i < |m| ensures !IsLineTerminator(m[i]) {
        assert m[i] == c.detail[i];
      }
    }
  }
}
