/** The classifier of one session-transcript record: a `message` record becomes one
    event per tool call and per tool result in its content, in content order, and then a
    model-usage event when an assistant message reports usage. */
module Transcripts {
  import opened Wrappers
  import opened Text
  import opened Seqs
  import opened Events
  import GatewayLog

  /** A content item. `NullItem` is a JSON `null` in the content array, whose `type`
      cannot be read; any other value is an `Item`, its properties absent when it has
      none of that kind (`kind` is the `type` when that is a string). */
  datatype ContentItem =
    | NullItem
    | Item(kind: Option<string>, id: Option<string>, name: Option<string>, arguments: Option<Json>,
           toolCallId: Option<string>, content: Option<Json>, isError: Option<Json>)

  datatype Usage = Usage(input: int, output: int, totalTokens: int, cost: Option<real>)

  datatype TranscriptMessage = TranscriptMessage(
    role: Option<string>,
    content: Option<seq<ContentItem>>,
    model: Option<string>,
    usage: Option<Usage>)

  datatype TranscriptEntry = TranscriptEntry(entryType: Option<string>, timestamp: string, message: Option<TranscriptMessage>)

  /** A line is a record or something whose `type` cannot be read: text that is not
      JSON, or JSON `null`. */
  datatype TranscriptInput = Malformed | Parsed(entry: TranscriptEntry)

  /** JavaScript truthiness of a JSON value. */
  predicate JsonTruthy(j: Json) {
    match j
    case JNull => false
    case JBool(b) => b
    case JNumber(n) => n != 0.0
    case JString(s) => s != ""
    case JArray(_) => true
    case JObject(_) => true
  }

  /** The things an event of a record is made from besides the record: the agent and
      session the file belongs to, the date parser, `JSON.stringify` of a non-string
      result, and the random id suffix drawn for the item at each position. */
  datatype Env = Env(agentId: string, sessionId: string, dateMs: string -> int, stringify: Json -> string, suffix: nat -> string)

  predicate IsNamedCall(item: ContentItem) {
    item.Item? && item.kind == Some("toolCall") && Truthy(item.name)
  }

  predicate IsResult(item: ContentItem) {
    item.Item? && item.kind == Some("toolResult")
  }

  function Tagged(e: ActivityEvent, env: Env): ActivityEvent {
    e.(sessionId := Some(env.sessionId), agentId := Some(env.agentId))
  }

  /** The event of a named tool call at position `i`. */
  function CallEvent(item: ContentItem, i: nat, ts: int, env: Env): ActivityEvent
    requires IsNamedCall(item)
  {
    var id := if Truthy(item.id) then item.id.value else GatewayLog.EventId(ts, env.suffix(i));
    Tagged(NewEvent(ts, id, ToolEvent, item.name.value, Start), env).(params := item.arguments)
  }

  /** `typeof content === "string" ? content : JSON.stringify(content)`, where
      stringifying an absent value gives `undefined`. */
  function ResultText(content: Option<Json>, stringify: Json -> string): Option<string> {
    match content
    case None => None
    case Some(JString(s)) => Some(s)
    case Some(j) => Some(stringify(j))
  }

  /** The event of a tool result at position `i`. */
  function ResultEvent(item: ContentItem, i: nat, ts: int, env: Env): ActivityEvent
    requires IsResult(item)
  {
    var id := if Truthy(item.toolCallId) then item.toolCallId.value else GatewayLog.EventId(ts, env.suffix(i));
    var status := if item.isError.Some? && JsonTruthy(item.isError.value) then Error else Success;
    var text := ResultText(item.content, env.stringify);
    Tagged(NewEvent(ts, id, ToolEvent, "result", status), env)
      .(result := if text.Some? then Some(Truncate(text.value, 500)) else None)
  }

  /** The events of one item: the tool-call check and the tool-result check in turn. */
  function ItemEvents(item: ContentItem, i: nat, ts: int, env: Env): seq<ActivityEvent> {
    (if IsNamedCall(item) then [CallEvent(item, i, ts, env)] else [])
    + (if IsResult(item) then [ResultEvent(item, i, ts, env)] else [])
  }

  /** The events of the items from position `i` to the first `null` item. */
  function ContentFrom(items: seq<ContentItem>, i: nat, ts: int, env: Env): seq<ActivityEvent>
    decreases |items| - i
  {
    if i >= |items| || items[i].NullItem? then []
    else ItemEvents(items[i], i, ts, env) + ContentFrom(items, i + 1, ts, env)
  }

  predicate HasNull(items: seq<ContentItem>) {
    exists i :: 0 <= i < |items| && items[i].NullItem?
  }

  function Items(m: TranscriptMessage): seq<ContentItem> {
    m.content.GetOr([])
  }

  predicate IsMessageRecord(input: TranscriptInput) {
    input.Parsed? && input.entry.entryType == Some("message") && input.entry.message.Some?
  }

  predicate ReportsUsage(m: TranscriptMessage) {
    m.usage.Some? && m.role == Some("assistant")
  }

  function UsageEvent(m: TranscriptMessage, ts: int, env: Env): ActivityEvent
    requires m.usage.Some?
  {
    var u := m.usage.value;
    Tagged(NewEvent(ts, "model-" + IntToDecimal(ts), ModelEvent, "usage", Info), env)
      .(model := m.model, tokens := Some(Tokens(u.input, u.output, u.totalTokens)), cost := u.cost)
  }

  /** The events `parseTranscriptLine` returns for a line. A `null` item makes reading its
      `type` throw: the events pushed before it are returned and no usage event follows. */
  function TranscriptEvents(input: TranscriptInput, env: Env): seq<ActivityEvent> {
    if !IsMessageRecord(input) then []
    else
      var m := input.entry.message.value;
      var ts := env.dateMs(input.entry.timestamp);
      var body := ContentFrom(Items(m), 0, ts, env);
      if !HasNull(Items(m)) && ReportsUsage(m) then body + [UsageEvent(m, ts, env)] else body
  }

  /** `parseTranscriptLine`: the loop over the content items, then the usage event. */
  method ParseTranscriptLine(input: TranscriptInput, env: Env) returns (events: seq<ActivityEvent>)
    ensures events == TranscriptEvents(input, env)
  {
    events := [];
    if !IsMessageRecord(input) {
      return;
    }
    var m := input.entry.message.value;
    var ts := env.dateMs(input.entry.timestamp);
    var items := Items(m);
    var i := 0;
    while i < |items|
      invariant 0 <= i <= |items|
      invariant forall j :: 0 <= j < i ==> items[j].Item?
      invariant events + ContentFrom(items, i, ts, env) == ContentFrom(items, 0, ts, env)
    {
      var item := items[i];
      if item.NullItem? {
        assert events + [] == ContentFrom(items, 0, ts, env);
        return;
      }
      ghost var before := events;
      events := PushItemEvents(events, item, i, ts, env);
      ContentStep(before, items, i, ts, env);
      i := i + 1;
    }
    assert !HasNull(items);
    if ReportsUsage(m) {
      events := events + [UsageEvent(m, ts, env)];
    }
  }

  /** The body of the loop: the tool-call check and the tool-result check. */
  method PushItemEvents(events: seq<ActivityEvent>, item: ContentItem, i: nat, ts: int, env: Env) returns (events': seq<ActivityEvent>)
    ensures events' == events + ItemEvents(item, i, ts, env)
  {
    events' := events;
    if IsNamedCall(item) {
      events' := events' + [CallEvent(item, i, ts, env)];
    }
    if IsResult(item) {
      events' := events' + [ResultEvent(item, i, ts, env)];
    }
  }

  /** One pass of the loop keeps what is pushed plus what is left equal to the whole. */
  lemma ContentStep(before: seq<ActivityEvent>, items: seq<ContentItem>, i: nat, ts: int, env: Env)
    requires i < |items| && items[i].Item?
    ensures before + ContentFrom(items, i, ts, env) == (before + ItemEvents(items[i], i, ts, env)) + ContentFrom(items, i + 1, ts, env)
  {
    ContentUnfold(items, i, ts, env);
    AppendAssoc(before, ItemEvents(items[i], i, ts, env), ContentFrom(items, i + 1, ts, env));
  }

  lemma ContentUnfold(items: seq<ContentItem>, i: nat, ts: int, env: Env)
    requires i < |items| && items[i].Item?
    ensures ContentFrom(items, i, ts, env) == ItemEvents(items[i], i, ts, env) + ContentFrom(items, i + 1, ts, env)
  {
  }

  lemma AppendAssoc<T>(a: seq<T>, b: seq<T>, c: seq<T>)
    ensures (a + b) + c == a + (b + c)
  {
  }

  // ---------------------------------------------------------------------------
  // Properties

  /** A record that is not a `message` record, or has no message, has no events. */
  lemma NotMessageNoEvents(input: TranscriptInput, env: Env)
    requires !IsMessageRecord(input)
    ensures TranscriptEvents(input, env) == []
  {
  }

  /** Every event of a record carries its timestamp, agent and session. */
  lemma EventsTagged(input: TranscriptInput, env: Env, e: ActivityEvent)
    requires e in TranscriptEvents(input, env)
    ensures IsMessageRecord(input) && e.ts == env.dateMs(input.entry.timestamp)
    ensures e.agentId == Some(env.agentId) && e.sessionId == Some(env.sessionId)
  {
    var m := input.entry.message.value;
    ContentTagged(Items(m), 0, env.dateMs(input.entry.timestamp), env, e);
  }

  lemma {:induction false} ContentTagged(items: seq<ContentItem>, i: nat, ts: int, env: Env, e: ActivityEvent)
    ensures e in ContentFrom(items, i, ts, env) ==> e.ts == ts && e.agentId == Some(env.agentId) && e.sessionId == Some(env.sessionId)
    decreases |items| - i
  {
    if i < |items| && items[i].Item? {
      ContentTagged(items, i + 1, ts, env, e);
    }
  }

  /** The number of events: one per named tool call, one per tool result, and one for
      the usage of an assistant message, when the content holds no `null`. */
  lemma EventCount(input: TranscriptInput, env: Env)
    requires IsMessageRecord(input) && !HasNull(Items(input.entry.message.value))
    ensures var m := input.entry.message.value;
      |TranscriptEvents(input, env)|
        == |Filter(Items(m), IsNamedCall)| + |Filter(Items(m), IsResult)| + (if ReportsUsage(m) then 1 else 0)
  {
    var m := input.entry.message.value;
    ContentCount(Items(m), 0, env.dateMs(input.entry.timestamp), env);
    assert Items(m)[0..] == Items(m);
  }

  lemma {:induction false} ContentCount(items: seq<ContentItem>, i: nat, ts: int, env: Env)
    requires i <= |items| && !HasNull(items)
    ensures |ContentFrom(items, i, ts, env)| == |Filter(items[i..], IsNamedCall)| + |Filter(items[i..], IsResult)|
    decreases |items| - i
  {
    if i < |items| {
      assert items[i..] == [items[i]] + items[i + 1..];
      ContentCount(items, i + 1, ts, env);
      FilterConcat([items[i]], items[i + 1..], IsNamedCall);
      FilterConcat([items[i]], items[i + 1..], IsResult);
    }
  }

  /** The usage event, when there is one, is the last event, and it is the only model
      event: every other event is a tool event. With the id `model-<ts>`, the tokens
      copied from the usage and the cost from its `cost.total`. */
  lemma UsageComesLast(input: TranscriptInput, env: Env)
    requires IsMessageRecord(input)
    ensures var m := input.entry.message.value; var es := TranscriptEvents(input, env);
      var ts := env.dateMs(input.entry.timestamp);
      && (forall j :: 0 <= j < |es| - 1 ==> es[j].eventType == ToolEvent)
      && (es != [] && es[|es| - 1].eventType == ModelEvent <==> !HasNull(Items(m)) && ReportsUsage(m))
      && (!HasNull(Items(m)) && ReportsUsage(m) ==>
            var u := es[|es| - 1]; var usage := m.usage.value;
            && u.id == "model-" + IntToDecimal(ts) && u.action == "usage" && u.status == Info
            && u.model == m.model && u.tokens == Some(Tokens(usage.input, usage.output, usage.totalTokens))
            && u.cost == usage.cost)
  {
    var m := input.entry.message.value;
    var ts := env.dateMs(input.entry.timestamp);
    ContentAllTools(Items(m), 0, ts, env);
  }

  lemma {:induction false} ContentAllTools(items: seq<ContentItem>, i: nat, ts: int, env: Env)
    ensures forall e :: e in ContentFrom(items, i, ts, env) ==> e.eventType == ToolEvent
    decreases |items| - i
  {
    if i < |items| && items[i].Item? {
      ContentAllTools(items, i + 1, ts, env);
    }
  }

  /** A named tool call is the tool event `start` with the call's name as action and its
      arguments as params; the id is the call's id, or one beginning with the timestamp
      and a dash when the call has none. */
  lemma CallEventFields(item: ContentItem, i: nat, ts: int, env: Env)
    requires IsNamedCall(item)
    ensures var e := CallEvent(item, i, ts, env);
      && e.eventType == ToolEvent && e.status == Start && e.action == item.name.value && e.action != ""
      && e.params == item.arguments && e.ts == ts
      && (Truthy(item.id) ==> e.id == item.id.value)
      && (!Truthy(item.id) ==> IntToDecimal(ts) + "-" <= e.id)
  {
  }

  /** A tool result is the tool event `result`, `error` exactly when `isError` is set;
      its result is the content, stringified when it is not a string, cut to 500
      characters, and absent only when there is no content. */
  lemma ResultEventFields(item: ContentItem, i: nat, ts: int, env: Env)
    requires IsResult(item)
    ensures var e := ResultEvent(item, i, ts, env);
      && e.eventType == ToolEvent && e.action == "result"
      && (e.status == Error <==> item.isError.Some? && JsonTruthy(item.isError.value))
      && (e.status != Error ==> e.status == Success)
      && (e.result.None? <==> item.content.None?)
      && (e.result.Some? ==> |e.result.value| <= 500)
      && (item.content.Some? && item.content.value.JString? ==> e.result == Some(Truncate(item.content.value.s, 500)))
      && (item.content.Some? && !item.content.value.JString? ==> e.result == Some(Truncate(env.stringify(item.content.value), 500)))
      && (Truthy(item.toolCallId) ==> e.id == item.toolCallId.value)
      && (!Truthy(item.toolCallId) ==> IntToDecimal(ts) + "-" <= e.id)
  {
  }

  /** The events of the items at positions `j` to `i - 1`, one item after the other. */
  function ContentRange(items: seq<ContentItem>, j: nat, i: nat, ts: int, env: Env): seq<ActivityEvent>
    requires j <= i <= |items|
    decreases i - j
  {
    if j == i then [] else ItemEvents(items[j], j, ts, env) + ContentRange(items, j + 1, i, ts, env)
  }

  /** Each item before the first `null` contributes its events, in content order: the
      events of the items before position `i`, then those of item `i`, then the rest. */
  lemma ContentInOrder(items: seq<ContentItem>, i: nat, ts: int, env: Env) returns (before: seq<ActivityEvent>)
    requires i < |items| && forall j :: 0 <= j <= i ==> items[j].Item?
    ensures ContentFrom(items, 0, ts, env) == before + ItemEvents(items[i], i, ts, env) + ContentFrom(items, i + 1, ts, env)
    ensures before == ContentRange(items, 0, i, ts, env)
  {
    before := ContentBetween(items, 0, i, ts, env);
  }

  /** The same from any starting position `j` up to `i`. */
  lemma {:induction false} ContentBetween(items: seq<ContentItem>, j: nat, i: nat, ts: int, env: Env) returns (between: seq<ActivityEvent>)
    requires j <= i < |items| && forall k :: j <= k <= i ==> items[k].Item?
    ensures ContentFrom(items, j, ts, env) == between + ItemEvents(items[i], i, ts, env) + ContentFrom(items, i + 1, ts, env)
    ensures between == ContentRange(items, j, i, ts, env)
    decreases i - j
  {
    ContentUnfold(items, j, ts, env);
    var first := ItemEvents(items[j], j, ts, env);
    if j == i {
      between := [];
      assert [] + first == first;
    } else {
      var rest := ContentBetween(items, j + 1, i, ts, env);
      between := first + rest;
      AppendAssoc(first, rest + ItemEvents(items[i], i, ts, env), ContentFrom(items, i + 1, ts, env));
      AppendAssoc(first, rest, ItemEvents(items[i], i, ts, env));
    }
  }

  /** A `null` item ends the record's events: what the items after it hold is lost, and
      there is no usage event. */
  lemma NullItemStops(input: TranscriptInput, env: Env, k: nat)
    requires IsMessageRecord(input)
    requires var items := Items(input.entry.message.value); k < |items| && items[k].NullItem?
    ensures forall e :: e in TranscriptEvents(input, env) ==> e.eventType == ToolEvent
  {
    var m := input.entry.message.value;
    ContentAllTools(Items(m), 0, env.dateMs(input.entry.timestamp), env);
  }

  // ---------------------------------------------------------------------------
  // parseTranscriptFile

  /** `path.basename(file, ".jsonl")`: the file name without the extension, unless the
      name is the extension alone. */
  function SessionIdOf(name: string): (id: string)
    ensures EndsWith(name, ".jsonl") && name != ".jsonl" ==> id + ".jsonl" == name
    ensures !EndsWith(name, ".jsonl") || name == ".jsonl" ==> id == name
  {
    if EndsWith(name, ".jsonl") && name != ".jsonl" then name[..|name| - 6] else name
  }

  /** What a transcript file's lines are classified with: the agent, the file name, the
      date parser, `JSON.stringify`, and the random suffixes drawn on each line. */
  datatype FileEnv = FileEnv(agentId: string, fileName: string, dateMs: string -> int, stringify: Json -> string,
                             draws: nat -> nat -> string)

  function LineEnv(f: FileEnv, line: nat): Env {
    Env(f.agentId, SessionIdOf(f.fileName), f.dateMs, f.stringify, f.draws(line))
  }

  /** The events of the file's first `n` lines, in line order. */
  function FileEvents(lines: seq<TranscriptInput>, n: nat, f: FileEnv): seq<ActivityEvent>
    requires n <= |lines|
  {
    if n == 0 then [] else FileEvents(lines, n - 1, f) + TranscriptEvents(lines[n - 1], LineEnv(f, n - 1))
  }

  /** `parseTranscriptFile`: no events for a missing file, otherwise the events of each
      line appended in order. */
  method ParseTranscriptFile(file: Option<seq<TranscriptInput>>, f: FileEnv) returns (events: seq<ActivityEvent>)
    ensures file.None? ==> events == []
    ensures file.Some? ==> events == FileEvents(file.value, |file.value|, f)
  {
    events := [];
    if file.None? {
      return;
    }
    var lines := file.value;
    for i := 0 to |lines|
      invariant events == FileEvents(lines, i, f)
    {
      var lineEvents := ParseTranscriptLine(lines[i], LineEnv(f, i));
      events := events + lineEvents;
    }
  }

  /** The event belongs to the file's agent and to the session named after the file. */
  predicate OfFile(e: ActivityEvent, f: FileEnv) {
    e.agentId == Some(f.agentId) && e.sessionId == Some(SessionIdOf(f.fileName))
  }

  /** Every event of a file belongs to the file's agent and to the session named after
      the file. */
  lemma FileEventsTagged(lines: seq<TranscriptInput>, n: nat, f: FileEnv, e: ActivityEvent)
    requires n <= |lines| && e in FileEvents(lines, n, f)
    ensures OfFile(e, f)
  {
    var i := LineOfFileEvent(lines, n, f, e);
    LineEventTagged(lines[i], f, i, e);
  }

  /** An event of a file comes from one of its lines. */
  lemma {:induction false} LineOfFileEvent(lines: seq<TranscriptInput>, n: nat, f: FileEnv, e: ActivityEvent) returns (i: nat)
    requires n <= |lines| && e in FileEvents(lines, n, f)
    ensures i < n && e in TranscriptEvents(lines[i], LineEnv(f, i))
  {
    var prev := FileEvents(lines, n - 1, f);
    var here := TranscriptEvents(lines[n - 1], LineEnv(f, n - 1));
    assert FileEvents(lines, n, f) == prev + here;
    if e in prev {
      i := LineOfFileEvent(lines, n - 1, f, e);
    } else {
      assert e in here;
      i := n - 1;
    }
  }

  lemma LineEventTagged(line: TranscriptInput, f: FileEnv, i: nat, e: ActivityEvent)
    requires e in TranscriptEvents(line, LineEnv(f, i))
    ensures OfFile(e, f)
  {
    EventsTagged(line, LineEnv(f, i), e);
  }
}
