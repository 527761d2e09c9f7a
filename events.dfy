/** The activity event every classifier produces, with its closed enumerations of
    types and statuses and the string names the JSON output and the query filters use. */
module Events {
  import opened Wrappers
  import Tally

  datatype EventType = ToolEvent | ModelEvent | MessageEvent | SessionEvent | ErrorEvent | CommandEvent

  datatype Status = Start | Success | Error | Info

  /** The `type` string of an event. */
  function TypeName(t: EventType): string {
    match t
    case ToolEvent => "tool"
    case ModelEvent => "model"
    case MessageEvent => "message"
    case SessionEvent => "session"
    case ErrorEvent => "error"
    case CommandEvent => "command"
  }

  /** The `status` string of an event. */
  function StatusName(s: Status): string {
    match s
    case Start => "start"
    case Success => "success"
    case Error => "error"
    case Info => "info"
  }

  const TypeNames: seq<string> := ["tool", "model", "message", "session", "error", "command"]

  const StatusNames: seq<string> := ["start", "success", "error", "info"]

  /** The type names are distinct and every event type has one of them. */
  lemma TypeNamesEnumerate(t: EventType)
    ensures Tally.NoDup(TypeNames) && TypeName(t) in TypeNames
  {
  }

  lemma StatusNamesEnumerate(s: Status)
    ensures Tally.NoDup(StatusNames) && StatusName(s) in StatusNames
  {
  }

  /** A parsed JSON value (tool-call arguments and tool-result content). */
  datatype Json =
    | JNull
    | JBool(b: bool)
    | JNumber(n: real)
    | JString(s: string)
    | JArray(items: seq<Json>)
    | JObject(members: seq<(string, Json)>)

  datatype Tokens = Tokens(input: int, output: int, total: int)

  /** One activity event. `sessionKey` is set by the gateway-log classifiers,
      `sessionId`, `agentId`, `params`, `result`, `model`, `tokens` and `cost` by the
      transcript classifier; a field that the source leaves `undefined` is `None`. */
  datatype ActivityEvent = ActivityEvent(
    ts: int,
    id: string,
    sessionKey: Option<string>,
    sessionId: Option<string>,
    agentId: Option<string>,
    eventType: EventType,
    action: string,
    status: Status,
    message: Option<string>,
    params: Option<Json>,
    result: Option<string>,
    model: Option<string>,
    tokens: Option<Tokens>,
    cost: Option<real>)

  /** An event with the five fields every event has and no optional field. */
  function NewEvent(ts: int, id: string, eventType: EventType, action: string, status: Status): (e: ActivityEvent)
    ensures e.ts == ts && e.id == id && e.eventType == eventType && e.action == action && e.status == status
  {
    ActivityEvent(ts, id, None, None, None, eventType, action, status, None, None, None, None, None, None)
  }

  function Timestamp(e: ActivityEvent): int {
    e.ts
  }
}
