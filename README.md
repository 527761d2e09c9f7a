# Activity feed: a verified model

The activity feed turns an agent gateway's operational output into a stream of typed
activity events and answers queries over them. It has two halves.

- **The live watcher** (`activity-feed/watch-logs.ts`) has five parts:
  - it tails the day's gateway log `/tmp/openclaw/openclaw-<date>.log` with a size cursor;
  - it classifies each new JSON line through an ordered, first-match-wins rule chain
    (tool invocation, model usage, session, ERROR level, subsystem);
  - it appends every event to an activity file and to an in-memory store of at most
    1000 events, which is kept newest-appended first;
  - at start it reloads the store from the tail of the activity file;
  - it serves `/api/activity` and `/api/stats` from that store.
- **The batch tools** work from the logs already on disk:
  - `activity-feed/parse-logs.ts` classifies a whole gateway log. It uses a different
    rule chain, which has no model-usage rule and a looser session rule.
  - `activity-feed/parse-transcripts.ts` turns session-transcript records into tool-call,
    tool-result and model-usage events. Its `getAllEvents` merges the five newest
    transcripts of each agent. It serves `/api/activity` with type, action, status and
    `since` filters, `/api/stats` (counts by type, action, agent and status) and
    `/api/tools`.

The modules of the model follow that structure:

| module | models |
|---|---|
| `Wrappers`, `Seqs`, `Text`, `Tally` | the JavaScript built-ins the code relies on: `filter`, `slice`, a stable `sort`, `[...new Set]`, `split`, `toLowerCase` and the per-key counting of the stats endpoints |
| `Events` | the activity event and its type and status names |
| `Regex` | the specific regular expressions, as hand-written matchers at a position plus one leftmost search |
| `GatewayLog` | a parsed gateway-log record and what both classifiers read from it |
| `LiveClassifier`, `BatchClassifier` | the two `parseLogLine` rule chains; `parseLogFile` |
| `Transcripts` | `parseTranscriptLine` and `parseTranscriptFile` |
| `History`, `HistoryApi`, `EventCounts` | `getAllEvents` and the transcript server's endpoints |
| `LiveStore` | the bounded store with `appendActivity` and `loadExistingEvents`, and the live endpoints |
| `LogTail` | `getCurrentLogFile`, the size cursor, rotation and the dispatch of new lines |

The code works by changing state in three places, and the model does the same there:

- The live store is the class `LiveStore.ActivityStore`; its `Append` and `Load` modify
  its `events` field.
- The cursor is the class `LogTail.TailCursor`, whose `fileSize` `OnChange` advances.
- The loops of `parseLogFile`, `parseTranscriptLine`, `parseTranscriptFile`,
  `getAllEvents` (nested, with its `break`) and `/api/stats` are methods with `while` or
  `for` loops. Each is proved against a function that states what it computes, and the
  lemmas state what that function means.

Where the code and the system's design description disagree, the model follows the code:

- **Partial lines.** The cursor has no carry-over of a partial line between two reads.
  A line cut by a read is dispatched as two fragments (`LogTail.CutLineIsSplit`).
- **Shrinking files.** A file that shrinks is not re-read from the start. The cursor only
  moves forward.
- **Store order.** The live store is sorted by timestamp only on reload. Appends put the
  newest-*appended* event first, whatever its timestamp.
- **ERROR action.** The live ERROR rule does not lower-case the action it extracts.
- **Live ids.** The live id is made from the clock reading, not from the event's
  timestamp. The batch id is made from the timestamp.
- **Batch session events.** They need no `agent:` token, and then they have no session
  key (`BatchClassifier.SessionWithoutToken`).
- **Failed appends.** An event reaches the in-memory store only if the append to the
  activity file succeeded, because both happen in one `try`.

## Model

| member | source | states |
|---|---|---|
| Events.TypeNamesEnumerate | activity-feed/watch-logs.ts:25 | the six type names are listed once each, and every event type's name is among them |
| Events.StatusNamesEnumerate | activity-feed/watch-logs.ts:27 | the four status names are listed once each, and every status's name is among them |
| GatewayLog.MessageText | activity-feed/watch-logs.ts:53 | the message is field `"0"` when it is non-empty, else field `"1"` when that is non-empty, else empty; it is empty exactly when neither field is |
| GatewayLog.Level | activity-feed/watch-logs.ts:55 | the level is `_meta.logLevelName` when it is non-empty, otherwise `INFO` |
| GatewayLog.RecordTs | activity-feed/watch-logs.ts:54 | the timestamp is the parsed `time` when the record has one, otherwise the clock reading |
| GatewayLog.EventId | activity-feed/parse-logs.ts:49 | an id begins with the decimal number it was made from and a dash |
| GatewayLog.EventIdPrefix | activity-feed/watch-logs.ts:46-48 | equal ids come from equal numbers, whatever the random suffixes |
| GatewayLog.SubsystemAction | activity-feed/watch-logs.ts:115-121 | the subsystem capture is a non-empty run of `[\w/]` characters, which the removal of braces, quotes and white space leaves unchanged |
| GatewayLog.ToolEventMeaning | activity-feed/watch-logs.ts:58-69 | a tool match yields a tool event: the action is the captured word lower-cased; the status is `error` exactly when the status word is `failed` in any letter case, else `success`; the message is `Truncate(detail, 500)`: all of the detail when it has at most 500 characters, otherwise exactly its first 500 characters, and absent exactly when the detail is empty |
| Regex.Search | activity-feed/watch-logs.ts:58 | `String.match` finds a match exactly when one exists at some position, and returns the one at the leftmost such position |
| Regex.ToolMatchShape | activity-feed/watch-logs.ts:58 | a tool match has a `[tools]` tag in any case, white space, a word followed by white space, a status word `failed` or `succeeded` when present, and a detail on one line |
| Regex.NoBracketNoToolMatch | activity-feed/watch-logs.ts:58 | a message without `[` never matches the tool pattern |
| Regex.ActionNeedsSpaceAfter | activity-feed/watch-logs.ts:58 | `[tools] exec: x` is no tool line, because the action must be followed by white space |
| Regex.ToolLineMatch | activity-feed/watch-logs.ts:58-60 | matching `[tools] <w> <st>: <d>`, with `st` either `failed` or `succeeded`, captures exactly `w`, the status word and `d` |
| Regex.LowerIsFailed | activity-feed/watch-logs.ts:66 | a status word lower-cases to `failed` exactly when it is `failed` in some letter case |
| Regex.AgentTokenShape | activity-feed/watch-logs.ts:86 | an `agent:` token is `agent:` and a non-empty run of `[\w:-]`, occurs in the message and is not followed there by another such character |
| Regex.ErrorActionShape | activity-feed/watch-logs.ts:103 | the capture of the error-action pattern is a non-empty run of word characters, from either branch |
| Regex.SubsystemNameShape | activity-feed/watch-logs.ts:115 | the subsystem capture is a non-empty run of `[\w/]` characters |
| Regex.StripBracesQuotesSpace | activity-feed/watch-logs.ts:121 | the replacement leaves no brace, quote or white-space character |
| LiveClassifier.LiveNoEvent | activity-feed/watch-logs.ts:50-131 | no event is produced exactly for a malformed line or a record to which no rule applies |
| LiveClassifier.LiveEventBasics | activity-feed/watch-logs.ts:54-63 | every event carries the record's timestamp and an id beginning with the clock reading and a dash, with a message of at most 500 characters |
| LiveClassifier.LiveToolRule | activity-feed/watch-logs.ts:58-69 | a tool match yields a tool event whatever the level: the action is lower-cased, the status is `error` exactly for a `failed` status word, and the message is the first 500 characters of the detail (all of it when shorter), absent exactly when the detail is empty |
| LiveClassifier.LiveModelRule | activity-feed/watch-logs.ts:72-82 | a non-tool message mentioning `model.usage` or `tokens` yields the model event `usage`/`info` with the message cut to 200 characters |
| LiveClassifier.LiveSessionRule | activity-feed/watch-logs.ts:85-98 | a session event comes only from a message naming a session and holding an `agent:` token; its key is the first such token including `agent:` |
| LiveClassifier.LiveSessionFallsThrough | activity-feed/watch-logs.ts:85-98 | a session message without an `agent:` token falls through: no event, or an error or subsystem event |
| LiveClassifier.LiveErrorRule | activity-feed/watch-logs.ts:101-112 | an ERROR line no earlier rule took is an error event; its action is the first bracketed word or the word before `failed`, else `error`; its message is cut to 500 characters |
| LiveClassifier.LiveSubsystemRule | activity-feed/watch-logs.ts:115-125 | a subsystem event is never an error, its action is the `[\w/]` subsystem name, and its message is field `"1"` cut to 300 characters |
| LiveClassifier.LiveToolBeforeError | activity-feed/watch-logs.ts:58-112 | a tool line is a tool event at any level: `[tools] write failed: disk full` logged as ERROR is tool `write` with status `error` and message `disk full` |
| BatchClassifier.BatchNoEvent | activity-feed/parse-logs.ts:36-100 | no event is produced exactly for a malformed line or a record to which no batch rule applies |
| BatchClassifier.BatchEventBasics | activity-feed/parse-logs.ts:40-53 | every batch id begins with the event's timestamp and a dash; the timestamp is the record's `time` or the clock; messages are at most 500 characters |
| BatchClassifier.BatchNoModel | activity-feed/parse-logs.ts:36-100 | the batch chain never makes a model event |
| BatchClassifier.ToolRuleAgrees | activity-feed/parse-logs.ts:44-55 | on a tool line both classifiers make the same event apart from the id |
| BatchClassifier.BatchSessionRule | activity-feed/parse-logs.ts:58-69 | a non-tool message mentioning `session` or `Session store` is a session event whose key is the first `agent:` token when there is one and absent otherwise, with the message cut to 200 characters |
| BatchClassifier.BatchErrorRule | activity-feed/parse-logs.ts:72-81 | every remaining ERROR line is the error event `error` with the message cut to 500 characters |
| BatchClassifier.BatchSubsystemRule | activity-feed/parse-logs.ts:84-94 | a subsystem event needs a non-empty message, is always `info`, has the `[\w/]` subsystem name as action, and has field `"1"` (or the message when that is empty) cut to 300 characters |
| BatchClassifier.SessionWithoutToken | activity-feed/parse-logs.ts:58-69 | on a session message without an `agent:` token, at a level other than ERROR and without a subsystem, the live chain makes no event and the batch chain a keyless session event |
| BatchClassifier.ParseLogFile | activity-feed/parse-logs.ts:102-124 | a missing file gives no events; otherwise the result is the non-null classifications of the lines, in line order |
| BatchClassifier.LineEventsMembers | activity-feed/parse-logs.ts:116-121 | an event is in the result exactly when some line classifies to it |
| BatchClassifier.LineEventsConcat | activity-feed/parse-logs.ts:116-121 | the events of two runs of lines are the events of the first followed by those of the second |
| BatchClassifier.LineEventsBound | activity-feed/parse-logs.ts:116-121 | there is at most one event per line |
| Transcripts.ParseTranscriptLine | activity-feed/parse-transcripts.ts:77-145 | the loop's events are exactly those of the record: the content's events in order up to the first `null` item, then the usage event when there is no `null` and the message reports usage |
| Transcripts.NotMessageNoEvents | activity-feed/parse-transcripts.ts:83 | a record that is not a `message` record, or has no message, yields no events |
| Transcripts.EventsTagged | activity-feed/parse-transcripts.ts:85-137 | every event of a record carries its timestamp, agent and session |
| Transcripts.EventCount | activity-feed/parse-transcripts.ts:89-139 | the number of events is the number of named tool calls, plus the number of tool results, plus one for an assistant message with usage |
| Transcripts.ContentInOrder | activity-feed/parse-transcripts.ts:89-119 | each content item before the first `null` contributes its events in content order: the events of the items before it, then its own, then the rest |
| Transcripts.UsageComesLast | activity-feed/parse-transcripts.ts:122-138 | the usage event is the last and only model event; it has id `model-<ts>`, `usage`/`info`, the model, the token counts and `cost.total` |
| Transcripts.CallEventFields | activity-feed/parse-transcripts.ts:90-100 | a named tool call is tool/`start` with the call's name as action and its arguments as params; its id is the call's id, or begins with the timestamp and a dash |
| Transcripts.ResultEventFields | activity-feed/parse-transcripts.ts:103-118 | a tool result is tool/`result`, `error` exactly when `isError` is truthy; its result is the first 500 characters of the string content, or of `stringify` of any other content, and absent only without content; its id is `toolCallId` or begins with the timestamp and a dash |
| Transcripts.NullItemStops | activity-feed/parse-transcripts.ts:89-90 | a `null` content item ends the record's events: only tool events remain and no usage event follows |
| Transcripts.SessionIdOf | activity-feed/parse-transcripts.ts:149 | the session id is the file name without its `.jsonl` extension, or the name itself when the extension is absent or the whole name |
| Transcripts.ParseTranscriptFile | activity-feed/parse-transcripts.ts:147-161 | a missing file gives no events; otherwise the result is the events of each line, appended in line order |
| Transcripts.FileEventsTagged | activity-feed/parse-transcripts.ts:149-157 | every event of a file belongs to the file's agent and to the session named after the file |
| History.SelectionMeaning | activity-feed/parse-transcripts.ts:179-187 | the five newest `.jsonl` entries are selected, or all of them when there are fewer, newest first; any `.jsonl` entry left out is no newer than each selected one; with five or fewer, all are selected |
| History.GetAllEvents | activity-feed/parse-transcripts.ts:163-200 | with no agents directory the result is empty; otherwise it is the events the nested loops collect, sorted newest first and cut to the limit |
| History.MergeMeaning | activity-feed/parse-transcripts.ts:197-199 | the result is newest first, `limit` long (or all the collected events when there are fewer) and drawn from the collected events; a collected event left out is no newer than any kept one |
| History.ReadFilesStops | activity-feed/parse-transcripts.ts:189-194 | an agent's files are read in order, as a prefix of the selection; every shorter prefix left the count under twice the limit, and an early stop means the count reached it |
| History.ReadFilesAll | activity-feed/parse-transcripts.ts:189-194 | when all the files' events stay under twice the limit, every selected file is read |
| HistoryApi.StagedIsFilter | activity-feed/parse-transcripts.ts:226-229 | applying the four filters one after another keeps exactly the events that meet them all, in order |
| HistoryApi.ActivityMeaning | activity-feed/parse-transcripts.ts:224-232 | the answer is the first `limit` events that meet every filter; it is a subsequence of the merged events and stays newest first when they are |
| HistoryApi.ComputeStats | activity-feed/parse-transcripts.ts:237-255 | `total` is the event count; the four maps are the tallies of type, action, agent and status; `errors` counts status `error`; the cost and token totals are the sums |
| HistoryApi.CountByKeys | activity-feed/parse-transcripts.ts:250-255 | the loop fills each map with the count of each key over all events |
| HistoryApi.ByActionSum | activity-feed/parse-transcripts.ts:252 | the `byAction` counts add up to `total` |
| HistoryApi.ByAgentSum | activity-feed/parse-transcripts.ts:253 | the `byAgent` counts add up to the number of events that name an agent, and the empty name is never a key |
| HistoryApi.ToolListMeaning | activity-feed/parse-transcripts.ts:275-281 | `/api/tools` lists exactly the actions of the tool events, each once and in ascending order |
| EventCounts.ByTypeSum | activity-feed/parse-transcripts.ts:251 | the `byType` counts add up to `total` |
| EventCounts.ByStatusSum | activity-feed/parse-transcripts.ts:254 | the `byStatus` counts add up to `total` |
| EventCounts.ErrorsAreErrorStatus | activity-feed/parse-transcripts.ts:245 | `errors` is the `error` count of `byStatus` |
| EventCounts.ByTypeCount | activity-feed/watch-logs.ts:254-257 | the count of a type is the number of events of that type, and a type no event has is not a key |
| LiveStore.PushedShape | activity-feed/watch-logs.ts:142-145 | after an append the event is first and the rest is a prefix of the old store, which loses its last event only when it was full |
| LiveStore.PushedBounded | activity-feed/watch-logs.ts:142-145 | from a store of at most 1000 events an append keeps at most 1000: the newest 1000 of the event and the store |
| LiveStore.PushAllRetains | activity-feed/watch-logs.ts:142-145 | over any run of appends a bounded store holds the newest 1000 of the appended events, last appended first, followed by the old events |
| LiveStore.ActivityStore.Append | activity-feed/watch-logs.ts:133-149 | a successful append inserts the event first and drops the oldest beyond 1000; a failed append leaves the store unchanged; the bound is kept |
| LiveStore.ActivityStore.Load | activity-feed/watch-logs.ts:279-296 | without an activity file the store is unchanged; otherwise it is the old events plus the parsed lines of the tail, sorted newest first |
| LiveStore.LoadMeaning | activity-feed/watch-logs.ts:283-290 | a reload into an empty store holds at most 1000 events, newest first, each as often as it appears among the tail's parsed lines |
| LiveStore.DecodedMembers | activity-feed/watch-logs.ts:284-289 | an event is loaded exactly when some line of the tail parses to it |
| LiveStore.LastLines | activity-feed/watch-logs.ts:284 | `slice(-1000)` keeps all lines when there are at most 1000, otherwise the last 1000 |
| LiveStore.LiveActivityMeaning | activity-feed/watch-logs.ts:238-248 | the live `/api/activity` is the transcript server's filter with no action or status: at most `limit` events in store order, each of the requested type and newer than `since` when those are given |
| LiveStore.StatsMeaning | activity-feed/watch-logs.ts:251-260 | `byType` adds up to `total`; `errors` is at most `total` and is zero exactly when no event is an error |
| LiveStore.LastEventMeaning | activity-feed/watch-logs.ts:259 | `lastEvent` is the first event's timestamp unless the store is empty or that timestamp is zero; in a newest-first store it is the largest timestamp |
| LogTail.CurrentLogFile | activity-feed/watch-logs.ts:151-154 | the log file lies in `/tmp/openclaw` and is named `openclaw-<date>.log` |
| LogTail.RotationIffDateChanges | activity-feed/watch-logs.ts:199-208 | the rotation check switches files exactly when the date part of the clock reading changed |
| LogTail.TailCursor.constructor | activity-feed/watch-logs.ts:166 | the cursor starts at the file's size |
| LogTail.TailCursor.OnChange | activity-feed/watch-logs.ts:168-195 | a non-`change` event or a file no larger than the cursor reads nothing and keeps the cursor; otherwise exactly the text from the cursor to the end is read, its non-empty lines are returned and the cursor moves to the end |
| LogTail.ReadsAreContiguous | activity-feed/watch-logs.ts:173-176 | two reads of a growing file join up into the file from the first cursor on |
| LogTail.LinesJoinAtLineBreak | activity-feed/watch-logs.ts:183-184 | when a read ends at a line break, two reads dispatch the same lines as one read of both |
| LogTail.CutLineIsSplit | activity-feed/watch-logs.ts:183-184 | a line cut by a read is dispatched as two lines (`a` and `b`), where one read gives `ab` |
| LogTail.Dispatch | activity-feed/watch-logs.ts:183-192 | the store after a dispatch is the old store with each line's event appended in order, for the lines that classify and whose append succeeded |
| LogTail.DispatchRetains | activity-feed/watch-logs.ts:185-191 | after a dispatch a bounded store holds the newest 1000 of the stored events, last dispatched first, followed by what it held before |
| Text.JoinSplit | activity-feed/watch-logs.ts:184 | `split` loses nothing: joining the pieces gives the string back |
| Text.FragmentsKeepText | activity-feed/watch-logs.ts:184 | the non-empty fragments, glued together, are the text with its line breaks removed |
| Text.Before | activity-feed/watch-logs.ts:152 | `split("T")[0]` is the prefix before the first `T` |
| Seqs.SortDesc | activity-feed/parse-transcripts.ts:198 | the descending sort is a permutation and orders by key, newest first |
| Seqs.SortDescStable | activity-feed/parse-transcripts.ts:198 | the sort is stable: the elements of any one key come out in their input order, so the events of one record keep their order |
| Text.Truncate | activity-feed/watch-logs.ts:67 | `slice(0, n)` is a prefix of the string: all of it when it is at most `n` long, otherwise exactly its first `n` characters |
| Seqs.Distinct | activity-feed/parse-transcripts.ts:277 | `[...new Set]` holds each element of the input exactly once and nothing else |
| Text.SortStrings | activity-feed/parse-transcripts.ts:280 | `sort()` on strings is a permutation in ascending order of UTF-16 code units |
| Text.LexLessIsCodeUnitOrder | activity-feed/parse-transcripts.ts:280 | the string order used by the sort is exactly the lexicographic order of the strings' UTF-16 encodings |
| Text.SurrogatesSortFirst | activity-feed/parse-transcripts.ts:280 | U+1F600 sorts before U+FF01, because its high surrogate is smaller, and after `a` |
| Tally.TallySum | activity-feed/parse-transcripts.ts:250-255 | the counts add up to the number of keys counted over any duplicate-free list that covers them |

## Left out

- **I/O and the event loop.** `fs.watch`, read streams, `readline`, `existsSync`/`statSync`, `mkdirSync`/`appendFileSync`, timers and the SIGINT handler are left out. The model takes their results as parameters: the file's content, whether the append succeeded, and the directory listings with their modification times.
- **The async end of a read.** The end-of-stream callback runs after the cursor has moved. The model dispatches the lines of a read after `OnChange`, in read order, and does not model reads that overlap.
- **HTTP plumbing.** `createServer`, CORS headers, `OPTIONS` and 404 answers, URL parsing and `parseInt` quirks are left out. `limit` and `since` are given integers, and `limit` is not negative.
- **`/api/agents`.** It is a directory listing with no logic beyond it.
- **The agent filter.** `getAllEvents(agent)` takes the agent list as a parameter: the single given agent, or the listed directories.
- **The CLI `main` functions and console output** in all three files are left out.
- **Parsing and dates.** `JSON.parse`, `JSON.stringify` and `new Date(...).getTime()` are parameters:
  - lines arrive already parsed, or `Malformed`;
  - `dateMs` parses a date;
  - `stringify` renders a non-string tool-result content.

  An invalid date (`NaN`) is not modelled.
- **The clock.** `Date.now()` and `toISOString()` are parameters: `now`, and the ISO string. The live classifier reads `Date.now()` twice, once for the timestamp fallback and once in `generateId`. The model uses one `now` for both, so it does not capture a clock tick between the two reads.
- **Random id suffixes.** `Math.random` suffixes are opaque strings. Only the id's prefix is reasoned about.
- HistoryApi.ComputeStats: `totalCost` is a sum of reals, not of IEEE floating-point values, so rounding is not modelled.
- **Non-string fields.** Record fields other than strings (a number in `"0"`, say) are not modelled. Neither is a non-array `content`.
- **Characters.** Strings are sequences of Unicode scalar values. JavaScript counts UTF-16 code units, and the log cursor counts bytes (see `LogTail.TailCursor.OnChange` below). The default string sort is modelled on code units (`Text.LexLessIsCodeUnitOrder`). Lengths are not, so for text outside the Basic Multilingual Plane they differ: see `Text.Truncate` below.
- **Unused token capture.** `tokenMatch` in the live model rule is computed but never used, so it is not modelled.
- **Regular expressions.** They are hand-written matchers for the specific patterns, not a general regex engine.

Several members are deliberately weaker than the code:

- Text.Truncate: `slice(0, n)` counts UTF-16 code units, and the model counts scalar values. On text with characters above U+FFFF the model keeps up to twice as many code units, and it cannot cut a surrogate pair in half as JavaScript can. The 200, 300 and 500 bounds in LiveClassifier.LiveEventBasics, BatchClassifier.BatchEventBasics and the rule lemmas count scalar values for the same reason.
- HistoryApi.CountByKeys: the counters are maps, but the code's are plain objects. A key naming an `Object.prototype` member (`constructor`, `toString`, `valueOf`, `hasOwnProperty`) first reads the inherited function and stores a string. An assignment to `__proto__` is ignored. So HistoryApi.ComputeStats, HistoryApi.ByActionSum and HistoryApi.ByAgentSum do not hold in the code for actions or agents with those names.
- LiveStore.ActivityStore.Load: `parse` yields an event or nothing. The code casts `JSON.parse(line)` without checking it, so a line holding `null` or a non-object would be pushed, and the sort's comparator would then throw and leave the store unsorted. The activity file is written only by `appendActivity`, so such lines do not arise from the watcher itself.
- Regex.ToolMatchShape: it states the shape of a match. The exact captures are stated only for tool lines of the form `[tools] <w> <failed|succeeded>: <d>` (Regex.ToolLineMatch), not for every input.
- LogTail.TailCursor.OnChange: `fileSize` counts characters, not bytes, so on non-ASCII text the offsets differ from the code's byte offsets.
