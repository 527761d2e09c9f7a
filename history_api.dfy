/** The transcript server's answers: `/api/activity` (filters over the merged events),
    `/api/stats` (counts by type, action, agent and status) and `/api/tools` (the distinct
    tool actions, sorted). */
module HistoryApi {
  import opened Wrappers
  import opened Text
  import opened Seqs
  import opened Events
  import Tally
  import opened EventCounts

  /** The query of `/api/activity`; an empty filter value counts as absent. */
  datatype ActivityQuery = ActivityQuery(
    limit: nat,
    eventType: Option<string>,
    action: Option<string>,
    status: Option<string>,
    since: int)

  /** The events the query keeps, one filter after the other as the handler applies them,
      then the first `limit` of them. */
  function ApplyFilters(events: seq<ActivityEvent>, q: ActivityQuery): seq<ActivityEvent> {
    Take(Staged(events, q), q.limit)
  }

  /** The four filters in the handler's order: type, action, status, then `since`. */
  function Staged(events: seq<ActivityEvent>, q: ActivityQuery): seq<ActivityEvent> {
    var t, a, st := q.eventType.GetOr(""), q.action.GetOr(""), q.status.GetOr("");
    var byType := if Truthy(q.eventType) then Filter(events, (e: ActivityEvent) => TypeName(e.eventType) == t) else events;
    var byAction := if Truthy(q.action) then Filter(byType, (e: ActivityEvent) => e.action == a) else byType;
    var byStatus := if Truthy(q.status) then Filter(byAction, (e: ActivityEvent) => StatusName(e.status) == st) else byAction;
    if q.since > 0 then Filter(byStatus, (e: ActivityEvent) => e.ts > q.since) else byStatus
  }

  /** An event meets every filter the query sets. */
  predicate Matches(q: ActivityQuery, e: ActivityEvent) {
    && (Truthy(q.eventType) ==> TypeName(e.eventType) == q.eventType.value)
    && (Truthy(q.action) ==> e.action == q.action.value)
    && (Truthy(q.status) ==> StatusName(e.status) == q.status.value)
    && (q.since > 0 ==> e.ts > q.since)
  }

  /** Applying the filters one after the other keeps exactly the events that meet them
      all, in their order. */
  lemma {:induction false} StagedIsFilter(events: seq<ActivityEvent>, q: ActivityQuery)
    ensures Staged(events, q) == Filter(events, e => Matches(q, e))
  {
    if events != [] {
      StagedIsFilter(events[1..], q);
      StagedCons(events[0], events[1..], q);
      assert [events[0]] + events[1..] == events;
    }
  }

  lemma StagedCons(x: ActivityEvent, rest: seq<ActivityEvent>, q: ActivityQuery)
    ensures Staged([x] + rest, q) == (if Matches(q, x) then [x] else []) + Staged(rest, q)
  {
    var t, a, st := q.eventType.GetOr(""), q.action.GetOr(""), q.status.GetOr("");
    var t1 := (e: ActivityEvent) => TypeName(e.eventType) == t;
    var t2 := (e: ActivityEvent) => e.action == a;
    var t3 := (e: ActivityEvent) => StatusName(e.status) == st;
    var t4 := (e: ActivityEvent) => e.ts > q.since;
    assert ([x] + rest)[1..] == rest;
    var h1 := if !Truthy(q.eventType) || t1(x) then [x] else [];
    StageHead(x, rest, Truthy(q.eventType), t1);
    var r1 := if Truthy(q.eventType) then Filter(rest, t1) else rest;
    var h2 := if h1 != [] && (!Truthy(q.action) || t2(x)) then [x] else [];
    StageConcat(h1, r1, Truthy(q.action), t2);
    var r2 := if Truthy(q.action) then Filter(r1, t2) else r1;
    StageConcat(h2, r2, Truthy(q.status), t3);
    var h3 := if h2 != [] && (!Truthy(q.status) || t3(x)) then [x] else [];
    var r3 := if Truthy(q.status) then Filter(r2, t3) else r2;
    StageConcat(h3, r3, q.since > 0, t4);
  }

  /** One conditional filter applied to `[x] + rest`. */
  lemma StageHead<T>(x: T, rest: seq<T>, c: bool, p: T -> bool)
    ensures (if c then Filter([x] + rest, p) else [x] + rest)
      == (if !c || p(x) then [x] else []) + (if c then Filter(rest, p) else rest)
  {
    assert ([x] + rest)[1..] == rest;
  }

  /** One conditional filter applied to a head of at most one element and a rest. */
  lemma StageConcat<T>(h: seq<T>, rest: seq<T>, c: bool, p: T -> bool)
    requires |h| <= 1
    ensures (if c then Filter(h + rest, p) else h + rest)
      == (if h != [] && (!c || p(h[0])) then h else []) + (if c then Filter(rest, p) else rest)
  {
    if c {
      FilterConcat(h, rest, p);
      if h != [] {
        assert h[1..] == [];
      }
    }
  }

  /** The answer is the first `limit` events that meet every filter, in the order of the
      merged events: so it is newest first when they are. */
  lemma ActivityMeaning(events: seq<ActivityEvent>, q: ActivityQuery)
    ensures ApplyFilters(events, q) == Take(Filter(events, e => Matches(q, e)), q.limit)
    ensures var r := ApplyFilters(events, q);
      && |r| <= q.limit
      && (forall e :: e in r ==> e in events && Matches(q, e))
      && IsSubseq(r, events)
      && (SortedDesc(events, Timestamp) ==> SortedDesc(r, Timestamp))
  {
    StagedIsFilter(events, q);
    var m := Filter(events, e => Matches(q, e));
    var r := Take(m, q.limit);
    FilterIsSubseq(events, e => Matches(q, e));
    PrefixIsSubseq(r, m);
    SubseqTrans(r, m, events);
    forall e | e in r ensures e in events && Matches(q, e) {
      SubseqMembers(r, m, e);
    }
    if SortedDesc(events, Timestamp) {
      SubseqKeepsSortedDesc(r, events, Timestamp);
    }
  }


  // ---------------------------------------------------------------------------
  // /api/stats

  /** The counts of `/api/stats` over the merged events. */
  datatype Stats = Stats(
    total: nat,
    byType: map<string, nat>,
    byAction: map<string, nat>,
    byAgent: map<string, nat>,
    byStatus: map<string, nat>,
    errors: nat,
    totalCost: real,
    totalTokens: int)

  predicate HasAgent(e: ActivityEvent) {
    Truthy(e.agentId)
  }

  function AgentKey(e: ActivityEvent): string {
    e.agentId.GetOr("")
  }

  /** The agent of every event that has one, in order. */
  function AgentKeys(events: seq<ActivityEvent>): seq<string> {
    Map(Filter(events, HasAgent), AgentKey)
  }

  /** `e.tokens?.total || 0`: events without token counts add nothing. */
  function TokensOf(e: ActivityEvent): int {
    if e.tokens.Some? then e.tokens.value.total else 0
  }

  /** `e.cost || 0`. */
  function CostOf(e: ActivityEvent): real {
    e.cost.GetOr(0.0)
  }

  function TokenSum(events: seq<ActivityEvent>): int {
    if events == [] then 0 else TokenSum(events[..|events| - 1]) + TokensOf(events[|events| - 1])
  }

  function CostSum(events: seq<ActivityEvent>): real {
    if events == [] then 0.0 else CostSum(events[..|events| - 1]) + CostOf(events[|events| - 1])
  }

  /** The `/api/stats` handler over the events `getAllEvents` returned: the totals, and
      the four maps filled by one loop, each key counted with `(acc[k] || 0) + 1`. */
  method ComputeStats(events: seq<ActivityEvent>) returns (stats: Stats)
    ensures stats.total == |events|
    ensures stats.byType == Tally.Tally(Map(events, TypeKey))
    ensures stats.byAction == Tally.Tally(Map(events, ActionKey))
    ensures stats.byAgent == Tally.Tally(AgentKeys(events))
    ensures stats.byStatus == Tally.Tally(Map(events, StatusKey))
    ensures stats.errors == |Filter(events, IsErrorStatus)|
    ensures stats.totalCost == CostSum(events)
    ensures stats.totalTokens == TokenSum(events)
  {
    var byType, byAction, byAgent, byStatus := CountByKeys(events);
    stats := Stats(|events|, byType, byAction, byAgent, byStatus,
      |Filter(events, IsErrorStatus)|, CostSum(events), TokenSum(events));
  }

  /** The `for (const e of events)` loop of the handler. */
  method CountByKeys(events: seq<ActivityEvent>)
    returns (byType: map<string, nat>, byAction: map<string, nat>, byAgent: map<string, nat>, byStatus: map<string, nat>)
    ensures byType == Tally.Tally(Map(events, TypeKey))
    ensures byAction == Tally.Tally(Map(events, ActionKey))
    ensures byAgent == Tally.Tally(AgentKeys(events))
    ensures byStatus == Tally.Tally(Map(events, StatusKey))
  {
    byType, byAction, byAgent, byStatus := map[], map[], map[], map[];
    var i := 0;
    while i < |events|
      invariant 0 <= i <= |events|
      invariant byType == Tally.Tally(Map(events[..i], TypeKey))
      invariant byAction == Tally.Tally(Map(events[..i], ActionKey))
      invariant byAgent == Tally.Tally(AgentKeys(events[..i]))
      invariant byStatus == Tally.Tally(Map(events[..i], StatusKey))
    {
      byType, byAction, byAgent, byStatus := CountEvent(events, i, byType, byAction, byAgent, byStatus);
      i := i + 1;
    }
    assert events[..i] == events;
  }

  /** The loop body: count the `i`-th event in each map. */
  method CountEvent(events: seq<ActivityEvent>, i: nat,
      byType: map<string, nat>, byAction: map<string, nat>, byAgent: map<string, nat>, byStatus: map<string, nat>)
    returns (byType': map<string, nat>, byAction': map<string, nat>, byAgent': map<string, nat>, byStatus': map<string, nat>)
    requires i < |events|
    requires byType == Tally.Tally(Map(events[..i], TypeKey))
    requires byAction == Tally.Tally(Map(events[..i], ActionKey))
    requires byAgent == Tally.Tally(AgentKeys(events[..i]))
    requires byStatus == Tally.Tally(Map(events[..i], StatusKey))
    ensures byType' == Tally.Tally(Map(events[..i + 1], TypeKey))
    ensures byAction' == Tally.Tally(Map(events[..i + 1], ActionKey))
    ensures byAgent' == Tally.Tally(AgentKeys(events[..i + 1]))
    ensures byStatus' == Tally.Tally(Map(events[..i + 1], StatusKey))
  {
    var e := events[i];
    MapStep(events, i, TypeKey);
    MapStep(events, i, ActionKey);
    MapStep(events, i, StatusKey);
    AgentKeysStep(events, i);
    byType' := Tally.Bump(byType, TypeKey(e));
    byAction' := Tally.Bump(byAction, ActionKey(e));
    byAgent' := byAgent;
    if HasAgent(e) {
      byAgent' := Tally.Bump(byAgent, AgentKey(e));
    }
    byStatus' := Tally.Bump(byStatus, StatusKey(e));
  }

  lemma MapStep(events: seq<ActivityEvent>, i: nat, f: ActivityEvent -> string)
    requires i < |events|
    ensures Tally.Tally(Map(events[..i + 1], f)) == Tally.Bump(Tally.Tally(Map(events[..i], f)), f(events[i]))
  {
    assert events[..i + 1] == events[..i] + [events[i]];
    MapSnoc(events[..i], events[i], f);
    Tally.TallySnoc(Map(events[..i], f), f(events[i]));
  }

  lemma AgentKeysStep(events: seq<ActivityEvent>, i: nat)
    requires i < |events|
    ensures var s, e := events[..i], events[i];
      Tally.Tally(AgentKeys(events[..i + 1]))
      == if HasAgent(e) then Tally.Bump(Tally.Tally(AgentKeys(s)), AgentKey(e)) else Tally.Tally(AgentKeys(s))
  {
    var s, e := events[..i], events[i];
    assert events[..i + 1] == s + [e];
    var kept := Filter(s, HasAgent);
    FilterConcat(s, [e], HasAgent);
    if HasAgent(e) {
      assert Filter([e], HasAgent) == [e];
      MapSnoc(kept, e, AgentKey);
      Tally.TallySnoc(Map(kept, AgentKey), AgentKey(e));
    } else {
      assert Filter([e], HasAgent) == [];
      assert kept + [] == kept;
    }
  }

  /** `byAction` adds up to `total` over the actions seen. */
  lemma ByActionSum(events: seq<ActivityEvent>)
    ensures var actions := Map(events, ActionKey);
      Tally.SumOver(Tally.Tally(actions), Distinct(actions)) == |events|
  {
    var actions := Map(events, ActionKey);
    Tally.TallySum(actions, Distinct(actions));
  }

  /** `byAgent` counts only the events that name an agent: it adds up to their number,
      and the empty name is never a key. */
  lemma ByAgentSum(events: seq<ActivityEvent>)
    ensures var agents := AgentKeys(events);
      && Tally.SumOver(Tally.Tally(agents), Distinct(agents)) == |Filter(events, HasAgent)|
      && "" !in Tally.Tally(agents)
  {
    var agents := AgentKeys(events);
    Tally.TallySum(agents, Distinct(agents));
    forall i | 0 <= i < |agents| ensures agents[i] != "" {
      var kept := Filter(events, HasAgent);
      assert kept[i] in kept;
    }
  }

  // ---------------------------------------------------------------------------
  // /api/tools

  predicate IsTool(e: ActivityEvent) {
    e.eventType == ToolEvent
  }

  /** The `/api/tools` answer: the actions of the tool events, each once, sorted. */
  function ToolList(events: seq<ActivityEvent>): seq<string> {
    SortStrings(Distinct(Map(Filter(events, IsTool), ActionKey)))
  }

  /** The answer names exactly the actions of the tool events, each once and in
      ascending order. */
  lemma ToolListMeaning(events: seq<ActivityEvent>)
    ensures var r := ToolList(events);
      && (forall e :: e in events && IsTool(e) ==> e.action in r)
      && (forall i :: 0 <= i < |r| ==> exists e :: e in events && IsTool(e) && e.action == r[i])
      && StrictlyLexSorted(r)
  {
    var d := Distinct(Map(Filter(events, IsTool), ActionKey));
    forall e | e in events && IsTool(e) ensures e.action in ToolList(events) {
      ToolActionListed(events, e);
    }
    forall i | 0 <= i < |ToolList(events)| ensures exists e :: e in events && IsTool(e) && e.action == ToolList(events)[i] {
      var _ := ListedFromTool(events, i);
    }
    DistinctSortedNoDup(d, ToolList(events));
    SortedDistinctIsStrict(ToolList(events));
  }

  /** The action of a tool event is listed. */
  lemma ToolActionListed(events: seq<ActivityEvent>, e: ActivityEvent)
    requires e in events && IsTool(e)
    ensures e.action in ToolList(events)
  {
    var tools := Filter(events, IsTool);
    var actions := Map(tools, ActionKey);
    var j :| 0 <= j < |tools| && tools[j] == e;
    assert actions[j] == e.action;
    assert e.action in multiset(Distinct(actions));
  }

  /** A listed action is that of a tool event. */
  lemma ListedFromTool(events: seq<ActivityEvent>, i: nat) returns (e: ActivityEvent)
    requires i < |ToolList(events)|
    ensures e in events && IsTool(e) && e.action == ToolList(events)[i]
  {
    var tools := Filter(events, IsTool);
    var actions := Map(tools, ActionKey);
    var d := Distinct(actions);
    var r := ToolList(events);
    assert r[i] in multiset(d);
    var k :| 0 <= k < |d| && d[k] == r[i];
    var j :| 0 <= j < |actions| && actions[j] == r[i];
    e := tools[j];
    assert e in tools;
  }

  /** Sorting keeps a list free of repeats. */
  lemma DistinctSortedNoDup(d: seq<string>, r: seq<string>)
    requires forall i, j :: 0 <= i < j < |d| ==> d[i] != d[j]
    requires multiset(r) == multiset(d)
    ensures forall i, j :: 0 <= i < j < |r| ==> r[i] != r[j]
  {
    forall x | x in multiset(d) ensures multiset(d)[x] == 1 {
      Tally.OccursOnce(d, x);
    }
    forall i, j | 0 <= i < j < |r| ensures r[i] != r[j] {
      TwoPlaces(r, i, j);
    }
  }

  /** A value at two places of a sequence occurs in it at least twice. */
  lemma TwoPlaces<T>(r: seq<T>, i: nat, j: nat)
    requires i < j < |r|
    ensures r[i] == r[j] ==> multiset(r)[r[i]] >= 2
  {
    assert r == r[..j] + r[j..];
    assert r[i] in r[..j];
    assert r[j] == r[j..][0];
  }
}
