/** The live watcher's in-memory store `recentEvents`: newest-appended first, at most
    1000 events after each append, reloaded at start from the tail of the activity
    file, and the two endpoints its server answers from it. */
module LiveStore {
  import opened Wrappers
  import opened Text
  import opened Seqs
  import opened Events
  import opened EventCounts
  import Tally
  import HistoryApi

  const MaxEvents: nat := 1000

  /** `unshift(e)`, then one `pop()` when the array is over `MAX_EVENTS`. */
  function Pushed(s: seq<ActivityEvent>, e: ActivityEvent): seq<ActivityEvent> {
    var t := [e] + s;
    if |t| > MaxEvents then t[..|t| - 1] else t
  }

  /** The appended event comes first and the rest is a prefix of the old store, which
      loses its last event only when it was full. */
  lemma PushedShape(s: seq<ActivityEvent>, e: ActivityEvent)
    ensures var r := Pushed(s, e);
      && r != [] && r[0] == e && r[1..] <= s
      && |r| == (if |s| + 1 > MaxEvents then |s| else |s| + 1)
  {
  }

  /** From a store of at most 1000 events, an append keeps at most 1000: the newest 1000
      of the event and the store. */
  lemma PushedBounded(s: seq<ActivityEvent>, e: ActivityEvent)
    requires |s| <= MaxEvents
    ensures Pushed(s, e) == Take([e] + s, MaxEvents)
    ensures |Pushed(s, e)| <= MaxEvents
  {
  }

  /** The store after a run of appends, the first appended first. */
  function PushAll(s: seq<ActivityEvent>, es: seq<ActivityEvent>): seq<ActivityEvent>
    decreases |es|
  {
    if es == [] then s else PushAll(Pushed(s, es[0]), es[1..])
  }

  function Reversed<T>(s: seq<T>): (r: seq<T>)
    ensures |r| == |s|
    ensures forall i :: 0 <= i < |s| ==> r[i] == s[|s| - 1 - i]
  {
    if s == [] then [] else Reversed(s[1..]) + [s[0]]
  }

  /** What a bounded store retains over any run of appends: the newest 1000 of the
      appended events, last appended first, followed by the old events. */
  lemma {:induction false} PushAllRetains(s: seq<ActivityEvent>, es: seq<ActivityEvent>)
    requires |s| <= MaxEvents
    ensures PushAll(s, es) == Take(Reversed(es) + s, MaxEvents)
    ensures |PushAll(s, es)| <= MaxEvents
    decreases |es|
  {
    if es != [] {
      var e, rest := es[0], es[1..];
      PushedBounded(s, e);
      PushAllRetains(Pushed(s, e), rest);
      assert Reversed(es) == Reversed(rest) + [e];
      TakeOfTake(Reversed(rest), [e] + s, MaxEvents);
      assert Reversed(rest) + ([e] + s) == Reversed(es) + s;
    }
  }

  /** Cutting the tail short first changes nothing about the first `n`. */
  lemma TakeOfTake<T>(a: seq<T>, b: seq<T>, n: nat)
    ensures Take(a + Take(b, n), n) == Take(a + b, n)
  {
    var t := Take(b, n);
    assert t == (if |b| <= n then b else b[..n]);
    var l, r := a + t, a + b;
    assert forall i :: 0 <= i < |l| && i < n ==> l[i] == r[i];
  }

  /** `lines.slice(-MAX_EVENTS)`: the last 1000 lines, or all of them. */
  function LastLines(lines: seq<string>): (r: seq<string>)
    ensures |r| <= MaxEvents && |r| <= |lines|
    ensures |lines| <= MaxEvents ==> r == lines
    ensures |lines| > MaxEvents ==> r == lines[|lines| - MaxEvents..]
  {
    if |lines| <= MaxEvents then lines else lines[|lines| - MaxEvents..]
  }

  /** The lines that parse, as events, in order; a line that fails to parse is skipped. */
  function Decoded(lines: seq<string>, parse: string -> Option<ActivityEvent>): (r: seq<ActivityEvent>)
    ensures |r| <= |lines|
  {
    if lines == [] then []
    else
      var last := parse(lines[|lines| - 1]);
      Decoded(lines[..|lines| - 1], parse) + (if last.Some? then [last.value] else [])
  }

  /** The events the activity file's tail contributes: its last 1000 non-empty lines
      that parse. */
  function LoadedLines(content: string, parse: string -> Option<ActivityEvent>): seq<ActivityEvent> {
    Decoded(LastLines(Fragments(content, '\n')), parse)
  }

  /** A reload from an empty store holds at most 1000 events, newest first, and exactly
      those of the file's tail, each as often as it appears there. */
  lemma LoadMeaning(content: string, parse: string -> Option<ActivityEvent>)
    ensures var r := SortDesc([] + LoadedLines(content, parse), Timestamp);
      && |r| <= MaxEvents
      && SortedDesc(r, Timestamp)
      && multiset(r) == multiset(LoadedLines(content, parse))
  {
    assert [] + LoadedLines(content, parse) == LoadedLines(content, parse);
  }

  /** A line is decoded exactly when it parses: each event of the result comes from a
      line of the tail. */
  lemma DecodedMembers(lines: seq<string>, parse: string -> Option<ActivityEvent>, e: ActivityEvent)
    ensures e in Decoded(lines, parse) <==> exists i :: 0 <= i < |lines| && parse(lines[i]) == Some(e)
  {
    if e in Decoded(lines, parse) {
      var i := LineOfDecoded(lines, parse, e);
    }
    if exists i :: 0 <= i < |lines| && parse(lines[i]) == Some(e) {
      var i :| 0 <= i < |lines| && parse(lines[i]) == Some(e);
      DecodedOfLine(lines, parse, i);
    }
  }

  lemma {:induction false} LineOfDecoded(lines: seq<string>, parse: string -> Option<ActivityEvent>, e: ActivityEvent) returns (i: nat)
    requires e in Decoded(lines, parse)
    ensures i < |lines| && parse(lines[i]) == Some(e)
  {
    var init := lines[..|lines| - 1];
    if e in Decoded(init, parse) {
      i := LineOfDecoded(init, parse, e);
      assert init[i] == lines[i];
    } else {
      i := |lines| - 1;
    }
  }

  lemma {:induction false} DecodedOfLine(lines: seq<string>, parse: string -> Option<ActivityEvent>, i: nat)
    requires i < |lines| && parse(lines[i]).Some?
    ensures parse(lines[i]).value in Decoded(lines, parse)
  {
    var init := lines[..|lines| - 1];
    if i < |lines| - 1 {
      assert init[i] == lines[i];
      DecodedOfLine(init, parse, i);
    }
  }

  /** One more line adds its event to what was loaded when it parses. */
  lemma DecodedSnoc(start: seq<ActivityEvent>, lines: seq<string>, i: nat, parse: string -> Option<ActivityEvent>)
    requires i < |lines|
    ensures var more := if parse(lines[i]).Some? then [parse(lines[i]).value] else [];
      start + Decoded(lines[..i + 1], parse) == (start + Decoded(lines[..i], parse)) + more
  {
    assert lines[..i + 1][..i] == lines[..i];
  }

  class ActivityStore {
    var events: seq<ActivityEvent>

    predicate Valid()
      reads this
    {
      |events| <= MaxEvents
    }

    constructor()
      ensures events == [] && Valid()
    {
      events := [];
    }

    /** `appendActivity`: the file append and the in-memory insertion share one `try`,
        so the event is kept in memory only when `writeOk` says the append succeeded. */
    method Append(e: ActivityEvent, writeOk: bool)
      modifies this
      ensures writeOk ==> events == Pushed(old(events), e)
      ensures !writeOk ==> events == old(events)
      ensures old(Valid()) ==> Valid()
    {
      if !writeOk {
        return;
      }
      events := [e] + events;
      if |events| > MaxEvents {
        events := events[..|events| - 1];
      }
    }

    /** `loadExistingEvents`: `content` is the activity file's text, absent when it does
        not exist or cannot be read; each of its last 1000 non-empty lines that `parse`
        accepts is pushed, and then the whole store is sorted newest first. */
    method Load(content: Option<string>, parse: string -> Option<ActivityEvent>)
      modifies this
      ensures content.None? ==> events == old(events)
      ensures content.Some? ==> events == SortDesc(old(events) + LoadedLines(content.value, parse), Timestamp)
    {
      if content.None? {
        return;
      }
      var lines := LastLines(Fragments(content.value, '\n'));
      ghost var start := events;
      var i := 0;
      while i < |lines|
        invariant 0 <= i <= |lines|
        invariant events == start + Decoded(lines[..i], parse)
      {
        var event := parse(lines[i]);
        DecodedSnoc(start, lines, i, parse);
        if event.Some? {
          events := events + [event.value];
        }
        i := i + 1;
      }
      assert lines[..i] == lines;
      events := SortDesc(events, Timestamp);
    }

    /** `/api/activity` of the live server. */
    function Activity(eventType: Option<string>, since: int, limit: nat): seq<ActivityEvent>
      reads this
    {
      LiveActivity(events, eventType, since, limit)
    }

    /** `/api/stats` of the live server. */
    function Stats(): LiveStats
      reads this
    {
      StatsOf(events)
    }
  }

  /** The live `/api/activity`: the type filter when one is given, then `ts > since`
      when `since` is positive, then the first `limit`. */
  function LiveActivity(events: seq<ActivityEvent>, eventType: Option<string>, since: int, limit: nat): seq<ActivityEvent> {
    var t := eventType.GetOr("");
    var byType := if Truthy(eventType) then Filter(events, (e: ActivityEvent) => TypeName(e.eventType) == t) else events;
    var bySince := if since > 0 then Filter(byType, (e: ActivityEvent) => e.ts > since) else byType;
    Take(bySince, limit)
  }

  /** The live endpoint is the transcript server's with no action or status filter, so
      its answer is the first `limit` events in store order of the requested type and
      newer than `since`. */
  lemma LiveActivityMeaning(events: seq<ActivityEvent>, eventType: Option<string>, since: int, limit: nat)
    ensures var q := HistoryApi.ActivityQuery(limit, eventType, None, None, since);
      && LiveActivity(events, eventType, since, limit) == HistoryApi.ApplyFilters(events, q)
    ensures var r := LiveActivity(events, eventType, since, limit);
      && |r| <= limit
      && IsSubseq(r, events)
      && (forall e :: e in r ==> (Truthy(eventType) ==> TypeName(e.eventType) == eventType.value) && (since > 0 ==> e.ts > since))
  {
    var q := HistoryApi.ActivityQuery(limit, eventType, None, None, since);
    HistoryApi.ActivityMeaning(events, q);
  }

  datatype LiveStats = LiveStats(total: nat, byType: map<string, nat>, errors: nat, lastEvent: Option<int>)

  /** `recentEvents[0]?.ts || null`: no value for an empty store or a zero timestamp. */
  function LastEvent(events: seq<ActivityEvent>): Option<int> {
    if events == [] || events[0].ts == 0 then None else Some(events[0].ts)
  }

  function StatsOf(events: seq<ActivityEvent>): LiveStats {
    LiveStats(|events|, Tally.Tally(Map(events, TypeKey)), |Filter(events, IsErrorStatus)|, LastEvent(events))
  }

  /** The live counts: `byType` adds up to `total` and `errors` counts the error
      events, none exactly when no event is an error. */
  lemma StatsMeaning(events: seq<ActivityEvent>)
    ensures var st := StatsOf(events);
      && st.total == |events|
      && Tally.SumOver(st.byType, TypeNames) == st.total
      && st.errors <= st.total
      && (st.errors == 0 <==> forall e :: e in events ==> e.status != Error)
  {
    ByTypeSum(events);
    NoErrorsNoErrorEvents(events);
  }

  lemma NoErrorsNoErrorEvents(events: seq<ActivityEvent>)
    ensures |Filter(events, IsErrorStatus)| == 0 <==> forall e :: e in events ==> e.status != Error
  {
    var errs := Filter(events, IsErrorStatus);
    if errs != [] {
      assert errs[0] in errs;
    }
  }

  /** `lastEvent` is the first event's timestamp unless the store is empty or that
      timestamp is zero; when the store is newest first it is the newest timestamp. */
  lemma LastEventMeaning(events: seq<ActivityEvent>)
    ensures var last := LastEvent(events);
      && (last.Some? <==> events != [] && events[0].ts != 0)
      && (last.Some? ==> last.value == events[0].ts)
      && (last.Some? && SortedDesc(events, Timestamp) ==> forall e :: e in events ==> e.ts <= last.value)
  {
    if events != [] && SortedDesc(events, Timestamp) {
      forall e | e in events ensures e.ts <= events[0].ts {
        var j :| 0 <= j < |events| && events[j] == e;
        if j > 0 {
          assert Timestamp(events[0]) >= Timestamp(events[j]);
        }
      }
    }
  }
}
