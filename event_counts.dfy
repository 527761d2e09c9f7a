/** The keys the aggregate endpoints count events by, and what the type and status
    counts add up to: shared by the live watcher's and the transcript server's
    `/api/stats`. */
module EventCounts {
  import opened Seqs
  import opened Events
  import Tally

  function TypeKey(e: ActivityEvent): string {
    TypeName(e.eventType)
  }

  function ActionKey(e: ActivityEvent): string {
    e.action
  }

  function StatusKey(e: ActivityEvent): string {
    StatusName(e.status)
  }

  predicate IsErrorStatus(e: ActivityEvent) {
    e.status == Error
  }

  /** `byType` adds up to `total` over the six type names. */
  lemma ByTypeSum(events: seq<ActivityEvent>)
    ensures Tally.SumOver(Tally.Tally(Map(events, TypeKey)), TypeNames) == |events|
  {
    var types := Map(events, TypeKey);
    forall k | k in types ensures k in TypeNames {
      var i :| 0 <= i < |types| && types[i] == k;
      TypeNamesEnumerate(events[i].eventType);
    }
    TypeNamesEnumerate(ToolEvent);
    Tally.TallySum(types, TypeNames);
  }

  /** `byStatus` adds up to `total` over the four status names. */
  lemma ByStatusSum(events: seq<ActivityEvent>)
    ensures Tally.SumOver(Tally.Tally(Map(events, StatusKey)), StatusNames) == |events|
  {
    var statuses := Map(events, StatusKey);
    forall k | k in statuses ensures k in StatusNames {
      var i :| 0 <= i < |statuses| && statuses[i] == k;
      StatusNamesEnumerate(events[i].status);
    }
    StatusNamesEnumerate(Info);
    Tally.TallySum(statuses, StatusNames);
  }

  /** `errors` is the `error` count of `byStatus`. */
  lemma ErrorsAreErrorStatus(events: seq<ActivityEvent>)
    ensures var byStatus := Tally.Tally(Map(events, StatusKey));
      |Filter(events, IsErrorStatus)| == if "error" in byStatus then byStatus["error"] else 0
  {
    MapCount(events, StatusKey, "error", IsErrorStatus);
  }

  /** The count of a type is the number of events of that type; a type no event has is
      no key. */
  lemma ByTypeCount(events: seq<ActivityEvent>, t: EventType)
    ensures var byType := Tally.Tally(Map(events, TypeKey));
      (if TypeName(t) in byType then byType[TypeName(t)] else 0) == |Filter(events, (e: ActivityEvent) => e.eventType == t)|
  {
    TypeNameInjective(t);
    MapCount(events, TypeKey, TypeName(t), (e: ActivityEvent) => e.eventType == t);
  }

  lemma TypeNameInjective(t: EventType)
    ensures forall u :: TypeName(u) == TypeName(t) ==> u == t
  {
  }
}
