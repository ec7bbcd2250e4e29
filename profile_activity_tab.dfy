/** `ProfileViewActivityTab` (mobile): a profile's activity feed, newest first, where each row can
    report that its event failed to render. */
module ProfileActivityTab {
  import opened Common

  datatype EventNode = EventNode(dbid: string)

  predicate Any(n: EventNode)
  {
    true
  }

  /** The non-null nodes, in edge order. */
  function PresentNodes(edges: Option<seq<Option<Option<EventNode>>>>): seq<EventNode>
  {
    RemoveNulls(RemoveNulls(GetOr(edges, [])))
  }

  /** `events`: the loop pushing every non-null node, then `events.reverse()`. */
  method Events(edges: Option<seq<Option<Option<EventNode>>>>) returns (events: seq<EventNode>)
    ensures events == Reverse(PresentNodes(edges))
  {
    var pushed := CollectNodes(GetOr(edges, []), Any);
    FilterAllKept(PresentNodes(edges), Any);
    events := ReversedCopy(pushed);
  }

  /** The events are the present nodes, each as often as an edge carries it. */
  lemma EventsAreThePresentNodes(edges: Option<seq<Option<Option<EventNode>>>>, x: EventNode)
    ensures multiset(Reverse(PresentNodes(edges)))[x] == multiset(GetOr(edges, []))[Some(Some(x))]
  {
    var e := GetOr(edges, []);
    var once := RemoveNulls(e);
    ReverseMultiset(RemoveNulls(once));
    RemoveNullsMultiset(once, x);
    RemoveNullsMultiset(e, Some(x));
  }

  /** With no null edge and no null node, every edge gives one event. */
  lemma EventCountWhenAllPresent(edges: seq<Option<Option<EventNode>>>)
    requires forall i :: 0 <= i < |edges| ==> edges[i].Some? && edges[i].value.Some?
    ensures |Reverse(PresentNodes(Some(edges)))| == |edges|
  {
    RemoveNullsAllPresent(edges);
    RemoveNullsNone(RemoveNulls(edges));
  }

  /** A list item of the virtualized feed; only event rows carry an event. */
  datatype FeedItem = FeedItem(eventId: string, event: Option<EventNode>)

  /** The `onFailure` a row gets. */
  datatype FailureCallback = NoOp | MarkEventAsFailure(dbid: string)

  /** `renderItem`: the failure callback starts as a no-op and is replaced when the item has an
      event. */
  method RenderItemOnFailure(item: FeedItem) returns (markFailure: FailureCallback)
    ensures markFailure.MarkEventAsFailure? <==> item.event.Some?
    ensures item.event.Some? ==> markFailure.dbid == item.event.value.dbid
  {
    markFailure := NoOp;
    if item.event.Some? {
      markFailure := MarkEventAsFailure(item.event.value.dbid);
    }
  }
}
