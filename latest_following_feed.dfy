/** `LatestFollowingFeed`: the feed of events from followed users, paginated backwards, with an
    "it's quiet in here" empty state. */
module LatestFollowingFeed {
  import opened Common

  const FeedEventTypename: string := "FeedEvent"
  const FeedMode: string := "FOLLOWING"
  const LoadMoreSource: string := "latest-following"

  datatype FeedNode = FeedNode(typename: string, dbid: string)

  predicate IsFeedEvent(n: FeedNode)
  {
    n.typename == FeedEventTypename
  }

  /** The FeedEvent nodes in edge order; an absent feed gives none. */
  function FeedEvents(edges: Option<seq<Option<Option<FeedNode>>>>): seq<FeedNode>
  {
    Filter(RemoveNulls(RemoveNulls(GetOr(edges, []))), IsFeedEvent)
  }

  /** `feedData`: the loop pushing every FeedEvent node (no reversal here). */
  method FeedData(edges: Option<seq<Option<Option<FeedNode>>>>) returns (events: seq<FeedNode>)
    ensures events == FeedEvents(edges)
  {
    events := CollectNodes(GetOr(edges, []), IsFeedEvent);
  }

  /** The feed holds every FeedEvent node, as often as an edge carries it, in edge order, and no
      more entries than there are edges. */
  lemma FeedEventsAreTheEvents(edges: Option<seq<Option<Option<FeedNode>>>>, x: FeedNode)
    ensures x in FeedEvents(edges) <==> IsFeedEvent(x) && Some(Some(x)) in GetOr(edges, [])
    ensures multiset(FeedEvents(edges))[x] == if IsFeedEvent(x) then multiset(GetOr(edges, []))[Some(Some(x))] else 0
    ensures IsSubsequence(FeedEvents(edges), RemoveNulls(RemoveNulls(GetOr(edges, []))))
    ensures |FeedEvents(edges)| <= |GetOr(edges, [])|
  {
    var e := GetOr(edges, []);
    NodesMultiset(e, IsFeedEvent, x);
    assert x in FeedEvents(edges) <==> x in multiset(FeedEvents(edges));
    assert Some(Some(x)) in e <==> Some(Some(x)) in multiset(e);
    FilterIsSubsequence(RemoveNulls(RemoveNulls(e)), IsFeedEvent);
  }

  /** `noViewerFeedEvents`: decided on the edges, not on the FeedEvent nodes. */
  predicate NoViewerFeedEvents(edges: Option<seq<Option<Option<FeedNode>>>>)
  {
    edges.None? || |edges.value| == 0
  }

  datatype FeedView =
    | EmptyFeed
    | List(feedEventRefs: seq<FeedNode>, hasNext: bool, feedMode: string)

  /** The rendered feed: the list's `hasNext` is the backward `hasPrevious`. */
  function Render(edges: Option<seq<Option<Option<FeedNode>>>>, hasPrevious: bool): (v: FeedView)
    ensures v.EmptyFeed? <==> NoViewerFeedEvents(edges)
    ensures v.List? ==> v.feedEventRefs == FeedEvents(edges) && v.hasNext == hasPrevious && v.feedMode == FeedMode
  {
    if NoViewerFeedEvents(edges) then EmptyFeed else List(FeedEvents(edges), hasPrevious, FeedMode)
  }

  /** Edges without any FeedEvent node still render the (empty) list rather than the empty state. */
  lemma NonEventEdgesShowEmptyList(edges: seq<Option<Option<FeedNode>>>, hasPrevious: bool)
    requires |edges| > 0
    requires forall i :: 0 <= i < |edges| ==> !(edges[i].Some? && edges[i].value.Some? && IsFeedEvent(edges[i].value.value))
    ensures Render(Some(edges), hasPrevious) == List([], hasPrevious, FeedMode)
  {
    var events := FeedEvents(Some(edges));
    if events != [] {
      FeedEventsAreTheEvents(Some(edges), events[0]);
      assert false;
    }
  }

  /** What `loadNextPage` does: track the load, then `loadPrevious(ITEMS_PER_PAGE)`; the page
      size lives in a constants file that is not part of this model and is passed in. */
  datatype PageEffect = TrackLoadMore(source: string) | LoadPrevious(count: nat)

  function LoadNextPage(itemsPerPage: nat): (r: seq<PageEffect>)
    ensures |r| == 2 && r[0] == TrackLoadMore(LoadMoreSource)
    ensures r[1].LoadPrevious? && r[1].count == itemsPerPage
  {
    [TrackLoadMore(LoadMoreSource), LoadPrevious(itemsPerPage)]
  }
}
