/** `PostCommentsModal`: the comments of a post, newest first, and posting a new comment. The
    comment list of a feed event is built the same way and reuses this definition. */
module PostCommentsModal {
  import opened Common

  const CommentTypename: string := "Comment"

  /** An interaction node: a comment or an admire, told apart by `__typename`. */
  datatype InteractionNode = InteractionNode(typename: string, dbid: string)

  predicate IsComment(n: InteractionNode)
  {
    n.typename == CommentTypename
  }

  /** The comment nodes in edge order; an absent edge list gives no comments. */
  function CommentsInEdgeOrder(edges: Option<seq<Option<Option<InteractionNode>>>>): seq<InteractionNode>
  {
    Filter(RemoveNulls(RemoveNulls(GetOr(edges, []))), IsComment)
  }

  /** `nonNullInteractions`: the loop that pushes every Comment node, then its in-place
      `reverse()`. */
  method NonNullInteractions(edges: Option<seq<Option<Option<InteractionNode>>>>) returns (interactions: seq<InteractionNode>)
    ensures interactions == Reverse(CommentsInEdgeOrder(edges))
  {
    var kept := CollectNodes(GetOr(edges, []), IsComment);
    interactions := ReversedCopy(kept);
  }

  /** Only comments are listed, and each comment node as often as an edge carries it. */
  lemma InteractionsAreTheComments(edges: Option<seq<Option<Option<InteractionNode>>>>, x: InteractionNode)
    ensures x in Reverse(CommentsInEdgeOrder(edges)) ==> IsComment(x)
    ensures multiset(Reverse(CommentsInEdgeOrder(edges)))[x]
         == if IsComment(x) then multiset(GetOr(edges, []))[Some(Some(x))] else 0
  {
    ReverseMultiset(CommentsInEdgeOrder(edges));
    NodesMultiset(GetOr(edges, []), IsComment, x);
    if x in Reverse(CommentsInEdgeOrder(edges)) {
      assert x in multiset(Reverse(CommentsInEdgeOrder(edges)));
    }
  }

  /** The list is the edge order backwards: the last comment edge comes first. */
  lemma InteractionsNewestFirst(edges: Option<seq<Option<Option<InteractionNode>>>>)
    ensures var c := CommentsInEdgeOrder(edges);
            var r := Reverse(c);
            |r| == |c| && forall i :: 0 <= i < |c| ==> r[i] == c[|c| - 1 - i]
    ensures edges.None? ==> Reverse(CommentsInEdgeOrder(edges)) == []
  {
  }

  /** Edges whose every node is a present comment are all listed, last one first. */
  lemma AllCommentsListed(edges: seq<Option<Option<InteractionNode>>>)
    requires forall i :: 0 <= i < |edges| ==> edges[i].Some? && edges[i].value.Some? && IsComment(edges[i].value.value)
    ensures var r := Reverse(CommentsInEdgeOrder(Some(edges)));
            |r| == |edges| && forall i :: 0 <= i < |r| ==> Some(Some(r[i])) == edges[|edges| - 1 - i]
  {
    var once := RemoveNulls(edges);
    RemoveNullsNone(edges);
    assert forall i :: 0 <= i < |once| ==> once[i] == edges[i].value by {
      RemoveNullsAllPresent(edges);
    }
    RemoveNullsNone(once);
    RemoveNullsAllPresent(once);
    FilterAllKept(RemoveNulls(once), IsComment);
  }

  /** The mutation call `handleSubmitComment` makes; the optimistic viewer info comes from a
      helper that is not part of this model and is passed in. */
  datatype CommentRequest = CommentOnPost(postId: string, postDbid: string, comment: string, optimisticUser: string)

  function HandleSubmitComment(postId: string, postDbid: string, comment: string, optimisticUser: string): (r: CommentRequest)
    ensures r.comment == comment && r.postId == postId && r.postDbid == postDbid
    ensures r.optimisticUser == optimisticUser
  {
    CommentOnPost(postId, postDbid, comment, optimisticUser)
  }
}
