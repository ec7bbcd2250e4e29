/** `FeedEventsCommentsModal`: the comments of a feed event. Its comment list is built exactly as
    a post's (`PostCommentsModal.NonNullInteractions`); what differs is the mutation it calls. */
module FeedEventsCommentsModal {
  /** The mutation call `handleSubmitComment` makes for a feed event. */
  datatype CommentRequest = CommentOnFeedEvent(eventId: string, eventDbid: string, comment: string, optimisticUser: string)

  function HandleSubmitComment(eventId: string, eventDbid: string, comment: string, optimisticUser: string): (r: CommentRequest)
    ensures r.comment == comment && r.eventId == eventId && r.eventDbid == eventDbid
    ensures r.optimisticUser == optimisticUser
  {
    CommentOnFeedEvent(eventId, eventDbid, comment, optimisticUser)
  }
}
