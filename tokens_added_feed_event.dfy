/** `TokensAddedToCollectionFeedEvent` (mobile): the feed event "Added new tokens to <collection>",
    with a grid of the tokens and a link to the collection. */
module TokensAddedFeedEvent {
  import opened Common

  const CollectionTokenLimit: nat := 4
  const FallbackCollectionName: string := "their collection"
  const RequiredFieldError: string := "required field collection.tokens is missing"

  datatype Collection<T> = Collection(dbid: string, name: Option<string>, tokens: Option<seq<Option<T>>>)

  datatype EventData<T> = EventData(isPreFeed: bool, collection: Option<Collection<T>>, newTokens: Option<seq<Option<T>>>)

  /** The list the event shows: the collection's tokens for a pre-feed event, `newTokens`
      otherwise; a missing list is empty. */
  function Source<T>(e: EventData<T>): (r: seq<Option<T>>)
    ensures !e.isPreFeed ==> r == GetOr(e.newTokens, [])
    ensures e.isPreFeed && e.collection.None? ==> r == []
    ensures e.isPreFeed && e.collection.Some? ==> r == GetOr(e.collection.value.tokens, [])
  {
    if !e.isPreFeed then GetOr(e.newTokens, [])
    else if e.collection.Some? then GetOr(e.collection.value.tokens, [])
    else []
  }

  /** `tokens`: `removeNullValues` of the collection's tokens for a pre-feed event, of
      `newTokens` otherwise. The collection's `tokens` is `@required(action: THROW)`, so a
      collection without it throws; the query asks for at most four of them. */
  function Tokens<T>(e: EventData<T>): (r: Result<seq<T>>)
    ensures r.Err? <==> e.collection.Some? && e.collection.value.tokens.None?
    ensures r.Ok? ==> r.value == RemoveNulls(Source(e))
    ensures r.Ok? && e.isPreFeed && |Source(e)| <= CollectionTokenLimit ==> |r.value| <= CollectionTokenLimit
  {
    if e.collection.Some? && e.collection.value.tokens.None? then Err(RequiredFieldError)
    else Ok(RemoveNulls(Source(e)))
  }

  /** Every shown token is one of the chosen list's present entries, and every present entry is
      shown. */
  lemma TokensAreThePresentOnes<T>(e: EventData<T>, t: T)
    requires Tokens(e).Ok?
    ensures t in Tokens(e).value <==> Some(t) in Source(e)
  {
    RemoveNullsMembers(Source(e), t);
  }

  /** The header's collection name: unescaped, or "their collection" when that is empty. */
  function CollectionName<T>(e: EventData<T>, unescape: string -> string): (r: string)
    ensures r != ""
    ensures var n := unescape(if e.collection.Some? then GetOr(e.collection.value.name, "") else "");
            r == (if n != "" then n else FallbackCollectionName)
  {
    var n := unescape(if e.collection.Some? then GetOr(e.collection.value.name, "") else "");
    if n != "" then n else FallbackCollectionName
  }

  datatype Navigation = PushCollection(collectionId: string)

  /** `handleCollectionNamePress`: only a collection with a dbid is opened. */
  function HandleCollectionNamePress<T>(e: EventData<T>): (r: Option<Navigation>)
    ensures r.Some? <==> e.collection.Some? && e.collection.value.dbid != ""
    ensures r.Some? ==> r.value.collectionId == e.collection.value.dbid
  {
    if e.collection.Some? && e.collection.value.dbid != "" then Some(PushCollection(e.collection.value.dbid)) else None
  }
}
