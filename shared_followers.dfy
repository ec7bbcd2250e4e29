/** `SharedFollowersList`: the paginated list of followers the viewer shares with a profile. The
    infinite loader sees one extra, unloaded row while another page exists. */
module SharedFollowers {
  import opened Common

  const FollowersPerPage: nat := 20

  datatype Follower = Follower(username: Option<string>, bio: Option<string>)
  datatype Edge = Edge(node: Option<Follower>)

  /** `rowCount` handed to the infinite loader. */
  function RowCount(sharedFollowers: seq<Option<Edge>>, hasNext: bool): (n: nat)
    ensures hasNext ==> n == |sharedFollowers| + 1
    ensures !hasNext ==> n == |sharedFollowers|
  {
    if hasNext then |sharedFollowers| + 1 else |sharedFollowers|
  }

  /** `isRowLoaded` */
  predicate IsRowLoaded(sharedFollowers: seq<Option<Edge>>, hasNext: bool, index: int)
  {
    !hasNext || index < |sharedFollowers|
  }

  /** Every fetched row counts as loaded, and while a next page exists exactly the extra row is
      not, which is what makes the loader ask for more. */
  lemma LoaderRows(sharedFollowers: seq<Option<Edge>>, hasNext: bool)
    ensures forall i :: 0 <= i < |sharedFollowers| ==> IsRowLoaded(sharedFollowers, hasNext, i)
    ensures var n := RowCount(sharedFollowers, hasNext);
            hasNext <==> (n > 0 && !IsRowLoaded(sharedFollowers, hasNext, n - 1))
  {
  }

  /** The request `handleLoadMore` makes: `loadNext(FOLLOWERS_PER_PAGE)`. */
  datatype LoadRequest = LoadNext(count: nat)

  function HandleLoadMore(): (r: LoadRequest)
    ensures r.count == FollowersPerPage && FollowersPerPage == 20
  {
    LoadNext(FollowersPerPage)
  }

  /** `s.split('\n')[0]`: the text before the first newline. */
  function FirstLine(s: string): (r: string)
    ensures r <= s
    ensures '\n' !in r
    ensures r == s || s[|r|] == '\n'
  {
    if s == [] || s[0] == '\n' then [] else [s[0]] + FirstLine(s[1..])
  }

  /** The first line is the longest newline-free prefix. */
  lemma FirstLineOfNewlineFree(s: string)
    requires '\n' !in s
    ensures FirstLine(s) == s
  {
  }

  /** `bioFirstLine`; `unescape` is the shared helper, not part of this model. */
  function BioFirstLine(bio: Option<string>, unescape: string -> string): (r: string)
    ensures !Truthy(bio) ==> r == ""
    ensures Truthy(bio) ==> r == FirstLine(unescape(bio.value))
  {
    FirstLine(if Truthy(bio) then unescape(bio.value) else "")
  }

  datatype Row = Row(pathUsername: string, title: string, subTitle: string)

  /** `rowRenderer` at `index`: nothing when the row has no node. */
  function RowAt(sharedFollowers: seq<Option<Edge>>, index: int, unescape: string -> string): (r: Option<Row>)
    ensures r.Some? <==> 0 <= index < |sharedFollowers| && sharedFollowers[index].Some? && sharedFollowers[index].value.node.Some?
    ensures r.Some? ==> var u := sharedFollowers[index].value.node.value;
                        r.value.title == GetOr(u.username, "") && r.value.pathUsername == r.value.title
                        && r.value.subTitle == BioFirstLine(u.bio, unescape)
                        && '\n' !in r.value.subTitle
  {
    if 0 <= index < |sharedFollowers| && sharedFollowers[index].Some? && sharedFollowers[index].value.node.Some? then
      var u := sharedFollowers[index].value.node.value;
      Some(Row(GetOr(u.username, ""), GetOr(u.username, ""), BioFirstLine(u.bio, unescape)))
    else None
  }
}
