/** `UserGalleryCollections`: the virtualised list of collections on a user's gallery page. */
module UserGalleryCollections {
  import opened Common

  /** A section of a collection's layout, with its `whitespace` list. */
  datatype Section = Section(whitespace: Option<seq<int>>)

  datatype Collection = Collection(
    dbid: string,
    hidden: Option<bool>,
    tokenCount: Option<nat>,
    sectionLayout: Option<seq<Option<Section>>>)

  /** `sectionLayout?.find((layout) => Boolean(layout?.whitespace?.length))` found something. */
  predicate HasWhitespace(c: Collection)
  {
    c.sectionLayout.Some?
    && exists i :: 0 <= i < |c.sectionLayout.value| && c.sectionLayout.value[i].Some?
                   && NonEmpty(c.sectionLayout.value[i].value.whitespace)
  }

  /** The filter's test: `(hasTokens || hasWhitespace) && isNotHidden`, read for truthiness. */
  predicate Displayed(c: Collection)
  {
    ((c.tokenCount.Some? && c.tokenCount.value > 0) || HasWhitespace(c)) && c.hidden != Some(true)
  }

  function DisplayedOf(s: seq<Collection>): (r: seq<Collection>)
    ensures |r| <= |s|
    ensures forall i :: 0 <= i < |r| ==> Displayed(r[i])
  {
    if s == [] then []
    else DisplayedOf(s[..|s| - 1]) + (if Displayed(s[|s| - 1]) then [s[|s| - 1]] else [])
  }

  /** `collectionsToDisplay`, from the gallery's raw collection list. */
  function CollectionsToDisplay(collections: seq<Option<Collection>>): (r: seq<Collection>)
    ensures |r| <= |collections|
    ensures forall i :: 0 <= i < |r| ==> r[i].hidden != Some(true)
  {
    DisplayedOf(RemoveNulls(collections))
  }

  /** A collection is displayed exactly when it is present, not hidden, and has tokens or a
      section with whitespace. */
  lemma {:induction false} DisplayedMembers(s: seq<Collection>, c: Collection)
    ensures c in DisplayedOf(s) <==> c in s && Displayed(c)
  {
    if s != [] {
      var init := s[..|s| - 1];
      DisplayedMembers(init, c);
      assert s == init + [s[|s| - 1]];
    }
  }

  lemma DisplayedIff(collections: seq<Option<Collection>>, c: Collection)
    ensures c in CollectionsToDisplay(collections)
            <==> Some(c) in collections && c.hidden != Some(true)
                 && ((c.tokenCount.Some? && c.tokenCount.value > 0) || HasWhitespace(c))
  {
    DisplayedMembers(RemoveNulls(collections), c);
    RemoveNullsMembers(collections, c);
  }

  /** The displayed collections keep the order of the gallery's collections. */
  lemma {:induction false} DisplayedInOrder(s: seq<Collection>)
    ensures IsSubsequence(DisplayedOf(s), s)
  {
    if s != [] {
      var init := s[..|s| - 1];
      DisplayedInOrder(init);
      var r := DisplayedOf(s);
      if Displayed(s[|s| - 1]) {
        assert r[..|r| - 1] == DisplayedOf(init);
      } else {
        assert r == DisplayedOf(init);
      }
    }
  }

  /** `isAuthenticatedUsersPage = loggedInUserId === owner?.id`; `None` on either side is
      `undefined`. The gallery page computes this comparison itself, separately from the
      gallery card's `isAuthenticatedUser` (`Gallery.IsAuthenticatedUser`), so each module
      keeps its own copy. */
  function IsAuthenticatedUsersPage(loggedInUserId: Option<string>, ownerId: Option<string>): (r: bool)
    ensures loggedInUserId.Some? ==> (r <==> ownerId == loggedInUserId)
  {
    loggedInUserId == ownerId
  }

  const OwnerEmptyMessage: string := "Your gallery is empty. Display your pieces by creating a collection."
  const VisitorEmptyMessage: string := "Curation in progress."

  datatype ListView = EmptyGallery(message: string) | List(rowCount: nat)

  /** The page body: the empty-gallery message when nothing is displayed, else a list with one
      row per displayed collection. */
  function Render(collections: seq<Option<Collection>>, loggedInUserId: Option<string>, ownerId: Option<string>): (v: ListView)
    ensures v.EmptyGallery? <==> CollectionsToDisplay(collections) == []
    ensures v.EmptyGallery? ==> v.message == if IsAuthenticatedUsersPage(loggedInUserId, ownerId) then OwnerEmptyMessage else VisitorEmptyMessage
    ensures v.List? ==> v.rowCount == |CollectionsToDisplay(collections)| > 0
  {
    var shown := CollectionsToDisplay(collections);
    if |shown| == 0 then
      EmptyGallery(if IsAuthenticatedUsersPage(loggedInUserId, ownerId) then OwnerEmptyMessage else VisitorEmptyMessage)
    else List(|shown|)
  }

  /** `rowRenderer`: the collection at `index`, nothing past the end of the list. */
  function RowAt(shown: seq<Collection>, index: int): (r: Option<Collection>)
    ensures r.Some? <==> 0 <= index < |shown|
    ensures r.Some? ==> r.value == shown[index]
  {
    if 0 <= index < |shown| then Some(shown[index]) else None
  }

  /** `overscanIndicesGetter`: widen the visible window by the overscan count, clamped to the
      list. */
  function OverscanStartIndex(startIndex: int, overscanCellsCount: int): (r: int)
    ensures r >= 0 && r >= startIndex - overscanCellsCount
    ensures r == startIndex - overscanCellsCount || r == 0
    ensures 0 <= startIndex && 0 <= overscanCellsCount ==> r <= startIndex
  {
    if startIndex - overscanCellsCount > 0 then startIndex - overscanCellsCount else 0
  }

  function OverscanStopIndex(cellCount: int, stopIndex: int, overscanCellsCount: int): (r: int)
    ensures r <= cellCount - 1
    ensures r == cellCount - 1 || r == stopIndex + overscanCellsCount
    ensures r <= stopIndex + overscanCellsCount
    ensures 0 <= overscanCellsCount && stopIndex <= cellCount - 1 ==> stopIndex <= r
  {
    if cellCount - 1 < stopIndex + overscanCellsCount then cellCount - 1 else stopIndex + overscanCellsCount
  }

  /** For a window inside the list, the overscanned window contains it and stays inside the
      list. */
  lemma OverscanWindowInList(cellCount: int, startIndex: int, stopIndex: int, overscanCellsCount: int)
    requires 0 <= startIndex <= stopIndex < cellCount && 0 <= overscanCellsCount
    ensures var lo := OverscanStartIndex(startIndex, overscanCellsCount);
            var hi := OverscanStopIndex(cellCount, stopIndex, overscanCellsCount);
            0 <= lo <= startIndex <= stopIndex <= hi < cellCount
  {
  }
}
