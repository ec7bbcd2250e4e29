/** `Gallery`: one gallery card on a user's profile — title, collection count, up to four token
    previews — and, for its owner, hiding and unhiding it, which may move the "featured" mark to
    another gallery. */
module Gallery {
  import opened Common

  const TotalTokens: int := 4
  const NoOwnerError: string := "This gallery does not have an owner."
  const OnlyGalleryToast: string := "You cannot hide your only gallery."
  const FeatureErrorToast: string := "Unfortunately there was an error to featured this gallery"
  const InvalidArrayLength: string := "RangeError: Invalid array length"

  // ---------------------------------------------------------------------------------------
  // The card
  // ---------------------------------------------------------------------------------------

  datatype CollectionRef = CollectionRef(hidden: Option<bool>)

  /** `!collection?.hidden`: a null entry counts as visible. */
  predicate CountsAsVisible(c: Option<CollectionRef>)
  {
    !(c.Some? && c.value.hidden == Some(true))
  }

  /** `totalCollections`: the number of entries not marked hidden. */
  function TotalCollections(collections: seq<Option<CollectionRef>>): (n: nat)
    ensures n <= |collections|
  {
    if collections == [] then 0
    else TotalCollections(collections[..|collections| - 1]) + (if CountsAsVisible(collections[|collections| - 1]) then 1 else 0)
  }

  function HiddenCollections(collections: seq<Option<CollectionRef>>): nat
  {
    if collections == [] then 0
    else HiddenCollections(collections[..|collections| - 1]) + (if CountsAsVisible(collections[|collections| - 1]) then 0 else 1)
  }

  /** Every entry is counted either as visible or as hidden. */
  lemma {:induction false} VisiblePlusHidden(collections: seq<Option<CollectionRef>>)
    ensures TotalCollections(collections) + HiddenCollections(collections) == |collections|
  {
    if collections != [] {
      VisiblePlusHidden(collections[..|collections| - 1]);
    }
  }

  /** The count line: "1 collection", otherwise "N collections" (0 included). */
  function CountLabel(n: nat): (r: string)
    ensures n == 1 <==> r == "1 collection"
    ensures n != 1 ==> r == NatToString(n) + " collections"
  {
    NatToString(n) + " collection" + (if n == 1 then "" else "s")
  }

  /** `name || 'Untitled'` */
  function Title(name: Option<string>): (r: string)
    ensures Truthy(name) ==> r == name.value
    ensures !Truthy(name) ==> r == "Untitled"
  {
    if Truthy(name) then name.value else "Untitled"
  }

  /** `removeNullValues(tokenPreviews?.map((token) => token?.large)) ?? []` */
  function NonNullTokenPreviews(tokenPreviews: Option<seq<Option<Option<string>>>>): (r: seq<string>)
    ensures tokenPreviews.None? ==> r == []
  {
    var t := GetOr(tokenPreviews, []);
    RemoveNulls(seq(|t|, i requires 0 <= i < |t| => if t[i].Some? then t[i].value else None))
  }

  datatype PreviewRow = PreviewRow(images: seq<string>, placeholders: nat)

  /** The preview row: the images, then `[...Array(4 - images.length).keys()]` empty tiles. More
      than four images make that length negative, and `Array` throws. */
  function PreviewSlots(images: seq<string>): (r: Result<PreviewRow>)
    ensures r.Ok? <==> |images| <= TotalTokens
    ensures r.Ok? ==> r.value.images == images && |r.value.images| + r.value.placeholders == TotalTokens
    ensures r.Err? ==> r.error == InvalidArrayLength
  {
    var remaining := TotalTokens - |images|;
    if remaining < 0 then Err(InvalidArrayLength) else Ok(PreviewRow(images, remaining))
  }

  /** `loggedInUserId === gallery?.owner?.id`; `None` is `undefined`. */
  function IsAuthenticatedUser(loggedInUserId: Option<string>, ownerId: Option<string>): (r: bool)
    ensures loggedInUserId.Some? ==> (r <==> ownerId == loggedInUserId)
  {
    loggedInUserId == ownerId
  }

  datatype GalleryInput = GalleryInput(
    dbid: string,
    name: Option<string>,
    ownerUsername: Option<string>,
    ownerId: Option<string>,
    hidden: bool,
    collections: seq<Option<CollectionRef>>,
    tokenPreviews: Option<seq<Option<Option<string>>>>)

  datatype Card = Card(title: string, countLabel: string, previews: PreviewRow, showsOwnerMenu: bool)

  /** The component: it throws without an owner username, renders nothing for a visitor when the
      gallery is hidden, and otherwise renders the card. */
  function RenderGallery(g: GalleryInput, loggedInUserId: Option<string>): (r: Result<Option<Card>>)
    ensures !Truthy(g.ownerUsername) ==> r == Err(NoOwnerError)
    ensures Truthy(g.ownerUsername) && !IsAuthenticatedUser(loggedInUserId, g.ownerId) && g.hidden ==> r == Ok(None)
    ensures r.Ok? && r.value.Some? ==>
              (r.value.value.title == Title(g.name)
               && r.value.value.countLabel == CountLabel(TotalCollections(g.collections))
               && PreviewSlots(NonNullTokenPreviews(g.tokenPreviews)) == Ok(r.value.value.previews)
               && (r.value.value.showsOwnerMenu <==> IsAuthenticatedUser(loggedInUserId, g.ownerId)))
    ensures Truthy(g.ownerUsername) && (IsAuthenticatedUser(loggedInUserId, g.ownerId) || !g.hidden)
            ==> (r.Ok? <==> |NonNullTokenPreviews(g.tokenPreviews)| <= TotalTokens)
  {
    if !Truthy(g.ownerUsername) then Err(NoOwnerError)
    else
      var isAuthenticatedUser := IsAuthenticatedUser(loggedInUserId, g.ownerId);
      if !isAuthenticatedUser && g.hidden then Ok(None)
      else
        match PreviewSlots(NonNullTokenPreviews(g.tokenPreviews))
        case Err(e) => Err(e)
        case Ok(row) => Ok(Some(Card(Title(g.name), CountLabel(TotalCollections(g.collections)), row, isAuthenticatedUser)))
  }

  datatype MenuItem = EditNameAndDescription | Unhide | FeatureOnProfile | Hide | Delete

  /** The owner's settings menu: a hidden gallery offers UNHIDE, a visible one Hide, and a visible
      gallery that is not featured also "Feature on Profile". */
  function MenuItems(isAuthenticatedUser: bool, hidden: bool, isFeatured: bool): (r: seq<MenuItem>)
    ensures !isAuthenticatedUser <==> r == []
    ensures Unhide in r <==> isAuthenticatedUser && hidden
    ensures Hide in r <==> isAuthenticatedUser && !hidden
    ensures FeatureOnProfile in r <==> isAuthenticatedUser && !hidden && !isFeatured
    ensures isAuthenticatedUser ==> r[0] == EditNameAndDescription && r[|r| - 1] == Delete
  {
    if !isAuthenticatedUser then []
    else if hidden then [EditNameAndDescription, Unhide, Delete]
    else if !isFeatured then [EditNameAndDescription, FeatureOnProfile, Hide, Delete]
    else [EditNameAndDescription, Hide, Delete]
  }

  // ---------------------------------------------------------------------------------------
  // The viewer's galleries, hiding and featuring
  // ---------------------------------------------------------------------------------------

  datatype GalleryRef = GalleryRef(dbid: string, hidden: Option<bool>)
  datatype ViewerGallery = ViewerGallery(gallery: Option<GalleryRef>)

  /** `viewerGallery?.gallery && !viewerGallery?.gallery?.hidden` */
  predicate IsVisible(vg: ViewerGallery)
  {
    vg.gallery.Some? && vg.gallery.value.hidden != Some(true)
  }

  function VisibleCount(s: seq<ViewerGallery>): (n: nat)
    ensures n <= |s|
  {
    if s == [] then 0 else VisibleCount(s[..|s| - 1]) + (if IsVisible(s[|s| - 1]) then 1 else 0)
  }

  /** `checkIfItsLastVisibleGallery` */
  predicate IsLastVisibleGallery(viewerGalleries: Option<seq<Option<ViewerGallery>>>)
  {
    VisibleCount(RemoveNulls(GetOr(viewerGalleries, []))) < 2
  }

  /** The `filter(!gallery?.hidden)` test: an entry without a gallery passes it. */
  predicate NotHidden(vg: ViewerGallery)
  {
    !(vg.gallery.Some? && vg.gallery.value.hidden == Some(true))
  }

  /** The `find(gallery?.dbid !== dbid)` test: an entry without a gallery passes it too. */
  predicate IsOther(vg: ViewerGallery, dbid: string)
  {
    !(vg.gallery.Some? && vg.gallery.value.dbid == dbid)
  }

  /** `.filter(...).find(...)`: the first entry passing both tests. */
  function FindOther(s: seq<ViewerGallery>, dbid: string): (r: Option<ViewerGallery>)
    ensures r.Some? ==> r.value in s && NotHidden(r.value) && IsOther(r.value, dbid)
  {
    if s == [] then None
    else if NotHidden(s[0]) && IsOther(s[0], dbid) then Some(s[0])
    else FindOther(s[1..], dbid)
  }

  /** `reassignFeaturedGallery`: the gallery `setFeaturedGallery` is called with, if any. */
  function ReassignTarget(viewerGalleries: Option<seq<Option<ViewerGallery>>>, dbid: string, isFeatured: bool): (r: Option<string>)
    ensures !isFeatured ==> r.None?
  {
    if !isFeatured then None
    else
      var other := FindOther(RemoveNulls(GetOr(viewerGalleries, [])), dbid);
      if other.Some? && other.value.gallery.Some? && other.value.gallery.value.dbid != "" then
        Some(other.value.gallery.value.dbid)
      else None
  }

  /** The target is the first visible gallery with another id, when every entry before it is
      hidden or this same gallery. */
  lemma {:induction false} FindOtherIsFirst(s: seq<ViewerGallery>, dbid: string, k: int)
    requires 0 <= k < |s| && IsVisible(s[k]) && s[k].gallery.value.dbid != dbid
    requires forall j :: 0 <= j < k ==>
               ((IsVisible(s[j]) && s[j].gallery.value.dbid == dbid)
                || (s[j].gallery.Some? && s[j].gallery.value.hidden == Some(true)))
    ensures FindOther(s, dbid) == Some(s[k])
  {
    if k > 0 {
      FindOtherIsFirst(s[1..], dbid, k - 1);
    }
  }

  /** A featured gallery is handed on to a visible gallery with another id. */
  lemma ReassignTargetIsOther(viewerGalleries: seq<Option<ViewerGallery>>, dbid: string)
    requires ReassignTarget(Some(viewerGalleries), dbid, true).Some?
    ensures var id := ReassignTarget(Some(viewerGalleries), dbid, true).value;
            id != dbid && id != ""
            && Some(ViewerGallery(Some(GalleryRef(id, FindOther(RemoveNulls(viewerGalleries), dbid).value.gallery.value.hidden)))) in viewerGalleries
            && FindOther(RemoveNulls(viewerGalleries), dbid).value.gallery.value.hidden != Some(true)
  {
    RemoveNullsMembers(viewerGalleries, FindOther(RemoveNulls(viewerGalleries), dbid).value);
  }

  /** Without any other gallery that is not hidden, the featured mark is not reassigned. */
  lemma {:induction false} NoOtherNoReassign(s: seq<ViewerGallery>, dbid: string)
    requires forall j :: 0 <= j < |s| ==> !NotHidden(s[j]) || !IsOther(s[j], dbid)
    ensures FindOther(s, dbid).None?
  {
    if s != [] {
      NoOtherNoReassign(s[1..], dbid);
    }
  }

  /** The search stops at the first entry passing both tests. */
  lemma {:induction false} FindOtherFirstPassing(s: seq<ViewerGallery>, dbid: string, k: int)
    requires 0 <= k < |s| && NotHidden(s[k]) && IsOther(s[k], dbid)
    requires forall j :: 0 <= j < k ==> !(NotHidden(s[j]) && IsOther(s[j], dbid))
    ensures FindOther(s, dbid) == Some(s[k])
  {
    if k > 0 {
      FindOtherFirstPassing(s[1..], dbid, k - 1);
    }
  }

  /** An entry with a null gallery stops the search: when it comes before every other visible
      gallery, no later one is chosen and the featured mark is not reassigned. */
  lemma NullGalleryBlocksReassign(viewerGalleries: seq<Option<ViewerGallery>>, dbid: string, k: int)
    requires 0 <= k < |RemoveNulls(viewerGalleries)| && RemoveNulls(viewerGalleries)[k].gallery.None?
    requires forall j :: 0 <= j < k ==> !(NotHidden(RemoveNulls(viewerGalleries)[j]) && IsOther(RemoveNulls(viewerGalleries)[j], dbid))
    ensures ReassignTarget(Some(viewerGalleries), dbid, true).None?
  {
    FindOtherFirstPassing(RemoveNulls(viewerGalleries), dbid, k);
  }

  /** `updateGalleryHidden(dbid, hidden)` as the store sees it. */
  function SetHidden(s: seq<Option<ViewerGallery>>, dbid: string, hidden: bool): (r: seq<Option<ViewerGallery>>)
    ensures |r| == |s|
    ensures forall i :: 0 <= i < |s| ==> r[i] == if s[i].Some? && s[i].value.gallery.Some? && s[i].value.gallery.value.dbid == dbid
                                                 then Some(ViewerGallery(Some(s[i].value.gallery.value.(hidden := Some(hidden)))))
                                                 else s[i]
  {
    seq(|s|, i requires 0 <= i < |s| =>
      if s[i].Some? && s[i].value.gallery.Some? && s[i].value.gallery.value.dbid == dbid
      then Some(ViewerGallery(Some(s[i].value.gallery.value.(hidden := Some(hidden)))))
      else s[i])
  }

  /** The viewer's galleries have distinct ids. */
  ghost predicate DistinctIds(s: seq<Option<ViewerGallery>>)
  {
    forall i, j :: 0 <= i < j < |s| && s[i].Some? && s[i].value.gallery.Some? && s[j].Some? && s[j].value.gallery.Some?
      ==> s[i].value.gallery.value.dbid != s[j].value.gallery.value.dbid
  }

  function Visible(s: seq<Option<ViewerGallery>>): nat
  {
    VisibleCount(RemoveNulls(s))
  }

  lemma {:induction false} VisibleCountIsCount(s: seq<Option<ViewerGallery>>)
    ensures Visible(s) == if s == [] then 0
                          else Visible(s[..|s| - 1]) + (if s[|s| - 1].Some? && IsVisible(s[|s| - 1].value) then 1 else 0)
  {
    if s != [] {
      var init := s[..|s| - 1];
      RemoveNullsPush(init, s[|s| - 1]);
      assert s == init + [s[|s| - 1]];
      if s[|s| - 1].Some? {
        var r := RemoveNulls(s);
        assert r == RemoveNulls(init) + [s[|s| - 1].value];
        assert r[..|r| - 1] == RemoveNulls(init);
        assert r[|r| - 1] == s[|s| - 1].value;
      } else {
        assert RemoveNulls(s) == RemoveNulls(init);
      }
    }
  }

  /** Unhiding never lowers the number of visible galleries. */
  lemma {:induction false} UnhideKeepsVisible(s: seq<Option<ViewerGallery>>, dbid: string)
    ensures Visible(SetHidden(s, dbid, false)) >= Visible(s)
  {
    VisibleCountIsCount(s);
    VisibleCountIsCount(SetHidden(s, dbid, false));
    if s != [] {
      var init := s[..|s| - 1];
      assert SetHidden(s, dbid, false)[..|s| - 1] == SetHidden(init, dbid, false);
      UnhideKeepsVisible(init, dbid);
    }
  }

  /** With distinct ids, hiding one gallery lowers the visible count by at most one; and when the
      gallery is absent from the list, by nothing. */
  lemma {:induction false} HideLosesAtMostOne(s: seq<Option<ViewerGallery>>, dbid: string)
    requires DistinctIds(s)
    ensures Visible(SetHidden(s, dbid, true)) + 1 >= Visible(s)
    ensures (forall i :: 0 <= i < |s| && s[i].Some? && s[i].value.gallery.Some? ==> s[i].value.gallery.value.dbid != dbid)
            ==> Visible(SetHidden(s, dbid, true)) >= Visible(s)
  {
    VisibleCountIsCount(s);
    VisibleCountIsCount(SetHidden(s, dbid, true));
    if s != [] {
      var init := s[..|s| - 1];
      assert SetHidden(s, dbid, true)[..|s| - 1] == SetHidden(init, dbid, true);
      HideLosesAtMostOne(init, dbid);
      var last := s[|s| - 1];
      if last.Some? && last.value.gallery.Some? && last.value.gallery.value.dbid == dbid {
        forall i | 0 <= i < |init| && init[i].Some? && init[i].value.gallery.Some?
          ensures init[i].value.gallery.value.dbid != dbid
        {
          assert s[i] == init[i];
        }
      }
    }
  }

  /** The viewer's galleries as the client store holds them, the featured gallery, and the
      toasts shown so far. */
  class GalleryStore {
    var viewerGalleries: seq<Option<ViewerGallery>>
    var featuredGalleryId: Option<string>
    var toasts: seq<string>

    constructor (viewerGalleries: seq<Option<ViewerGallery>>, featuredGalleryId: Option<string>)
      ensures this.viewerGalleries == viewerGalleries && this.featuredGalleryId == featuredGalleryId
      ensures toasts == []
    {
      this.viewerGalleries := viewerGalleries;
      this.featuredGalleryId := featuredGalleryId;
      toasts := [];
    }

    /** `handleSetFeaturedGallery`: feature this gallery, or toast when the call rejects. */
    method HandleSetFeaturedGallery(dbid: string, featureFails: bool)
      modifies this
      ensures viewerGalleries == old(viewerGalleries)
      ensures featuredGalleryId == if featureFails then old(featuredGalleryId) else Some(dbid)
      ensures toasts == old(toasts) + (if featureFails then [FeatureErrorToast] else [])
    {
      if featureFails {
        toasts := toasts + [FeatureErrorToast];
      } else {
        featuredGalleryId := Some(dbid);
      }
    }

    /** `handleUpdateGalleryHidden` on the card of gallery `dbid`, rendered with `hidden`.
        `reassignFeaturedGallery` reads the list the card was rendered with, not the updated
        one; `featureFails` says whether its `setFeaturedGallery` call rejects. */
    method HandleUpdateGalleryHidden(dbid: string, hidden: bool, isFeatured: bool, featureFails: bool)
      modifies this
      ensures var refused := IsLastVisibleGallery(Some(old(viewerGalleries))) && !hidden;
              var target := ReassignTarget(Some(old(viewerGalleries)), dbid, isFeatured);
              if refused then
                viewerGalleries == old(viewerGalleries) && featuredGalleryId == old(featuredGalleryId)
                && toasts == old(toasts) + [OnlyGalleryToast]
              else
                viewerGalleries == SetHidden(old(viewerGalleries), dbid, !hidden)
                && featuredGalleryId == (if target.Some? && !featureFails then target else old(featuredGalleryId))
                && toasts == old(toasts) + (if target.Some? && featureFails then [FeatureErrorToast] else [])
      ensures DistinctIds(old(viewerGalleries)) && Visible(old(viewerGalleries)) >= 1 ==> Visible(viewerGalleries) >= 1
    {
      var rendered := viewerGalleries;
      var isLastGallery := IsLastVisibleGallery(Some(viewerGalleries));
      if isLastGallery && !hidden {
        toasts := toasts + [OnlyGalleryToast];
        return;
      }
      viewerGalleries := SetHidden(viewerGalleries, dbid, !hidden);
      if hidden {
        UnhideKeepsVisible(rendered, dbid);
      } else if DistinctIds(rendered) {
        HideLosesAtMostOne(rendered, dbid);
      }
      var target := ReassignTarget(Some(rendered), dbid, isFeatured);
      if target.Some? {
        if featureFails {
          toasts := toasts + [FeatureErrorToast];
        } else {
          featuredGalleryId := target;
        }
      }
    }
  }
}
