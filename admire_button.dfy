/** `AdmireButton`: the admire icon of a feed event or post. A click admires, removes the viewer's
    admire, or asks a signed-out visitor to sign in. */
module AdmireButton {
  import opened Common

  datatype ViewerAdmire = ViewerAdmire(dbid: Option<string>)

  datatype FeedItem = FeedItem(typename: string, id: string, dbid: string, viewerAdmire: Option<ViewerAdmire>)

  /** The callbacks and modal a click can lead to. */
  datatype Effect =
    | RemoveAdmire(feedItemId: string, feedItemDbid: string, viewerAdmireDbid: string)
    | ShowSignInModal(headerText: string)
    | TrackAdmireClick
    | CallOnAdmire

  predicate IsAdmirable(item: FeedItem)
  {
    item.typename == "FeedEvent" || item.typename == "Post"
  }

  /** `hasViewerAdmiredEvent`, which is also the icon's `active` state. */
  predicate HasViewerAdmired(item: FeedItem)
  {
    item.viewerAdmire.Some?
  }

  /** A click on the icon: the component throws for any typename but `FeedEvent` and `Post`;
      otherwise the effects, in order. */
  function Click(item: FeedItem, viewerTypename: Option<string>): (r: Result<seq<Effect>>)
    ensures r.Err? <==> !IsAdmirable(item)
    ensures r.Err? ==> r.error == "Unexpected typename: " + item.typename
    ensures r.Ok? && HasViewerAdmired(item) ==>
              CallOnAdmire !in r.value
              && (r.value == [] <==> !Truthy(item.viewerAdmire.value.dbid))
              && (r.value != [] ==> r.value == [RemoveAdmire(item.id, item.dbid, item.viewerAdmire.value.dbid.value)])
    ensures r.Ok? && !HasViewerAdmired(item) && viewerTypename != Some("Viewer") ==>
              r.value == [ShowSignInModal("Sign In")]
    ensures r.Ok? && !HasViewerAdmired(item) && viewerTypename == Some("Viewer") ==>
              r.value == [TrackAdmireClick, CallOnAdmire]
  {
    if !IsAdmirable(item) then Err("Unexpected typename: " + item.typename)
    else if HasViewerAdmired(item) then
      if !Truthy(item.viewerAdmire.value.dbid) then Ok([])
      else Ok([RemoveAdmire(item.id, item.dbid, item.viewerAdmire.value.dbid.value)])
    else if viewerTypename != Some("Viewer") then Ok([ShowSignInModal("Sign In")])
    else Ok([TrackAdmireClick, CallOnAdmire])
  }

  function AdmireCalls(effects: seq<Effect>): nat
  {
    if effects == [] then 0 else (if effects[0] == CallOnAdmire then 1 else 0) + AdmireCalls(effects[1..])
  }

  /** `onAdmire` is called once exactly when a signed-in viewer clicks an item not yet admired,
      and never otherwise. */
  lemma OnAdmireCalledOnceIff(item: FeedItem, viewerTypename: Option<string>)
    requires IsAdmirable(item)
    ensures AdmireCalls(Click(item, viewerTypename).value) == if !HasViewerAdmired(item) && viewerTypename == Some("Viewer") then 1 else 0
  {
    var e := Click(item, viewerTypename).value;
    if e != [] {
      assert e[1..] == [] || e[1..] == [CallOnAdmire];
      if e[1..] != [] {
        assert e[1..][1..] == [];
      }
    }
  }
}
