/** `UniversalNftPreviewContextMenuPopup` (mobile): the long-press menu of a token preview, with a
    custom preview of the token and two actions, "View Details" and "Share". */
module ContextMenuPopup {
  import opened Common

  const ViewDetailsKey: string := "view-details"
  const ShareKey: string := "share"
  const WidthMargin: int := 40
  const HeightReserve: int := 400
  const EnabledArtist: bool := false
  const MissingTokenUrlError: string := "NftPreviewContextMenu shown without a tokenUrl. This shouldn't happen."

  /** `token.media?.previewURLs?.large ?? fallbackTokenUrl`: only a missing large preview falls
      back, an empty one is kept. */
  function TokenUrl(large: Option<string>, fallbackTokenUrl: Option<string>): (r: Option<string>)
    ensures large.Some? ==> r == large
    ensures large.None? ==> r == fallbackTokenUrl
  {
    if large.Some? then large else fallbackTokenUrl
  }

  /** The preview sizes the shared media helper picks (that helper is not part of this model). */
  datatype PreviewUrls = PreviewUrls(medium: Option<string>, small: Option<string>)

  /** `media?.urls.medium || media?.urls.small || null`: empty strings are skipped. */
  function CachedPreviewAssetUrl(media: Option<PreviewUrls>): (r: Option<string>)
    ensures r.Some? ==> r.value != ""
    ensures media.Some? && Truthy(media.value.medium) ==> r == media.value.medium
    ensures media.Some? && !Truthy(media.value.medium) && Truthy(media.value.small) ==> r == media.value.small
    ensures r.None? <==> media.None? || (!Truthy(media.value.medium) && !Truthy(media.value.small))
  {
    if media.None? then None
    else if Truthy(media.value.medium) then media.value.medium
    else if Truthy(media.value.small) then media.value.small
    else None
  }

  /** `isContextMenuEnabled={Boolean(tokenUrl)}` */
  predicate IsContextMenuEnabled(tokenUrl: Option<string>)
  {
    Truthy(tokenUrl)
  }

  /** An empty large preview disables the menu even when a fallback exists. */
  lemma EmptyLargePreviewDisablesMenu(fallbackTokenUrl: Option<string>)
    ensures !IsContextMenuEnabled(TokenUrl(Some(""), fallbackTokenUrl))
  {
  }

  datatype Dimensions = Dimensions(width: int, height: int)

  /** The container and the source handed to the cover-fit helper (not part of this model). */
  datatype PreviewFrame = PreviewFrame(container: Dimensions, source: Dimensions)

  /** `renderPreview`'s sizes: it throws without a token URL; the container is the window width
      less 40 by the window height less 400 (never negative); missing image dimensions become a
      square of the container width. */
  function RenderPreviewFrame(tokenUrl: Option<string>, window: Dimensions, imageDimensions: Option<Dimensions>): (r: Result<PreviewFrame>)
    ensures r.Err? <==> !Truthy(tokenUrl)
    ensures r.Err? ==> r.error == MissingTokenUrlError
    ensures r.Ok? ==> r.value.container.width == window.width - WidthMargin
                      && r.value.container.height >= 0
                      && r.value.container.height >= window.height - HeightReserve
                      && (r.value.container.height == 0 || r.value.container.height == window.height - HeightReserve)
    ensures r.Ok? && imageDimensions.None? ==>
              r.value.source == Dimensions(r.value.container.width, r.value.container.width)
    ensures r.Ok? && imageDimensions.Some? ==> r.value.source == imageDimensions.value
  {
    if !Truthy(tokenUrl) then Err(MissingTokenUrlError)
    else
      var maxWidth := window.width - WidthMargin;
      var maxHeight := if window.height - HeightReserve > 0 then window.height - HeightReserve else 0;
      Ok(PreviewFrame(Dimensions(maxWidth, maxHeight), GetOr(imageDimensions, Dimensions(maxWidth, maxWidth))))
  }

  /** The caption under the preview: the token name and the contract name when each is
      non-empty; the artist line is switched off. */
  datatype Caption = Caption(name: Option<string>, contractName: Option<string>, artist: Option<string>)

  function CaptionFor(name: Option<string>, contractName: Option<string>): (r: Caption)
    ensures r.name.Some? <==> Truthy(name)
    ensures r.name.Some? ==> r.name == name
    ensures r.contractName.Some? <==> Truthy(contractName)
    ensures r.contractName.Some? ==> r.contractName == contractName
    ensures r.artist.None?
  {
    Caption(if Truthy(name) then name else None,
            if Truthy(contractName) then contractName else None,
            if EnabledArtist then Some(" by riley.eth") else None)
  }

  datatype MenuAction =
    | NavigateToDetail(cachedPreviewAssetUrl: Option<string>, tokenId: string)
    | ShareToken
    | DoNothing

  /** `handleMenuItemPress` */
  function HandleMenuItemPress(actionKey: string, cachedPreviewAssetUrl: Option<string>, dbid: string): (r: MenuAction)
    ensures r.NavigateToDetail? <==> actionKey == ViewDetailsKey
    ensures r.NavigateToDetail? ==> r.cachedPreviewAssetUrl == cachedPreviewAssetUrl && r.tokenId == dbid
    ensures r.ShareToken? <==> actionKey == ShareKey
    ensures r.DoNothing? <==> actionKey != ViewDetailsKey && actionKey != ShareKey
  {
    if actionKey == ViewDetailsKey then NavigateToDetail(cachedPreviewAssetUrl, dbid)
    else if actionKey == ShareKey then ShareToken
    else DoNothing
  }

  /** The popup's asset: a skeleton covers it until it reports that it loaded. */
  class PopupAsset {
    var popupAssetLoaded: bool

    constructor ()
      ensures !popupAssetLoaded
    {
      popupAssetLoaded := false;
    }

    predicate ShowsSkeleton()
      reads this
    {
      !popupAssetLoaded
    }

    /** `handlePopupAssetLoad`: the flag only ever becomes true. */
    method HandlePopupAssetLoad()
      modifies this
      ensures popupAssetLoaded && !ShowsSkeleton()
      ensures old(popupAssetLoaded) ==> popupAssetLoaded
    {
      popupAssetLoaded := true;
    }
  }
}
