/** `GalleryProfileNavBar` (mobile): the bar above a profile, gallery or collection screen, with
    share, settings, and either the owner's QR code or the Follow button. */
module GalleryProfileNavBar {
  import opened Common

  const SiteRoot: string := "https://gallery.so/"

  datatype ScreenName = Profile | GalleryScreen | CollectionScreen

  /** One route param as `in` sees it: the key is absent, or present with a value that may be
      `undefined` (`None`). */
  datatype Param = Absent | Present(value: Option<string>)

  /** What a template literal prints for a present param: `undefined` prints as "undefined". */
  function ParamText(p: Param): (r: string)
    requires p.Present?
    ensures p.value.Some? ==> r == p.value.value
    ensures p.value.None? ==> r == "undefined"
  {
    match p.value
    case Some(v) => v
    case None => "undefined"
  }

  datatype RouteParams = RouteParams(galleryId: Param, collectionId: Param)

  datatype ShareCall = Share(url: string)

  /** `handleShare`: one share call per press. The tests are `'galleryId' in params` and
      `'collectionId' in params`, so a key holding `undefined` passes them. `username` is printed
      by a template literal, so a `null` one reads "null". */
  function HandleShare(screen: ScreenName, params: RouteParams, username: Option<string>): (r: seq<ShareCall>)
    ensures |r| == 1
    ensures screen == GalleryScreen && params.galleryId.Present? ==>
              r[0].url == SiteRoot + Template(username) + "/galleries/" + ParamText(params.galleryId)
    ensures screen == CollectionScreen && params.collectionId.Present? ==>
              r[0].url == SiteRoot + Template(username) + "/" + ParamText(params.collectionId)
    ensures !(screen == GalleryScreen && params.galleryId.Present?) && !(screen == CollectionScreen && params.collectionId.Present?) ==>
              r[0].url == SiteRoot + Template(username)
  {
    if screen == GalleryScreen && params.galleryId.Present? then
      [Share(SiteRoot + Template(username) + "/galleries/" + ParamText(params.galleryId))]
    else if screen == CollectionScreen && params.collectionId.Present? then
      [Share(SiteRoot + Template(username) + "/" + ParamText(params.collectionId))]
    else [Share(SiteRoot + Template(username))]
  }

  /** Every shared URL is on the site and starts with the user's path. */
  lemma ShareUrlStartsWithProfile(screen: ScreenName, params: RouteParams, username: Option<string>)
    ensures var profile := SiteRoot + Template(username);
            profile <= HandleShare(screen, params, username)[0].url
  {
    var profile := SiteRoot + Template(username);
    var url := HandleShare(screen, params, username)[0].url;
    if screen == GalleryScreen && params.galleryId.Present? {
      assert url == profile + ("/galleries/" + ParamText(params.galleryId));
    } else if screen == CollectionScreen && params.collectionId.Present? {
      assert url == profile + ("/" + ParamText(params.collectionId));
    }
  }

  datatype Navigation = ProfileQRCode(username: string)

  /** `handleQrCode`: navigates only for a non-empty username. */
  function HandleQrCode(username: Option<string>): (r: Option<Navigation>)
    ensures r.Some? <==> Truthy(username)
    ensures r.Some? ==> r.value == ProfileQRCode(username.value)
  {
    if Truthy(username) then Some(ProfileQRCode(username.value)) else None
  }

  /** `loggedInUserId === user.id` */
  predicate IsLoggedInUser(loggedInUserId: Option<string>, userId: string)
  {
    loggedInUserId == Some(userId)
  }

  datatype Icons = Icons(qrCode: bool, share: bool, settings: bool, follow: bool)

  function IconsFor(loggedInUserId: Option<string>, userId: string): (r: Icons)
    ensures r.qrCode <==> IsLoggedInUser(loggedInUserId, userId)
    ensures r.follow <==> !r.qrCode
    ensures r.share && r.settings
    ensures loggedInUserId.None? ==> r.follow
  {
    var own := IsLoggedInUser(loggedInUserId, userId);
    Icons(own, true, true, !own)
  }
}
