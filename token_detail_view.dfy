/** `TokenDetailView`: the token detail page — the asset, the collector's note, and the text
    column — with the check of whether the signed-in viewer owns the token. */
module TokenDetailView {
  import opened Common

  /** A JavaScript value read through optional chaining: `undefined`, `null`, or a string. */
  datatype Nullish = Undefined | Null | Val(s: string)

  /** A GraphQL object field: absent object (`null`), or an object whose string field may be
      `null`. */
  datatype User = User(username: Option<string>)
  datatype Viewer = Viewer(typename: string, user: Option<User>)

  /** `x?.username` where `x` may be `null`: `undefined` without the object, `null` for a `null`
      field. */
  function UsernameOf(u: Option<User>): (r: Nullish)
    ensures u.None? <==> r.Undefined?
    ensures u.Some? && u.value.username.None? <==> r.Null?
    ensures r.Val? ==> u == Some(User(Some(r.s)))
  {
    if u.None? then Undefined
    else if u.value.username.None? then Null
    else Val(u.value.username.value)
  }

  /** `authenticatedUserOwnsAsset`: the viewer is a `Viewer` and `===` holds between the two
      usernames. */
  predicate AuthenticatedUserOwnsAsset(viewer: Option<Viewer>, owner: Option<User>)
  {
    viewer.Some? && viewer.value.typename == "Viewer" && UsernameOf(viewer.value.user) == UsernameOf(owner)
  }

  /** With both usernames present, ownership is plain string equality. */
  lemma OwnershipByUsername(viewer: Viewer, viewerName: string, owner: string)
    requires viewer.typename == "Viewer" && viewer.user == Some(User(Some(viewerName)))
    ensures AuthenticatedUserOwnsAsset(Some(viewer), Some(User(Some(owner)))) <==> viewerName == owner
  {
  }

  /** `undefined === undefined`: a viewer without a user "owns" a token without an owner, while
      a `null` username never matches a missing owner. */
  lemma MissingUsersCompareEqual()
    ensures AuthenticatedUserOwnsAsset(Some(Viewer("Viewer", None)), None)
    ensures !AuthenticatedUserOwnsAsset(Some(Viewer("Viewer", Some(User(None)))), None)
    ensures AuthenticatedUserOwnsAsset(Some(Viewer("Viewer", Some(User(None)))), Some(User(None)))
  {
  }

  /** Without a `Viewer` (signed out, or another result type) nobody owns the token. */
  lemma SignedOutNeverOwns(viewer: Option<Viewer>, owner: Option<User>)
    requires viewer.None? || viewer.value.typename != "Viewer"
    ensures !AuthenticatedUserOwnsAsset(viewer, owner)
  {
  }

  /** `LoadableTokenDetailView`'s guard: only a `Token` result is shown. */
  datatype TokenResult = TokenResult(typename: string)

  predicate ShowsTokenDetail(token: Option<TokenResult>)
  {
    token.Some? && token.value.typename == "Token"
  }

  /** The "not found" result and a missing token render nothing. */
  lemma NotFoundRendersNothing()
    ensures !ShowsTokenDetail(None) && !ShowsTokenDetail(Some(TokenResult("ErrTokenNotFound")))
  {
  }

  // ---------------------------------------------------------------------------------------
  // The layout
  // ---------------------------------------------------------------------------------------

  /** A function reference is truthy. */
  const FunctionReferenceIsTruthy: bool := true

  /** The trailing buffer as written: it negates the hook itself, not its result. */
  function TrailingBufferAsWritten(isMobileOrMobileLarge: bool): (r: bool)
    ensures !r
  {
    !FunctionReferenceIsTruthy
  }

  /** The trailing buffer as evidently intended: like the leading one, on wider screens only. */
  function TrailingBuffer(isMobileOrMobileLarge: bool): (r: bool)
    ensures r <==> !isMobileOrMobileLarge
  {
    !isMobileOrMobileLarge
  }

  datatype Layout = Layout(leadingBuffer: bool, hasExtraPaddingForNote: bool, noteViewer: Option<string>,
                           authenticatedUserOwnsAsset: bool, trailingBuffer: bool)

  /** `TokenDetailView` as written: the note viewer for a non-empty note, extra padding when
      there is a note or the viewer owns the token, and a navigation buffer before the content on
      wider screens. The buffer after the content is never rendered, since its condition negates
      the hook itself (`TrailingBufferAsWritten`); `TrailingBuffer` is the intended condition. */
  function LayoutFor(collectorsNote: Option<string>, viewer: Option<Viewer>, owner: Option<User>, isMobileOrMobileLarge: bool): (r: Layout)
    ensures r.noteViewer.Some? <==> Truthy(collectorsNote)
    ensures r.noteViewer.Some? ==> r.noteViewer.value == collectorsNote.value
    ensures r.authenticatedUserOwnsAsset <==> AuthenticatedUserOwnsAsset(viewer, owner)
    ensures r.hasExtraPaddingForNote <==> Truthy(collectorsNote) || r.authenticatedUserOwnsAsset
    ensures r.leadingBuffer <==> !isMobileOrMobileLarge
    ensures !r.trailingBuffer
  {
    var owns := AuthenticatedUserOwnsAsset(viewer, owner);
    Layout(!isMobileOrMobileLarge, Truthy(collectorsNote) || owns,
           if Truthy(collectorsNote) then collectorsNote else None,
           owns, TrailingBufferAsWritten(isMobileOrMobileLarge))
  }

  /** On a wide screen the page as written lacks the trailing buffer that the leading one
      mirrors. */
  lemma TrailingBufferMissingOnDesktop()
    ensures !TrailingBufferAsWritten(false) && TrailingBuffer(false)
  {
  }

  /** On every wide screen the rendered page has the leading buffer but not the trailing one the
      intended condition asks for; on mobile both are absent, as intended. */
  lemma LayoutBuffersDisagreeOnDesktop(collectorsNote: Option<string>, viewer: Option<Viewer>, owner: Option<User>, isMobileOrMobileLarge: bool)
    ensures var l := LayoutFor(collectorsNote, viewer, owner, isMobileOrMobileLarge);
            (l.trailingBuffer == TrailingBuffer(isMobileOrMobileLarge) <==> isMobileOrMobileLarge)
            && (l.leadingBuffer != l.trailingBuffer <==> !isMobileOrMobileLarge)
  {
  }

  /** An owner without a note still gets the padding that makes room for the note editor. */
  lemma OwnerGetsNotePadding(viewer: Option<Viewer>, owner: Option<User>, isMobileOrMobileLarge: bool)
    requires AuthenticatedUserOwnsAsset(viewer, owner)
    ensures var l := LayoutFor(None, viewer, owner, isMobileOrMobileLarge);
            l.hasExtraPaddingForNote && l.noteViewer.None?
  {
  }
}
