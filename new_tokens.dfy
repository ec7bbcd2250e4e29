/** `NewTokens` (mobile): the notification that the viewer minted new tokens, with a preview, a
    "Minted Nx" line, the token name, a Post button and an unseen dot. */
module NewTokens {
  import opened Common

  const InvalidTokenTypes: seq<string> := ["SyncingMedia", "InvalidMedia"]
  const TokenNotFoundError: string := "We couldn't find that token. Something went wrong and we're looking into it."
  const UnknownName: string := "Unknown"

  datatype TokenNode = TokenNode(typename: string, dbid: string, name: Option<string>, mediaTypename: Option<string>)

  datatype Notification = Notification(count: Option<int>, seen: Option<bool>, updatedTime: string, token: Option<TokenNode>)

  /** `notification.count ?? 1` */
  function Quantity(n: Notification): (q: int)
    ensures n.count.None? ==> q == 1
    ensures n.count.Some? ==> q == n.count.value
  {
    GetOr(n.count, 1)
  }

  /** "Minted", followed by " Nx" only for a quantity above one. */
  function MintedLabel(quantity: int): (r: string)
    ensures quantity <= 1 <==> r == "Minted"
    ensures quantity > 1 ==> r == "Minted " + NatToString(quantity) + "x"
  {
    "Minted" + (if quantity > 1 then " " + IntToString(quantity) + "x" else "")
  }

  datatype Preview = TokenPreview(tokenUrl: string, count: int) | Placeholder

  datatype Row = Row(preview: Preview, mintedLabel: string, name: string, timeSince: string, unseenDot: bool)

  /** `NewTokens`: throws when the payload is not a Token, renders nothing for syncing or invalid
      media, and otherwise the row. `smallUrl` is the preview the shared media helper picks and
      `timeSince` the shared time formatter; neither is part of this model. */
  function RenderNewTokens(n: Notification, smallUrl: Option<string>, timeSince: string -> string): (r: Result<Option<Row>>)
    ensures r.Err? <==> !(n.token.Some? && n.token.value.typename == "Token")
    ensures r.Err? ==> r.error == TokenNotFoundError
    ensures r == Ok(None) <==> n.token.Some? && n.token.value.typename == "Token"
                               && GetOr(n.token.value.mediaTypename, "") in InvalidTokenTypes
    ensures r.Ok? && r.value.Some? ==>
              var row := r.value.value;
              (row.preview.TokenPreview? <==> Truthy(smallUrl))
              && (row.preview.TokenPreview? ==> row.preview == TokenPreview(smallUrl.value, Quantity(n)))
              && row.mintedLabel == MintedLabel(Quantity(n))
              && row.name == (if Truthy(n.token.value.name) then n.token.value.name.value else UnknownName)
              && (row.unseenDot <==> n.seen != Some(true))
              && row.timeSince == timeSince(n.updatedTime)
  {
    var quantity := Quantity(n);
    if !(n.token.Some? && n.token.value.typename == "Token") then Err(TokenNotFoundError)
    else
      var token := n.token.value;
      if GetOr(token.mediaTypename, "") in InvalidTokenTypes then Ok(None)
      else
        Ok(Some(Row(if Truthy(smallUrl) then TokenPreview(smallUrl.value, quantity) else Placeholder,
                    MintedLabel(quantity),
                    if Truthy(token.name) then token.name.value else UnknownName,
                    timeSince(n.updatedTime),
                    n.seen != Some(true))))
  }

  /** A token whose media is still syncing, or invalid, renders nothing. */
  lemma SyncingAndInvalidMediaRenderNothing(n: Notification, smallUrl: Option<string>, timeSince: string -> string)
    requires n.token.Some? && n.token.value.typename == "Token"
    requires n.token.value.mediaTypename == Some("SyncingMedia") || n.token.value.mediaTypename == Some("InvalidMedia")
    ensures RenderNewTokens(n, smallUrl, timeSince) == Ok(None)
  {
    assert InvalidTokenTypes[0] == "SyncingMedia" && InvalidTokenTypes[1] == "InvalidMedia";
  }

  datatype Navigation = NavigateToPostComposer(tokenId: string)

  /** `handlePress`: opens the post composer for the token, or does nothing without a dbid. */
  function HandlePress(token: TokenNode): (r: Option<Navigation>)
    ensures r.Some? <==> token.dbid != ""
    ensures r.Some? ==> r.value.tokenId == token.dbid
  {
    if token.dbid == "" then None else Some(NavigateToPostComposer(token.dbid))
  }
}
