/** `NftDetailText`: the text column of a token page — name, contract pill, owner, description, the
    POAP links, the "Create Post" button and the details toggle — and the marketplace URL sent with
    its analytics events. */
module NftDetailText {
  import opened Common
  import OpenseaUrl

  const PoapChain: string := "POAP"
  const PoapEventPrefix: string := "https://poap.gallery/event/"
  const ShowBuyNowButton: bool := false

  // ---------------------------------------------------------------------------------------
  // The marketplace URL
  // ---------------------------------------------------------------------------------------

  /** The three fields are all non-empty. */
  predicate HasOpenseaFields(chain: Option<string>, contractAddress: Option<string>, tokenId: Option<string>)
  {
    Truthy(chain) && Truthy(contractAddress) && Truthy(tokenId)
  }

  /** `openseaExternalUrl` as written: the URL is computed (and may throw) but its value is
      dropped, so the memo is always `''`. */
  function OpenseaExternalUrlAsWritten(chain: Option<string>, contractAddress: Option<string>, tokenId: Option<string>): (r: Result<string>)
    ensures r.Ok? ==> r.value == ""
    ensures r.Err? <==> HasOpenseaFields(chain, contractAddress, tokenId)
                        && OpenseaUrl.OpenseaExternalUrl(chain.value, contractAddress.value, tokenId.value).Err?
  {
    if HasOpenseaFields(chain, contractAddress, tokenId) then
      match OpenseaUrl.OpenseaExternalUrl(chain.value, contractAddress.value, tokenId.value)
      case Err(e) => Err(e)
      case Ok(_) => Ok("")
    else Ok("")
  }

  /** `openseaExternalUrl` as evidently intended: the computed URL when the fields are present,
      `''` otherwise. */
  function OpenseaExternalUrl(chain: Option<string>, contractAddress: Option<string>, tokenId: Option<string>): (r: Result<string>)
    ensures !HasOpenseaFields(chain, contractAddress, tokenId) ==> r == Ok("")
    ensures HasOpenseaFields(chain, contractAddress, tokenId) ==>
              r == OpenseaUrl.OpenseaExternalUrl(chain.value, contractAddress.value, tokenId.value)
    ensures HasOpenseaFields(chain, contractAddress, tokenId) && r.Ok? ==>
              r.value[..|OpenseaUrl.OpenseaAssetsPrefix|] == OpenseaUrl.OpenseaAssetsPrefix
  {
    if HasOpenseaFields(chain, contractAddress, tokenId) then
      OpenseaUrl.OpenseaExternalUrl(chain.value, contractAddress.value, tokenId.value)
    else Ok("")
  }

  /** The two agree on when they throw and differ exactly where a URL was computed. */
  lemma AsWrittenDropsTheUrl(chain: Option<string>, contractAddress: Option<string>, tokenId: Option<string>)
    ensures OpenseaExternalUrlAsWritten(chain, contractAddress, tokenId).Err?
            <==> OpenseaExternalUrl(chain, contractAddress, tokenId).Err?
    ensures OpenseaExternalUrl(chain, contractAddress, tokenId).Ok? && HasOpenseaFields(chain, contractAddress, tokenId)
            ==> OpenseaExternalUrl(chain, contractAddress, tokenId).value != OpenseaExternalUrlAsWritten(chain, contractAddress, tokenId).value
  {
    if HasOpenseaFields(chain, contractAddress, tokenId) {
      var u := OpenseaUrl.OpenseaExternalUrl(chain.value, contractAddress.value, tokenId.value);
      if u.Ok? {
        assert |u.value| >= |OpenseaUrl.OpenseaAssetsPrefix|;
      }
    }
  }

  /** A token on Ethereum with id `"1"`: the marketplace link is lost. */
  lemma OpenseaUrlLostExample()
    ensures OpenseaExternalUrlAsWritten(Some("Ethereum"), Some("0xabc"), Some("1")) == Ok("")
    ensures OpenseaExternalUrl(Some("Ethereum"), Some("0xabc"), Some("1")).Ok?
    ensures OpenseaExternalUrl(Some("Ethereum"), Some("0xabc"), Some("1")).value != ""
  {
    OpenseaUrl.HexHandlerOfHex("01");
    assert OpenseaUrl.Padded("1") == "01";
    assert OpenseaUrl.IsHexString(OpenseaUrl.TrimEnd("01"));
  }

  /** The payload of the collector-name, creator-name and buy-now analytics events. */
  datatype TrackPayload = TrackPayload(username: Option<string>, contractAddress: Option<string>,
                                       tokenId: Option<string>, externalUrl: string)

  function TrackPayloadFor(ownerUsername: Option<string>, contractAddress: Option<string>, tokenId: Option<string>, openseaExternalUrl: string): (r: TrackPayload)
    ensures r.username.Some? <==> Truthy(ownerUsername)
    ensures r.username.Some? ==> r.username.value == AsciiLower(ownerUsername.value)
    ensures r.contractAddress == contractAddress && r.tokenId == tokenId && r.externalUrl == openseaExternalUrl
  {
    TrackPayload(if Truthy(ownerUsername) then Some(AsciiLower(ownerUsername.value)) else None,
                 contractAddress, tokenId, openseaExternalUrl)
  }

  // ---------------------------------------------------------------------------------------
  // POAP links from the token metadata
  // ---------------------------------------------------------------------------------------

  /** A value of the parsed metadata object. `Composite` stands for arrays and objects, with the
      text a template literal gives for it. */
  datatype MetaValue = MString(s: string) | MNumber(n: int) | MBool(b: bool) | MNull | Composite(text: string)

  predicate MetaTruthy(v: Option<MetaValue>)
  {
    match v
    case None => false
    case Some(MString(s)) => s != ""
    case Some(MNumber(n)) => n != 0
    case Some(MBool(b)) => b
    case Some(MNull) => false
    case Some(Composite(_)) => true
  }

  /** `${value}` */
  function MetaText(v: MetaValue): string
  {
    match v
    case MString(s) => s
    case MNumber(n) => IntToString(n)
    case MBool(b) => if b then "true" else "false"
    case MNull => "null"
    case Composite(text) => text
  }

  /** `JSON.parse(token.tokenMetadata ?? '{}') ?? {}`. The JSON parser is not part of this model:
      `parse` gives the object's fields, `Ok(None)` for a document that is `null` or not an
      object (no field is then found), and `Err` where `JSON.parse` throws. */
  function Metadata(tokenMetadata: Option<string>, parse: string -> Result<Option<map<string, MetaValue>>>): (r: Result<map<string, MetaValue>>)
    ensures tokenMetadata.None? ==> r == Ok(map[])
    ensures tokenMetadata.Some? ==> (r.Err? <==> parse(tokenMetadata.value).Err?)
    ensures tokenMetadata.Some? && parse(tokenMetadata.value) == Ok(None) ==> r == Ok(map[])
  {
    if tokenMetadata.None? then Ok(map[])
    else
      match parse(tokenMetadata.value)
      case Err(e) => Err(e)
      case Ok(None) => Ok(map[])
      case Ok(Some(fields)) => Ok(fields)
  }

  function Field(metadata: map<string, MetaValue>, key: string): Option<MetaValue>
  {
    if key in metadata then Some(metadata[key]) else None
  }

  /** `poapMoreInfoUrl`: `metadata.event_url` on the POAP chain, `null` elsewhere. */
  function PoapMoreInfoUrl(chain: Option<string>, metadata: map<string, MetaValue>): (r: Option<MetaValue>)
    ensures chain != Some(PoapChain) ==> r.None?
    ensures chain == Some(PoapChain) ==> r == Field(metadata, "event_url")
  {
    if chain == Some(PoapChain) then Field(metadata, "event_url") else None
  }

  /** `poapUrl`: the event page whenever `event_id` is truthy, on any chain. */
  function PoapUrl(metadata: map<string, MetaValue>): (r: Option<string>)
    ensures r.Some? <==> MetaTruthy(Field(metadata, "event_id"))
    ensures r.Some? ==> r.value == PoapEventPrefix + MetaText(metadata["event_id"])
  {
    if MetaTruthy(Field(metadata, "event_id")) then Some(PoapEventPrefix + MetaText(metadata["event_id"])) else None
  }

  datatype PoapLinks = PoapLinks(moreInfo: Option<MetaValue>, viewOnPoap: Option<string>)

  /** The POAP block: shown when either link is truthy, with each link shown when it is. */
  function PoapLinksFor(chain: Option<string>, metadata: map<string, MetaValue>): (r: Option<PoapLinks>)
    ensures r.Some? <==> MetaTruthy(PoapMoreInfoUrl(chain, metadata)) || PoapUrl(metadata).Some?
    ensures r.Some? ==> (r.value.moreInfo.Some? <==> MetaTruthy(PoapMoreInfoUrl(chain, metadata)))
                        && (r.value.viewOnPoap == PoapUrl(metadata))
  {
    var moreInfo := PoapMoreInfoUrl(chain, metadata);
    var poap := PoapUrl(metadata);
    if MetaTruthy(moreInfo) || poap.Some? then
      Some(PoapLinks(if MetaTruthy(moreInfo) then moreInfo else None, poap))
    else None
  }

  /** Without metadata there are no POAP links, whatever the chain. */
  lemma NoMetadataNoPoapLinks(chain: Option<string>, parse: string -> Result<Option<map<string, MetaValue>>>)
    ensures Metadata(None, parse) == Ok(map[])
    ensures PoapLinksFor(chain, Metadata(None, parse).value).None?
  {
  }

  /** Whatever the chain, a truthy `event_id` gives a POAP block with the event-page link. */
  lemma EventIdLinksOnAnyChain(chain: Option<string>, metadata: map<string, MetaValue>)
    requires MetaTruthy(Field(metadata, "event_id"))
    ensures PoapLinksFor(chain, metadata).Some?
    ensures PoapLinksFor(chain, metadata).value.viewOnPoap == Some(PoapEventPrefix + MetaText(metadata["event_id"]))
  {
  }

  // ---------------------------------------------------------------------------------------
  // What is shown
  // ---------------------------------------------------------------------------------------

  datatype ContractPill =
    | ClickablePill(to: string, showsPoapLogo: bool, badgeUrl: Option<string>, contractName: string)
    | NonclickablePill(name: Option<string>)

  /** The contract pill: clickable iff both the community URL and the contract name are
      non-empty. `communityUrl` comes from a helper that is not part of this model. */
  function ContractPillFor(communityUrl: Option<string>, contractName: Option<string>, chain: Option<string>, badgeUrl: Option<string>): (r: ContractPill)
    ensures r.ClickablePill? <==> Truthy(communityUrl) && Truthy(contractName)
    ensures r.ClickablePill? ==> r.to == communityUrl.value && r.contractName == contractName.value
                                 && (r.showsPoapLogo <==> chain == Some(PoapChain))
                                 && (r.badgeUrl.Some? <==> Truthy(badgeUrl))
    ensures r.NonclickablePill? ==> r.name == contractName
  {
    if Truthy(communityUrl) && Truthy(contractName) then
      ClickablePill(communityUrl.value, chain == Some(PoapChain), if Truthy(badgeUrl) then badgeUrl else None, contractName.value)
    else NonclickablePill(contractName)
  }

  /** The title: the unescaped name, shown only for a non-empty name. */
  function TitleFor(name: Option<string>, unescape: string -> string): (r: Option<string>)
    ensures r.Some? <==> Truthy(name)
    ensures r.Some? ==> r.value == unescape(name.value)
  {
    if Truthy(name) then Some(unescape(name.value)) else None
  }

  /** The "Create Post" button. */
  predicate ShowsCreatePost(isKoalaEnabled: bool, authenticatedUserOwnsAsset: bool)
  {
    isKoalaEnabled && authenticatedUserOwnsAsset
  }

  /** The details toggle and the block it opens. */
  class DetailsToggle {
    var showDetails: bool

    constructor ()
      ensures !showDetails
    {
      showDetails := false;
    }

    /** Exactly one of the two buttons is rendered. */
    function ToggleLabel(): (r: string)
      reads this
      ensures r == "Show Details" <==> !showDetails
      ensures r == "Hide Details" <==> showDetails
    {
      if showDetails then "Hide Details" else "Show Details"
    }

    /** The additional details (and, were it enabled, the buy-now link) are shown. */
    predicate ShowsDetailsBlock()
      reads this
    {
      showDetails || ShowBuyNowButton
    }

    /** `handleToggleClick` */
    method HandleToggleClick()
      modifies this
      ensures showDetails == !old(showDetails)
    {
      showDetails := !showDetails;
    }
  }
}
