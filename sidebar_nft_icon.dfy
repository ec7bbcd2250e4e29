/** `SidebarNftIcon`: a token tile in the editor's pieces sidebar. While the token's media is
    still syncing it polls the backend every 5000 ms; a click on a failed tile refreshes the
    metadata, a click on a healthy tile stages or unstages the token. */
module SidebarNftIcon {
  import opened Common
  import NftFailureFallback

  const PollingIntervalMs: int := 5000
  const SyncingMedia: string := "SyncingMedia"

  /** What one `fetchQuery(...).toPromise()` of the poller gives: the refreshed
      `tokenById?.media?.__typename` (`None` when the token or its media is missing), or a
      rejection. */
  datatype FetchOutcome = Fetched(typename: Option<string>) | Rejected

  predicate StillSyncing(o: FetchOutcome)
  {
    o.Fetched? && o.typename == Some(SyncingMedia)
  }

  /** The calls the poller makes into the outside world, in order. */
  datatype Effect =
    | SetTimeout(ms: int)
    | FetchToken(id: string)
    | ClearFailureState(ids: seq<string>)
    | ClearTimeout

  /** The effects from the moment a pending timer fires, when the fires before unmount see
      `outcomes` in turn: each fire fetches; a syncing answer queues another timer, any other
      answer clears the failure state and stops, a rejection just stops. */
  function Polls(dbid: string, outcomes: seq<FetchOutcome>): seq<Effect>
  {
    if outcomes == [] then []
    else if StillSyncing(outcomes[0]) then [FetchToken(dbid), SetTimeout(PollingIntervalMs)] + Polls(dbid, outcomes[1..])
    else if outcomes[0].Fetched? then [FetchToken(dbid), ClearFailureState([dbid])]
    else [FetchToken(dbid)]
  }

  /** Everything `pollTokenWhileStillSyncing` does from mount to unmount. */
  function PollTrace(dbid: string, mediaTypename: Option<string>, outcomes: seq<FetchOutcome>): seq<Effect>
  {
    if mediaTypename != Some(SyncingMedia) then []
    else [SetTimeout(PollingIntervalMs)] + Polls(dbid, outcomes) + [ClearTimeout]
  }

  /** The effect: `outcomes` are the answers to the timer fires that happen before the component
      unmounts; the cleanup then cancels whatever timer is pending. */
  method PollTokenWhileStillSyncing(dbid: string, mediaTypename: Option<string>, outcomes: seq<FetchOutcome>)
    returns (trace: seq<Effect>)
    ensures trace == PollTrace(dbid, mediaTypename, outcomes)
  {
    trace := [];
    if mediaTypename != Some(SyncingMedia) {
      return;
    }
    trace := [SetTimeout(PollingIntervalMs)];
    var pending := true;
    var i := 0;
    while pending && i < |outcomes|
      invariant 0 <= i <= |outcomes|
      invariant pending ==> [SetTimeout(PollingIntervalMs)] + Polls(dbid, outcomes) == trace + Polls(dbid, outcomes[i..])
      invariant !pending ==> trace == [SetTimeout(PollingIntervalMs)] + Polls(dbid, outcomes)
    {
      trace := trace + [FetchToken(dbid)];
      var outcome := outcomes[i];
      match outcome {
        case Rejected =>
          pending := false;
        case Fetched(typename) =>
          if typename == Some(SyncingMedia) {
            trace := trace + [SetTimeout(PollingIntervalMs)];
          } else {
            trace := trace + [ClearFailureState([dbid])];
            pending := false;
          }
      }
      assert outcomes[i..][1..] == outcomes[i + 1..];
      i := i + 1;
    }
    if pending {
      assert outcomes[i..] == [];
    }
    trace := trace + [ClearTimeout];
  }

  // ---------------------------------------------------------------------------------------
  // What the poller promises
  // ---------------------------------------------------------------------------------------

  /** The number of leading fetches that still answer `SyncingMedia`. */
  function LeadingSyncing(outcomes: seq<FetchOutcome>): (n: nat)
    ensures n <= |outcomes|
    ensures forall i :: 0 <= i < n ==> StillSyncing(outcomes[i])
    ensures n < |outcomes| ==> !StillSyncing(outcomes[n])
  {
    if outcomes == [] || !StillSyncing(outcomes[0]) then 0 else 1 + LeadingSyncing(outcomes[1..])
  }

  function Fetches(trace: seq<Effect>): nat
  {
    if trace == [] then 0 else (if trace[0].FetchToken? then 1 else 0) + Fetches(trace[1..])
  }

  function Clears(trace: seq<Effect>): seq<seq<string>>
  {
    if trace == [] then []
    else (if trace[0].ClearFailureState? then [trace[0].ids] else []) + Clears(trace[1..])
  }

  lemma {:induction false} FetchesAppend(a: seq<Effect>, b: seq<Effect>)
    ensures Fetches(a + b) == Fetches(a) + Fetches(b)
  {
    if a == [] {
      assert a + b == b;
    } else {
      assert (a + b)[1..] == a[1..] + b;
      FetchesAppend(a[1..], b);
    }
  }

  lemma {:induction false} ClearsAppend(a: seq<Effect>, b: seq<Effect>)
    ensures Clears(a + b) == Clears(a) + Clears(b)
  {
    if a == [] {
      assert a + b == b;
    } else {
      assert (a + b)[1..] == a[1..] + b;
      ClearsAppend(a[1..], b);
    }
  }

  /** Polling goes on exactly while the answers say `SyncingMedia`: one fetch per syncing answer,
      plus the terminal one when it came before unmount. There is no cap. */
  lemma {:induction false} PollFetchCount(dbid: string, outcomes: seq<FetchOutcome>)
    ensures Fetches(Polls(dbid, outcomes))
         == if LeadingSyncing(outcomes) < |outcomes| then LeadingSyncing(outcomes) + 1 else |outcomes|
  {
    if outcomes != [] {
      if StillSyncing(outcomes[0]) {
        PollFetchCount(dbid, outcomes[1..]);
        FetchesAppend([FetchToken(dbid), SetTimeout(PollingIntervalMs)], Polls(dbid, outcomes[1..]));
        assert [FetchToken(dbid), SetTimeout(PollingIntervalMs)][1..] == [SetTimeout(PollingIntervalMs)];
      } else if outcomes[0].Fetched? {
        var t := [FetchToken(dbid), ClearFailureState([dbid])];
        assert t[1..] == [ClearFailureState([dbid])] && t[1..][1..] == [];
        assert Fetches(t[1..][1..]) == 0;
        assert Fetches(t[1..]) == 0;
      } else {
        assert [FetchToken(dbid)][1..] == [];
      }
    }
  }

  /** `clearTokenFailureState` is called at most once, with this token's id only, and only when
      the terminal answer was a fetched token; a rejected fetch clears nothing. */
  lemma {:induction false} PollClearsOnce(dbid: string, outcomes: seq<FetchOutcome>)
    ensures var n := LeadingSyncing(outcomes);
            Clears(Polls(dbid, outcomes))
            == if n < |outcomes| && outcomes[n].Fetched? then [[dbid]] else []
  {
    if outcomes != [] {
      if StillSyncing(outcomes[0]) {
        PollClearsOnce(dbid, outcomes[1..]);
        ClearsAppend([FetchToken(dbid), SetTimeout(PollingIntervalMs)], Polls(dbid, outcomes[1..]));
        assert [FetchToken(dbid), SetTimeout(PollingIntervalMs)][1..] == [SetTimeout(PollingIntervalMs)];
      } else if outcomes[0].Fetched? {
        var t := [FetchToken(dbid), ClearFailureState([dbid])];
        assert t[1..] == [ClearFailureState([dbid])] && t[1..][1..] == [];
        assert Clears(t[1..][1..]) == [];
        assert Clears(t[1..]) == [[dbid]] + [];
      } else {
        assert [FetchToken(dbid)][1..] == [];
      }
    }
  }

  /** Every timer the poller queues waits the fixed 5000 ms. */
  lemma {:induction false} PollIntervalIsFixed(dbid: string, outcomes: seq<FetchOutcome>, k: int)
    requires 0 <= k < |Polls(dbid, outcomes)| && Polls(dbid, outcomes)[k].SetTimeout?
    ensures Polls(dbid, outcomes)[k].ms == PollingIntervalMs
  {
    if k >= 2 && StillSyncing(outcomes[0]) {
      PollIntervalIsFixed(dbid, outcomes[1..], k - 2);
    }
  }

  /** A media type other than `SyncingMedia` starts no poller, and so installs no cleanup. */
  lemma NoPollUnlessSyncing(dbid: string, mediaTypename: Option<string>, outcomes: seq<FetchOutcome>)
    requires mediaTypename != Some(SyncingMedia)
    ensures PollTrace(dbid, mediaTypename, outcomes) == []
  {
  }

  /** A syncing token's poller ends with the cleanup's `clearTimeout`, and never fetches more
      often than the timer fired before unmount. */
  lemma PollEndsWithCleanup(dbid: string, outcomes: seq<FetchOutcome>)
    ensures var t := PollTrace(dbid, Some(SyncingMedia), outcomes);
            |t| >= 2 && t[0] == SetTimeout(PollingIntervalMs) && t[|t| - 1] == ClearTimeout
            && Fetches(t) <= |outcomes|
  {
    var t := PollTrace(dbid, Some(SyncingMedia), outcomes);
    PollFetchCount(dbid, outcomes);
    FetchesAppend([SetTimeout(PollingIntervalMs)], Polls(dbid, outcomes));
    FetchesAppend([SetTimeout(PollingIntervalMs)] + Polls(dbid, outcomes), [ClearTimeout]);
  }

  // ---------------------------------------------------------------------------------------
  // Click and render
  // ---------------------------------------------------------------------------------------

  datatype ClickEffect = RefreshMetadata | ToggleTokenStaged(id: string)

  /** `handleClick`: a failed tile refreshes its metadata instead of being staged. */
  function HandleClick(isFailed: bool, dbid: string): (r: ClickEffect)
    ensures r == RefreshMetadata <==> isFailed
    ensures !isFailed ==> r == ToggleTokenStaged(dbid)
  {
    if isFailed then RefreshMetadata else ToggleTokenStaged(dbid)
  }

  /** What the tile renders: the loading placeholder, or the failure boundary whose fallback is
      a tiny `NftFailureFallback` and whose content is outlined when the token is staged. */
  datatype IconView =
    | LoadingPlaceholder
    | Boundary(retryKey: int, fallbackSize: NftFailureFallback.Size, isSelected: bool)

  function RenderIcon(dbid: string, mediaTypename: Option<string>, stagedTokenIds: set<string>, retryKey: int): (v: IconView)
    ensures v.LoadingPlaceholder? <==> mediaTypename == Some(SyncingMedia)
    ensures v.Boundary? ==> v.retryKey == retryKey && v.fallbackSize == NftFailureFallback.Tiny
    ensures v.Boundary? ==> (v.isSelected <==> dbid in stagedTokenIds)
  {
    if mediaTypename == Some(SyncingMedia) then LoadingPlaceholder
    else Boundary(retryKey, NftFailureFallback.Tiny, dbid in stagedTokenIds)
  }

  /** The tiny fallback inside the sidebar tile packs label and button with no gap. */
  lemma SidebarFallbackHasNoGap(dbid: string, mediaTypename: Option<string>, staged: set<string>, retryKey: int)
    requires mediaTypename != Some(SyncingMedia)
    ensures NftFailureFallback.Gap(RenderIcon(dbid, mediaTypename, staged, retryKey).fallbackSize) == 0
  {
  }
}
