# Gallery client core, modelled in Dafny

This project models the logic in the gallery web and mobile clients that can be written down and proved. These clients show NFT galleries, collections and feeds. The logic covered is:

- token-ID and marketplace URL arithmetic;
- the list transforms the screens perform: contract bucketing, row chunking, "A, B and N others" lists, visibility filters, comment and feed edge filters with in-place reversal, pagination row counts, and the announcement filter/sort/count;
- the small state machines around media failure and retry: the syncing poller, the failure fallback tooltip, and the collector's-note editor;
- the decision rules components use to choose what to render or dispatch: the gallery hide/feature guard, preview padding, ownership and note visibility, admire dispatch, share URLs, media URL fallbacks, and onboarding steps.

Each source file becomes one module. `common.dfy` holds what several modules share:

- `Option`/`Result`;
- JavaScript truthiness (`Truthy`) and template-literal printing of `null`;
- ASCII lower-casing, decimal printing, and string length in UTF-16 code units (`.length`);
- the `filter`/`removeNullValues`/`reverse` sequence functions with their lemmas;
- the loop that collects present edge nodes and the in-place array reversal.

The models follow the source's own form:
- Pure expressions become functions and lemmas.
- `for` loops that `push` become methods with loop invariants, proved equal to a specification function.
- Components whose state handlers update step by step become classes: `NoteEditor`, `FailureFallback`, `PopupAsset`, `DetailsToggle` and `GalleryStore`. Their methods state the whole new state.
- Handlers that call callbacks return the effects they would perform, as a datatype.
- A callback the code invokes with no result of interest becomes a recorded effect.

Inputs the code receives from code that is not part of this model are parameters:
- the `unescape` helper;
- the note update outcome;
- the community-URL builder;
- the announcement clock (`getDaysSince`/`getTimeSince`);
- `JSON.parse`;
- the media resolver's URLs;
- the sequence of results the poller's fetches return.

## Model

| member | source | states |
|---|---|---|
| OpenseaUrl.Padded | packages/shared/src/utils/getOpenseaExternalUrl.ts:6-8 | the padded string has even length and is the input or `'0'` followed by it |
| OpenseaUrl.TrimEnd | packages/shared/src/utils/getOpenseaExternalUrl.ts:10 | `BigInt` ignores trailing whitespace: the result is the longest prefix not ending in whitespace, and everything cut is whitespace |
| OpenseaUrl.HexHandler | packages/shared/src/utils/getOpenseaExternalUrl.ts:5-13 | succeeds iff the padded, right-trimmed input is a non-empty hex string, otherwise a `SyntaxError`; a result is a non-empty decimal digit string with no leading zero unless it is `"0"` |
| OpenseaUrl.HexHandlerOfHex | packages/shared/src/utils/getOpenseaExternalUrl.ts:10-12 | for a hex string the result is the decimal rendering of its value, and reading it back as decimal gives the same number |
| OpenseaUrl.HexHandlerLeadingZero | packages/shared/src/utils/getOpenseaExternalUrl.ts:6-8 | prefixing a `'0'` to an accepted input does not change the result |
| OpenseaUrl.LeadingZeroValue | packages/shared/src/utils/getOpenseaExternalUrl.ts:7 | a leading zero digit does not change the hexadecimal value |
| OpenseaUrl.HexHandlerRejectsBlank | packages/shared/src/utils/getOpenseaExternalUrl.ts:10 | an empty or all-whitespace even-length input throws |
| OpenseaUrl.HexHandlerRejectsNonHex | packages/shared/src/utils/getOpenseaExternalUrl.ts:10 | an input holding a character that is neither a hex digit nor whitespace throws |
| OpenseaUrl.OpenseaExternalUrl | packages/shared/src/utils/getOpenseaExternalUrl.ts:15-24 | fails exactly when `hexHandler` fails, with its error; otherwise it is the OpenSea assets prefix, the lower-cased chain, the contract address and the decimal token id, joined by `/` |
| OpenseaUrl.OpenseaUrlKeepsAddress | packages/shared/src/utils/getOpenseaExternalUrl.ts:20-23 | in the URL only the chain is lower-cased; the contract address appears unchanged at its position |
| GroupCollections.Title | apps/web/src/components/GalleryEditor/PiecesSidebar/groupCollectionsByAddress.ts:33 | POAP tokens are titled `POAP`; others take the contract name, or `<untitled>` when it is empty or missing |
| GroupCollections.Kept | apps/web/src/components/GalleryEditor/PiecesSidebar/groupCollectionsByAddress.ts:24-30 | every kept token passes the spam filter (when asked) and has a non-empty contract address |
| GroupCollections.Keys | apps/web/src/components/GalleryEditor/PiecesSidebar/groupCollectionsByAddress.ts:36-42 | the dictionary's keys in first-insertion order are distinct and each has at least one member |
| GroupCollections.KeysCover | apps/web/src/components/GalleryEditor/PiecesSidebar/groupCollectionsByAddress.ts:42 | every filed token's key is among the keys |
| GroupCollections.GroupsFor | apps/web/src/components/GalleryEditor/PiecesSidebar/groupCollectionsByAddress.ts:48 | `Object.values`: one group per key, in key order |
| GroupCollections.FiledIsGroupOf | apps/web/src/components/GalleryEditor/PiecesSidebar/groupCollectionsByAddress.ts:36-44 | the dictionary the loop builds has exactly the keys seen, and each entry is the group titled and addressed by its key's first token, holding all that key's tokens in order |
| GroupCollections.FileToken | apps/web/src/components/GalleryEditor/PiecesSidebar/groupCollectionsByAddress.ts:33-44 | one loop step: the token is pushed onto its key's group or starts a new one, and the key order grows only for a new key |
| GroupCollections.GroupCollectionsByAddress | apps/web/src/components/GalleryEditor/PiecesSidebar/groupCollectionsByAddress.ts:16-49 | the imperative loop over a mutated dictionary returns exactly the groups of the kept tokens in key-insertion order; a missing token list counts as empty |
| GroupCollections.MembersMembership | apps/web/src/components/GalleryEditor/PiecesSidebar/groupCollectionsByAddress.ts:44 | a key's members are exactly the tokens with that key |
| GroupCollections.MembersSubsequence | apps/web/src/components/GalleryEditor/PiecesSidebar/groupCollectionsByAddress.ts:44 | a group's tokens keep their input order |
| GroupCollections.GroupedTokensWereKept | apps/web/src/components/GalleryEditor/PiecesSidebar/groupCollectionsByAddress.ts:24-30 | a grouped token has a non-empty contract address, and with `ignoreSpam` it is not spam |
| GroupCollections.KeptMembership | apps/web/src/components/GalleryEditor/PiecesSidebar/groupCollectionsByAddress.ts:23-30 | a token is kept iff it is in the input and passes both filters |
| GroupCollections.TokenInGroupIff | apps/web/src/components/GalleryEditor/PiecesSidebar/groupCollectionsByAddress.ts:34-44 | a kept token is in group j iff its key is the j-th key, so it is in exactly one group |
| GroupCollections.KeptTokenIsGrouped | apps/web/src/components/GalleryEditor/PiecesSidebar/groupCollectionsByAddress.ts:23-45 | every token that passes the filters appears in some group |
| GroupCollections.GroupShape | apps/web/src/components/GalleryEditor/PiecesSidebar/groupCollectionsByAddress.ts:36-44 | every group is non-empty, an ordered subsequence of the kept tokens, titled from its first token, and addressed by that token's real contract address (also for POAP) |
| GroupCollections.SameGroupIff | apps/web/src/components/GalleryEditor/PiecesSidebar/groupCollectionsByAddress.ts:34 | two tokens share a group iff both are POAP or both are not POAP with equal addresses (for addresses other than the literal `POAP`) |
| GroupCollections.PoapKeyCollision | apps/web/src/components/GalleryEditor/PiecesSidebar/groupCollectionsByAddress.ts:34 | a non-POAP token whose contract address is literally `POAP` lands in the POAP group |
| GroupCollections.TotalTokenCount | apps/web/src/components/GalleryEditor/PiecesSidebar/groupCollectionsByAddress.ts:23-48 | the groups together hold exactly as many tokens as were kept |
| SidebarNftIcon.PollTokenWhileStillSyncing | apps/web/src/components/GalleryEditor/PiecesSidebar/SidebarNftIcon.tsx:119-163 | the poller, run as a loop over the fetch results until a terminal result or unmount, performs exactly the effect trace of the specification |
| SidebarNftIcon.LeadingSyncing | apps/web/src/components/GalleryEditor/PiecesSidebar/SidebarNftIcon.tsx:147 | the number of leading still-syncing results: all before it are syncing, the one at it is not |
| SidebarNftIcon.PollFetchCount | apps/web/src/components/GalleryEditor/PiecesSidebar/SidebarNftIcon.tsx:147-158 | fetches continue while results are `SyncingMedia` and stop at the first other one: one fetch per leading syncing result plus the terminal one |
| SidebarNftIcon.PollClearsOnce | apps/web/src/components/GalleryEditor/PiecesSidebar/SidebarNftIcon.tsx:150-155 | the failure state is cleared once, for `[dbid]` only, and only when the terminal fetch resolved; a rejected fetch clears nothing |
| SidebarNftIcon.PollIntervalIsFixed | apps/web/src/components/GalleryEditor/PiecesSidebar/SidebarNftIcon.tsx:121 | every timer is set for 5000 ms |
| SidebarNftIcon.NoPollUnlessSyncing | apps/web/src/components/GalleryEditor/PiecesSidebar/SidebarNftIcon.tsx:122-124 | a token whose media is not syncing does nothing |
| SidebarNftIcon.PollEndsWithCleanup | apps/web/src/components/GalleryEditor/PiecesSidebar/SidebarNftIcon.tsx:158-160 | a syncing token starts with a 5000 ms timer and ends with the cleanup's `clearTimeout`, never fetching more often than there are results |
| SidebarNftIcon.HandleClick | apps/web/src/components/GalleryEditor/PiecesSidebar/SidebarNftIcon.tsx:91-99 | a failed token is refreshed, never staged; a healthy one is toggled, never refreshed |
| SidebarNftIcon.RenderIcon | apps/web/src/components/GalleryEditor/PiecesSidebar/SidebarNftIcon.tsx:64-180 | the loading placeholder iff the media is syncing; otherwise the boundary keyed by the retry key, with a tiny fallback, selected iff the dbid is staged |
| SidebarNftIcon.SidebarFallbackHasNoGap | apps/web/src/components/GalleryEditor/PiecesSidebar/SidebarNftIcon.tsx:180 | the sidebar's tiny fallback has no gap |
| NftFailureFallback.SizeOrDefault | apps/web/src/components/NftFailureFallback/NftFailureFallback.tsx:20 | the size defaults to medium |
| NftFailureFallback.Gap | apps/web/src/components/NftFailureFallback/NftFailureFallback.tsx:38-41 | the gap is 0 exactly for tiny and 16 exactly for medium |
| NftFailureFallback.FailureFallback.constructor | apps/web/src/components/NftFailureFallback/NftFailureFallback.tsx:20-43 | starts with the tooltip hidden and the given (or default) size |
| NftFailureFallback.FailureFallback.Label | apps/web/src/components/NftFailureFallback/NftFailureFallback.tsx:62-66 | `Loading...` exactly while refreshing, `Could not load` exactly otherwise |
| NftFailureFallback.FailureFallback.SetRefreshing | apps/web/src/components/NftFailureFallback/NftFailureFallback.tsx:45-57 | when refreshing becomes true the tooltip is reset; otherwise it is unchanged |
| NftFailureFallback.FailureFallback.MouseEnter | apps/web/src/components/NftFailureFallback/NftFailureFallback.tsx:67-70 | entering the refresh button (present only when not refreshing) shows the tooltip |
| NftFailureFallback.FailureFallback.MouseLeave | apps/web/src/components/NftFailureFallback/NftFailureFallback.tsx:67-71 | leaving the refresh button hides the tooltip |
| NftFailureFallback.FailureFallback.Click | apps/web/src/components/NftFailureFallback/NftFailureFallback.tsx:21-31 | `onRetry` is called iff not refreshing |
| NftSelectorContract.ContractTokensOf | apps/mobile/src/screens/NftSelectorScreen/NftSelectorContractScreen.tsx:48-54 | every kept token's contract address is the route's |
| NftSelectorContract.ContractTokens | apps/mobile/src/screens/NftSelectorScreen/NftSelectorContractScreen.tsx:48-54 | missing user tokens give no tokens |
| NftSelectorContract.ContractTokensMembers | apps/mobile/src/screens/NftSelectorScreen/NftSelectorContractScreen.tsx:50-52 | a token is kept iff it is a present user token with the route's contract address |
| NftSelectorContract.ContractTokensInOrder | apps/mobile/src/screens/NftSelectorScreen/NftSelectorContractScreen.tsx:48-54 | the kept tokens are an ordered subsequence of the present ones |
| NftSelectorContract.HeaderName | apps/mobile/src/screens/NftSelectorScreen/NftSelectorContractScreen.tsx:56 | the header shows the first kept token's contract name, nothing when there is none |
| NftSelectorContract.Rows | apps/mobile/src/screens/NftSelectorScreen/NftSelectorContractScreen.tsx:58-64 | the loop's rows concatenate back to the tokens, there are ceil(n/3) of them, each holds 1 to 3 tokens and all but the last hold 3 |
| NftSelectorContract.PaddingCells | apps/mobile/src/screens/NftSelectorScreen/NftSelectorContractScreen.tsx:101-103 | a row of at most 3 tokens is padded to exactly 3 cells |
| SharedCommunities.SharedCommunitiesOf | apps/web/src/scenes/UserGalleryPage/UserSharedInfo/UserSharedCommunities.tsx:55-58 | missing edges give no communities; never more than there are edges |
| SharedCommunities.TotalShared | apps/web/src/scenes/UserGalleryPage/UserSharedInfo/UserSharedCommunities.tsx:59 | a missing total is 0 |
| SharedCommunities.CommunitiesToDisplay | apps/web/src/scenes/UserGalleryPage/UserSharedInfo/UserSharedCommunities.tsx:62-67 | a prefix of the shared communities: up to 3 when the total is 3, up to 2 otherwise |
| SharedCommunities.NameItem | apps/web/src/scenes/UserGalleryPage/UserSharedInfo/UserSharedCommunities.tsx:85-100 | a name is a link iff address and chain are present and the URL builder returns a URL for the lower-cased chain |
| SharedCommunities.Entries | apps/web/src/scenes/UserGalleryPage/UserSharedInfo/UserSharedCommunities.tsx:85-110 | one entry per shown community, plus one "others" entry iff the total exceeds 3 |
| SharedCommunities.EntriesAtMostThree | apps/web/src/scenes/UserGalleryPage/UserSharedInfo/UserSharedCommunities.tsx:62-110 | never more than three entries before punctuation |
| SharedCommunities.Content | apps/web/src/scenes/UserGalleryPage/UserSharedInfo/UserSharedCommunities.tsx:83-121 | the `push` and the two `splice` insertions over the mutable list produce the punctuated entries |
| SharedCommunities.OthersIffMoreThanThree | apps/web/src/scenes/UserGalleryPage/UserSharedInfo/UserSharedCommunities.tsx:104-110 | an "others" entry appears iff the total exceeds 3, and then it is last and shows total - 2 |
| SharedCommunities.ThreeCommunitiesRead | apps/web/src/scenes/UserGalleryPage/UserSharedInfo/UserSharedCommunities.tsx:112-118 | with a total of 3 the line reads `A, B and C` |
| SharedCommunities.Render | apps/web/src/scenes/UserGalleryPage/UserSharedInfo/UserSharedCommunities.tsx:123-125 | nothing is rendered iff the total is 0; otherwise the punctuated list |
| UserGalleryCollections.DisplayedOf | apps/web/src/scenes/UserGalleryPage/UserGalleryCollections.tsx:90-102 | every kept collection passes the display rule |
| UserGalleryCollections.CollectionsToDisplay | apps/web/src/scenes/UserGalleryPage/UserGalleryCollections.tsx:93-99 | hidden collections are never displayed |
| UserGalleryCollections.DisplayedIff | apps/web/src/scenes/UserGalleryPage/UserGalleryCollections.tsx:92-99 | a collection is displayed iff it is present, not hidden, and has tokens or a section with a non-empty whitespace list |
| UserGalleryCollections.DisplayedInOrder | apps/web/src/scenes/UserGalleryPage/UserGalleryCollections.tsx:90-102 | the displayed list is an ordered subsequence of the collections |
| UserGalleryCollections.IsAuthenticatedUsersPage | apps/web/src/scenes/UserGalleryPage/UserGalleryCollections.tsx:69 | for a signed-in viewer: own page iff the owner id equals the viewer's id |
| UserGalleryCollections.Render | apps/web/src/scenes/UserGalleryPage/UserGalleryCollections.tsx:134-160 | the empty-gallery message iff nothing is displayed (the owner's or `Curation in progress.`); otherwise a list with one row per displayed collection |
| UserGalleryCollections.RowAt | apps/web/src/scenes/UserGalleryPage/UserGalleryCollections.tsx:104-110 | a row renders iff its index is within the displayed list, and then it is that collection |
| UserGalleryCollections.OverscanStartIndex | apps/web/src/scenes/UserGalleryPage/UserGalleryCollections.tsx:175 | `max(0, start - overscan)`: never negative, never below `start - overscan`, equal to one of the two, and never past the start index |
| UserGalleryCollections.OverscanStopIndex | apps/web/src/scenes/UserGalleryPage/UserGalleryCollections.tsx:176 | the smaller of `cellCount - 1` and `stopIndex + overscanCellsCount`, never before the stop index |
| UserGalleryCollections.OverscanWindowInList | apps/web/src/scenes/UserGalleryPage/UserGalleryCollections.tsx:169-177 | the overscan window contains the visible window and stays within the list |
| Gallery.TotalCollections | apps/web/src/components/MultiGallery/Gallery.tsx:129-133 | at most the number of collections |
| Gallery.VisiblePlusHidden | apps/web/src/components/MultiGallery/Gallery.tsx:129-133 | the count is exactly the collections not marked hidden: with the hidden ones it makes up the list |
| Gallery.CountLabel | apps/web/src/components/MultiGallery/Gallery.tsx:296 | singular `collection` iff the count is 1 |
| Gallery.Title | apps/web/src/components/MultiGallery/Gallery.tsx:294 | the name, or `Untitled` when it is empty or missing |
| Gallery.NonNullTokenPreviews | apps/web/src/components/MultiGallery/Gallery.tsx:264 | no previews when the list is missing |
| Gallery.PreviewSlots | apps/web/src/components/MultiGallery/Gallery.tsx:266-345 | with at most 4 previews, previews plus placeholders make 4; more than 4 make a negative array length, which throws |
| Gallery.IsAuthenticatedUser | apps/web/src/components/MultiGallery/Gallery.tsx:107 | for a signed-in viewer: own gallery iff the owner id equals the viewer's id |
| Gallery.RenderGallery | apps/web/src/components/MultiGallery/Gallery.tsx:102-346 | no owner username throws; a non-owner viewing a hidden gallery gets nothing; otherwise the card with title, count label, owner menu, and the preview row of the non-null previews (so images plus placeholders make 4), which throws iff there are more than 4 previews |
| Gallery.MenuItems | apps/web/src/components/MultiGallery/Gallery.tsx:307-334 | owners only; `UNHIDE` iff hidden, `Hide` iff shown, `Feature on Profile` iff shown and not featured; starts with edit and ends with delete |
| Gallery.VisibleCount | apps/web/src/components/MultiGallery/Gallery.tsx:155-161 | at most the number of viewer galleries |
| Gallery.FindOther | apps/web/src/components/MultiGallery/Gallery.tsx:141-143 | a found gallery is in the list, not hidden, and has a different dbid |
| Gallery.FindOtherIsFirst | apps/web/src/components/MultiGallery/Gallery.tsx:141-143 | the found gallery is the first one that qualifies |
| Gallery.FindOtherFirstPassing | apps/web/src/components/MultiGallery/Gallery.tsx:141-143 | the search returns the first entry passing both the not-hidden and the other-id test |
| Gallery.ReassignTarget | apps/web/src/components/MultiGallery/Gallery.tsx:135-153 | reassignment acts only for the featured gallery |
| Gallery.ReassignTargetIsOther | apps/web/src/components/MultiGallery/Gallery.tsx:139-148 | the new featured id is a different, non-hidden viewer gallery's |
| Gallery.NoOtherNoReassign | apps/web/src/components/MultiGallery/Gallery.tsx:145 | with no qualifying gallery nothing is reassigned |
| Gallery.NullGalleryBlocksReassign | apps/web/src/components/MultiGallery/Gallery.tsx:141-145 | for every list: an entry without a gallery passes both tests, so when no earlier entry qualifies the search stops there and nothing is reassigned |
| Gallery.SetHidden | apps/web/src/components/MultiGallery/Gallery.tsx:185-186 | the toggle sets `hidden` on the matching galleries and changes nothing else |
| Gallery.VisibleCountIsCount | apps/web/src/components/MultiGallery/Gallery.tsx:157-160 | the visible count grows by one exactly for a present, visible gallery |
| Gallery.UnhideKeepsVisible | apps/web/src/components/MultiGallery/Gallery.tsx:185-186 | unhiding never lowers the visible count |
| Gallery.HideLosesAtMostOne | apps/web/src/components/MultiGallery/Gallery.tsx:185-186 | with distinct ids hiding lowers the visible count by at most one, and not at all for an unknown id |
| Gallery.GalleryStore.constructor | apps/web/src/components/MultiGallery/Gallery.tsx:135-196 | stores the viewer's galleries and featured id, with no toasts |
| Gallery.GalleryStore.HandleSetFeaturedGallery | apps/web/src/components/MultiGallery/Gallery.tsx:163-173 | features the gallery, or shows the error toast and keeps the featured id when the mutation fails |
| Gallery.GalleryStore.HandleUpdateGalleryHidden | apps/web/src/components/MultiGallery/Gallery.tsx:175-196 | hiding the last visible gallery shows the toast and changes nothing; otherwise the flag is toggled and the featured gallery reassigned (on unhide too), and a visible gallery always remains |
| NftDetailNote.NoteEditor.constructor | apps/web/src/scenes/NftDetailPage/NftDetailNote.tsx:27-34 | starts not editing, with no error and the given note or `''`, and no update sent |
| NftDetailNote.NoteEditor.EditLabel | apps/web/src/scenes/NftDetailPage/NftDetailNote.tsx:34-143 | `Edit` iff the raw note is non-empty, else `Add Note` |
| NftDetailNote.NoteEditor.Body | apps/web/src/scenes/NftDetailPage/NftDetailNote.tsx:110-147 | the text area iff editing, showing the unescaped note and its `.length` in UTF-16 code units, Save disabled iff that exceeds 1200; otherwise the markdown and the edit label |
| NftDetailNote.NoteEditor.Edit | apps/web/src/scenes/NftDetailPage/NftDetailNote.tsx:48-55 | enters edit mode and changes nothing else |
| NftDetailNote.NoteEditor.Change | apps/web/src/scenes/NftDetailPage/NftDetailNote.tsx:95-105 | stores the typed note and changes nothing else |
| NftDetailNote.NoteEditor.Submit | apps/web/src/scenes/NftDetailPage/NftDetailNote.tsx:61-82 | clears the error; an unescaped note over 1200 UTF-16 code units stays in edit mode and sends nothing; otherwise leaves edit mode, sends the update, tracks `added_note` and `num_chars` (in code units) on success, and on failure sets the error without re-entering edit mode; every sent note fits |
| NftDetailNote.NoteEditor.KeyDown | apps/web/src/scenes/NftDetailPage/NftDetailNote.tsx:85-93 | only Enter with the meta key submits, with all of Submit's outcomes: a refused note stays in edit mode and sends nothing, an accepted one leaves edit mode and sends the update, with the tracked event or error; other keys change nothing |
| NftDetailNote.NoteSectionFor | apps/web/src/scenes/NftDetailPage/NftDetailNote.tsx:187-206 | owners get the editor; others the read-only viewer of the note |
| Announcements.AnyExperiencedIff | apps/web/src/components/Announcement/useAnnouncement.tsx:55-58 | experienced iff some user experience has the announcement's key and is experienced |
| Announcements.Enrich | apps/web/src/components/Announcement/useAnnouncement.tsx:50-60 | each announcement keeps its own key, title, description, date, link and call to action, with the time since its date |
| Announcements.Recent | apps/web/src/components/Announcement/useAnnouncement.tsx:47-49 | never more announcements than content |
| Announcements.InsertMultiset | apps/web/src/components/Announcement/useAnnouncement.tsx:61-66 | the stable insertion adds exactly one element |
| Announcements.SortMultiset | apps/web/src/components/Announcement/useAnnouncement.tsx:61-66 | the sort is a permutation |
| Announcements.InsertSorted | apps/web/src/components/Announcement/useAnnouncement.tsx:61-66 | inserting a dated announcement into a newest-first list keeps it newest first |
| Announcements.SortSorted | apps/web/src/components/Announcement/useAnnouncement.tsx:61-66 | dated announcements come out newest first |
| Announcements.RecentMembers | apps/web/src/components/Announcement/useAnnouncement.tsx:47-60 | an announcement is kept iff it enriches a content item at most 30 days old |
| Announcements.AnnouncementsMembers | apps/web/src/components/Announcement/useAnnouncement.tsx:40-68 | the hook's output holds exactly the enriched recent items |
| Announcements.ExperiencedIff | apps/web/src/components/Announcement/useAnnouncement.tsx:55-58 | an output's `experienced` holds iff a matching experienced user experience exists |
| Announcements.AnnouncementsOrdered | apps/web/src/components/Announcement/useAnnouncement.tsx:61-66 | the output is a permutation of the recent items, newest date first when every date is set |
| Announcements.UnreadCountIsFilter | apps/web/src/components/Announcement/useAnnouncement.tsx:72-73 | the recursive count `UnreadCount` equals the length of the list filtered to its unexperienced items |
| Announcements.TotalUnreadAnnouncements | apps/web/src/components/Announcement/useAnnouncement.tsx:72-73 | exactly the number of unexperienced announcements in the final list (`filter(!experienced).length`), so at most the number of announcements |
| Announcements.UnreadCountAll | apps/web/src/components/Announcement/useAnnouncement.tsx:72-73 | with none experienced, all are unread |
| Announcements.NoExperiencesAllUnread | apps/web/src/components/Announcement/useAnnouncement.tsx:41 | missing user experiences make every kept announcement unread |
| SharedFollowers.RowCount | apps/web/src/scenes/UserGalleryPage/UserSharedInfo/UserSharedInfoList/SharedFollowersList.tsx:48 | one row more than there are followers exactly when there is a next page |
| SharedFollowers.LoaderRows | apps/web/src/scenes/UserGalleryPage/UserSharedInfo/UserSharedInfoList/SharedFollowersList.tsx:48-54 | every follower row is loaded, and the last row is an unloaded loader iff there is a next page |
| SharedFollowers.HandleLoadMore | apps/web/src/scenes/UserGalleryPage/UserSharedInfo/UserSharedInfoList/SharedFollowersList.tsx:20-52 | loads the next 20 followers |
| SharedFollowers.FirstLine | apps/web/src/scenes/UserGalleryPage/UserSharedInfo/UserSharedInfoList/SharedFollowersList.tsx:121-122 | a newline-free prefix which is the whole string or ends just before its first newline |
| SharedFollowers.FirstLineOfNewlineFree | apps/web/src/scenes/UserGalleryPage/UserSharedInfo/UserSharedInfoList/SharedFollowersList.tsx:121-122 | a one-line bio is shown whole |
| SharedFollowers.BioFirstLine | apps/web/src/scenes/UserGalleryPage/UserSharedInfo/UserSharedInfoList/SharedFollowersList.tsx:121-122 | empty for a missing or empty bio, otherwise the first line of the unescaped bio |
| SharedFollowers.RowAt | apps/web/src/scenes/UserGalleryPage/UserSharedInfo/UserSharedInfoList/SharedFollowersList.tsx:56-133 | a row renders iff its edge and node are present; it shows the username and links to it, with a single-line subtitle |
| PostCommentsModal.NonNullInteractions | apps/web/src/components/Feed/Socialize/CommentsModal/PostCommentsModal.tsx:55-65 | the loop and the in-place reverse return the reversed comment nodes of the present edges |
| PostCommentsModal.InteractionsAreTheComments | apps/web/src/components/Feed/Socialize/CommentsModal/PostCommentsModal.tsx:58-60 | only comments are listed, each as often as its edge occurs |
| PostCommentsModal.InteractionsNewestFirst | apps/web/src/components/Feed/Socialize/CommentsModal/PostCommentsModal.tsx:64 | the list is the edge order reversed; missing edges give none |
| PostCommentsModal.AllCommentsListed | apps/web/src/components/Feed/Socialize/CommentsModal/PostCommentsModal.tsx:55-65 | when every edge is a comment, each appears, in reverse order |
| PostCommentsModal.HandleSubmitComment | apps/web/src/components/Feed/Socialize/CommentsModal/PostCommentsModal.tsx:67-72 | comments on this post with the typed text and the optimistic user |
| FeedEventsCommentsModal.HandleSubmitComment | apps/web/src/components/Feed/Socialize/CommentsModal/FeedEventsCommentsModal.tsx:69-74 | comments on this feed event with the typed text and the optimistic user |
| Common.ReverseInPlace | apps/web/src/components/Feed/Socialize/CommentsModal/FeedEventsCommentsModal.tsx:64 | `Array.prototype.reverse` on an array: the new contents are the old ones reversed |
| Common.CollectNodes | apps/web/src/components/Feed/Socialize/CommentsModal/FeedEventsCommentsModal.tsx:56-62 | the push loop collects exactly the kept nodes of the present edges, in order |
| Common.Utf16Units | apps/web/src/scenes/NftDetailPage/NftDetailNote.tsx:64 | a character takes two UTF-16 code units iff it lies outside the Basic Multilingual Plane, one otherwise |
| Common.Utf16Length | apps/web/src/scenes/NftDetailPage/NftDetailNote.tsx:64 | `.length` in UTF-16 code units: between the number of characters and twice it |
| Common.Utf16LengthAppend | apps/web/src/scenes/NftDetailPage/NftDetailNote.tsx:64 | the code-unit length of a concatenation is the sum of the lengths |
| Common.Utf16LengthOfBmp | apps/web/src/scenes/NftDetailPage/NftDetailNote.tsx:64 | a text inside the Basic Multilingual Plane has as many code units as characters |
| Common.Utf16LengthOfAstral | apps/web/src/scenes/NftDetailPage/NftDetailNote.tsx:64 | a text of astral characters such as emoji has two code units per character |
| LatestFollowingFeed.FeedData | apps/web/src/components/Feed/LatestFollowingFeed.tsx:72-82 | the loop collects the feed-event nodes of the present edges |
| LatestFollowingFeed.FeedEventsAreTheEvents | apps/web/src/components/Feed/LatestFollowingFeed.tsx:72-82 | exactly the feed events, each as often as its edge occurs, in edge order, never more than there are edges |
| LatestFollowingFeed.Render | apps/web/src/components/Feed/LatestFollowingFeed.tsx:63-106 | the empty-feed view iff the viewer has no feed edges; otherwise the list of feed events paging backwards |
| LatestFollowingFeed.NonEventEdgesShowEmptyList | apps/web/src/components/Feed/LatestFollowingFeed.tsx:63-82 | every non-empty edge list without a FeedEvent node shows the list with no entries, not the empty-feed view |
| LatestFollowingFeed.LoadNextPage | apps/web/src/components/Feed/LatestFollowingFeed.tsx:55-61 | tracks the click, then loads the previous page of the given size |
| ProfileActivityTab.Events | apps/mobile/src/components/ProfileView/Tabs/ProfileViewActivityTab.tsx:53-60 | the loop and the in-place reverse return the present nodes reversed |
| ProfileActivityTab.EventsAreThePresentNodes | apps/mobile/src/components/ProfileView/Tabs/ProfileViewActivityTab.tsx:53-60 | every present node is listed as often as it occurs, and nothing else |
| ProfileActivityTab.EventCountWhenAllPresent | apps/mobile/src/components/ProfileView/Tabs/ProfileViewActivityTab.tsx:53-60 | with every node present, one event per edge |
| ProfileActivityTab.RenderItemOnFailure | apps/mobile/src/components/ProfileView/Tabs/ProfileViewActivityTab.tsx:70-84 | an item with an event marks that event as failed; others mark nothing |
| ContextMenuPopup.TokenUrl | apps/mobile/src/components/NftPreview/UniversalNftPreviewContextMenuPopup.tsx:65 | the large URL when present (even empty), else the fallback: `??` |
| ContextMenuPopup.CachedPreviewAssetUrl | apps/mobile/src/components/NftPreview/UniversalNftPreviewContextMenuPopup.tsx:70 | the medium URL if non-empty, else the small one if non-empty, else none: `||` |
| ContextMenuPopup.EmptyLargePreviewDisablesMenu | apps/mobile/src/components/NftPreview/UniversalNftPreviewContextMenuPopup.tsx:65-97 | an empty large URL wins over the fallback and disables the menu |
| ContextMenuPopup.RenderPreviewFrame | apps/mobile/src/components/NftPreview/UniversalNftPreviewContextMenuPopup.tsx:128-142 | throws without a token URL; otherwise the container is the window less the margins, and the source is the image's size or a square |
| ContextMenuPopup.CaptionFor | apps/mobile/src/components/NftPreview/UniversalNftPreviewContextMenuPopup.tsx:165-185 | name and contract lines only when non-empty; no artist line while artists are disabled |
| ContextMenuPopup.HandleMenuItemPress | apps/mobile/src/components/NftPreview/UniversalNftPreviewContextMenuPopup.tsx:78-90 | `view-details` navigates to the token with the cached preview, `share` shares, other keys do nothing |
| ContextMenuPopup.PopupAsset.constructor | apps/mobile/src/components/NftPreview/UniversalNftPreviewContextMenuPopup.tsx:72 | the popup asset starts not loaded |
| ContextMenuPopup.PopupAsset.HandlePopupAssetLoad | apps/mobile/src/components/NftPreview/UniversalNftPreviewContextMenuPopup.tsx:72-76 | marks the asset loaded, which hides the skeleton for good |
| NewTokens.Quantity | apps/mobile/src/components/Notification/Notifications/NewTokens.tsx:51 | the count, defaulting to 1 |
| NewTokens.MintedLabel | apps/mobile/src/components/Notification/Notifications/NewTokens.tsx:99-100 | `Minted` iff the quantity is at most 1, else `Minted <n>x` |
| NewTokens.RenderNewTokens | apps/mobile/src/components/Notification/Notifications/NewTokens.tsx:53-134 | throws iff the token is not a `Token`; nothing iff its media is syncing or invalid; otherwise the row with preview, label, name or fallback, unseen dot and time |
| NewTokens.SyncingAndInvalidMediaRenderNothing | apps/mobile/src/components/Notification/Notifications/NewTokens.tsx:21-67 | syncing and invalid media render nothing |
| NewTokens.HandlePress | apps/mobile/src/components/Notification/Notifications/NewTokens.tsx:57-63 | navigates to the token iff it has a dbid |
| NftDetailText.OpenseaExternalUrlAsWritten | apps/web/src/scenes/NftDetailPage/NftDetailText.tsx:92-98 | as written: the URL is computed and discarded, so the result is always empty unless the computation throws |
| NftDetailText.OpenseaExternalUrl | apps/web/src/scenes/NftDetailPage/NftDetailText.tsx:92-98 | corrected: empty without chain, address and token id, otherwise the marketplace URL |
| NftDetailText.AsWrittenDropsTheUrl | apps/web/src/scenes/NftDetailPage/NftDetailText.tsx:92-98 | the two throw alike, and differ whenever a URL is built |
| NftDetailText.OpenseaUrlLostExample | apps/web/src/scenes/NftDetailPage/NftDetailText.tsx:92-98 | an Ethereum token 0xabc/1 gets an empty URL as written, a non-empty one corrected |
| NftDetailText.TrackPayloadFor | apps/web/src/scenes/NftDetailPage/NftDetailText.tsx:99-143 | the one payload the buy-now, creator-name and collector-name clicks all send: the lower-cased username exactly when the owner has a truthy username, and the address, token id and URL unchanged |
| NftDetailText.Metadata | apps/web/src/scenes/NftDetailPage/NftDetailText.tsx:148 | no metadata is `{}`; otherwise it throws iff parsing throws, and a parsed `null` is `{}` |
| NftDetailText.PoapMoreInfoUrl | apps/web/src/scenes/NftDetailPage/NftDetailText.tsx:149 | the event URL field, only on the POAP chain |
| NftDetailText.PoapUrl | apps/web/src/scenes/NftDetailPage/NftDetailText.tsx:150 | the POAP page of a truthy event id |
| NftDetailText.PoapLinksFor | apps/web/src/scenes/NftDetailPage/NftDetailText.tsx:256-261 | the POAP block shows iff either link exists, each shown iff it exists |
| NftDetailText.NoMetadataNoPoapLinks | apps/web/src/scenes/NftDetailPage/NftDetailText.tsx:148-150 | no metadata, no POAP links |
| NftDetailText.EventIdLinksOnAnyChain | apps/web/src/scenes/NftDetailPage/NftDetailText.tsx:150 | for every chain and metadata with a truthy `event_id`, the POAP block is shown and links to that event's page |
| NftDetailText.ContractPillFor | apps/web/src/scenes/NftDetailPage/NftDetailText.tsx:180-192 | a clickable pill iff the community URL and contract name are non-empty, with the POAP logo iff on POAP; otherwise a plain pill |
| NftDetailText.TitleFor | apps/web/src/scenes/NftDetailPage/NftDetailText.tsx:153-178 | the unescaped name, only when non-empty |
| NftDetailText.DetailsToggle.constructor | apps/web/src/scenes/NftDetailPage/NftDetailText.tsx:81 | details start hidden |
| NftDetailText.DetailsToggle.ToggleLabel | apps/web/src/scenes/NftDetailPage/NftDetailText.tsx:263-264 | `Show Details` iff hidden, `Hide Details` iff shown |
| NftDetailText.DetailsToggle.HandleToggleClick | apps/web/src/scenes/NftDetailPage/NftDetailText.tsx:81-85 | flips the flag |
| TokenDetailView.UsernameOf | apps/web/src/scenes/TokenDetailPage/TokenDetailView.tsx:88-89 | optional chaining: undefined for no user, null for a user without a username |
| TokenDetailView.OwnershipByUsername | apps/web/src/scenes/TokenDetailPage/TokenDetailView.tsx:88-89 | a signed-in viewer owns the asset iff the usernames are equal |
| TokenDetailView.MissingUsersCompareEqual | apps/web/src/scenes/TokenDetailPage/TokenDetailView.tsx:88-89 | `===` makes a viewer with no user own an ownerless asset, but null is not undefined |
| TokenDetailView.SignedOutNeverOwns | apps/web/src/scenes/TokenDetailPage/TokenDetailView.tsx:88-89 | a non-viewer owns nothing |
| TokenDetailView.NotFoundRendersNothing | apps/web/src/scenes/TokenDetailPage/TokenDetailView.tsx:41-43 | a missing or not-found token renders nothing |
| TokenDetailView.TrailingBufferAsWritten | apps/web/src/scenes/TokenDetailPage/TokenDetailView.tsx:118 | as written: negating the function reference is always false, so the buffer never renders |
| TokenDetailView.TrailingBuffer | apps/web/src/scenes/TokenDetailPage/TokenDetailView.tsx:96-118 | corrected: the trailing buffer renders iff not on mobile, like the leading one |
| TokenDetailView.TrailingBufferMissingOnDesktop | apps/web/src/scenes/TokenDetailPage/TokenDetailView.tsx:118 | on desktop the buffer is missing as written and present corrected |
| TokenDetailView.LayoutFor | apps/web/src/scenes/TokenDetailPage/TokenDetailView.tsx:88-118 | as written: the note viewer iff there is a note; extra padding iff a note or ownership; the leading buffer iff not on mobile, and never the trailing buffer |
| TokenDetailView.LayoutBuffersDisagreeOnDesktop | apps/web/src/scenes/TokenDetailPage/TokenDetailView.tsx:96-118 | the rendered trailing buffer matches the intended one exactly on mobile; on every wider screen the two buffers differ |
| TokenDetailView.OwnerGetsNotePadding | apps/web/src/scenes/TokenDetailPage/TokenDetailView.tsx:91-109 | an owner without a note gets the padding but no note viewer |
| AdmireButton.Click | apps/web/src/components/Feed/Socialize/AdmireButton.tsx:45-91 | throws for an unexpected typename; removes an existing admire with an id (without admiring); asks a signed-out viewer to sign in; otherwise tracks and admires |
| AdmireButton.OnAdmireCalledOnceIff | apps/web/src/components/Feed/Socialize/AdmireButton.tsx:72-91 | `onAdmire` is called once iff not yet admired and signed in, never otherwise |
| GalleryProfileNavBar.HandleShare | apps/mobile/src/components/ProfileView/GalleryProfileNavBar.tsx:74-90 | one share call: the gallery URL, the collection URL, or the profile URL by screen and which keys `params` has, a key holding `undefined` printing as `undefined` |
| GalleryProfileNavBar.ParamText | apps/mobile/src/components/ProfileView/GalleryProfileNavBar.tsx:77-84 | a present param prints as its value, or `undefined` |
| GalleryProfileNavBar.ShareUrlStartsWithProfile | apps/mobile/src/components/ProfileView/GalleryProfileNavBar.tsx:74-90 | every shared URL starts with the profile URL |
| GalleryProfileNavBar.HandleQrCode | apps/mobile/src/components/ProfileView/GalleryProfileNavBar.tsx:92-96 | opens the QR code screen iff there is a username |
| GalleryProfileNavBar.IconsFor | apps/mobile/src/components/ProfileView/GalleryProfileNavBar.tsx:69-129 | the QR icon iff it is the viewer's own profile, the follow button otherwise; share and settings always |
| TokensAddedFeedEvent.Source | apps/mobile/src/components/Feed/Events/TokensAddedToCollectionFeedEvent.tsx:60-64 | pre-feed events use the collection's tokens, newer ones the new tokens |
| TokensAddedFeedEvent.Tokens | apps/mobile/src/components/Feed/Events/TokensAddedToCollectionFeedEvent.tsx:40-64 | the present tokens of the source (at most the query's limit); a collection whose required tokens are missing throws |
| TokensAddedFeedEvent.TokensAreThePresentOnes | apps/mobile/src/components/Feed/Events/TokensAddedToCollectionFeedEvent.tsx:60-64 | a token is listed iff it is present in the source |
| TokensAddedFeedEvent.CollectionName | apps/mobile/src/components/Feed/Events/TokensAddedToCollectionFeedEvent.tsx:66-85 | the unescaped name, falling back to `their collection`; never empty |
| TokensAddedFeedEvent.HandleCollectionNamePress | apps/mobile/src/components/Feed/Events/TokensAddedToCollectionFeedEvent.tsx:54-58 | navigates iff the collection has a dbid |
| UserGalleryHeader.Pill | apps/web/src/scenes/UserGalleryPage/UserGalleryHeader.tsx:75-85 | an account counts iff its username is non-empty |
| UserGalleryHeader.NumPills | apps/web/src/scenes/UserGalleryPage/UserGalleryHeader.tsx:75-85 | exactly the number of non-empty usernames among farcaster, lens and twitter; none without accounts, 0 iff none set, 3 iff all set |
| UserGalleryHeader.PillMaxWidthPercent | apps/web/src/scenes/UserGalleryPage/UserGalleryHeader.tsx:107-113 | the pills share 100% equally |
| UserGalleryHeader.SectionsFor | apps/web/src/scenes/UserGalleryPage/UserGalleryHeader.tsx:70-113 | shared info iff signed in on someone else's page; the social section iff some pill exists; the mobile username iff on mobile |
| UserGalleryHeader.NoSharedInfoForOwnerOrVisitor | apps/web/src/scenes/UserGalleryPage/UserGalleryHeader.tsx:90-98 | owners and signed-out visitors see no shared info |
| Onboarding.IndexOf | apps/web/src/components/Onboarding/constants.ts:21-23 | `indexOf`: -1 iff absent, else the first position holding the value |
| Onboarding.GetStepIndex | apps/web/src/components/Onboarding/constants.ts:3-23 | every step has an index in `STEPS`, and the index holds that step |
| Onboarding.StepIndexInjective | apps/web/src/components/Onboarding/constants.ts:3-23 | distinct steps have distinct indices; welcome is first and the email step is last |
| Onboarding.NextButtonText | apps/web/src/components/Onboarding/constants.ts:13-19 | `Done` for the congratulations and email steps, `Next` for the others |
| Onboarding.DoneStepsAreLast | apps/web/src/components/Onboarding/constants.ts:3-23 | the button reads `Done` iff the step is one of the last two |
| FollowerListButton.Pluralize | src/components/Follow/FollowerListButton.tsx:15-17 | the word for a count of 1, with an `s` otherwise |
| FollowerListButton.PluralizeZero | src/components/Follow/FollowerListButton.tsx:15-17 | zero takes the plural |

## Left out

- The React rendering itself is left out: styling, layout, hooks' memoisation, Relay fragments and the GraphQL transport. Components are modelled by the data they display and the effects they dispatch.
- Helpers that are not part of this model are parameters: `unescape`, `formatError`, `getOptimisticUserInfo`, `getUrlForCommunity`, `getDaysSince`/`getTimeSince`, `JSON.parse`, `fitDimensionsToContainerCover` and the media resolver. `removeNullValues` is modelled as dropping `null`; an absent list counts as empty.
- Mutation calls, toasts, analytics and navigation are recorded as effects. Their asynchronous completion order is left out.
- SidebarNftIcon: the poller's race with unmount is left out. An unmount while a fetch is in flight cannot be expressed. In the model, unmount takes effect only while a timer is pending.
- SidebarNftIcon: the scroll-into-view effect and the render-success and render-error reporting are left out.
- LatestFollowingFeed.LoadNextPage: the page size `ITEMS_PER_PAGE` is imported from a file that is not part of this model, so it is a parameter.
- OpenseaUrl.OpenseaExternalUrl: `toLocaleLowerCase` is modelled as ASCII lower-casing. Locale-specific and non-ASCII case mappings are left out.
- NftDetailText.PoapUrl: numbers in the parsed metadata are integers, printed in decimal. JavaScript's double formatting (`1.5`, `1e+21`, rounding above 2^53) is left out.
- SharedCommunities.NameItem: `chain.toLowerCase()` is modelled as ASCII lower-casing. Chain names are ASCII enum names, so nothing is lost in practice.
- NftDetailText.TrackPayloadFor: the owner's username is lower-cased with ASCII lower-casing, standing in for `toLowerCase`. Non-ASCII case mappings are left out.
- GroupCollections.GroupCollectionsByAddress: `Object.values` is taken in insertion order. The engine lists integer-like keys first, and special keys such as `__proto__` behave differently; neither is modelled.
- Announcements.AnnouncementsOrdered: newest-first order is proved only when every date is set. The comparator returns 0 when a date is empty, which is not a consistent ordering; the engine's sort may then order those items differently from the stable insertion sort modelled here.
- Announcements.Recent: dates are compared through the `getDaysSince` parameter. Invalid dates (NaN) are not modelled.
- UserGalleryHeader.PillMaxWidthPercent: the percentage is an exact real. Floating-point rounding is left out.
- ContextMenuPopup.RenderPreviewFrame: window sizes are integers in the model, and the image fitting is a parameter.
- Gallery: the featured-gallery mutation is modelled as succeeding or failing; a rejection that is not an `Error` shows no toast in the source and is not modelled. The hide mutation is neither awaited nor caught by the component, so it is modelled as always applied; the mutation hook's own failure handling is not modelled.
- NftDetailNote.NoteEditor.Submit: the awaited update's outcome is a parameter. The scroll timers around editing are left out.
- TokensAddedFeedEvent.Tokens: the error for a missing required field is a fixed string, not Relay's exact message.
- FeedEventsCommentsModal: `nonNullInteractions` here is the same loop and reversal as in `PostCommentsModal.tsx`, so it is modelled once, by `PostCommentsModal.NonNullInteractions` (`Common.CollectNodes` then `Common.ReverseInPlace`).
- LatestFollowingFeed: `handleSeeWorldwideClick` always tracks `Feed: Clicked worldwide button from inbox zero` and then calls `onSeeAll`. It is a constant dispatch that reads no state, so it is not modelled.
- FollowerListButton: `handleClick` always tracks `View Follower List Click` and then opens the follower list in a modal with padding disabled. It is a constant dispatch that reads no state, so it is not modelled.
- GalleryProfileNavBar: `handleSettings` always navigates to the Settings screen. It is a constant navigation with nothing to prove, so it is not modelled.

## Findings

| source | as written | input that shows it | evidently intended | confidence | as-written member | corrected member |
|---|---|---|---|---|---|---|
| apps/web/src/scenes/NftDetailPage/NftDetailText.tsx:92-98 | the memo computes `getOpenseaExternalUrl(...)` but never returns it, so `openseaExternalUrl` is always `''` and the buy-click event carries an empty URL | chain `Ethereum`, contract `0xabc`, token id `1` | return the marketplace URL when chain, contract address and token id are present | not executed | NftDetailText.OpenseaExternalUrlAsWritten (shown by NftDetailText.OpenseaUrlLostExample) | NftDetailText.OpenseaExternalUrl |
| apps/web/src/scenes/TokenDetailPage/TokenDetailView.tsx:118 | the trailing buffer's condition negates the function `useIsMobileOrMobileLargeWindowWidth` itself, not its result, so it is always false | any desktop width | render the trailing buffer when not on mobile, like the leading buffer on line 96 | not executed | TokenDetailView.TrailingBufferAsWritten (shown by TokenDetailView.TrailingBufferMissingOnDesktop) | TokenDetailView.TrailingBuffer |
