/** `UserGalleryHeader`: the header of a user's gallery page — name and bio, the information the
    viewer shares with the user, the social-account pills and, on mobile, the navigation links. */
module UserGalleryHeader {
  import opened Common

  datatype SocialAccounts = SocialAccounts(farcaster: Option<string>, lens: Option<string>, twitter: Option<string>)

  function Pill(username: Option<string>): (n: nat)
    ensures n <= 1 && (n == 1 <==> Truthy(username))
  {
    if Truthy(username) then 1 else 0
  }

  /** `numPills`: how many of the farcaster, lens and twitter usernames are non-empty. */
  function NumPills(accounts: Option<SocialAccounts>): (n: nat)
    ensures n <= 3
    ensures accounts.None? ==> n == 0
    ensures accounts.Some? ==>
              (n == 0 <==> !Truthy(accounts.value.farcaster) && !Truthy(accounts.value.lens) && !Truthy(accounts.value.twitter))
    ensures accounts.Some? ==>
              (n == 3 <==> Truthy(accounts.value.farcaster) && Truthy(accounts.value.lens) && Truthy(accounts.value.twitter))
    ensures accounts.Some? ==> n == |Filter([accounts.value.farcaster, accounts.value.lens, accounts.value.twitter], Truthy)|
  {
    if accounts.None? then 0
    else
      var names := [accounts.value.farcaster, accounts.value.lens, accounts.value.twitter];
      assert names[..2][..1][..0] == [];
      assert |Filter(names[..2][..1], Truthy)| == Pill(names[0]);
      assert |Filter(names[..2], Truthy)| == Pill(names[0]) + Pill(names[1]);
      Pill(accounts.value.farcaster) + Pill(accounts.value.lens) + Pill(accounts.value.twitter)
  }

  /** Each pill's share of the row; the section exists only with at least one pill. */
  function PillMaxWidthPercent(numPills: nat): (r: real)
    requires numPills > 0
    ensures r * numPills as real == 100.0
    ensures 0.0 < r <= 100.0
  {
    100.0 / numPills as real
  }

  datatype Sections = Sections(sharedInfo: bool, social: Option<nat>, mobileNavUsername: Option<string>)

  /** What the header shows: shared info for a signed-in viewer on someone else's page, the
      social section with its pill count when there is a pill, and the mobile links on mobile. */
  function SectionsFor(loggedInUserId: Option<string>, userDbid: string, userName: Option<string>,
                       accounts: Option<SocialAccounts>, isMobile: bool): (r: Sections)
    ensures r.sharedInfo <==> Truthy(loggedInUserId) && loggedInUserId != Some(userDbid)
    ensures r.social.Some? <==> NumPills(accounts) > 0
    ensures r.social.Some? ==> r.social.value == NumPills(accounts) && 1 <= r.social.value <= 3
    ensures r.mobileNavUsername.Some? <==> isMobile
    ensures r.mobileNavUsername.Some? ==> r.mobileNavUsername.value == GetOr(userName, "")
  {
    var isLoggedIn := Truthy(loggedInUserId);
    var isAuthenticatedUsersPage := loggedInUserId == Some(userDbid);
    var numPills := NumPills(accounts);
    Sections(isLoggedIn && !isAuthenticatedUsersPage,
             if numPills > 0 then Some(numPills) else None,
             if isMobile then Some(GetOr(userName, "")) else None)
  }

  /** The owner never sees what they share with themselves, nor does a signed-out visitor. */
  lemma NoSharedInfoForOwnerOrVisitor(loggedInUserId: Option<string>, userDbid: string, userName: Option<string>,
                                      accounts: Option<SocialAccounts>, isMobile: bool)
    requires loggedInUserId.None? || loggedInUserId == Some(userDbid)
    ensures !SectionsFor(loggedInUserId, userDbid, userName, accounts, isMobile).sharedInfo
  {
  }
}
