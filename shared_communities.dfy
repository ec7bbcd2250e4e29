/** `UserSharedCommunities`: the "Also holds A, B and 3 others" line on another user's gallery
    page, listing communities the viewer and that user both hold. */
module SharedCommunities {
  import opened Common

  datatype Community = Community(name: Option<string>, chain: Option<string>, address: Option<string>)

  /** One piece of the rendered line. */
  datatype Item =
    | Link(name: Option<string>, url: string)
    | Plain(name: Option<string>)
    | Others(count: int)
    | Comma
    | And

  /** `edges?.map((edge) => edge?.node) ?? []`, then `removeNullValues`. */
  function SharedCommunitiesOf(edges: Option<seq<Option<Option<Community>>>>): (r: seq<Community>)
    ensures edges.None? ==> r == []
    ensures |r| <= |GetOr(edges, [])|
  {
    var e := GetOr(edges, []);
    RemoveNulls(seq(|e|, i requires 0 <= i < |e| => if e[i].Some? then e[i].value else None))
  }

  /** `pageInfo?.total ?? 0` */
  function TotalShared(total: Option<int>): (r: int)
    ensures total.None? ==> r == 0
  {
    GetOr(total, 0)
  }

  /** `communitiesToDisplay`: all three names when there are exactly three, else at most two. */
  function CommunitiesToDisplay(shared: seq<Community>, total: int): (r: seq<Community>)
    ensures |r| <= |shared| && r == shared[..|r|]
    ensures total == 3 ==> |r| == if |shared| < 3 then |shared| else 3
    ensures total != 3 ==> |r| == if |shared| < 2 then |shared| else 2
  {
    var maxNamesToDisplay := if total == 3 then 3 else 2;
    shared[..if |shared| < maxNamesToDisplay then |shared| else maxNamesToDisplay]
  }

  /** A name is a link when the community has an address and a chain and `getUrlForCommunity`
      (here `urlFor`, given the lower-cased chain) produces a non-empty URL. */
  function NameItem(c: Community, urlFor: (string, string) -> Option<string>): (r: Item)
    ensures r.Link? || r.Plain?
    ensures r.name == c.name
    ensures r.Link? <==> Truthy(c.address) && Truthy(c.chain) && Truthy(urlFor(c.address.value, AsciiLower(c.chain.value)))
    ensures r.Link? ==> Some(r.url) == urlFor(c.address.value, AsciiLower(c.chain.value))
  {
    if Truthy(c.address) && Truthy(c.chain) then
      var url := urlFor(c.address.value, AsciiLower(c.chain.value));
      if Truthy(url) then Link(c.name, url.value) else Plain(c.name)
    else Plain(c.name)
  }

  /** The entries before punctuation: the names, then "N others" when there are more than 3. */
  function Entries(shown: seq<Community>, total: int, urlFor: (string, string) -> Option<string>): (r: seq<Item>)
    ensures |r| == |shown| + (if total > 3 then 1 else 0)
  {
    seq(|shown|, i requires 0 <= i < |shown| => NameItem(shown[i], urlFor))
    + (if total > 3 then [Others(total - 2)] else [])
  }

  /** The line as it reads: "A", "A and B", "A, B and C". */
  function Punctuated(xs: seq<Item>): (r: seq<Item>)
    requires |xs| <= 3
  {
    if |xs| <= 1 then xs
    else if |xs| == 2 then [xs[0], And, xs[1]]
    else [xs[0], Comma, xs[1], And, xs[2]]
  }

  /** There are never more than three entries to punctuate: three names only when the total is
      exactly 3, and "others" only when it is above 3, next to at most two names. */
  lemma EntriesAtMostThree(shared: seq<Community>, total: int, urlFor: (string, string) -> Option<string>)
    ensures |Entries(CommunitiesToDisplay(shared, total), total, urlFor)| <= 3
  {
  }

  /** `content`: the entries, then `splice(1, 0, ", ")` when there are three and
      `splice(-1, 0, " and ")` when there are two or more. */
  method Content(shared: seq<Community>, total: int, urlFor: (string, string) -> Option<string>)
    returns (result: seq<Item>)
    ensures |Entries(CommunitiesToDisplay(shared, total), total, urlFor)| <= 3
    ensures result == Punctuated(Entries(CommunitiesToDisplay(shared, total), total, urlFor))
  {
    var shown := CommunitiesToDisplay(shared, total);
    result := seq(|shown|, i requires 0 <= i < |shown| => NameItem(shown[i], urlFor));
    if total > 3 {
      result := result + [Others(total - 2)];
    }
    if |result| == 3 {
      result := result[..1] + [Comma] + result[1..];
    }
    if |result| > 1 {
      result := result[..|result| - 1] + [And] + result[|result| - 1..];
    }
  }

  /** "N others" appears exactly when the total is above 3, as the last entry, counting every
      community but the two named ones. */
  lemma OthersIffMoreThanThree(shared: seq<Community>, total: int, urlFor: (string, string) -> Option<string>)
    ensures var line := Punctuated(Entries(CommunitiesToDisplay(shared, total), total, urlFor));
            (exists i :: 0 <= i < |line| && line[i].Others?) <==> total > 3
    ensures var line := Punctuated(Entries(CommunitiesToDisplay(shared, total), total, urlFor));
            total > 3 ==> line[|line| - 1] == Others(total - 2)
  {
    var e := Entries(CommunitiesToDisplay(shared, total), total, urlFor);
    var line := Punctuated(e);
    if total <= 3 {
      forall i | 0 <= i < |line| ensures !line[i].Others? {
        assert forall j :: 0 <= j < |e| ==> e[j].Link? || e[j].Plain?;
      }
    } else {
      assert e[|e| - 1] == Others(total - 2);
      assert line[|line| - 1] == Others(total - 2);
    }
  }

  /** With exactly three communities all three are named and joined as "A, B and C". */
  lemma ThreeCommunitiesRead(shared: seq<Community>, urlFor: (string, string) -> Option<string>)
    requires |shared| >= 3
    ensures Punctuated(Entries(CommunitiesToDisplay(shared, 3), 3, urlFor))
         == [NameItem(shared[0], urlFor), Comma, NameItem(shared[1], urlFor), And, NameItem(shared[2], urlFor)]
  {
  }

  /** The section: nothing when the total is 0, otherwise the line. */
  function Render(shared: seq<Community>, total: Option<int>, urlFor: (string, string) -> Option<string>): (r: Option<seq<Item>>)
    ensures r.None? <==> TotalShared(total) == 0
    ensures r.Some? ==> r.value == Punctuated(Entries(CommunitiesToDisplay(shared, TotalShared(total)), TotalShared(total), urlFor))
  {
    var t := TotalShared(total);
    EntriesAtMostThree(shared, t, urlFor);
    if t == 0 then None else Some(Punctuated(Entries(CommunitiesToDisplay(shared, t), t, urlFor)))
  }
}
