/** `groupCollectionsByAddress`: the pieces sidebar of the gallery editor buckets the wallet's
    tokens by contract. POAP tokens have no contract of their own and all go into one bucket
    keyed `"POAP"`; spam can be dropped. */
module GroupCollections {
  import opened Common

  /** The fields of a sidebar token the grouping reads. `address` is
      `contract?.contractAddress?.address`, so a missing contract and a missing address are
      both `None`. */
  datatype Token = Token(
    dbid: string,
    chain: Option<string>,
    contractName: Option<string>,
    address: Option<string>,
    isSpamByProvider: Option<bool>,
    isSpamByUser: Option<bool>)

  datatype CollectionGroup = CollectionGroup(title: string, address: string, tokens: seq<Token>)

  predicate IsPoap(t: Token)
  {
    t.chain == Some("POAP")
  }

  predicate IsSpam(t: Token)
  {
    t.isSpamByProvider == Some(true) || t.isSpamByUser == Some(true)
  }

  /** The tokens the loop files into a group: not skipped as spam, and with a contract address. */
  predicate Takes(t: Token, ignoreSpam: bool)
  {
    !(ignoreSpam && IsSpam(t)) && Truthy(t.address)
  }

  /** The dictionary key of a token: one shared key for POAP, the contract address otherwise. */
  function GroupKey(t: Token): string
  {
    if IsPoap(t) then "POAP" else GetOr(t.address, "")
  }

  /** The title a token gives the group it creates. */
  function Title(t: Token): (r: string)
    ensures IsPoap(t) ==> r == "POAP"
    ensures !IsPoap(t) && Truthy(t.contractName) ==> r == t.contractName.value
    ensures !IsPoap(t) && !Truthy(t.contractName) ==> r == "<untitled>"
  {
    if IsPoap(t) then "POAP" else if Truthy(t.contractName) then t.contractName.value else "<untitled>"
  }

  // ---------------------------------------------------------------------------------------
  // Specification: which tokens are kept, which keys exist, what each group holds
  // ---------------------------------------------------------------------------------------

  function Kept(s: seq<Token>, ignoreSpam: bool): (r: seq<Token>)
    ensures |r| <= |s|
    ensures forall i :: 0 <= i < |r| ==> Takes(r[i], ignoreSpam)
  {
    if s == [] then []
    else Kept(s[..|s| - 1], ignoreSpam) + (if Takes(s[|s| - 1], ignoreSpam) then [s[|s| - 1]] else [])
  }

  /** The tokens of `s` with key `k`, in order. */
  function Members(s: seq<Token>, k: string): (r: seq<Token>)
    ensures |r| <= |s|
    ensures forall i :: 0 <= i < |r| ==> GroupKey(r[i]) == k
  {
    if s == [] then []
    else Members(s[..|s| - 1], k) + (if GroupKey(s[|s| - 1]) == k then [s[|s| - 1]] else [])
  }

  /** The distinct keys of `s` in order of first appearance: the key order of `Object.values`. */
  function Keys(s: seq<Token>): (r: seq<string>)
    ensures forall i, j :: 0 <= i < j < |r| ==> r[i] != r[j]
    ensures forall i :: 0 <= i < |r| ==> Members(s, r[i]) != []
  {
    if s == [] then []
    else
      var init, x := s[..|s| - 1], s[|s| - 1];
      var ks := Keys(init);
      if GroupKey(x) in ks then ks else ks + [GroupKey(x)]
  }

  /** Every token's key is among the keys. */
  lemma {:induction false} KeysCover(s: seq<Token>, i: int)
    requires 0 <= i < |s|
    ensures GroupKey(s[i]) in Keys(s)
  {
    var init := s[..|s| - 1];
    if i < |init| {
      KeysCover(init, i);
      assert s[i] == init[i];
    }
  }

  /** The group of key `k`: every token with that key, titled and addressed by the first one. */
  function GroupOf(s: seq<Token>, k: string): (g: CollectionGroup)
    requires Members(s, k) != []
  {
    var first := Members(s, k)[0];
    CollectionGroup(Title(first), GetOr(first.address, ""), Members(s, k))
  }

  function GroupsFor(s: seq<Token>, ks: seq<string>): (r: seq<CollectionGroup>)
    requires forall i :: 0 <= i < |ks| ==> Members(s, ks[i]) != []
    ensures |r| == |ks|
    ensures forall i :: 0 <= i < |ks| ==> r[i] == GroupOf(s, ks[i])
  {
    seq(|ks|, i requires 0 <= i < |ks| => GroupOf(s, ks[i]))
  }

  /** The result `groupCollectionsByAddress` promises for the kept tokens `s`. */
  function Groups(s: seq<Token>): seq<CollectionGroup>
  {
    GroupsFor(s, Keys(s))
  }

  /** One more token filed into a dictionary: pushed onto its key's group, or starting a new
      group titled and addressed by it. */
  function File(m: map<string, CollectionGroup>, x: Token): map<string, CollectionGroup>
  {
    var k := GroupKey(x);
    m[k := if k in m then m[k].(tokens := m[k].tokens + [x])
           else CollectionGroup(Title(x), GetOr(x.address, ""), [x])]
  }

  /** The dictionary the loop has built after filing the kept tokens `s`. */
  function Filed(s: seq<Token>): map<string, CollectionGroup>
  {
    if s == [] then map[] else File(Filed(s[..|s| - 1]), s[|s| - 1])
  }

  // ---------------------------------------------------------------------------------------
  // Step lemmas: one more kept token
  // ---------------------------------------------------------------------------------------

  lemma MembersPush(s: seq<Token>, x: Token, k: string)
    ensures Members(s + [x], k) == Members(s, k) + (if GroupKey(x) == k then [x] else [])
  {
    assert (s + [x])[..|s + [x]| - 1] == s;
  }

  lemma KeysPush(s: seq<Token>, x: Token)
    ensures Keys(s + [x]) == if GroupKey(x) in Keys(s) then Keys(s) else Keys(s) + [GroupKey(x)]
  {
    assert (s + [x])[..|s + [x]| - 1] == s;
  }

  lemma {:induction false} MembersEmpty(s: seq<Token>, k: string)
    requires k !in Keys(s)
    ensures Members(s, k) == []
  {
    if s != [] {
      var init := s[..|s| - 1];
      assert s == init + [s[|s| - 1]];
      KeysPush(init, s[|s| - 1]);
      MembersEmpty(init, k);
      MembersPush(init, s[|s| - 1], k);
    }
  }

  lemma GroupOfOther(s: seq<Token>, x: Token, k: string)
    requires k in Keys(s) && k != GroupKey(x)
    ensures Members(s + [x], k) != [] && GroupOf(s + [x], k) == GroupOf(s, k)
  {
    MembersPush(s, x, k);
  }

  lemma GroupOfSame(s: seq<Token>, x: Token)
    requires GroupKey(x) in Keys(s)
    ensures var k := GroupKey(x);
            Members(s + [x], k) != []
            && GroupOf(s + [x], k) == GroupOf(s, k).(tokens := GroupOf(s, k).tokens + [x])
  {
    MembersPush(s, x, GroupKey(x));
  }

  lemma GroupOfNew(s: seq<Token>, x: Token)
    requires GroupKey(x) !in Keys(s)
    ensures Members(s + [x], GroupKey(x)) != []
    ensures GroupOf(s + [x], GroupKey(x)) == CollectionGroup(Title(x), GetOr(x.address, ""), [x])
  {
    MembersPush(s, x, GroupKey(x));
    MembersEmpty(s, GroupKey(x));
  }

  /** The dictionary holds exactly the keys of the filed tokens. */
  lemma {:induction false} FiledKeys(s: seq<Token>)
    ensures forall k :: k in Filed(s) <==> k in Keys(s)
  {
    if s != [] {
      var init, x := s[..|s| - 1], s[|s| - 1];
      assert s == init + [x];
      FiledKeys(init);
      KeysPush(init, x);
    }
  }

  /** Each key of the dictionary holds its specified group. */
  lemma {:induction false} FiledIsGroupOf(s: seq<Token>)
    ensures forall k :: k in Filed(s) <==> k in Keys(s)
    ensures forall k :: k in Keys(s) ==> Filed(s)[k] == GroupOf(s, k)
  {
    FiledKeys(s);
    if s != [] {
      var init, x := s[..|s| - 1], s[|s| - 1];
      assert s == init + [x];
      FiledIsGroupOf(init);
      KeysPush(init, x);
      forall k | k in Keys(s) ensures Filed(s)[k] == GroupOf(s, k) {
        if k != GroupKey(x) {
          GroupOfOther(init, x, k);
        } else if k in Keys(init) {
          GroupOfSame(init, x);
        } else {
          GroupOfNew(init, x);
        }
      }
    }
  }

  // ---------------------------------------------------------------------------------------
  // The loop
  // ---------------------------------------------------------------------------------------

  lemma KeptPush(s: seq<Token>, x: Token, ignoreSpam: bool)
    ensures Takes(x, ignoreSpam) ==> Kept(s + [x], ignoreSpam) == Kept(s, ignoreSpam) + [x]
    ensures !Takes(x, ignoreSpam) ==> Kept(s + [x], ignoreSpam) == Kept(s, ignoreSpam)
  {
    assert (s + [x])[..|s + [x]| - 1] == s;
  }

  /** The loop body's update of the dictionary is `File`. */
  lemma FileStep(m: map<string, CollectionGroup>, x: Token, title: string, address: string, group: CollectionGroup)
    requires Truthy(x.address) && title == Title(x) && address == GroupKey(x)
    requires group == if address in m then m[address] else CollectionGroup(title, x.address.value, [])
    ensures m[address := group.(tokens := group.tokens + [x])] == File(m, x)
  {
    assert [] + [x] == [x];
  }

  /** After one more kept token, the dictionary is that token filed, and the key order has its
      key appended when it is new. */
  lemma FiledPush(s: seq<Token>, x: Token)
    ensures Filed(s + [x]) == File(Filed(s), x)
    ensures Keys(s + [x]) == if GroupKey(x) in Filed(s) then Keys(s) else Keys(s) + [GroupKey(x)]
  {
    assert (s + [x])[..|s|] == s;
    FiledKeys(s);
    KeysPush(s, x);
  }

  /** Reading the dictionary out in key order gives the specified groups. */
  lemma ValuesInKeyOrder(s: seq<Token>, m: map<string, CollectionGroup>, order: seq<string>)
    requires order == Keys(s) && m == Filed(s)
    ensures forall j :: 0 <= j < |order| ==> order[j] in m
    ensures seq(|order|, j requires 0 <= j < |order| && order[j] in m => m[order[j]]) == Groups(s)
  {
    FiledIsGroupOf(s);
  }

  /** The body of the loop for a token with a contract address: `map[address] ?? { … }`, the
      store back into `map`, and the `push`. `order` is the key order `Object.values` reads. */
  method FileToken(m: map<string, CollectionGroup>, order: seq<string>, token: Token)
    returns (m': map<string, CollectionGroup>, order': seq<string>)
    requires Truthy(token.address)
    ensures m' == File(m, token)
    ensures order' == if GroupKey(token) in m then order else order + [GroupKey(token)]
  {
    var title := if IsPoap(token) then "POAP" else if Truthy(token.contractName) then token.contractName.value else "<untitled>";
    var address := if IsPoap(token) then "POAP" else token.address.value;
    var group := if address in m then m[address] else CollectionGroup(title, token.address.value, []);
    FileStep(m, token, title, address, group);
    order' := if address in m then order else order + [address];
    m' := m[address := group.(tokens := group.tokens + [token])];
  }

  /** `groupCollectionsByAddress({ filteredTokensBySelectedWallet, ignoreSpam })`. */
  method GroupCollectionsByAddress(filtered: Option<seq<Token>>, ignoreSpam: bool)
    returns (groups: seq<CollectionGroup>)
    ensures groups == Groups(Kept(GetOr(filtered, []), ignoreSpam))
  {
    var tokens := GetOr(filtered, []);
    var m: map<string, CollectionGroup> := map[];
    var order: seq<string> := [];
    var i := 0;
    while i < |tokens|
      invariant 0 <= i <= |tokens|
      invariant order == Keys(Kept(tokens[..i], ignoreSpam))
      invariant m == Filed(Kept(tokens[..i], ignoreSpam))
    {
      var token := tokens[i];
      ghost var before := Kept(tokens[..i], ignoreSpam);
      assert tokens[..i + 1] == tokens[..i] + [token];
      KeptPush(tokens[..i], token, ignoreSpam);
      if ignoreSpam && IsSpam(token) {
        i := i + 1;
        continue;
      }
      if Truthy(token.address) {
        FiledPush(before, token);
        m, order := FileToken(m, order, token);
      }
      i := i + 1;
    }
    assert tokens[..i] == tokens;
    ValuesInKeyOrder(Kept(tokens, ignoreSpam), m, order);
    groups := seq(|order|, j requires 0 <= j < |order| && order[j] in m => m[order[j]]);
  }

  // ---------------------------------------------------------------------------------------
  // What the grouping promises
  // ---------------------------------------------------------------------------------------

  lemma {:induction false} MembersMembership(s: seq<Token>, k: string, t: Token)
    ensures t in Members(s, k) <==> t in s && GroupKey(t) == k
  {
    if s != [] {
      var init := s[..|s| - 1];
      MembersMembership(init, k, t);
      assert s == init + [s[|s| - 1]];
    }
  }

  lemma {:induction false} MembersSubsequence(s: seq<Token>, k: string)
    ensures IsSubsequence(Members(s, k), s)
  {
    if s != [] {
      var init := s[..|s| - 1];
      MembersSubsequence(init, k);
      var r := Members(s, k);
      if GroupKey(s[|s| - 1]) == k {
        assert r[..|r| - 1] == Members(init, k);
      } else {
        assert r == Members(init, k);
      }
    }
  }

  /** Every grouped token was kept: it has a contract address, and with `ignoreSpam` it is not
      spam. So a token without an address is in no group. */
  lemma GroupedTokensWereKept(tokens: seq<Token>, ignoreSpam: bool, j: int, t: Token)
    requires 0 <= j < |Groups(Kept(tokens, ignoreSpam))|
    requires t in Groups(Kept(tokens, ignoreSpam))[j].tokens
    ensures Truthy(t.address)
    ensures ignoreSpam ==> !IsSpam(t)
  {
    var s := Kept(tokens, ignoreSpam);
    MembersMembership(s, Keys(s)[j], t);
    var i :| 0 <= i < |s| && s[i] == t;
    assert Takes(s[i], ignoreSpam);
  }

  lemma {:induction false} KeptMembership(tokens: seq<Token>, ignoreSpam: bool, t: Token)
    ensures t in Kept(tokens, ignoreSpam) <==> t in tokens && Takes(t, ignoreSpam)
  {
    if tokens != [] {
      var init := tokens[..|tokens| - 1];
      KeptMembership(init, ignoreSpam, t);
      assert tokens == init + [tokens[|tokens| - 1]];
    }
  }

  /** A token is in the group of key `Keys(s)[j]` exactly when its own key is that key. So every
      kept token is in one group and in no other. */
  lemma TokenInGroupIff(tokens: seq<Token>, ignoreSpam: bool, j: int, t: Token)
    requires t in tokens && Takes(t, ignoreSpam)
    requires 0 <= j < |Groups(Kept(tokens, ignoreSpam))|
    ensures t in Groups(Kept(tokens, ignoreSpam))[j].tokens
            <==> GroupKey(t) == Keys(Kept(tokens, ignoreSpam))[j]
  {
    var s := Kept(tokens, ignoreSpam);
    KeptMembership(tokens, ignoreSpam, t);
    MembersMembership(s, Keys(s)[j], t);
  }

  /** Every kept token — spam too, when `ignoreSpam` is off as it is by default — lands in some
      group. */
  lemma KeptTokenIsGrouped(tokens: seq<Token>, ignoreSpam: bool, t: Token)
    requires t in tokens && Takes(t, ignoreSpam)
    ensures exists j :: 0 <= j < |Groups(Kept(tokens, ignoreSpam))|
                        && t in Groups(Kept(tokens, ignoreSpam))[j].tokens
  {
    var s := Kept(tokens, ignoreSpam);
    KeptMembership(tokens, ignoreSpam, t);
    var i :| 0 <= i < |s| && s[i] == t;
    KeysCover(s, i);
    var j :| 0 <= j < |Keys(s)| && Keys(s)[j] == GroupKey(t);
    TokenInGroupIff(tokens, ignoreSpam, j, t);
  }

  /** Within a group the tokens keep their input order, and a group is titled and addressed by
      its first token; the POAP group's address is that token's real contract address. */
  lemma GroupShape(tokens: seq<Token>, ignoreSpam: bool, j: int)
    requires 0 <= j < |Groups(Kept(tokens, ignoreSpam))|
    ensures var g := Groups(Kept(tokens, ignoreSpam))[j];
            && g.tokens != []
            && IsSubsequence(g.tokens, Kept(tokens, ignoreSpam))
            && g.title == Title(g.tokens[0])
            && g.tokens[0].address == Some(g.address)
            && (IsPoap(g.tokens[0]) ==> g.title == "POAP")
  {
    var s := Kept(tokens, ignoreSpam);
    MembersSubsequence(s, Keys(s)[j]);
    assert Members(s, Keys(s)[j])[0] in Members(s, Keys(s)[j]);
    GroupedTokensWereKept(tokens, ignoreSpam, j, Members(s, Keys(s)[j])[0]);
  }

  /** Two tokens share a group exactly when both are POAP, or neither is and their addresses
      agree — as long as no address is literally `"POAP"`. */
  lemma SameGroupIff(a: Token, b: Token)
    requires Truthy(a.address) && Truthy(b.address)
    requires a.address != Some("POAP") && b.address != Some("POAP")
    ensures GroupKey(a) == GroupKey(b)
            <==> (IsPoap(a) && IsPoap(b)) || (!IsPoap(a) && !IsPoap(b) && a.address == b.address)
  {
  }

  /** The shared key is not guarded: a non-POAP token whose contract address reads `"POAP"`
      joins the POAP group. */
  lemma PoapKeyCollision()
    ensures GroupKey(Token("1", Some("ETH"), None, Some("POAP"), None, None))
         == GroupKey(Token("2", Some("POAP"), None, Some("0xabc"), None, None))
  {
  }

  function TokenCount(gs: seq<CollectionGroup>): nat
  {
    if gs == [] then 0 else TokenCount(gs[..|gs| - 1]) + |gs[|gs| - 1].tokens|
  }

  function MemberCount(s: seq<Token>, ks: seq<string>): nat
  {
    if ks == [] then 0 else MemberCount(s, ks[..|ks| - 1]) + |Members(s, ks[|ks| - 1])|
  }

  /** Dropping the last key drops the last group. */
  lemma GroupsForPrefix(s: seq<Token>, ks: seq<string>)
    requires ks != []
    requires forall i :: 0 <= i < |ks| ==> Members(s, ks[i]) != []
    ensures GroupsFor(s, ks)[..|ks| - 1] == GroupsFor(s, ks[..|ks| - 1])
  {
    var init := ks[..|ks| - 1];
    var gs, hs := GroupsFor(s, ks), GroupsFor(s, init);
    forall i | 0 <= i < |init|
      ensures gs[i] == hs[i]
    {
      assert init[i] == ks[i];
    }
  }

  lemma {:induction false} TokenCountGroupsFor(s: seq<Token>, ks: seq<string>)
    requires forall i :: 0 <= i < |ks| ==> Members(s, ks[i]) != []
    ensures TokenCount(GroupsFor(s, ks)) == MemberCount(s, ks)
  {
    if ks != [] {
      var init, k := ks[..|ks| - 1], ks[|ks| - 1];
      assert forall i :: 0 <= i < |init| ==> init[i] == ks[i];
      TokenCountGroupsFor(s, init);
      var gs := GroupsFor(s, ks);
      GroupsForPrefix(s, ks);
      assert gs[|ks| - 1].tokens == Members(s, k);
    }
  }

  lemma {:induction false} MemberCountOther(s: seq<Token>, x: Token, ks: seq<string>)
    requires GroupKey(x) !in ks
    ensures MemberCount(s + [x], ks) == MemberCount(s, ks)
  {
    if ks != [] {
      var init := ks[..|ks| - 1];
      MemberCountOther(s, x, init);
      MembersPush(s, x, ks[|ks| - 1]);
    }
  }

  lemma {:induction false} MemberCountSame(s: seq<Token>, x: Token, ks: seq<string>)
    requires GroupKey(x) in ks
    requires forall i, j :: 0 <= i < j < |ks| ==> ks[i] != ks[j]
    ensures MemberCount(s + [x], ks) == MemberCount(s, ks) + 1
  {
    var init, k := ks[..|ks| - 1], ks[|ks| - 1];
    assert ks == init + [k];
    MembersPush(s, x, k);
    if k == GroupKey(x) {
      MemberCountOther(s, x, init);
    } else {
      MemberCountSame(s, x, init);
    }
  }

  lemma {:induction false} MemberCountKeys(s: seq<Token>)
    ensures MemberCount(s, Keys(s)) == |s|
  {
    if s != [] {
      var init, x := s[..|s| - 1], s[|s| - 1];
      assert s == init + [x];
      MemberCountKeys(init);
      KeysPush(init, x);
      if GroupKey(x) in Keys(init) {
        MemberCountSame(init, x, Keys(init));
      } else {
        MemberCountOther(init, x, Keys(init));
        MembersPush(init, x, GroupKey(x));
        MembersEmpty(init, GroupKey(x));
        assert (Keys(init) + [GroupKey(x)])[..|Keys(init)|] == Keys(init);
      }
    }
  }

  /** Grouping loses and duplicates nothing: the groups hold as many tokens as were kept. */
  lemma TotalTokenCount(tokens: seq<Token>, ignoreSpam: bool)
    ensures TokenCount(Groups(Kept(tokens, ignoreSpam))) == |Kept(tokens, ignoreSpam)|
  {
    var s := Kept(tokens, ignoreSpam);
    TokenCountGroupsFor(s, Keys(s));
    MemberCountKeys(s);
  }
}
