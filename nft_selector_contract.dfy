/** `NftSelectorContractScreen`: the mobile picker's screen for one contract. It keeps the
    viewer's tokens of that contract and lays them out three to a row. */
module NftSelectorContract {
  import opened Common

  /** The fields of a viewer token the screen reads; `address` is
      `contract?.contractAddress?.address`. */
  datatype PickerToken = PickerToken(dbid: string, contractName: Option<string>, address: Option<string>)

  /** The filter's test: `token?.contract?.contractAddress?.address === contractAddress`. A null
      token or a missing address is `undefined`, never equal to the route's string. */
  predicate OfContract(t: Option<PickerToken>, contractAddress: string)
  {
    t.Some? && t.value.address == Some(contractAddress)
  }

  function ContractTokensOf(s: seq<Option<PickerToken>>, contractAddress: string): (r: seq<PickerToken>)
    ensures |r| <= |s|
    ensures forall i :: 0 <= i < |r| ==> r[i].address == Some(contractAddress)
  {
    if s == [] then []
    else
      var last := s[|s| - 1];
      ContractTokensOf(s[..|s| - 1], contractAddress) + (if OfContract(last, contractAddress) then [last.value] else [])
  }

  /** `tokens`: the viewer's tokens of the route's contract (`removeNullValues` of a missing list
      is empty). */
  function ContractTokens(userTokens: Option<seq<Option<PickerToken>>>, contractAddress: string): (r: seq<PickerToken>)
    ensures userTokens.None? ==> r == []
  {
    ContractTokensOf(GetOr(userTokens, []), contractAddress)
  }

  /** A token is kept exactly when it is a present token of the route's contract. */
  lemma {:induction false} ContractTokensMembers(s: seq<Option<PickerToken>>, contractAddress: string, t: PickerToken)
    ensures t in ContractTokensOf(s, contractAddress) <==> Some(t) in s && t.address == Some(contractAddress)
  {
    if s != [] {
      var init := s[..|s| - 1];
      ContractTokensMembers(init, contractAddress, t);
      assert s == init + [s[|s| - 1]];
    }
  }

  /** The filter keeps the order of the viewer's tokens. */
  lemma {:induction false} ContractTokensInOrder(s: seq<Option<PickerToken>>, contractAddress: string)
    ensures IsSubsequence(ContractTokensOf(s, contractAddress), RemoveNulls(s))
  {
    if s != [] {
      var init, last := s[..|s| - 1], s[|s| - 1];
      ContractTokensInOrder(init, contractAddress);
      var r := ContractTokensOf(s, contractAddress);
      var q := RemoveNulls(s);
      if OfContract(last, contractAddress) {
        assert r[..|r| - 1] == ContractTokensOf(init, contractAddress);
        assert q[..|q| - 1] == RemoveNulls(init);
      } else if last.Some? {
        assert r == ContractTokensOf(init, contractAddress);
        assert q[..|q| - 1] == RemoveNulls(init);
      } else {
        assert r == ContractTokensOf(init, contractAddress);
        assert q == RemoveNulls(init);
      }
    }
  }

  /** `contractName`: the header shows the first kept token's contract name. */
  function HeaderName(tokens: seq<PickerToken>): (r: Option<string>)
    ensures tokens == [] ==> r.None?
    ensures tokens != [] ==> r == tokens[0].contractName
  {
    if tokens == [] then None else tokens[0].contractName
  }

  function Flatten(rows: seq<seq<PickerToken>>): seq<PickerToken>
  {
    if rows == [] then [] else Flatten(rows[..|rows| - 1]) + rows[|rows| - 1]
  }

  lemma FlattenPush(rows: seq<seq<PickerToken>>, row: seq<PickerToken>)
    ensures Flatten(rows + [row]) == Flatten(rows) + row
  {
    assert (rows + [row])[..|rows|] == rows;
  }

  /** `rows`: the kept tokens in rows of three, built by `push`ing `tokens.slice(i, i + 3)` for
      `i = 0, 3, 6, …`. */
  method Rows(tokens: seq<PickerToken>) returns (rows: seq<seq<PickerToken>>)
    ensures Flatten(rows) == tokens
    ensures |rows| == (|tokens| + 2) / 3
    ensures forall r :: 0 <= r < |rows| ==> 1 <= |rows[r]| <= 3
    ensures forall r :: 0 <= r < |rows| - 1 ==> |rows[r]| == 3
  {
    rows := [];
    var i := 0;
    while i < |tokens|
      invariant i == 3 * |rows|
      invariant i <= |tokens| ==> Flatten(rows) == tokens[..i]
      invariant i > |tokens| ==> Flatten(rows) == tokens && i < |tokens| + 3
      invariant forall r :: 0 <= r < |rows| ==> 1 <= |rows[r]| <= 3
      invariant forall r :: 0 <= r < |rows| && 3 * (r + 1) <= |tokens| ==> |rows[r]| == 3
      decreases |tokens| - i
    {
      var end := if i + 3 <= |tokens| then i + 3 else |tokens|;
      FlattenPush(rows, tokens[i..end]);
      assert tokens[..i] + tokens[i..end] == tokens[..end];
      rows := rows + [tokens[i..end]];
      i := i + 3;
      if i > |tokens| {
        assert tokens[..end] == tokens;
      }
    }
    if i == |tokens| {
      assert tokens[..i] == tokens;
    }
  }

  /** The empty cells after a row: `Array.from({ length: 3 - row.length })`, whose length
      `ToLength` clamps at 0. */
  function PaddingCells(rowLength: nat): (r: nat)
    ensures rowLength <= 3 ==> rowLength + r == 3
    ensures rowLength >= 3 ==> r == 0
  {
    if 3 - rowLength < 0 then 0 else 3 - rowLength
  }
}
