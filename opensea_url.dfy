/** `hexHandler` and `getOpenseaExternalUrl`: the backend hands out token IDs as hexadecimal
    strings; the client turns them back into decimal for the marketplace link. `BigInt` is an
    unbounded `nat` here, and a `BigInt` that throws is an `Err`. */
module OpenseaUrl {
  import opened Common

  predicate IsHexDigit(c: char)
  {
    '0' <= c <= '9' || 'a' <= c <= 'f' || 'A' <= c <= 'F'
  }

  function HexDigitValue(c: char): (v: nat)
    requires IsHexDigit(c)
    ensures v < 16
  {
    if '0' <= c <= '9' then c as int - '0' as int
    else if 'a' <= c <= 'f' then c as int - 'a' as int + 10
    else c as int - 'A' as int + 10
  }

  predicate AllHex(t: string)
  {
    forall i :: 0 <= i < |t| ==> IsHexDigit(t[i])
  }

  /** What `BigInt("0x" + t)` accepts after trimming: at least one hex digit and nothing else. */
  predicate IsHexString(t: string)
  {
    |t| > 0 && AllHex(t)
  }

  /** The number a string of hex digits denotes, most significant digit first. */
  function HexValue(t: string): nat
    requires AllHex(t)
  {
    if t == [] then 0
    else
      assert IsHexDigit(t[|t| - 1]);
      HexValue(t[..|t| - 1]) * 16 + HexDigitValue(t[|t| - 1])
  }

  /** The white space and line terminators that `StringToBigInt` strips from either end. */
  predicate IsJsWhitespace(c: char)
  {
    var n := c as int;
    (0x09 <= n <= 0x0D) || n == 0x20 || n == 0xA0 || n == 0x1680 || (0x2000 <= n <= 0x200A)
    || n == 0x2028 || n == 0x2029 || n == 0x202F || n == 0x205F || n == 0x3000 || n == 0xFEFF
  }

  /** `t` without its trailing white space. Leading white space of the argument plays no part:
      the string given to `BigInt` always starts with `0x`. */
  function TrimEnd(t: string): (r: string)
    ensures |r| <= |t| && r == t[..|r|]
    ensures r != [] ==> !IsJsWhitespace(r[|r| - 1])
    ensures forall i :: |r| <= i < |t| ==> IsJsWhitespace(t[i])
  {
    if t != [] && IsJsWhitespace(t[|t| - 1]) then TrimEnd(t[..|t| - 1]) else t
  }

  /** The odd-length padding step: one `'0'` in front makes the length even. */
  function Padded(s: string): (r: string)
    ensures |r| % 2 == 0
    ensures r == s || r == "0" + s
  {
    if |s| % 2 == 1 then "0" + s else s
  }

  /** `hexHandler(s)`: pad, read as hexadecimal with `BigInt`, print in decimal. */
  function HexHandler(s: string): (r: Result<string>)
    ensures r.Ok? <==> IsHexString(TrimEnd(Padded(s)))
    ensures r.Ok? ==> |r.value| > 0 && (forall i :: 0 <= i < |r.value| ==> IsDecimalDigit(r.value[i]))
    ensures r.Ok? && r.value[0] == '0' ==> r.value == "0"
    ensures r.Err? ==> r.error == "SyntaxError"
  {
    var digits := TrimEnd(Padded(s));
    if IsHexString(digits) then Ok(NatToString(HexValue(digits))) else Err("SyntaxError")
  }

  /** A leading zero digit does not change the value. */
  lemma {:induction false} LeadingZeroValue(t: string)
    requires AllHex(t)
    ensures AllHex("0" + t) && HexValue("0" + t) == HexValue(t)
  {
    assert AllHex("0" + t) by {
      forall i | 0 <= i < |"0" + t| ensures IsHexDigit(("0" + t)[i]) {
        if i > 0 { assert ("0" + t)[i] == t[i - 1]; }
      }
    }
    if t != [] {
      var init := t[..|t| - 1];
      LeadingZeroValue(init);
      assert ("0" + t)[..|"0" + t| - 1] == "0" + init;
    }
  }

  lemma ZerosValue(t: string)
    requires IsHexString(t)
    ensures IsHexString("00" + t) && HexValue("00" + t) == HexValue(t)
  {
    LeadingZeroValue(t);
    LeadingZeroValue("0" + t);
    assert "0" + ("0" + t) == "00" + t;
  }

  lemma {:induction false} TrimEndPrefix(p: string, t: string)
    requires TrimEnd(t) != []
    ensures TrimEnd(p + t) == p + TrimEnd(t)
  {
    if IsJsWhitespace(t[|t| - 1]) {
      assert (p + t)[..|p + t| - 1] == p + t[..|t| - 1];
      TrimEndPrefix(p, t[..|t| - 1]);
    }
  }

  /** Reading an already hexadecimal string: the result is the decimal spelling of its value. */
  lemma HexHandlerOfHex(s: string)
    requires IsHexString(s)
    ensures HexHandler(s) == Ok(NatToString(HexValue(s)))
    ensures DecimalValue(HexHandler(s).value) == HexValue(s)
  {
    assert !IsJsWhitespace(s[|s| - 1]) by { assert IsHexDigit(s[|s| - 1]); }
    if |s| % 2 == 1 {
      LeadingZeroValue(s);
      assert ("0" + s)[|"0" + s| - 1] == s[|s| - 1];
    }
    NatToStringRoundTrip(HexValue(s));
  }

  /** Padding by hand first changes nothing: `hexHandler("0" + s) == hexHandler(s)` for every
      input `hexHandler` accepts. */
  lemma HexHandlerLeadingZero(s: string)
    requires HexHandler(s).Ok?
    ensures HexHandler("0" + s) == HexHandler(s)
  {
    if |s| % 2 == 0 {
      var t := TrimEnd(s);
      assert IsHexString(t);
      var z := "0" + s;
      assert Padded(z) == "00" + s;
      TrimEndPrefix("00", s);
      assert TrimEnd(Padded(z)) == "00" + t;
      ZerosValue(t);
    } else {
      assert Padded("0" + s) == "0" + s;
    }
  }

  /** `BigInt("0x")` throws: an empty token ID is rejected, and so is one of white space only. */
  lemma HexHandlerRejectsBlank(s: string)
    requires |s| % 2 == 0 && forall i :: 0 <= i < |s| ==> IsJsWhitespace(s[i])
    ensures HexHandler(s).Err?
  {
  }

  /** A character that is neither a hex digit nor trailing white space makes `BigInt` throw. */
  lemma HexHandlerRejectsNonHex(s: string, i: int)
    requires 0 <= i < |s| && !IsHexDigit(s[i]) && !IsJsWhitespace(s[i])
    ensures HexHandler(s).Err?
  {
    var p := Padded(s);
    var j := if p == s then i else i + 1;
    assert p[j] == s[i];
    var t := TrimEnd(p);
    if j < |t| {
      assert t[j] == s[i];
    }
  }

  const OpenseaAssetsPrefix: string := "https://opensea.io/assets/"

  /** `getOpenseaExternalUrl(chain, contractAddress, tokenId)`. */
  function OpenseaExternalUrl(chain: string, contractAddress: string, tokenId: string): (r: Result<string>)
    ensures r.Ok? <==> HexHandler(tokenId).Ok?
    ensures r.Err? ==> r == HexHandler(tokenId)
    ensures r.Ok? ==> r.value == OpenseaAssetsPrefix + AsciiLower(chain) + "/" + contractAddress + "/" + HexHandler(tokenId).value
  {
    match HexHandler(tokenId)
    case Ok(decimal) => Ok(OpenseaAssetsPrefix + AsciiLower(chain) + "/" + contractAddress + "/" + decimal)
    case Err(e) => Err(e)
  }

  /** Only the chain is lower-cased: the contract address sits unchanged in the URL, right after
      the lower-cased chain. */
  lemma OpenseaUrlKeepsAddress(chain: string, contractAddress: string, tokenId: string)
    requires OpenseaExternalUrl(chain, contractAddress, tokenId).Ok?
    ensures var u := OpenseaExternalUrl(chain, contractAddress, tokenId).value;
            var start := |OpenseaAssetsPrefix| + |chain| + 1;
            start + |contractAddress| <= |u|
            && u[..|OpenseaAssetsPrefix|] == OpenseaAssetsPrefix
            && u[|OpenseaAssetsPrefix|..start - 1] == AsciiLower(chain)
            && u[start..start + |contractAddress|] == contractAddress
  {
  }
}
