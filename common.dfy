/** Shared vocabulary for the gallery client model: nullable values as the client sees them
    from its GraphQL data, JavaScript truthiness, and the list helpers (`filter`,
    `removeNullValues`, `reverse`) that the components are built from. */
module Common {

  /** A GraphQL field that may be `null`. */
  datatype Option<+T> = None | Some(value: T)

  /** The outcome of code that may throw: the value, or the message of the thrown error. */
  datatype Result<+T> = Ok(value: T) | Err(error: string)

  /** `o ?? d` */
  function GetOr<T>(o: Option<T>, d: T): (r: T)
    ensures o.Some? ==> r == o.value
    ensures o.None? ==> r == d
  {
    match o
    case Some(v) => v
    case None => d
  }

  /** JavaScript truthiness of a nullable string: present and non-empty. */
  predicate Truthy(s: Option<string>)
  {
    s.Some? && s.value != ""
  }

  /** JavaScript truthiness of a nullable list length (`xs?.length`). */
  predicate NonEmpty<T>(xs: Option<seq<T>>)
  {
    xs.Some? && |xs.value| > 0
  }

  /** What a template literal prints for a nullable string field: `null` prints as "null". */
  function Template(s: Option<string>): (r: string)
    ensures s.Some? ==> r == s.value
    ensures s.None? ==> r == "null"
  {
    match s
    case Some(v) => v
    case None => "null"
  }

  /** ASCII lower-casing, standing in for `toLowerCase` / `toLocaleLowerCase`. */
  function LowerChar(c: char): (r: char)
    ensures 'A' <= c <= 'Z' ==> r as int == c as int + 32
    ensures !('A' <= c <= 'Z') ==> r == c
  {
    if 'A' <= c <= 'Z' then (c as int + 32) as char else c
  }

  function AsciiLower(s: string): (r: string)
    ensures |r| == |s|
    ensures forall i :: 0 <= i < |s| ==> r[i] == LowerChar(s[i])
  {
    if s == [] then [] else AsciiLower(s[..|s| - 1]) + [LowerChar(s[|s| - 1])]
  }

  /** The number of UTF-16 code units `c` takes: two for a character outside the Basic
      Multilingual Plane (a surrogate pair), one otherwise. */
  function Utf16Units(c: char): (r: nat)
    ensures r == 1 || r == 2
    ensures r == 2 <==> c >= '\U{10000}'
  {
    if c >= '\U{10000}' then 2 else 1
  }

  /** `String.prototype.length`: the length of `s` in UTF-16 code units. */
  function Utf16Length(s: string): (r: nat)
    ensures |s| <= r <= 2 * |s|
  {
    if s == [] then 0 else Utf16Length(s[..|s| - 1]) + Utf16Units(s[|s| - 1])
  }

  /** The code-unit length is additive over concatenation. */
  lemma {:induction false} Utf16LengthAppend(a: string, b: string)
    ensures Utf16Length(a + b) == Utf16Length(a) + Utf16Length(b)
    decreases |b|
  {
    if b == [] {
      assert a + b == a;
    } else {
      Utf16LengthAppend(a, b[..|b| - 1]);
      assert (a + b)[..|a + b| - 1] == a + b[..|b| - 1];
      assert (a + b)[|a + b| - 1] == b[|b| - 1];
    }
  }

  /** A text wholly inside the Basic Multilingual Plane has as many code units as characters. */
  lemma {:induction false} Utf16LengthOfBmp(s: string)
    requires forall i :: 0 <= i < |s| ==> s[i] < '\U{10000}'
    ensures Utf16Length(s) == |s|
  {
    if s != [] {
      Utf16LengthOfBmp(s[..|s| - 1]);
    }
  }

  /** A text of astral characters only, such as emoji, counts two code units for each. */
  lemma {:induction false} Utf16LengthOfAstral(s: string)
    requires forall i :: 0 <= i < |s| ==> s[i] >= '\U{10000}'
    ensures Utf16Length(s) == 2 * |s|
  {
    if s != [] {
      Utf16LengthOfAstral(s[..|s| - 1]);
    }
  }

  // ---------------------------------------------------------------------------------------
  // Decimal printing (`Number.prototype.toString()` / `BigInt.prototype.toString(10)`)
  // ---------------------------------------------------------------------------------------

  predicate IsDecimalDigit(c: char)
  {
    '0' <= c <= '9'
  }

  function DigitChar(d: nat): (c: char)
    requires d < 10
    ensures IsDecimalDigit(c) && c as int - '0' as int == d
  {
    ('0' as int + d) as char
  }

  /** The value of a string of decimal digits, read most significant digit first. */
  function DecimalValue(s: string): nat
    requires forall i :: 0 <= i < |s| ==> IsDecimalDigit(s[i])
  {
    if s == [] then 0
    else
      assert IsDecimalDigit(s[|s| - 1]);
      DecimalValue(s[..|s| - 1]) * 10 + (s[|s| - 1] as int - '0' as int)
  }

  /** The canonical decimal spelling of `n`: digits only, no leading zero unless it is "0". */
  function NatToString(n: nat): (r: string)
    ensures |r| > 0
    ensures forall i :: 0 <= i < |r| ==> IsDecimalDigit(r[i])
    ensures r[0] == '0' ==> r == "0"
    ensures n < 10 <==> |r| == 1
  {
    if n < 10 then [DigitChar(n)] else NatToString(n / 10) + [DigitChar(n % 10)]
  }

  /** Reading the printed number back gives the number. */
  lemma {:induction false} NatToStringRoundTrip(n: nat)
    ensures DecimalValue(NatToString(n)) == n
  {
    var r := NatToString(n);
    if n >= 10 {
      NatToStringRoundTrip(n / 10);
      assert r[..|r| - 1] == NatToString(n / 10);
    }
  }

  /** Printing is injective: distinct numbers print differently. */
  lemma NatToStringInjective(m: nat, n: nat)
    requires NatToString(m) == NatToString(n)
    ensures m == n
  {
    NatToStringRoundTrip(m);
    NatToStringRoundTrip(n);
  }

  /** `String(n)` for an integer-valued JavaScript number. */
  function IntToString(n: int): (r: string)
    ensures n >= 0 ==> r == NatToString(n)
    ensures n < 0 ==> r == "-" + NatToString(-n)
  {
    if n >= 0 then NatToString(n) else "-" + NatToString(-n)
  }

  // ---------------------------------------------------------------------------------------
  // Lists
  // ---------------------------------------------------------------------------------------

  /** `s.filter(p)`, defined by its last element so that a loop that pushes matches it. */
  function Filter<T>(s: seq<T>, p: T -> bool): (r: seq<T>)
    ensures |r| <= |s|
  {
    if s == [] then []
    else Filter(s[..|s| - 1], p) + (if p(s[|s| - 1]) then [s[|s| - 1]] else [])
  }

  /** The filter holds exactly the elements of `s` that satisfy `p`. */
  lemma {:induction false} FilterMembers<T>(s: seq<T>, p: T -> bool, x: T)
    ensures x in Filter(s, p) <==> x in s && p(x)
  {
    if s != [] {
      FilterMembers(s[..|s| - 1], p, x);
      assert s == s[..|s| - 1] + [s[|s| - 1]];
    }
  }

  /** Filtering keeps each kept element exactly as often as it occurs. */
  lemma {:induction false} FilterMultiset<T>(s: seq<T>, p: T -> bool, x: T)
    ensures multiset(Filter(s, p))[x] == if p(x) then multiset(s)[x] else 0
  {
    if s != [] {
      var init, last := s[..|s| - 1], s[|s| - 1];
      FilterMultiset(init, p, x);
      assert s == init + [last];
    }
  }

  /** Filtering a sequence whose every element satisfies `p` leaves it unchanged. */
  lemma {:induction false} FilterAllKept<T>(s: seq<T>, p: T -> bool)
    requires forall i :: 0 <= i < |s| ==> p(s[i])
    ensures Filter(s, p) == s
  {
    if s != [] {
      FilterAllKept(s[..|s| - 1], p);
      assert s[..|s| - 1] + [s[|s| - 1]] == s;
    }
  }

  /** The filter of a pushed list is the filter extended by the pushed element when it is kept. */
  lemma FilterPush<T>(s: seq<T>, x: T, p: T -> bool)
    ensures Filter(s + [x], p) == Filter(s, p) + (if p(x) then [x] else [])
  {
    assert (s + [x])[..|s + [x]| - 1] == s;
  }

  /** `a` is `b` with some elements left out, order kept. */
  ghost predicate IsSubsequence<T>(a: seq<T>, b: seq<T>)
    decreases |b|
  {
    if a == [] then true
    else if b == [] then false
    else (a[|a| - 1] == b[|b| - 1] && IsSubsequence(a[..|a| - 1], b[..|b| - 1]))
         || IsSubsequence(a, b[..|b| - 1])
  }

  lemma {:induction false} FilterIsSubsequence<T>(s: seq<T>, p: T -> bool)
    ensures IsSubsequence(Filter(s, p), s)
  {
    if s != [] {
      var init := s[..|s| - 1];
      FilterIsSubsequence(init, p);
      var r := Filter(s, p);
      if p(s[|s| - 1]) {
        assert r == Filter(init, p) + [s[|s| - 1]];
        assert r[..|r| - 1] == Filter(init, p);
        assert s[..|s| - 1] == init;
      } else {
        assert r == Filter(init, p);
      }
    }
  }

  /** `removeNullValues(xs)`: the present elements, in order. */
  function RemoveNulls<T>(s: seq<Option<T>>): (r: seq<T>)
    ensures |r| <= |s|
  {
    if s == [] then []
    else RemoveNulls(s[..|s| - 1]) + (if s[|s| - 1].Some? then [s[|s| - 1].value] else [])
  }

  /** `removeNullValues` keeps exactly the present values. */
  lemma {:induction false} RemoveNullsMembers<T>(s: seq<Option<T>>, x: T)
    ensures x in RemoveNulls(s) <==> Some(x) in s
  {
    if s != [] {
      RemoveNullsMembers(s[..|s| - 1], x);
      assert s == s[..|s| - 1] + [s[|s| - 1]];
    }
  }

  lemma RemoveNullsPush<T>(s: seq<Option<T>>, x: Option<T>)
    ensures RemoveNulls(s + [x]) == RemoveNulls(s) + (if x.Some? then [x.value] else [])
  {
    assert (s + [x])[..|s + [x]| - 1] == s;
  }

  /** Each present value survives `removeNullValues` exactly as often as it occurs. */
  lemma {:induction false} RemoveNullsMultiset<T>(s: seq<Option<T>>, x: T)
    ensures multiset(RemoveNulls(s))[x] == multiset(s)[Some(x)]
  {
    if s != [] {
      RemoveNullsMultiset(s[..|s| - 1], x);
      assert s == s[..|s| - 1] + [s[|s| - 1]];
    }
  }

  /** Without nulls there is nothing to remove. */
  lemma {:induction false} RemoveNullsNone<T>(s: seq<Option<T>>)
    requires forall i :: 0 <= i < |s| ==> s[i].Some?
    ensures |RemoveNulls(s)| == |s|
  {
    if s != [] {
      RemoveNullsNone(s[..|s| - 1]);
    }
  }

  /** With every entry present, `removeNullValues` only unwraps. */
  lemma {:induction false} RemoveNullsAllPresent<T>(s: seq<Option<T>>)
    requires forall i :: 0 <= i < |s| ==> s[i].Some?
    ensures |RemoveNulls(s)| == |s| && forall i :: 0 <= i < |s| ==> RemoveNulls(s)[i] == s[i].value
  {
    if s != [] {
      RemoveNullsAllPresent(s[..|s| - 1]);
    }
  }

  /** `[...s].reverse()` */
  function Reverse<T>(s: seq<T>): (r: seq<T>)
    ensures |r| == |s|
    ensures forall i :: 0 <= i < |s| ==> r[i] == s[|s| - 1 - i]
  {
    if s == [] then [] else [s[|s| - 1]] + Reverse(s[..|s| - 1])
  }

  lemma {:induction false} ReverseMultiset<T>(s: seq<T>)
    ensures multiset(Reverse(s)) == multiset(s)
  {
    if s != [] {
      ReverseMultiset(s[..|s| - 1]);
      assert s == s[..|s| - 1] + [s[|s| - 1]];
    }
  }

  /** `Array.prototype.reverse()`: reverses the array in place. */
  method ReverseInPlace<T>(a: array<T>)
    modifies a
    ensures a[..] == Reverse(old(a[..]))
  {
    var n := a.Length;
    ghost var orig := a[..];
    var i := 0;
    while i < n / 2
      invariant 0 <= i <= n / 2
      // the first and last `i` cells already hold the reversed list; the middle is untouched
      invariant forall k :: 0 <= k < i ==> a[k] == orig[n - 1 - k]
      invariant forall k :: n - i <= k < n ==> a[k] == orig[n - 1 - k]
      invariant forall k :: i <= k < n - i ==> a[k] == orig[k]
    {
      a[i], a[n - 1 - i] := a[n - 1 - i], a[i];
      i := i + 1;
    }
    assert forall k :: 0 <= k < n ==> a[k] == Reverse(orig)[k];
  }

  /** Copies a list into a fresh array, reverses that in place, and hands back its contents:
      the `interactions.reverse()` step of the comment and feed lists. */
  method ReversedCopy<T>(s: seq<T>) returns (r: seq<T>)
    ensures r == Reverse(s)
  {
    if |s| == 0 {
      return [];
    }
    var a := new T[|s|](i requires 0 <= i < |s| => s[i]);
    assert a[..] == s;
    ReverseInPlace(a);
    r := a[..];
  }

  /** One more edge extends the kept nodes by that edge's node when it is present and kept. */
  lemma NodesPush<N>(edges: seq<Option<Option<N>>>, e: Option<Option<N>>, keep: N -> bool)
    ensures e.Some? && e.value.Some? && keep(e.value.value) ==>
              Filter(RemoveNulls(RemoveNulls(edges + [e])), keep)
              == Filter(RemoveNulls(RemoveNulls(edges)), keep) + [e.value.value]
    ensures !(e.Some? && e.value.Some? && keep(e.value.value)) ==>
              Filter(RemoveNulls(RemoveNulls(edges + [e])), keep) == Filter(RemoveNulls(RemoveNulls(edges)), keep)
  {
    RemoveNullsPush(edges, e);
    if e.None? {
      assert RemoveNulls(edges + [e]) == RemoveNulls(edges);
    } else {
      assert RemoveNulls(edges + [e]) == RemoveNulls(edges) + [e.value];
      RemoveNullsPush(RemoveNulls(edges), e.value);
      if e.value.None? {
        assert RemoveNulls(RemoveNulls(edges) + [e.value]) == RemoveNulls(RemoveNulls(edges));
      } else {
        assert RemoveNulls(RemoveNulls(edges) + [e.value]) == RemoveNulls(RemoveNulls(edges)) + [e.value.value];
        FilterPush(RemoveNulls(RemoveNulls(edges)), e.value.value, keep);
      }
    }
  }

  /** Each kept node occurs among the collected nodes exactly as often as it occurs as the node
      of a present edge. */
  lemma NodesMultiset<N>(edges: seq<Option<Option<N>>>, keep: N -> bool, x: N)
    ensures multiset(Filter(RemoveNulls(RemoveNulls(edges)), keep))[x]
         == if keep(x) then multiset(edges)[Some(Some(x))] else 0
  {
    FilterMultiset(RemoveNulls(RemoveNulls(edges)), keep, x);
    RemoveNullsMultiset(RemoveNulls(edges), x);
    RemoveNullsMultiset(edges, Some(x));
  }

  /** A loop over `edges` that pushes `node` of every present edge whose node is present and
      satisfies `keep`; the shape of the comment, feed and activity lists. */
  method CollectNodes<N>(edges: seq<Option<Option<N>>>, keep: N -> bool) returns (r: seq<N>)
    ensures r == Filter(RemoveNulls(RemoveNulls(edges)), keep)
  {
    r := [];
    var i := 0;
    while i < |edges|
      invariant 0 <= i <= |edges|
      invariant r == Filter(RemoveNulls(RemoveNulls(edges[..i])), keep)
    {
      var e := edges[i];
      assert edges[..i + 1] == edges[..i] + [e];
      NodesPush(edges[..i], e, keep);
      if e.Some? && e.value.Some? && keep(e.value.value) {
        r := r + [e.value.value];
      }
      assert r == Filter(RemoveNulls(RemoveNulls(edges[..i + 1])), keep);
      i := i + 1;
    }
    assert edges[..i] == edges;
  }
}
