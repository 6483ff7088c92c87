/**
 * The parts of Go's `strings` package that the document server relies on:
 * `HasPrefix`, `Index`, `SplitN`, `Join` and `TrimSpace`. Strings are
 * sequences of Unicode code points.
 */
module GoStrings {
  import opened Wrappers

  /** `sep` occurs in `s` starting at position `j`. */
  predicate OccursAt(s: string, sep: string, j: nat) {
    j + |sep| <= |s| && s[j..j + |sep|] == sep
  }

  /** strings.HasPrefix */
  predicate HasPrefix(s: string, prefix: string) {
    OccursAt(s, prefix, 0)
  }

  /** strings.Contains */
  predicate Contains(s: string, sep: string) {
    exists j: nat :: j <= |s| && OccursAt(s, sep, j)
  }

  /** The first occurrence of `sep` in `s` at or after position `k`. */
  function IndexFrom(s: string, sep: string, k: nat): (r: Option<nat>)
    requires k <= |s|
    ensures r.Some? ==> k <= r.value && OccursAt(s, sep, r.value)
    ensures r.Some? ==> forall j: nat :: k <= j < r.value ==> !OccursAt(s, sep, j)
    ensures r.None? ==> forall j: nat :: k <= j ==> !OccursAt(s, sep, j)
    decreases |s| - k
  {
    if k + |sep| > |s| then None
    else if s[k..k + |sep|] == sep then Some(k)
    else IndexFrom(s, sep, k + 1)
  }

  /** strings.Index, with None standing for Go's -1. */
  function Index(s: string, sep: string): (r: Option<nat>)
    ensures r.Some? ==> OccursAt(s, sep, r.value)
    ensures r.Some? ==> forall j: nat :: j < r.value ==> !OccursAt(s, sep, j)
    ensures r.None? <==> !Contains(s, sep)
  {
    IndexFrom(s, sep, 0)
  }

  /** strings.Join */
  function Join(parts: seq<string>, sep: string): string {
    if |parts| == 0 then ""
    else if |parts| == 1 then parts[0]
    else parts[0] + sep + Join(parts[1..], sep)
  }

  /** The part of `s` before the first occurrence of `sep` holds no occurrence of `sep`. */
  lemma {:induction false} NoOccurrenceBefore(s: string, sep: string, i: nat)
    requires sep != [] && OccursAt(s, sep, i)
    requires forall j: nat :: j < i ==> !OccursAt(s, sep, j)
    ensures !Contains(s[..i], sep)
  {
    forall j: nat | j <= i
      ensures !OccursAt(s[..i], sep, j)
    {
      if j + |sep| <= i {
        assert s[..i][j..j + |sep|] == s[j..j + |sep|];
        assert !OccursAt(s, sep, j);
      }
    }
  }

  /** An occurrence of `sep` with none before it is the one Index finds. */
  lemma IndexFindsFirstOccurrence(s: string, sep: string, k: nat)
    requires OccursAt(s, sep, k)
    requires forall j: nat :: j < k ==> !OccursAt(s, sep, j)
    ensures Index(s, sep) == Some(k)
  {
    assert k <= |s|;
  }

  /**
   * What SplitN promises: between 1 and n pieces that join back to `s`;
   * every piece but the last ends where the first occurrence of `sep` in the
   * text that remains begins; and when fewer than n pieces came out, the last
   * holds no `sep`.
   */
  predicate SplitPieces(s: string, sep: string, n: nat, parts: seq<string>) {
    && 1 <= |parts| <= n
    && Join(parts, sep) == s
    && (forall i :: 0 <= i < |parts| - 1 ==> Index(Join(parts[i..], sep), sep) == Some(|parts[i]|))
    && (|parts| < n ==> !Contains(parts[|parts| - 1], sep))
  }

  /**
   * Cutting `s` at its first occurrence of `sep` and splitting the rest into
   * at most n - 1 pieces gives at most n pieces of `s`.
   */
  lemma SplitStep(s: string, sep: string, i: nat, n: nat, rest: seq<string>)
    requires sep != [] && OccursAt(s, sep, i)
    requires forall j: nat :: j < i ==> !OccursAt(s, sep, j)
    requires n >= 2 && SplitPieces(s[i + |sep|..], sep, n - 1, rest)
    ensures SplitPieces(s, sep, n, [s[..i]] + rest)
  {
    var parts := [s[..i]] + rest;
    assert parts[1..] == rest;
    assert s == s[..i] + sep + s[i + |sep|..];
    assert Join(parts, sep) == s;
    forall k | 0 <= k < |parts| - 1
      ensures Index(Join(parts[k..], sep), sep) == Some(|parts[k]|)
    {
      if k == 0 {
        assert parts[k..] == parts;
        IndexFindsFirstOccurrence(s, sep, i);
      } else {
        assert parts[k..] == rest[k - 1..];
      }
    }
  }

  /** A piece cut off at the first occurrence of `sep` holds no `sep` itself. */
  lemma SplitPiecesHoldNoSeparator(s: string, sep: string, n: nat, parts: seq<string>, i: nat)
    requires sep != [] && SplitPieces(s, sep, n, parts) && i < |parts| - 1
    ensures !Contains(parts[i], sep)
  {
    var t := Join(parts[i..], sep);
    assert parts[i..][0] == parts[i] && parts[i..][1..] == parts[i + 1..];
    assert t == parts[i] + sep + Join(parts[i + 1..], sep);
    assert t[..|parts[i]|] == parts[i];
    NoOccurrenceBefore(t, sep, |parts[i]|);
  }

  /**
   * strings.SplitN for n >= 1 and a non-empty separator: at most n pieces,
   * cut at the first n - 1 occurrences of `sep`, the last piece holding the rest.
   */
  function SplitN(s: string, sep: string, n: nat): (parts: seq<string>)
    requires n >= 1 && sep != []
    ensures SplitPieces(s, sep, n, parts)
    decreases n
  {
    if n == 1 then [s]
    else
      match Index(s, sep)
      case None => [s]
      case Some(i) =>
        var rest := SplitN(s[i + |sep|..], sep, n - 1);
        SplitStep(s, sep, i, n, rest);
        [s[..i]] + rest
  }

  /** unicode.IsSpace */
  predicate IsSpace(c: char) {
    c == '\t' || c == '\n' || c == '\U{000B}' || c == '\U{000C}' || c == '\r' || c == ' '
    || c == '\U{0085}' || c == '\U{00A0}' || c == '\U{1680}'
    || ('\U{2000}' <= c <= '\U{200A}')
    || c == '\U{2028}' || c == '\U{2029}' || c == '\U{202F}' || c == '\U{205F}' || c == '\U{3000}'
  }

  predicate AllSpace(s: string) {
    forall i :: 0 <= i < |s| ==> IsSpace(s[i])
  }

  /** A white-space character followed by white space is white space. */
  lemma SpaceBeforeSpaces(s: string, r: string)
    requires s != [] && IsSpace(s[0])
    requires |r| <= |s[1..]| && r == s[1..][|s[1..]| - |r|..] && AllSpace(s[1..][..|s[1..]| - |r|])
    ensures r == s[|s| - |r|..] && AllSpace(s[..|s| - |r|])
  {
    assert s[..|s| - |r|] == [s[0]] + s[1..][..|s[1..]| - |r|];
  }

  /** strings.TrimLeftFunc(s, unicode.IsSpace): drops the leading white space. */
  function TrimLeftSpace(s: string): (r: string)
    ensures |r| <= |s| && r == s[|s| - |r|..]
    ensures AllSpace(s[..|s| - |r|])
    ensures r == [] || !IsSpace(r[0])
  {
    if s != [] && IsSpace(s[0]) then
      var r := TrimLeftSpace(s[1..]);
      SpaceBeforeSpaces(s, r);
      r
    else s
  }

  /** strings.TrimRightFunc(s, unicode.IsSpace): drops the trailing white space. */
  function TrimRightSpace(s: string): (r: string)
    ensures |r| <= |s| && r == s[..|r|]
    ensures AllSpace(s[|r|..])
    ensures r == [] || !IsSpace(r[|r| - 1])
  {
    if s != [] && IsSpace(s[|s| - 1]) then
      var r := TrimRightSpace(s[..|s| - 1]);
      assert s[|r|..] == s[..|s| - 1][|r|..] + [s[|s| - 1]];
      r
    else s
  }

  /** strings.TrimSpace: drops the white space at both ends. */
  function TrimSpace(s: string): string {
    TrimRightSpace(TrimLeftSpace(s))
  }

  /**
   * Cutting white space off the front of `s` (leaving `left`) and then off the
   * back of `left` (leaving `r`) keeps a middle slice of `s`.
   */
  lemma MiddleCut(s: string, left: string, r: string)
    requires |left| <= |s| && left == s[|s| - |left|..] && AllSpace(s[..|s| - |left|])
    requires |r| <= |left| && r == left[..|r|] && AllSpace(left[|r|..])
    ensures exists i, j :: 0 <= i <= j <= |s| && r == s[i..j] && AllSpace(s[..i]) && AllSpace(s[j..])
  {
    var i := |s| - |left|;
    var j := i + |r|;
    assert r == s[i..j] && s[j..] == left[|r|..];
  }

  /** TrimSpace leaves no white space at either end. */
  lemma TrimSpaceEnds(s: string)
    ensures var r := TrimSpace(s);
      r == [] || (!IsSpace(r[0]) && !IsSpace(r[|r| - 1]))
  {
    var left := TrimLeftSpace(s);
    var r := TrimRightSpace(left);
    assert r != [] ==> r[0] == left[0];
  }

  /**
   * TrimSpace keeps the middle of `s`: only white space is dropped, and the
   * result neither starts nor ends with white space.
   */
  lemma TrimSpaceIsMiddle(s: string)
    ensures var r := TrimSpace(s);
      exists i, j :: 0 <= i <= j <= |s| && r == s[i..j] && AllSpace(s[..i]) && AllSpace(s[j..])
    ensures var r := TrimSpace(s);
      r == [] || (!IsSpace(r[0]) && !IsSpace(r[|r| - 1]))
  {
    MiddleCut(s, TrimLeftSpace(s), TrimSpace(s));
    TrimSpaceEnds(s);
  }

  /** Leading white space does not reach the trimmed result. */
  lemma TrimSpaceSkipsLeadingSpace(c: char, s: string)
    requires IsSpace(c)
    ensures TrimSpace([c] + s) == TrimSpace(s)
  {
    assert ([c] + s)[1..] == s;
  }

  /** A string without white space at either end is its own trimming. */
  lemma TrimSpaceKeepsTrimmed(s: string)
    requires s == [] || (!IsSpace(s[0]) && !IsSpace(s[|s| - 1]))
    ensures TrimSpace(s) == s
  {
  }

  /** Trimming twice is trimming once. */
  lemma TrimSpaceIdempotent(s: string)
    ensures TrimSpace(TrimSpace(s)) == TrimSpace(s)
  {
    TrimSpaceIsMiddle(s);
    TrimSpaceKeepsTrimmed(TrimSpace(s));
  }
}
