/**
 * Playlist identifiers (src/api/id.rs).
 *
 * `PlaylistId::from_str` runs the unanchored pattern
 *   (?:https?://open\.spotify\.com/playlist/|spotify:playlist:)([a-zA-Z0-9]+)
 * over its input and keeps the first capture group. The pattern is modelled
 * directly as a left-to-right search: the first position where one of the
 * three prefixes occurs and is followed by at least one ASCII letter or
 * digit; the capture is the maximal run of such characters after it.
 */
module PlaylistIds {
  import opened Common
  import opened Errors

  datatype PlaylistId = PlaylistId(value: string)

  const UriPrefix: string := "spotify:playlist:"
  const HttpsUrlPrefix: string := "https://open.spotify.com/playlist/"
  const HttpUrlPrefix: string := "http://open.spotify.com/playlist/"

  /** The three literal texts the prefix group `(?:https?://...|spotify:playlist:)` matches. */
  predicate IsPrefix(p: string) {
    p == HttpsUrlPrefix || p == HttpUrlPrefix || p == UriPrefix
  }

  /** The character class `[a-zA-Z0-9]`. */
  predicate IsAlnum(c: char) {
    'a' <= c <= 'z' || 'A' <= c <= 'Z' || '0' <= c <= '9'
  }

  /** An id the pattern can capture: a non-empty run of `[a-zA-Z0-9]`. */
  predicate IsValidIdText(t: string) {
    |t| > 0 && forall i :: 0 <= i < |t| ==> IsAlnum(t[i])
  }

  predicate StartsWithAt(s: string, i: nat, p: string) {
    i + |p| <= |s| && forall k :: 0 <= k < |p| ==> s[i + k] == p[k]
  }

  /** The prefix alternative that occurs at position `i`, if any. */
  function PrefixAt(s: string, i: nat): (r: Option<string>)
    ensures r.Some? ==> IsPrefix(r.value) && StartsWithAt(s, i, r.value)
  {
    if StartsWithAt(s, i, HttpsUrlPrefix) then Some(HttpsUrlPrefix)
    else if StartsWithAt(s, i, HttpUrlPrefix) then Some(HttpUrlPrefix)
    else if StartsWithAt(s, i, UriPrefix) then Some(UriPrefix)
    else None
  }

  /** Length of the maximal run of `[a-zA-Z0-9]` starting at position `j` (the greedy `+`). */
  function AlnumRun(s: string, j: nat): (n: nat)
    requires j <= |s|
    ensures j + n <= |s|
    ensures forall k :: j <= k < j + n ==> IsAlnum(s[k])
    ensures j + n == |s| || !IsAlnum(s[j + n])
    decreases |s| - j
  {
    if j < |s| && IsAlnum(s[j]) then 1 + AlnumRun(s, j + 1) else 0
  }

  /** The capture of a match that starts exactly at position `i`, if the pattern matches there. */
  function MatchAt(s: string, i: nat): Option<string> {
    match PrefixAt(s, i)
    case None => None
    case Some(p) =>
      var n := AlnumRun(s, i + |p|);
      if n == 0 then None else Some(s[i + |p|..i + |p| + n])
  }

  /** The first capture `at` gives at a position from `i` to `n`, scanning left to right. */
  function FirstCapture(at: nat -> Option<string>, i: nat, n: nat): Option<string>
    requires i <= n
    decreases n - i
  {
    match at(i)
    case Some(c) => Some(c)
    case None => if i == n then None else FirstCapture(at, i + 1, n)
  }

  /** The capture of the leftmost match at or after position `i`. */
  function FindFrom(s: string, i: nat): Option<string>
    requires i <= |s|
  {
    FirstCapture((j: nat) => MatchAt(s, j), i, |s|)
  }

  /** `PlaylistId::from_str` (src/api/id.rs:12-15). */
  function Parse(s: string): Result<PlaylistId, Error> {
    match FindFrom(s, 0)
    case Some(c) => Ok(PlaylistId(c))
    case None => Err(InvalidSpotifyId(s))
  }

  /** `PlaylistId::uri` (src/api/id.rs:20-22). */
  function Uri(id: PlaylistId): (r: string)
    ensures |r| == |UriPrefix| + |id.value|
    ensures r[..|UriPrefix|] == UriPrefix && r[|UriPrefix|..] == id.value
  {
    UriPrefix + id.value
  }

  // ---------------------------------------------------------------------
  // Reference definition of what the pattern search returns.

  /**
   * The pattern matches at position `i` through prefix `p` with capture `c`:
   * `p` occurs at `i`, `c` follows it, `c` is a non-empty alphanumeric run and
   * the run is maximal (the next character, if any, is not alphanumeric).
   */
  ghost predicate CapturesAfter(s: string, i: nat, p: string, c: string) {
    && StartsWithAt(s, i, p)
    && StartsWithAt(s, i + |p|, c)
    && IsValidIdText(c)
    && (i + |p| + |c| == |s| || !IsAlnum(s[i + |p| + |c|]))
  }

  /** The pattern matches at position `i` with capture `c`, through one of its alternatives. */
  ghost predicate CapturesAt(s: string, i: nat, c: string) {
    || CapturesAfter(s, i, HttpsUrlPrefix, c)
    || CapturesAfter(s, i, HttpUrlPrefix, c)
    || CapturesAfter(s, i, UriPrefix, c)
  }

  /** No two prefixes occur at the same position, so `PrefixAt` finds whichever occurs. */
  lemma PrefixAtComplete(s: string, i: nat, p: string)
    requires IsPrefix(p) && StartsWithAt(s, i, p)
    ensures PrefixAt(s, i) == Some(p)
  {
    var q := PrefixAt(s, i);
    assert s[i] == p[0] && s[i + 4] == p[4] by {
      assert s[i..i + |p|][0] == s[i] && s[i..i + |p|][4] == s[i + 4];
    }
    if q.Some? {
      assert s[i] == q.value[0] && s[i + 4] == q.value[4] by {
        assert s[i..i + |q.value|][0] == s[i] && s[i..i + |q.value|][4] == s[i + 4];
      }
    }
  }

  lemma AlnumRunMaximal(s: string, j: nat, n: nat)
    requires j + n <= |s|
    requires forall k :: j <= k < j + n ==> IsAlnum(s[k])
    requires j + n == |s| || !IsAlnum(s[j + n])
    ensures AlnumRun(s, j) == n
    decreases n
  {
    if n > 0 {
      AlnumRunMaximal(s, j + 1, n - 1);
    }
  }

  lemma CapturesAfterMatches(s: string, i: nat, p: string, c: string)
    requires IsPrefix(p) && CapturesAfter(s, i, p, c)
    ensures MatchAt(s, i) == Some(c)
  {
    PrefixAtComplete(s, i, p);
    forall k | i + |p| <= k < i + |p| + |c| ensures IsAlnum(s[k]) {
      assert s[k] == c[k - i - |p|];
    }
    AlnumRunMaximal(s, i + |p|, |c|);
    assert s[i + |p|..i + |p| + |c|] == c;
  }

  lemma CapturesAtMatches(s: string, i: nat, c: string)
    requires CapturesAt(s, i, c)
    ensures MatchAt(s, i) == Some(c)
  {
    if CapturesAfter(s, i, HttpsUrlPrefix, c) {
      CapturesAfterMatches(s, i, HttpsUrlPrefix, c);
    } else if CapturesAfter(s, i, HttpUrlPrefix, c) {
      CapturesAfterMatches(s, i, HttpUrlPrefix, c);
    } else {
      CapturesAfterMatches(s, i, UriPrefix, c);
    }
  }

  lemma MatchesCaptureAt(s: string, i: nat)
    requires i <= |s| && MatchAt(s, i).Some?
    ensures CapturesAt(s, i, MatchAt(s, i).value)
  {
    var p := PrefixAt(s, i).value;
    var c := MatchAt(s, i).value;
    assert CapturesAfter(s, i, p, c);
  }

  /** `MatchAt` agrees with the reference definition at every position. */
  lemma MatchAtSpec(s: string, i: nat, c: string)
    requires i <= |s|
    ensures MatchAt(s, i) == Some(c) <==> CapturesAt(s, i, c)
  {
    if CapturesAt(s, i, c) {
      CapturesAtMatches(s, i, c);
    }
    if MatchAt(s, i) == Some(c) {
      MatchesCaptureAt(s, i);
    }
  }

  /** When the scan succeeds, it returns the capture at some position with none before it. */
  lemma {:induction false} FirstCaptureSome(at: nat -> Option<string>, i: nat, n: nat) returns (k: nat)
    requires i <= n && FirstCapture(at, i, n).Some?
    ensures i <= k <= n && at(k) == FirstCapture(at, i, n)
    ensures forall j :: i <= j < k ==> at(j).None?
    decreases n - i
  {
    if at(i).Some? {
      k := i;
    } else {
      k := FirstCaptureSome(at, i + 1, n);
    }
  }

  /** The scan fails exactly when no position from `i` to `n` captures. */
  lemma {:induction false} FirstCaptureNone(at: nat -> Option<string>, i: nat, n: nat)
    requires i <= n
    ensures FirstCapture(at, i, n).None? <==> forall j :: i <= j <= n ==> at(j).None?
    decreases n - i
  {
    if at(i).None? && i < n {
      FirstCaptureNone(at, i + 1, n);
    }
  }

  /**
   * `Parse` returns the capture of the leftmost position where the pattern
   * matches, and fails with `InvalidSpotifyId` carrying the whole input
   * exactly when the pattern matches nowhere.
   */
  lemma ParseIsLeftmostMatch(s: string)
    ensures Parse(s).Ok? ==>
      exists i :: 0 <= i <= |s| && CapturesAt(s, i, Parse(s).value.value)
        && forall j, c :: 0 <= j < i ==> !CapturesAt(s, j, c)
    ensures Parse(s).Err? <==> forall i, c :: 0 <= i <= |s| ==> !CapturesAt(s, i, c)
    ensures Parse(s).Err? ==> Parse(s).error == InvalidSpotifyId(s)
  {
    if Parse(s).Ok? {
      ParseFindsLeftmost(s);
    }
    ParseFindsNothing(s);
  }

  /** A successful parse is the capture of some position, with none before it. */
  lemma ParseFindsLeftmost(s: string)
    requires Parse(s).Ok?
    ensures exists i ::
      && 0 <= i <= |s| && CapturesAt(s, i, Parse(s).value.value)
      && forall j, c :: 0 <= j < i ==> !CapturesAt(s, j, c)
  {
    var at := (j: nat) => MatchAt(s, j);
    var k := FirstCaptureSome(at, 0, |s|);
    assert at(k) == Some(Parse(s).value.value);
    MatchAtSpec(s, k, Parse(s).value.value);
    forall j, c | 0 <= j < k ensures !CapturesAt(s, j, c) {
      assert at(j).None?;
      MatchAtSpec(s, j, c);
    }
  }

  /** A parse fails, naming the whole input, exactly when no position captures. */
  lemma ParseFindsNothing(s: string)
    ensures Parse(s).Err? <==> forall i, c :: 0 <= i <= |s| ==> !CapturesAt(s, i, c)
    ensures Parse(s).Err? ==> Parse(s).error == InvalidSpotifyId(s)
  {
    var at := (j: nat) => MatchAt(s, j);
    FirstCaptureNone(at, 0, |s|);
    if Parse(s).Err? {
      forall i, c | 0 <= i <= |s| ensures !CapturesAt(s, i, c) {
        assert at(i).None?;
        MatchAtSpec(s, i, c);
      }
    } else {
      var k := FirstCaptureSome(at, 0, |s|);
      MatchAtSpec(s, k, Parse(s).value.value);
    }
  }

  /**
   * An id written after any of the three prefixes at the start of the input
   * is recovered, whatever non-alphanumeric text follows it (a query string,
   * for instance).
   */
  lemma ParsePrefixed(p: string, id: PlaylistId, rest: string)
    requires IsPrefix(p) && IsValidIdText(id.value)
    requires rest == [] || !IsAlnum(rest[0])
    ensures Parse(p + id.value + rest) == Ok(id)
  {
    var s := p + id.value + rest;
    assert StartsWithAt(s, 0, p) by { assert s[..|p|] == p; }
    assert StartsWithAt(s, |p|, id.value) by { assert s[|p|..|p| + |id.value|] == id.value; }
    assert |p| + |id.value| == |s| || !IsAlnum(s[|p| + |id.value|]) by {
      if rest != [] { assert s[|p| + |id.value|] == rest[0]; }
    }
    assert CapturesAfter(s, 0, p, id.value);
    MatchAtSpec(s, 0, id.value);
  }

  /** Round trip: the URI of a well-formed id parses back to that id. */
  lemma ParseUri(id: PlaylistId)
    requires IsValidIdText(id.value)
    ensures Parse(Uri(id)) == Ok(id)
  {
    ParsePrefixed(UriPrefix, id, []);
    assert UriPrefix + id.value + [] == Uri(id);
  }

  /**
   * A successful parse always yields a well-formed id, whose URI then parses
   * back to it: the URI is the canonical text of whatever was parsed.
   */
  lemma ParseYieldsValidId(s: string)
    ensures Parse(s).Ok? ==> IsValidIdText(Parse(s).value.value)
    ensures Parse(s).Ok? ==> Parse(Uri(Parse(s).value)) == Parse(s)
  {
    ParseIsLeftmostMatch(s);
    if Parse(s).Ok? {
      ParseUri(Parse(s).value);
    }
  }

  /**
   * The inputs of the crate's own test (src/api/id.rs:36-55) parse to the bare
   * id, not to the full URI that the test expects.
   */
  lemma ParsesTestUri()
    ensures Parse(UriPrefix + "EX3J5Phq9j7KcpkZJskhRP") == Ok(PlaylistId("EX3J5Phq9j7KcpkZJskhRP"))
  {
    ParseUri(PlaylistId("EX3J5Phq9j7KcpkZJskhRP"));
  }

  lemma ParsesTestUrlWithQuery()
    ensures Parse(HttpsUrlPrefix + "EX3J5Phq9j7KcpkZJskhRP" + "?some=other&query=params")
      == Ok(PlaylistId("EX3J5Phq9j7KcpkZJskhRP"))
  {
    ParsePrefixed(HttpsUrlPrefix, PlaylistId("EX3J5Phq9j7KcpkZJskhRP"), "?some=other&query=params");
  }

  /** Each prefix carries a colon, so wherever one occurs the text has a colon. */
  lemma PrefixHasColon(s: string, i: nat, p: string)
    requires IsPrefix(p) && StartsWithAt(s, i, p)
    ensures exists k :: 0 <= k < |s| && s[k] == ':'
  {
    var k := if p == HttpsUrlPrefix then 5 else if p == HttpUrlPrefix then 4 else 7;
    assert s[i + k] == p[k];
  }

  /** Text without a colon never parses. */
  lemma {:induction false} ParseNeedsColon(s: string)
    requires forall k :: 0 <= k < |s| ==> s[k] != ':'
    ensures Parse(s) == Err(InvalidSpotifyId(s))
  {
    forall i | 0 <= i <= |s| ensures PrefixAt(s, i).None? {
      if PrefixAt(s, i).Some? {
        PrefixHasColon(s, i, PrefixAt(s, i).value);
      }
    }
    FirstCaptureNone((j: nat) => MatchAt(s, j), 0, |s|);
  }

  /** The crate's test input without any prefix is rejected (src/api/id.rs:30-31). */
  lemma RejectsTestBadId()
    ensures Parse("some bad id").Err?
  {
    var s := "some bad id";
    ParseNeedsColon(s);
  }
}
