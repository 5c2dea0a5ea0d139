/** The playlist identifier extractor: the regular-expression search
    `list=([^&]+)` with case-insensitive matching, returning the first
    capture group or `None`. */
module PlaylistId {
  import opened Wrappers

  /** The marker, in lower case. */
  const Marker: string := "list="

  /** ASCII case folding; the only folding the marker needs. */
  function ToLower(c: char): char {
    if 'A' <= c <= 'Z' then (c as int + 32) as char else c
  }

  /** The marker `list=` occurs at position `i` of `url`, ignoring case. */
  predicate MarkerAt(url: string, i: int) {
    && 0 <= i
    && i + |Marker| <= |url|
    && ToLower(url[i]) == 'l'
    && ToLower(url[i + 1]) == 'i'
    && ToLower(url[i + 2]) == 's'
    && ToLower(url[i + 3]) == 't'
    && url[i + 4] == '='
  }

  /** A match of the pattern can start at `i`: the marker, then at least one
      character other than `&` for the group `[^&]+` to consume. */
  predicate MatchStartsAt(url: string, i: int) {
    MarkerAt(url, i) && i + |Marker| < |url| && url[i + |Marker|] != '&'
  }

  /** The reference meaning of a successful search: `id` is the group captured
      by the leftmost match, which starts at `p`. The group is a non-empty run
      without `&`, and it is maximal: the character after it is `&` or there
      is none. */
  ghost predicate IsLeftmostCapture(url: string, p: int, id: string) {
    && MatchStartsAt(url, p)
    && (forall k :: 0 <= k < p ==> !MatchStartsAt(url, k))
    && p + |Marker| + |id| <= |url|
    && url[p + |Marker| .. p + |Marker| + |id|] == id
    && |id| > 0
    && (forall k :: 0 <= k < |id| ==> id[k] != '&')
    && (p + |Marker| + |id| == |url| || url[p + |Marker| + |id|] == '&')
  }

  /** End of the greedy run of non-`&` characters that starts at `j`. */
  function RunEnd(s: string, j: nat): (e: nat)
    requires j <= |s|
    ensures j <= e <= |s|
    ensures e == |s| || s[e] == '&'
    ensures forall k :: j <= k < e ==> s[k] != '&'
    decreases |s| - j
  {
    if j == |s| || s[j] == '&' then j else RunEnd(s, j + 1)
  }

  /** The leftmost position at or after `from` where a match starts. */
  function FindMatch(url: string, from: nat): (r: Option<nat>)
    ensures r.Some? ==> from <= r.value && MatchStartsAt(url, r.value)
    ensures forall k :: from <= k && (r.None? || k < r.value) ==> !MatchStartsAt(url, k)
    decreases |url| - from
  {
    if |url| <= from + |Marker| then None
    else if MatchStartsAt(url, from) then Some(from)
    else FindMatch(url, from + 1)
  }

  /** `extract_id`: the group captured by the leftmost match, or `None`. */
  function ExtractId(url: string): (r: Option<string>)
    ensures r.None? <==> forall k :: !MatchStartsAt(url, k)
    ensures r.Some? ==> exists p :: IsLeftmostCapture(url, p, r.value)
    ensures r.Some? ==> r.value != "" && '&' !in r.value
  {
    match FindMatch(url, 0)
    case None => None
    case Some(p) =>
      var e := RunEnd(url, p + |Marker|);
      var id := url[p + |Marker| .. e];
      assert IsLeftmostCapture(url, p, id);
      Some(id)
  }

  /** The leftmost match and its capture are determined by the URL. */
  lemma CaptureIsUnique(url: string, p: int, id: string, q: int, id': string)
    requires IsLeftmostCapture(url, p, id)
    requires IsLeftmostCapture(url, q, id')
    ensures p == q && id == id'
  {
  }

  /** Both directions: the extractor returns `Some(id)` exactly when `id` is
      the capture of the leftmost match. */
  lemma ExtractIdIsLeftmostCapture(url: string, id: string)
    ensures ExtractId(url) == Some(id) <==> exists p :: IsLeftmostCapture(url, p, id)
  {
  }

  /** No proper suffix of the marker is a prefix of it, so no occurrence of
      the marker can overlap the start of another one. */
  lemma MarkerCannotOverlap(url: string, k: int, p: int)
    requires MarkerAt(url, p)
    requires k < p < k + |Marker|
    ensures !MarkerAt(url, k)
  {
  }

  /** A URL that embeds `list=` followed by `x`, where `x` is a non-empty run
      without `&` ended by `&` or the end of the URL and no marker occurs
      before it, yields exactly `x`. */
  lemma EmbeddedIdIsExtracted(pre: string, x: string, rest: string)
    requires forall k :: !MarkerAt(pre, k)
    requires x != "" && '&' !in x
    requires rest == "" || rest[0] == '&'
    ensures ExtractId(pre + Marker + x + rest) == Some(x)
  {
    var url := pre + Marker + x + rest;
    var p := |pre|;
    assert url[p .. p + |Marker|] == Marker;
    assert MarkerAt(url, p);
    assert url[p + |Marker|] == x[0];
    forall k | 0 <= k < p
      ensures !MatchStartsAt(url, k)
    {
      if k + |Marker| <= p {
        assert !MarkerAt(pre, k);
        assert url[k .. k + |Marker|] == pre[k .. k + |Marker|];
        assert url[k] == pre[k] && url[k + 1] == pre[k + 1] && url[k + 2] == pre[k + 2]
          && url[k + 3] == pre[k + 3] && url[k + 4] == pre[k + 4];
      } else {
        MarkerCannotOverlap(url, k, p);
      }
    }
    var s := p + |Marker|;
    assert url[s .. s + |x|] == x;
    forall k | 0 <= k < |x|
      ensures x[k] != '&'
    {
      assert x[k] in x;
    }
    assert s + |x| == |url| || url[s + |x|] == rest[0];
    assert IsLeftmostCapture(url, p, x);
    ExtractIdIsLeftmostCapture(url, x);
  }

  /** The example URL of a watch page opened from a playlist. */
  lemma ExtractsFromWatchUrl()
    ensures ExtractId("https://x/watch?v=1&list=PL123&index=2") == Some("PL123")
  {
    var pre := "https://x/watch?v=1&";
    assert "https://x/watch?v=1&list=PL123&index=2" == pre + Marker + "PL123" + "&index=2";
    assert forall k :: !MarkerAt(pre, k);
    EmbeddedIdIsExtracted(pre, "PL123", "&index=2");
  }

  /** An empty capture after an earlier marker is skipped in favour of a
      later one, whatever its case. */
  lemma SkipsEmptyCapture()
    ensures ExtractId("?list=&LIST=abc") == Some("abc")
  {
    var url := "?list=&LIST=abc";
    assert MatchStartsAt(url, 7);
    assert forall k :: 0 <= k < 7 ==> !MatchStartsAt(url, k);
    assert url[12 .. 15] == "abc";
    assert IsLeftmostCapture(url, 7, "abc");
    ExtractIdIsLeftmostCapture(url, "abc");
  }
}
