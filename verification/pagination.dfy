/** Cursor-driven enumeration of a playlist: `get_playlist_items` and
    `get_video_urls`. The catalogue provider is a function from the page token
    sent with a request to the page it answers with. */
module Pagination {
  import opened Wrappers

  /** One response of the provider: an optional `items` list and an optional
      `nextPageToken`. */
  datatype Page<T> = Page(items: Option<seq<T>>, nextPageToken: Option<string>)

  /** An entry of the `contentDetails` listing; only its video id is used. */
  datatype PlaylistItem = PlaylistItem(videoId: string)

  /** The canonical watch-page address every video URL starts with. */
  const WatchPrefix: string := "https://www.youtube.com/watch?v="

  /** The items a page contributes; a page without `items` contributes none. */
  function PageItems<T>(p: Page<T>): seq<T> {
    p.items.GetOr([])
  }

  /** The enumeration continues after `p` only when its token is truthy. */
  predicate HasNextPage<T>(p: Page<T>) {
    IsTruthy(p.nextPageToken)
  }

  /** The items of `pages`, concatenated in page order. */
  function Flatten<T>(pages: seq<Page<T>>): seq<T> {
    if |pages| == 0 then [] else Flatten(pages[..|pages| - 1]) + PageItems(pages[|pages| - 1])
  }

  /** The token sent with the `i`-th request: absent for the first request,
      then the token of the page before. */
  function RequestToken<T>(pages: seq<Page<T>>, i: nat): Option<string>
    requires i <= |pages|
  {
    if i == 0 then None else pages[i - 1].nextPageToken
  }

  /** The tokens sent with the requests for `pages`, one per page. */
  function RequestTokens<T>(pages: seq<Page<T>>): seq<Option<string>> {
    seq(|pages|, i requires 0 <= i < |pages| => RequestToken(pages, i))
  }

  /** Page `i` is the provider's answer to the request carrying the token of
      page `i - 1` (no token for the first request). */
  ghost predicate Answers<T>(fetch: Option<string> -> Page<T>, pages: seq<Page<T>>, i: nat)
    requires i < |pages|
  {
    pages[i] == fetch(RequestToken(pages, i))
  }

  /** `pages` are the first responses the provider `fetch` gives when every
      request carries the previous page's token, and each of them except
      possibly the last has a truthy token. */
  ghost predicate IsFetchedPrefix<T>(fetch: Option<string> -> Page<T>, pages: seq<Page<T>>) {
    && (forall i :: 0 <= i < |pages| ==> Answers(fetch, pages, i))
    && (forall i :: 0 <= i < |pages| - 1 ==> HasNextPage(pages[i]))
  }

  /** `pages` is the complete enumeration: a fetched prefix whose last page is
      the first one without a truthy token. The source loops forever on a
      provider that has no such run. */
  ghost predicate IsRun<T>(fetch: Option<string> -> Page<T>, pages: seq<Page<T>>) {
    && |pages| > 0
    && IsFetchedPrefix(fetch, pages)
    && !HasNextPage(pages[|pages| - 1])
  }

  /** Two fetched prefixes of the same provider agree wherever both are defined. */
  lemma {:induction false} FetchedPrefixesAgree<T>(fetch: Option<string> -> Page<T>, a: seq<Page<T>>, b: seq<Page<T>>, i: nat)
    requires IsFetchedPrefix(fetch, a) && IsFetchedPrefix(fetch, b)
    requires i < |a| && i < |b|
    ensures a[i] == b[i]
  {
    if i > 0 {
      FetchedPrefixesAgree(fetch, a, b, i - 1);
      assert RequestToken(a, i) == a[i - 1].nextPageToken == b[i - 1].nextPageToken == RequestToken(b, i);
    }
    assert Answers(fetch, a, i) && Answers(fetch, b, i);
  }

  /** The enumeration is determined by `fetch`, which is a function of the
      token sent: at most one run answers it. */
  lemma RunIsUnique<T>(fetch: Option<string> -> Page<T>, a: seq<Page<T>>, b: seq<Page<T>>)
    requires IsRun(fetch, a) && IsRun(fetch, b)
    ensures a == b
  {
    if |a| < |b| {
      FetchedPrefixesAgree(fetch, a, b, |a| - 1);
      assert false;
    } else if |b| < |a| {
      FetchedPrefixesAgree(fetch, a, b, |b| - 1);
      assert false;
    } else {
      forall i | 0 <= i < |a| ensures a[i] == b[i] {
        FetchedPrefixesAgree(fetch, a, b, i);
      }
    }
  }

  /** Concatenating page runs concatenates their items. */
  lemma {:induction false} FlattenAppend<T>(a: seq<Page<T>>, b: seq<Page<T>>)
    ensures Flatten(a + b) == Flatten(a) + Flatten(b)
    decreases |b|
  {
    if |b| == 0 {
      assert a + b == a;
    } else {
      var b' := b[..|b| - 1];
      assert (a + b)[..|a + b| - 1] == a + b';
      FlattenAppend(a, b');
      assert b[..|b| - 1] == b';
    }
  }

  /** The items of `pages[..n + 1]` extend those of `pages[..n]` by page `n`. */
  lemma FlattenStep<T>(pages: seq<Page<T>>, n: nat)
    requires n < |pages|
    ensures Flatten(pages[..n + 1]) == Flatten(pages[..n]) + PageItems(pages[n])
  {
    assert pages[..n + 1][..n] == pages[..n];
  }

  /** What the loop needs to know about page `n` of a run: it answers the
      request made with the previous token, and the run goes on exactly when
      its token is truthy. */
  lemma RunStep<T>(fetch: Option<string> -> Page<T>, run: seq<Page<T>>, n: nat)
    requires IsRun(fetch, run)
    requires n < |run|
    ensures fetch(RequestToken(run, n)) == run[n]
    ensures HasNextPage(run[n]) <==> n + 1 < |run|
  {
    assert Answers(fetch, run, n);
  }

  /** `get_playlist_items`: requests pages until one lacks a truthy token and
      accumulates their items in order. `requests` records the token sent
      with each request. */
  method GetPlaylistItems<T>(fetch: Option<string> -> Page<T>, ghost run: seq<Page<T>>)
    returns (items: seq<T>, requests: seq<Option<string>>)
    requires IsRun(fetch, run)
    ensures items == Flatten(run)
    ensures requests == RequestTokens(run)
    ensures forall i :: 0 < i < |requests| ==> IsTruthy(requests[i])
  {
    items := [];
    requests := [];
    var token: Option<string> := None;
    while true
      invariant |requests| < |run|
      invariant token == RequestToken(run, |requests|)
      invariant forall i :: 0 <= i < |requests| ==> requests[i] == RequestToken(run, i)
      invariant items == Flatten(run[..|requests|])
      decreases |run| - |requests|
    {
      var n := |requests|;
      RunStep(fetch, run, n);
      var response := fetch(token);
      requests := requests + [token];
      if response.items.Some? {
        items := items + response.items.value;
      }
      FlattenStep(run, n);
      token := response.nextPageToken;
      if !IsTruthy(token) {
        assert run[..n + 1] == run;
        assert requests == RequestTokens(run);
        break;
      }
    }
  }

  /** The watch-page URL of a video. */
  function WatchUrl(videoId: string): (url: string)
    ensures VideoIdOf(url) == Some(videoId)
  {
    WatchPrefix + videoId
  }

  /** Recovers the video id from a watch-page URL, if it is one. */
  function VideoIdOf(url: string): Option<string> {
    if WatchPrefix <= url then Some(url[|WatchPrefix|..]) else None
  }

  /** One watch-page URL per item, in item order. */
  function WatchUrls(items: seq<PlaylistItem>): (urls: seq<string>)
    ensures |urls| == |items|
    ensures forall i :: 0 <= i < |items| ==> urls[i] == WatchUrl(items[i].videoId)
  {
    if |items| == 0 then []
    else WatchUrls(items[..|items| - 1]) + [WatchUrl(items[|items| - 1].videoId)]
  }

  /** Mapping items to URLs commutes with concatenation. */
  lemma WatchUrlsAppend(a: seq<PlaylistItem>, b: seq<PlaylistItem>)
    ensures WatchUrls(a + b) == WatchUrls(a) + WatchUrls(b)
  {
  }

  /** The URLs of the first `n + 1` pages extend those of the first `n` by
      the URLs of page `n`. */
  lemma VideoUrlsStep(pages: seq<Page<PlaylistItem>>, n: nat)
    requires n < |pages|
    ensures WatchUrls(Flatten(pages[..n + 1])) == WatchUrls(Flatten(pages[..n])) + WatchUrls(PageItems(pages[n]))
  {
    FlattenStep(pages, n);
    WatchUrlsAppend(Flatten(pages[..n]), PageItems(pages[n]));
  }

  /** The inner loop of `get_video_urls`: appends the URL of each item of one
      page, in order. */
  method AppendWatchUrls(urls: seq<string>, pageItems: seq<PlaylistItem>) returns (r: seq<string>)
    ensures r == urls + WatchUrls(pageItems)
  {
    r := urls;
    var j := 0;
    while j < |pageItems|
      invariant j <= |pageItems|
      invariant r == urls + WatchUrls(pageItems[..j])
    {
      assert pageItems[..j + 1] == pageItems[..j] + [pageItems[j]];
      WatchUrlsAppend(pageItems[..j], [pageItems[j]]);
      r := r + [WatchUrl(pageItems[j].videoId)];
      j := j + 1;
    }
    assert pageItems[..j] == pageItems;
  }

  /** `get_video_urls`: the same enumeration as `get_playlist_items`, turning
      each item into its watch-page URL as it arrives. */
  method GetVideoUrls(fetch: Option<string> -> Page<PlaylistItem>, ghost run: seq<Page<PlaylistItem>>)
    returns (urls: seq<string>, requests: seq<Option<string>>)
    requires IsRun(fetch, run)
    ensures urls == WatchUrls(Flatten(run))
    ensures requests == RequestTokens(run)
    ensures forall i :: 0 < i < |requests| ==> IsTruthy(requests[i])
  {
    urls := [];
    requests := [];
    var token: Option<string> := None;
    while true
      invariant |requests| < |run|
      invariant token == RequestToken(run, |requests|)
      invariant forall i :: 0 <= i < |requests| ==> requests[i] == RequestToken(run, i)
      invariant urls == WatchUrls(Flatten(run[..|requests|]))
      decreases |run| - |requests|
    {
      var n := |requests|;
      RunStep(fetch, run, n);
      var response := fetch(token);
      requests := requests + [token];
      VideoUrlsStep(run, n);
      if response.items.Some? {
        urls := AppendWatchUrls(urls, response.items.value);
      }
      token := response.nextPageToken;
      if !IsTruthy(token) {
        assert run[..n + 1] == run;
        assert requests == RequestTokens(run);
        break;
      }
    }
  }
}
