/** The per-video download loop, `download_videos`. Resolving a watch URL to
    its highest-resolution stream and saving it is replaced by the outcome of
    that attempt. */
module Downloads {
  import opened Wrappers
  import opened Pagination

  /** The outcome of the `try` block for one attempt: the stream was found and
      saved, no stream was found, or an exception was raised and caught. */
  datatype Attempt = Saved | NoStream | Failed

  /** Some attempt of `u` among `urls` saved a file. */
  ghost predicate SomeAttemptSaved(urls: seq<string>, outcomes: seq<Attempt>, u: string)
    requires |outcomes| == |urls|
  {
    exists i :: 0 <= i < |urls| && urls[i] == u && outcomes[i] == Saved
  }

  /** The URLs whose attempt saved a file, in the order they were attempted.
      `outcomes[i]` is the outcome of the `i`-th attempt, so a URL listed
      twice may be saved by one attempt and fail in the other. */
  function SavedUrls(urls: seq<string>, outcomes: seq<Attempt>): (r: seq<string>)
    requires |outcomes| == |urls|
    ensures |r| <= |urls|
    ensures forall u :: u in r <==> SomeAttemptSaved(urls, outcomes, u)
  {
    if |urls| == 0 then []
    else
      var n := |urls| - 1;
      var r := SavedUrls(urls[..n], outcomes[..n]) + (if outcomes[n] == Saved then [urls[n]] else []);
      assert forall u :: SomeAttemptSaved(urls, outcomes, u) <==>
        SomeAttemptSaved(urls[..n], outcomes[..n], u) || (urls[n] == u && outcomes[n] == Saved) by {
        forall u ensures SomeAttemptSaved(urls, outcomes, u) ==>
          SomeAttemptSaved(urls[..n], outcomes[..n], u) || (urls[n] == u && outcomes[n] == Saved) {
          if SomeAttemptSaved(urls, outcomes, u) {
            var i :| 0 <= i < |urls| && urls[i] == u && outcomes[i] == Saved;
            if i < n {
              assert urls[..n][i] == u && outcomes[..n][i] == Saved;
            }
          }
        }
      }
      r
  }

  /** The outcome of one attempt does not depend on the others: the saved URLs
      of a concatenation are the saved URLs of each part. */
  lemma {:induction false} SavedUrlsAppend(a: seq<string>, oa: seq<Attempt>, b: seq<string>, ob: seq<Attempt>)
    requires |oa| == |a| && |ob| == |b|
    ensures SavedUrls(a + b, oa + ob) == SavedUrls(a, oa) + SavedUrls(b, ob)
    decreases |b|
  {
    if |b| == 0 {
      assert a + b == a;
      assert oa + ob == oa;
    } else {
      var b', ob' := b[..|b| - 1], ob[..|ob| - 1];
      assert (a + b)[..|a + b| - 1] == a + b';
      assert (oa + ob)[..|oa + ob| - 1] == oa + ob';
      SavedUrlsAppend(a, oa, b', ob');
    }
  }

  /** An attempt that finds no stream or raises is skipped and changes nothing
      for the attempts after it. */
  lemma SkipIsLocal(before: seq<string>, ob: seq<Attempt>, u: string, o: Attempt, after: seq<string>, oa: seq<Attempt>)
    requires |ob| == |before| && |oa| == |after|
    requires o != Saved
    ensures SavedUrls(before + [u] + after, ob + [o] + oa) == SavedUrls(before, ob) + SavedUrls(after, oa)
  {
    var init, oinit := before + [u], ob + [o];
    var n := |before|;
    assert init[..n] == before && oinit[..n] == ob && oinit[n] == o;
    assert SavedUrls(init, oinit) == SavedUrls(before, ob);
    SavedUrlsAppend(init, oinit, after, oa);
  }

  /** When every attempt succeeds, every URL is saved, in order. */
  lemma {:induction false} AllSavedKeepsOrder(urls: seq<string>, outcomes: seq<Attempt>)
    requires |outcomes| == |urls|
    requires forall i :: 0 <= i < |outcomes| ==> outcomes[i] == Saved
    ensures SavedUrls(urls, outcomes) == urls
    decreases |urls|
  {
    if |urls| > 0 {
      var n := |urls| - 1;
      assert forall i :: 0 <= i < n ==> outcomes[..n][i] == Saved;
      AllSavedKeepsOrder(urls[..n], outcomes[..n]);
      assert urls[..n] + [urls[n]] == urls;
    }
  }

  /** Two videos where the second attempt fails: only the first is saved. */
  lemma SecondVideoSkipped()
    ensures SavedUrls([WatchUrl("1"), WatchUrl("2")], [Saved, Failed]) == [WatchUrl("1")]
  {
    var urls, outcomes := [WatchUrl("1"), WatchUrl("2")], [Saved, Failed];
    assert urls[..1] == [WatchUrl("1")];
    assert outcomes[..1] == [Saved];
    assert urls[..1][..0] == [];
  }

  /** A video listed twice is attempted twice, and the attempts may differ:
      saving it once and failing once saves it once. */
  lemma RepeatedVideoAttemptedTwice(u: string)
    ensures SavedUrls([u, u], [Saved, Failed]) == [u]
    ensures SavedUrls([u, u], [Saved, Saved]) == [u, u]
  {
    var urls := [u, u];
    assert urls[..1] == [u];
    assert urls[..1][..0] == [];
    assert [Saved, Failed][..1] == [Saved];
    assert [Saved, Saved][..1] == [Saved];
  }

  /** The loop over one list of URLs: each is attempted once, in order, and
      no outcome stops the loop. `attempted` records the URLs tried. */
  method AttemptAll(urls: seq<string>, outcomes: seq<Attempt>)
    returns (saved: seq<string>, attempted: seq<string>)
    requires |outcomes| == |urls|
    ensures attempted == urls
    ensures saved == SavedUrls(urls, outcomes)
  {
    saved := [];
    attempted := [];
    var i := 0;
    while i < |urls|
      invariant i <= |urls|
      invariant attempted == urls[..i]
      invariant saved == SavedUrls(urls[..i], outcomes[..i])
    {
      var each := urls[i];
      attempted := attempted + [each];
      if outcomes[i] == Saved {
        saved := saved + [each];
      }
      assert urls[..i + 1][..i] == urls[..i];
      assert outcomes[..i + 1][..i] == outcomes[..i];
      i := i + 1;
    }
    assert urls[..i] == urls;
    assert outcomes[..i] == outcomes;
  }

  /** `download_videos`: enumerates the playlist's watch URLs, then attempts
      every one of them in enumeration order; `outcomes` holds one outcome
      per attempt. */
  method DownloadVideos(fetch: Option<string> -> Page<PlaylistItem>, ghost run: seq<Page<PlaylistItem>>, outcomes: seq<Attempt>)
    returns (saved: seq<string>, attempted: seq<string>)
    requires IsRun(fetch, run)
    requires |outcomes| == |Flatten(run)|
    ensures attempted == WatchUrls(Flatten(run))
    ensures saved == SavedUrls(attempted, outcomes)
  {
    var urls, _ := GetVideoUrls(fetch, run);
    saved, attempted := AttemptAll(urls, outcomes);
  }
}
