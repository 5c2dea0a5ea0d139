# YTGrab playlist core, modelled in Dafny

YTGrab is a small web application. A user pastes a playlist URL. The app
pulls out the playlist id, looks up the playlist's title, and lists its
items. It can also download every video of the playlist. This project models
the pure logic in `app.py` and proves properties of it:

- `PlaylistId` covers the id extractor `extract_id`. It performs the
  case-insensitive search `list=([^&]+)`.
- `Pagination` covers the two cursor-driven enumeration loops,
  `get_playlist_items` and `get_video_urls`. It also builds canonical watch
  URLs.
- `PlaylistName` covers the title lookup `get_playlist_name`, including its
  credentials-error fallback.
- `Downloads` covers the per-video loop of `download_videos`. A missing
  stream or a raised exception skips that one video.
- `IndexPage` covers the gate in the `index` view. The page rejects the
  request with "Invalid URL" before any enumeration unless both the id and
  the name are truthy.
- `Wrappers` holds `Option`, `Result` and Python truthiness of an optional
  string.

External services are parameters:

- The catalogue API is a function from the page token sent to the page
  returned (`fetch`), plus a function from a playlist id to the name response
  (`lookup`).
- The video resolver and the file write are a sequence with the outcome of
  the `try` block for each attempt, in loop order (`outcomes`). A URL listed
  twice is attempted twice, and its two attempts may differ.

The source loop `while True` ends only if the provider eventually returns a
page with a falsy token. So the enumeration methods take a ghost `run`: the
complete sequence of pages, whose last page is the first one without a
truthy token. They require that `run` really is what the provider answers
(`IsRun`). Because `fetch` is a function of the token, that run is unique
(`RunIsUnique`).

`app.py` has no filename sanitisation, no archive output, no check for an
already existing file, no separate age-restriction error and no "no videos
downloaded" result, so the model has none of these either.

## Model

| member | source | states |
|---|---|---|
| PlaylistId.RunEnd | app.py:17 | the greedy group `[^&]+` ends at the first `&` or at the end of the string, and every character it spans is not `&` |
| PlaylistId.FindMatch | app.py:17 | the search returns the leftmost position where `list=` (any case) is followed by a non-`&` character; no earlier position qualifies, and `None` means no position qualifies |
| PlaylistId.ExtractId | app.py:16-21 | `None` exactly when no case-insensitive `list=` is followed by a non-`&` character; otherwise a non-empty, `&`-free id that is the leftmost maximal capture |
| PlaylistId.ExtractIdIsLeftmostCapture | app.py:17-21 | both directions: the result is `Some(id)` if and only if `id` is the capture of the leftmost match (leftmost, non-empty, no `&`, followed by `&` or the end) |
| PlaylistId.CaptureIsUnique | app.py:17 | the leftmost match position and its capture are unique |
| PlaylistId.MarkerCannotOverlap | app.py:17 | two occurrences of `list=` cannot overlap |
| PlaylistId.EmbeddedIdIsExtracted | app.py:17-19 | a URL with no marker before `list=X`, where X is a non-empty `&`-free run ended by `&` or the end, yields exactly X |
| PlaylistId.ExtractsFromWatchUrl | app.py:17-19 | `https://x/watch?v=1&list=PL123&index=2` yields `PL123` |
| PlaylistId.SkipsEmptyCapture | app.py:17 | in `?list=&LIST=abc` the empty first capture is skipped and `abc` is returned |
| Pagination.FetchedPrefixesAgree | app.py:42-57 | two page sequences fetched from the same provider agree page by page |
| Pagination.RunIsUnique | app.py:42-57 | the complete enumeration is determined by `fetch`, a function of the token, so only one run satisfies the loop's requirement |
| Pagination.FlattenAppend | app.py:52-53 | accumulating two runs of pages yields the first run's items followed by the second's |
| Pagination.RunStep | app.py:50-57 | each page of a run is the provider's answer to the previous page's token, and the run continues past it exactly when its token is truthy |
| Pagination.GetPlaylistItems | app.py:39-58 | one request per page of the run: the first carries no token, each later one carries the previous page's token, and every later token is truthy, so nothing is requested after the first page with a falsy token; the result is the items of every page, concatenated in page order, and pages without `items` add nothing |
| Pagination.WatchUrl | app.py:75 | the watch URL of a video id gives back that id when the prefix is stripped |
| Pagination.WatchUrls | app.py:73-76 | exactly one URL per item, and the i-th URL is the watch URL of the i-th item's video id |
| Pagination.WatchUrlsAppend | app.py:72-76 | mapping items to URLs commutes with concatenation |
| Pagination.VideoUrlsStep | app.py:72-80 | the URLs of one more page extend the URLs gathered so far by that page's URLs |
| Pagination.AppendWatchUrls | app.py:73-76 | the inner loop appends one watch URL per item of the page, in order |
| Pagination.GetVideoUrls | app.py:60-81 | the same request tokens as the item enumeration; the result is the watch URL of every item of every page, one per item, in enumeration order |
| PlaylistName.LookupName | app.py:23-37 | a credentials error and an empty or missing `items` list are distinct failures; success carries the first item's title |
| PlaylistName.GetPlaylistName | app.py:23-37 | the lookup with both failure causes collapsed to `None` |
| PlaylistName.FailuresAreConflated | app.py:31-37 | `None` is returned exactly on a credentials error, a missing `items` list or an empty one |
| Downloads.SavedUrls | app.py:92-103 | the saved URLs are at most the attempted ones, and a URL is among them exactly when at least one of its attempts saved a file |
| Downloads.SavedUrlsAppend | app.py:92-103 | each attempt is handled on its own: the saved URLs of two consecutive stretches of attempts are those of the first followed by those of the second |
| Downloads.SkipIsLocal | app.py:96-103 | an attempt with no stream or a raised exception is skipped without affecting the attempts after it |
| Downloads.AllSavedKeepsOrder | app.py:92-99 | when every attempt saves, every URL is saved, in order |
| Downloads.SecondVideoSkipped | app.py:92-103 | of two videos where the second attempt fails, only the first is saved |
| Downloads.RepeatedVideoAttemptedTwice | app.py:92-103 | a URL listed twice is attempted twice: saved once when one attempt fails, saved twice when both succeed |
| Downloads.AttemptAll | app.py:92-103 | every URL is attempted exactly once per listing, in order, and the saved ones are exactly those whose own attempt saved |
| Downloads.DownloadVideos | app.py:83-103 | the URLs attempted are the watch URLs of the whole enumeration, in order, and the saved ones are those whose own attempt saved |
| IndexPage.Index | app.py:105-120 | a GET shows the form; the page lists the playlist if and only if the request is a POST with an extractable id and a truthy name; a POST without an id or without a truthy name shows "Invalid URL" and sends no page request; otherwise the page lists the extracted id, its non-empty name and every enumerated item, after exactly the page requests of the enumeration |

## Left out

- Flask routing, `render_template`, `jsonify`, and the `download`, `terms`, `about` and `contact` routes (app.py:122-141). They are presentation only. The `download` route answers with a success status whenever `download_videos` returns, whatever the outcome of each video. It fails instead when the form has no `playlist_id` field (app.py:124), and when the catalogue raises while the URLs are enumerated (app.py:61-70, 90), since nothing there catches it.
- Building the catalogue client and `execute()` calls (app.py:25-29, 40-50, 61-70). They are replaced by the `lookup` and `fetch` parameters. The fixed page size of 50 is a request argument the model does not see.
- Errors from the catalogue other than `DefaultCredentialsError`. They propagate out of the view as uncaught exceptions, and the model has no such path.
- A `KeyError` from an item or response without `snippet`, `title`, `contentDetails` or `videoId`. Items are assumed well formed.
- The video resolver, `get_highest_resolution` and `stream.download` (app.py:94-98). They are replaced by the `outcomes` parameter, which folds the whole `try` block of each attempt into one outcome.
- Creating the downloads directory and the file paths (app.py:84-88), the `print` logging, and `load_dotenv`/`API_KEY` (app.py:12-14).
- Filename sanitisation, the archive sink, the existence check before writing and temporary-file cleanup. They do not appear in `app.py`.
- PlaylistId.ExtractId: case-insensitivity is ASCII only. Python's Unicode matching also lets `ı` and `İ` match `i`, `ſ` match `s`, and the Kelvin sign match `k`; the model does not.
- Pagination.GetPlaylistItems: it assumes the provider eventually returns a falsy token (the ghost `run`). The source loops forever otherwise, and the model has no result for that case. The same holds for Pagination.GetVideoUrls, Downloads.DownloadVideos and IndexPage.Index.
- The catalogue is assumed to answer each page token the same way for the whole enumeration. A playlist edited between two page requests could answer differently; `fetch` being a function of the token rules this out.
- Page tokens are modelled as strings. Python truthiness of other JSON values is not modelled.
