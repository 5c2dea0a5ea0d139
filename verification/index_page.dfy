/** The decision the `index` view makes before rendering: reject the URL, or
    list the playlist. Templates are replaced by the data they are given. */
module IndexPage {
  import opened Wrappers
  import opened PlaylistId
  import opened PlaylistName
  import opened Pagination

  /** An incoming request: a plain page load, or a form post carrying a URL. */
  datatype Request = Get | Post(url: string)

  /** What the page is rendered with: nothing, an error message, or the
      playlist's name, its items and its id. */
  datatype View<T> = Form | Error(message: string) | Listing(name: string, items: seq<T>, playlistId: string)

  /** The one error message the page shows. */
  const InvalidUrl: string := "Invalid URL"

  /** `index`: extracts the id, looks up the name, and only when both are
      truthy enumerates the playlist. `lookup` answers the name query for an
      id and `fetch` the item pages for an id; `requests` records the page
      tokens sent. */
  method Index<T>(req: Request, lookup: string -> NameResponse, fetch: string -> (Option<string> -> Page<T>), ghost run: seq<Page<T>>)
    returns (view: View<T>, requests: seq<Option<string>>)
    requires req.Post? && ExtractId(req.url).Some? && IsTruthy(GetPlaylistName(lookup(ExtractId(req.url).value)))
      ==> IsRun(fetch(ExtractId(req.url).value), run)
    ensures req.Get? ==> view == Form
    ensures req.Post? && ExtractId(req.url).None? ==> view == Error(InvalidUrl)
    ensures req.Post? && ExtractId(req.url).Some? && !IsTruthy(GetPlaylistName(lookup(ExtractId(req.url).value)))
      ==> view == Error(InvalidUrl)
    ensures view.Listing? <==>
      req.Post? && ExtractId(req.url).Some? && IsTruthy(GetPlaylistName(lookup(ExtractId(req.url).value)))
    ensures view.Listing? ==>
      && ExtractId(req.url) == Some(view.playlistId)
      && GetPlaylistName(lookup(view.playlistId)) == Some(view.name)
      && view.name != ""
      && view.items == Flatten(run)
      && requests == RequestTokens(run)
    ensures !view.Listing? ==> requests == []
  {
    requests := [];
    if req.Get? {
      return Form, requests;
    }
    var playlistId := ExtractId(req.url);
    if !IsTruthy(playlistId) {
      return Error(InvalidUrl), requests;
    }
    var playlistName := GetPlaylistName(lookup(playlistId.value));
    if !IsTruthy(playlistName) {
      return Error(InvalidUrl), requests;
    }
    var items;
    items, requests := GetPlaylistItems(fetch(playlistId.value), run);
    view := Listing(playlistName.value, items, playlistId.value);
  }
}
