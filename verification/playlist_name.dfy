/** The playlist title lookup, `get_playlist_name`. The catalogue call is
    replaced by its outcome: a response, or the credentials error the
    function catches. */
module PlaylistName {
  import opened Wrappers

  /** A playlist resource; only the snippet's title is read. */
  datatype Playlist = Playlist(title: string)

  /** What the `playlists().list(part='snippet', id=...)` call produces: a
      response with an optional `items` list, or a credentials error raised
      while building or executing the request. */
  datatype NameResponse = Response(items: Option<seq<Playlist>>) | CredentialsError

  /** Why a lookup found no title. The source keeps these apart internally
      but reports both as `None`. */
  datatype LookupError = NotFound | AuthFailure

  /** The lookup with the two failure causes kept apart. */
  function LookupName(resp: NameResponse): (r: Result<string, LookupError>)
    ensures r == Failure(AuthFailure) <==> resp.CredentialsError?
    ensures r == Failure(NotFound) <==> resp.Response? && (resp.items.None? || resp.items.value == [])
    ensures r.Success? ==> resp.Response? && resp.items.Some? && r.value == resp.items.value[0].title
  {
    match resp
    case CredentialsError => Failure(AuthFailure)
    case Response(items) =>
      if items.Some? && |items.value| > 0 then Success(items.value[0].title) else Failure(NotFound)
  }

  /** `get_playlist_name`: the first playlist's title, or `None` when the
      response has no items or the credentials are unusable. */
  function GetPlaylistName(resp: NameResponse): (r: Option<string>)
    ensures r == LookupName(resp).ToOption()
  {
    match resp
    case CredentialsError => None
    case Response(items) =>
      if items.Some? && |items.value| > 0 then Some(items.value[0].title) else None
  }

  /** A missing playlist and a credentials failure are indistinguishable to
      the caller. */
  lemma FailuresAreConflated(resp: NameResponse)
    ensures GetPlaylistName(resp).None? <==> LookupName(resp).Failure?
    ensures GetPlaylistName(resp).None? <==>
      resp.CredentialsError? || resp.items.None? || resp.items.value == []
  {
  }
}
