/**
 * Which playlist id each route fetches. The fetch itself is not modelled: the
 * handlers take the value it returns as an input.
 */
module Routes {
  import opened Playlists

  /**
   * The methods that reach the `/` handler: the two the route lists, and HEAD,
   * which the framework adds to every rule that lists GET.
   */
  datatype HttpMethod = Get | Head | Post

  /**
   * The id the `/` route fetches and renders: the configured default on a GET,
   * the form field `id` on any other method (absent when the form does not
   * carry one, as on a HEAD without a body).
   */
  function IndexPlaylistId(requestMethod: HttpMethod, form: map<string, string>, defaultPlaylist: string): (id: Option<string>)
    ensures requestMethod == Get ==> id == Some(defaultPlaylist)
    ensures requestMethod != Get ==> (id.Some? <==> "id" in form)
    ensures requestMethod != Get && id.Some? ==> id.value == form["id"]
  {
    if requestMethod == Get then Some(defaultPlaylist)
    else if "id" in form then Some(form["id"])
    else None
  }

  /**
   * The id the `/get-csv/` and `/get-tracks/` routes fetch: the path segment when
   * the URL has one, otherwise the configured default.
   */
  function ExportPlaylistId(segment: Option<string>, defaultPlaylist: string): (id: string)
    ensures segment.None? ==> id == defaultPlaylist
    ensures segment.Some? ==> id == segment.value
  {
    match segment
    case None => defaultPlaylist
    case Some(s) => s
  }
}
