/**
 * The `/` route: flattens a playlist into the fields the HTML template renders.
 */
module IndexView {
  import opened Playlists
  import opened Routes

  /** The arguments handed to the `index.html` template. */
  datatype IndexPage = IndexPage(
    id: Option<string>,
    title: string,
    tracks: seq<string>,
    imageUrls: seq<string>,
    playlistImage: string,
    description: string,
    owner: string)

  /**
   * Builds the page for `playlist`, the value fetched for the id the request
   * selects. One track label "<track> - <first artist>" and one thumbnail URL
   * (`album.images[1]`) per item, in item order; the artwork is `images[0]`.
   * A value of the wrong shape raises the fault of the first failing access:
   * items in order, then the playlist artwork.
   */
  method Index(requestMethod: HttpMethod, form: map<string, string>, defaultPlaylist: string, playlist: Playlist)
    returns (r: Result<IndexPage>)
    ensures r.Ok? <==> FirstItemFault(playlist.items, true, 0).None? && |playlist.images| > 0
    ensures r.Err? && FirstItemFault(playlist.items, true, 0).Some? ==>
      r.fault == FirstItemFault(playlist.items, true, 0).value
    ensures r.Err? && FirstItemFault(playlist.items, true, 0).None? ==> r.fault == MissingArtwork
    ensures r.Ok? ==>
      && r.value.id == IndexPlaylistId(requestMethod, form, defaultPlaylist)
      && r.value.title == playlist.name
      && r.value.playlistImage == playlist.images[0].url
      && r.value.description == playlist.description
      && r.value.owner == playlist.ownerDisplayName
    ensures r.Ok? ==>
      && |r.value.tracks| == |playlist.items|
      && |r.value.imageUrls| == |playlist.items|
      && forall i :: 0 <= i < |playlist.items| ==>
           && Usable(playlist.items[i], true)
           && r.value.tracks[i] == playlist.items[i].trackName + " - " + playlist.items[i].artists[0].name
           && r.value.imageUrls[i] == playlist.items[i].albumImages[1].url
  {
    var playlistId := if requestMethod == Get then Some(defaultPlaylist)
                      else if "id" in form then Some(form["id"]) else None;
    var trackList: seq<string> := [];
    var imageUrlList: seq<string> := [];
    var title := playlist.name;
    var items := playlist.items;
    var idx := 0;
    while idx < |items|
      invariant 0 <= idx <= |items|
      invariant |trackList| == idx && |imageUrlList| == idx
      invariant forall j :: 0 <= j < idx ==>
        && Usable(items[j], true)
        && trackList[j] == items[j].trackName + " - " + items[j].artists[0].name
        && imageUrlList[j] == items[j].albumImages[1].url
    {
      var item := items[idx];
      if |item.artists| == 0 {
        FirstItemFaultIs(items, true, idx);
        return Err(MissingArtist(idx));
      }
      trackList := trackList + [item.trackName + " - " + item.artists[0].name];
      if |item.albumImages| < 2 {
        FirstItemFaultIs(items, true, idx);
        return Err(MissingThumbnail(idx));
      }
      imageUrlList := imageUrlList + [item.albumImages[1].url];
      idx := idx + 1;
    }
    if |playlist.images| == 0 {
      return Err(MissingArtwork);
    }
    var playlistImage := playlist.images[0].url;
    r := Ok(IndexPage(playlistId, title, trackList, imageUrlList, playlistImage,
                      playlist.description, playlist.ownerDisplayName));
  }
}
