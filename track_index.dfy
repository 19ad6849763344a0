/**
 * The `/get-tracks/` route: a dictionary from each item's position to its
 * track name, first artist and album thumbnail, in the order the keys were written.
 */
module TrackIndex {
  import opened Playlists

  /** The object stored for one item; the `str()` coercions are the identity on these strings. */
  datatype TrackRecord = TrackRecord(name: string, artist: string, thumb: string)

  /**
   * A dictionary with integer keys, which remembers the order in which its keys
   * were first written, as the dictionaries the route builds do.
   */
  datatype Dict = Dict(order: seq<nat>, entries: map<nat, TrackRecord>)

  /** The order lists each key of the dictionary exactly once. */
  ghost predicate Valid(d: Dict) {
    && (forall k :: k in d.entries <==> k in d.order)
    && (forall i, j :: 0 <= i < j < |d.order| ==> d.order[i] != d.order[j])
  }

  const Empty: Dict := Dict([], map[])

  /**
   * `d[k] = v`: the value under `k` becomes `v`; a new key goes to the end of the
   * order, an existing key keeps its place.
   */
  function Put(d: Dict, k: nat, v: TrackRecord): (r: Dict)
    requires Valid(d)
    ensures Valid(r)
    ensures r.entries == d.entries[k := v]
    ensures k in d.entries ==> r.order == d.order
    ensures k !in d.entries ==> r.order == d.order + [k]
  {
    if k in d.entries then Dict(d.order, d.entries[k := v])
    else Dict(d.order + [k], d.entries[k := v])
  }

  /**
   * Builds the dictionary for `playlist`: its keys are exactly 0 .. N-1, written
   * in that order, and key `i` holds item `i`'s track name, first artist's name
   * and `album.images[1]` URL. A value of the wrong shape raises the fault of
   * the first failing access.
   */
  method GetTracks(playlist: Playlist) returns (r: Result<Dict>)
    ensures r.Ok? <==> FirstItemFault(playlist.items, true, 0).None?
    ensures r.Err? ==> Some(r.fault) == FirstItemFault(playlist.items, true, 0)
    ensures r.Ok? ==> Valid(r.value)
    ensures r.Ok? ==> forall k: nat :: k in r.value.entries <==> k < |playlist.items|
    ensures r.Ok? ==>
      && |r.value.order| == |playlist.items|
      && forall i :: 0 <= i < |playlist.items| ==>
           && r.value.order[i] == i
           && Usable(playlist.items[i], true)
           && r.value.entries[i] == TrackRecord(
                playlist.items[i].trackName,
                playlist.items[i].artists[0].name,
                playlist.items[i].albumImages[1].url)
  {
    var trackList := Empty;
    var items := playlist.items;
    var idx := 0;
    while idx < |items|
      invariant 0 <= idx <= |items|
      invariant Valid(trackList)
      invariant forall k: nat :: k in trackList.entries <==> k < idx
      invariant |trackList.order| == idx
      invariant forall i :: 0 <= i < idx ==>
        && trackList.order[i] == i
        && Usable(items[i], true)
        && trackList.entries[i] == TrackRecord(items[i].trackName, items[i].artists[0].name, items[i].albumImages[1].url)
    {
      var item := items[idx];
      if |item.artists| == 0 {
        FirstItemFaultIs(items, true, idx);
        return Err(MissingArtist(idx));
      }
      if |item.albumImages| < 2 {
        FirstItemFaultIs(items, true, idx);
        return Err(MissingThumbnail(idx));
      }
      trackList := Put(trackList, idx, TrackRecord(item.trackName, item.artists[0].name, item.albumImages[1].url));
      idx := idx + 1;
    }
    r := Ok(trackList);
  }
}
