/**
 * The playlist value the music API returns for a playlist id, as far as the
 * three route handlers read it, and the index errors the handlers raise when
 * that value does not have the shape they rely on.
 */
module Playlists {

  datatype Option<+T> = None | Some(value: T)

  /** An image object; only its URL is ever read. */
  datatype Image = Image(url: string)

  datatype Artist = Artist(name: string)

  /** One entry of `tracks.items`, flattened: the track's name, its artists and its album's images. */
  datatype Item = Item(trackName: string, artists: seq<Artist>, albumImages: seq<Image>)

  datatype Playlist = Playlist(
    name: string,
    description: string,
    ownerDisplayName: string,
    images: seq<Image>,
    items: seq<Item>)

  /**
   * The index access that fails, for a value of the wrong shape: `artists[0]`
   * of item `item`, `album.images[1]` of item `item`, or the playlist's `images[0]`.
   * Each ends the request with an unhandled IndexError.
   */
  datatype Fault = MissingArtist(item: nat) | MissingThumbnail(item: nat) | MissingArtwork

  datatype Result<+T> = Ok(value: T) | Err(fault: Fault)

  predicate HasArtist(it: Item) {
    |it.artists| > 0
  }

  predicate HasThumbnail(it: Item) {
    |it.albumImages| >= 2
  }

  /** Item `it` can be flattened by a handler that reads the first artist and, if `needsThumbnail`, the thumbnail. */
  predicate Usable(it: Item, needsThumbnail: bool) {
    HasArtist(it) && (needsThumbnail ==> HasThumbnail(it))
  }

  /**
   * The fault flattening item `it` (at position `k`) raises: the first artist
   * is read before the album thumbnail.
   */
  function FaultAt(it: Item, k: nat, needsThumbnail: bool): (r: Option<Fault>)
    ensures r.None? <==> Usable(it, needsThumbnail)
    ensures r.Some? ==> !r.value.MissingArtwork? && r.value.item == k
    ensures r.Some? ==> (r.value.MissingArtist? <==> !HasArtist(it))
    ensures r.Some? && r.value.MissingThumbnail? ==> needsThumbnail && HasArtist(it)
  {
    if !HasArtist(it) then Some(MissingArtist(k))
    else if needsThumbnail && !HasThumbnail(it) then Some(MissingThumbnail(k))
    else None
  }

  /**
   * The fault raised by a loop that flattens `items[from..]` in order: that of
   * the first item that is not usable, or none when every item is.
   */
  function FirstItemFault(items: seq<Item>, needsThumbnail: bool, from: nat): (r: Option<Fault>)
    requires from <= |items|
    ensures r.None? <==> forall j :: from <= j < |items| ==> Usable(items[j], needsThumbnail)
    ensures r.Some? ==>
      && !r.value.MissingArtwork?
      && from <= r.value.item < |items|
      && r == FaultAt(items[r.value.item], r.value.item, needsThumbnail)
      && forall j :: from <= j < r.value.item ==> Usable(items[j], needsThumbnail)
    decreases |items| - from
  {
    if from == |items| then None
    else if !Usable(items[from], needsThumbnail) then FaultAt(items[from], from, needsThumbnail)
    else FirstItemFault(items, needsThumbnail, from + 1)
  }

  /** Whichever loop reaches the first unusable item reports that item's fault. */
  lemma FirstItemFaultIs(items: seq<Item>, needsThumbnail: bool, k: nat)
    requires k < |items|
    requires forall j :: 0 <= j < k ==> Usable(items[j], needsThumbnail)
    requires !Usable(items[k], needsThumbnail)
    ensures FirstItemFault(items, needsThumbnail, 0) == FaultAt(items[k], k, needsThumbnail)
  {
  }
}
