/**
 * A client of the three handlers: the one-item "Road Trip" playlist, and what
 * each route's contract alone tells a caller about it.
 */
module RoadTrip {
  import opened Playlists
  import opened Routes
  import opened IndexView
  import opened CsvExport
  import opened TrackIndex

  method RoadTripViews(defaultPlaylist: string, small: Image, medium: Image, cover: Image)
  {
    var go := Item("Go", [Artist("Amy")], [small, medium]);
    var playlist := Playlist("Road Trip", "", "me", [cover], [go]);
    assert FirstItemFault(playlist.items, true, 0).None?;

    var page := Index(Get, map[], defaultPlaylist, playlist);
    assert page.Ok?;
    assert page.value.id == Some(defaultPlaylist);
    assert "Go" + " - " + "Amy" == "Go - Amy";
    assert page.value.tracks == ["Go - Amy"];
    assert page.value.imageUrls == [medium.url];
    assert page.value.playlistImage == cover.url;

    var csv := GetCsv(playlist);
    assert csv.Ok?;
    assert CsvRow("Go", "Amy") == "Go,Amy\r\n";
    assert csv.value.rows == ["Go,Amy\r\n"];
    assert Concat(["Go,Amy\r\n"]) == "Go,Amy\r\n" + Concat([]);
    assert csv.value.body == "Go,Amy\r\n";

    var tracks := GetTracks(playlist);
    assert tracks.Ok?;
    assert tracks.value.order == [0];
    assert tracks.value.entries[0] == TrackRecord("Go", "Amy", medium.url);

    var noArtist := Playlist("Road Trip", "", "me", [cover], [Item("Go", [], [small, medium])]);
    var failed := GetCsv(noArtist);
    assert failed == Err(MissingArtist(0));
  }
}
