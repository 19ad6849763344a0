# Spotify playlist views, modelled in Dafny

The service fetches one playlist from the Spotify Web API and re-renders it
three ways: the `/` route hands an HTML template a track list, a thumbnail list
and the playlist's artwork, description and owner; `/get-csv/` streams one
`track,artist` row per item; `/get-tracks/` returns a dictionary from item
position to `{name, artist, thumb}`. This project models those three
flattening loops. The fetched playlist is an input value (`Playlists.Playlist`),
so the model starts where `sp.playlist(...)` returns.

- `playlist.dfy` (module `Playlists`): the playlist value, and the index errors
  a value of the wrong shape raises. An item with no artists fails on
  `artists[0]`. An item with fewer than two album images fails on
  `album.images[1]`, in the routes that read it. A playlist with no images
  fails on `images[0]`, after the `/` route's loop. These errors are modelled
  as `Err(fault)`, not as preconditions. `FirstItemFault` names the fault a
  loop meets first: items in order, and within an item the artist before the
  thumbnail.
- `routes.dfy` (module `Routes`): which playlist id each route fetches.
- `index_view.dfy` (module `IndexView`): the `/` handler as a loop appending to
  two lists.
- `csv_export.dfy` (module `CsvExport`): the `/get-csv/` loop, and the nested
  generator that streams the rows. The generator is modelled position by
  position, over the outer row index and the inner character index, and proved
  equal to the concatenation of the rows. A decoder (`DecodeCsv`) serves as
  the partner of the rows. It splits the body at each CRLF and each line at its
  first comma, and it does no quote handling, so it is not an RFC 4180 reader.
  The body decodes back to the items under this decoder when no name holds a
  comma or a CR. A reader that treats `"` as quoting or a bare LF as a line
  break may read the same body differently. A counterexample shows what goes
  wrong when a track name holds a comma.
- `track_index.dfy` (module `TrackIndex`): the `/get-tracks/` loop. It writes
  into a dictionary that keeps its keys' insertion order, because the order of
  the serialised keys matters to consumers.
- `road_trip.dfy` (module `RoadTrip`): a client that calls the three
  handlers on the one-item "Road Trip" playlist and states what their contracts
  alone prove about the results.

## Model

| member | source | states |
|---|---|---|
| `Playlists.FaultAt` | app.py:57-58 | flattening one item fails exactly when it is not usable; the fault is MissingArtist exactly when the item has no artist (the first-artist access comes first), and MissingThumbnail only when the route reads thumbnails and the item has an artist but too few album images |
| `Playlists.FirstItemFault` | app.py:54-58 | no fault iff every item from `from` on is usable; otherwise the fault is that of one item, every item before it is usable, and the fault is the one that item raises |
| `Routes.IndexPlaylistId` | app.py:45-48 | a GET selects the configured default id; any other method (POST, or the HEAD the framework adds) selects the form's `id` field, and no id when the form has none |
| `Routes.ExportPlaylistId` | app.py:69-71 | `/get-csv/` and `/get-tracks/` (app.py:86-88 is the same pattern) fetch the path segment when one is given, and the configured default otherwise |
| `IndexView.Index` | app.py:45-63 | succeeds iff every item has an artist and two album images and the playlist has an image; on failure, reports the first item's fault, or the missing artwork when all items are usable; on success, N track labels `track + " - " + first artist` and N thumbnail URLs `album.images[1].url`, index-aligned and in item order; title, artwork `images[0].url`, description and owner are copied unchanged, and the id is the one the request selects |
| `CsvExport.GenerateRemainder` | app.py:78-79 | with the generator's outer loop at row `i` and inner loop at character `j`, it still yields the rest of row `i` followed by every later row, in order |
| `CsvExport.Stream` | app.py:78-79 | the streamed body equals the concatenation of the rows in list order |
| `CsvExport.GetCsv` | app.py:73-79 | succeeds iff every item has an artist, and otherwise reports the first item without one; on success, exactly N rows and no header, row i being `track + "," + first artist + "\r\n"` with nothing escaped, and the body is the rows concatenated |
| `CsvExport.DecodeRow` | app.py:76 | a row whose track holds no comma or CR, and whose artist holds no CR, decodes to its own track and artist, followed by whatever comes after it |
| `CsvExport.DecodeDownload` | app.py:75-79 | when no track name holds a comma or CR and no first artist holds a CR, the body decodes, under the model's CRLF-and-first-comma decoder, to exactly N lines, line i being item i's track name and first artist |
| `CsvExport.RowsAreAmbiguous` | app.py:76 | a comma inside a track name gives the same row as a shorter track with a longer artist, and the row decodes as the latter; without escaping, rows do not identify their items |
| `TrackIndex.Put` | app.py:94 | writing key `k` keeps every key listed once in the insertion order: a new key is appended, an existing key keeps its place, and the value under `k` becomes `v` |
| `TrackIndex.GetTracks` | app.py:91-94 | succeeds iff every item has an artist and two album images, and otherwise reports the first item's fault; on success, the keys are exactly 0..N-1, written in that order, and key i maps to item i's track name, first artist and `album.images[1].url` |

## Left out

- The Spotify client: the client-credentials authentication (app.py:26-27) and the `sp.playlist(...)` calls with their field projections (app.py:52, 74, 92). They are network I/O through a foreign library. The playlist they return is the handlers' input, so the fetched value does not depend on the id in the model.
- A fetch with no id: a POST without an `id` field, or a HEAD, passes None to `sp.playlist` (app.py:48, 52), which raises in the client. `IndexView.Index` does not model that failure; it returns `Ok` with `id == None` for whatever playlist it is given.
- Startup: reading the environment variables, the `sys.exit` when they are missing, the printing of credentials, and the choice of configuration profile (app.py:14-37). These are process I/O.
- Flask itself: route dispatch and the `<string:...>` converter's rules on path segments, `render_template`, the `Response` object with its MIME type and `Content-Disposition` header, and `jsonify`, including how integer keys become JSON strings and whether keys are sorted (app.py:39-40, 65-67, 81-84, 96). The CSV body is modelled as a whole string, not as chunks delivered to a client over time.
- A method on `/` other than GET, HEAD or POST: Flask rejects it before the handler runs. HEAD reaches the handler, which then reads the form like a POST does.
- Form fields: `request.form` is modelled as a map from names to one value each; a field sent several times is not modelled.
- CSRF and CORS setup (app.py:11-12, 40): middleware configuration.
- Data shapes other than the three index accesses: a missing key, or an item whose `track` is null, raises a different error in the source and is not modelled. The `str()` coercions at app.py:94 are the identity, since every field they touch is a string here.
- Image width and height, which no handler reads.
- The 100-item cap the API applies to `tracks.items`: it belongs to the fetch.
