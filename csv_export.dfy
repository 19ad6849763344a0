/**
 * The `/get-csv/` route: one "<track>,<first artist>\r\n" row per item, streamed
 * to the client one character at a time.
 */
module CsvExport {
  import opened Playlists

  /** The row the route writes for a track and its first artist; nothing is quoted or escaped. */
  function CsvRow(track: string, artist: string): string {
    track + "," + artist + "\r\n"
  }

  /** The rows written back to back. */
  function Concat(rows: seq<string>): string {
    if rows == [] then [] else rows[0] + Concat(rows[1..])
  }

  /**
   * The characters the nested generator `(cell for row in rows for cell in row)`
   * still has to yield when its outer loop is at row `i` and its inner loop at
   * character `j` of that row.
   */
  function Generate(rows: seq<string>, i: nat, j: nat): string
    requires i <= |rows|
    requires i < |rows| ==> j <= |rows[i]|
    decreases |rows| - i, if i < |rows| then |rows[i]| - j else 0
  {
    if i == |rows| then []
    else if j == |rows[i]| then Generate(rows, i + 1, 0)
    else [rows[i][j]] + Generate(rows, i, j + 1)
  }

  /** What is left of the generator at (`i`, `j`): the rest of row `i`, then every later row in order. */
  lemma {:induction false} GenerateRemainder(rows: seq<string>, i: nat, j: nat)
    requires i < |rows| && j <= |rows[i]|
    ensures Generate(rows, i, j) == rows[i][j..] + Concat(rows[i + 1..])
    decreases |rows| - i, |rows[i]| - j
  {
    if j == |rows[i]| {
      if i + 1 == |rows| {
        assert rows[i + 1..] == [];
      } else {
        GenerateRemainder(rows, i + 1, 0);
        assert rows[i + 1..][1..] == rows[i + 2..];
      }
    } else {
      GenerateRemainder(rows, i, j + 1);
      assert rows[i][j..] == [rows[i][j]] + rows[i][j + 1..];
    }
  }

  /** The body the response streams: every character of every row, rows in list order. */
  function Stream(rows: seq<string>): (body: string)
    ensures body == Concat(rows)
  {
    if rows == [] then []
    else
      GenerateRemainder(rows, 0, 0);
      assert rows[0][0..] == rows[0];
      Generate(rows, 0, 0)
  }

  /** The CSV download: the rows the loop built and the streamed body. */
  datatype CsvDownload = CsvDownload(rows: seq<string>, body: string)

  /**
   * Builds the download for `playlist`: exactly one row per item, in item
   * order, no header, and the body is those rows concatenated. An item without
   * artists raises the fault of the first such item.
   */
  method GetCsv(playlist: Playlist) returns (r: Result<CsvDownload>)
    ensures r.Ok? <==> FirstItemFault(playlist.items, false, 0).None?
    ensures r.Err? ==> Some(r.fault) == FirstItemFault(playlist.items, false, 0)
    ensures r.Ok? ==>
      && |r.value.rows| == |playlist.items|
      && forall i :: 0 <= i < |playlist.items| ==>
           && HasArtist(playlist.items[i])
           && r.value.rows[i] == CsvRow(playlist.items[i].trackName, playlist.items[i].artists[0].name)
    ensures r.Ok? ==> r.value.body == Concat(r.value.rows)
  {
    var trackList: seq<string> := [];
    var items := playlist.items;
    var idx := 0;
    while idx < |items|
      invariant 0 <= idx <= |items|
      invariant |trackList| == idx
      invariant forall j :: 0 <= j < idx ==>
        && HasArtist(items[j])
        && trackList[j] == CsvRow(items[j].trackName, items[j].artists[0].name)
    {
      var item := items[idx];
      if |item.artists| == 0 {
        FirstItemFaultIs(items, false, idx);
        return Err(MissingArtist(idx));
      }
      trackList := trackList + [item.trackName + "," + item.artists[0].name + "\r\n"];
      idx := idx + 1;
    }
    r := Ok(CsvDownload(trackList, Stream(trackList)));
  }

  // Reading a download back.

  /** One decoded line: the text before the first comma and the text after it. */
  datatype CsvLine = CsvLine(track: string, artist: string)

  /** The position of the first `c` in `s`, or `|s|` when there is none. */
  function IndexOf(s: string, c: char): (k: nat)
    ensures k <= |s|
    ensures k < |s| ==> s[k] == c
    ensures forall j :: 0 <= j < k ==> s[j] != c
  {
    if s == [] then 0
    else if s[0] == c then 0
    else 1 + IndexOf(s[1..], c)
  }

  /**
   * Splits a body into CRLF-terminated lines and each line at its first comma;
   * None when a line lacks its terminator or its comma.
   */
  function DecodeCsv(body: string): Option<seq<CsvLine>>
    decreases |body|
  {
    if body == [] then Some([])
    else
      var k := IndexOf(body, '\r');
      if k + 1 < |body| && body[k + 1] == '\n' then
        var line := body[..k];
        var c := IndexOf(line, ',');
        if c < |line| then
          match DecodeCsv(body[k + 2..])
          case None => None
          case Some(rest) => Some([CsvLine(line[..c], line[c + 1..])] + rest)
        else None
      else None
  }

  /** No track name holds a comma or a CR, and no first artist's name holds a CR. */
  predicate CsvSafe(it: Item) {
    HasArtist(it) && ',' !in it.trackName && '\r' !in it.trackName && '\r' !in it.artists[0].name
  }

  /** Decoding one row followed by anything decodable gives the row's track and artist first. */
  lemma DecodeRow(track: string, artist: string, rest: string)
    requires ',' !in track && '\r' !in track && '\r' !in artist
    ensures DecodeCsv(CsvRow(track, artist) + rest) ==
      match DecodeCsv(rest)
      case None => None
      case Some(lines) => Some([CsvLine(track, artist)] + lines)
  {
    var line := track + "," + artist;
    var body := CsvRow(track, artist) + rest;
    assert body == line + "\r\n" + rest;
    var k := IndexOf(body, '\r');
    assert body[|line|] == '\r';
    assert forall j :: 0 <= j < |line| ==> body[j] == line[j];
    assert k == |line|;
    assert body[k + 1] == '\n';
    assert body[..k] == line;
    assert body[k + 2..] == rest;
    var c := IndexOf(line, ',');
    assert line[|track|] == ',';
    assert c == |track|;
    assert line[..c] == track;
    assert line[c + 1..] == artist;
  }

  /**
   * When every item is CSV-safe, the streamed body decodes back to one line
   * per item, in item order, holding the track name and first artist's name.
   */
  lemma {:induction false} DecodeDownload(items: seq<Item>, rows: seq<string>)
    requires |rows| == |items|
    requires forall i :: 0 <= i < |items| ==>
      CsvSafe(items[i]) && rows[i] == CsvRow(items[i].trackName, items[i].artists[0].name)
    ensures DecodeCsv(Concat(rows)).Some?
    ensures |DecodeCsv(Concat(rows)).value| == |items|
    ensures forall i :: 0 <= i < |items| ==>
      CsvSafe(items[i]) && DecodeCsv(Concat(rows)).value[i] == CsvLine(items[i].trackName, items[i].artists[0].name)
  {
    if rows != [] {
      DecodeDownload(items[1..], rows[1..]);
      DecodeRow(items[0].trackName, items[0].artists[0].name, Concat(rows[1..]));
    }
  }

  /**
   * Without escaping, rows do not identify their items: when a track name holds
   * a comma, its row is also the row of the text before that comma with a longer
   * artist name, and it decodes as the latter.
   */
  lemma RowsAreAmbiguous(before: string, after: string, artist: string)
    requires ',' !in before && '\r' !in before && '\r' !in after && '\r' !in artist
    ensures CsvRow(before + "," + after, artist) == CsvRow(before, after + "," + artist)
    ensures DecodeCsv(CsvRow(before + "," + after, artist)) == Some([CsvLine(before, after + "," + artist)])
  {
    assert DecodeCsv([]) == Some([]);
    DecodeRow(before, after + "," + artist, []);
    assert CsvRow(before, after + "," + artist) + [] == CsvRow(before + "," + after, artist);
    assert [CsvLine(before, after + "," + artist)] + [] == [CsvLine(before, after + "," + artist)];
  }
}
