/** The iTunes library importer: a line scanner over the library's XML that pairs each
    album title with the most recent artist seen and keeps the first entry per title. */
module Library {
  import opened GoStrings

  datatype Album = Album(albumName: string, artistName: string)

  /** newAlbum: an album record holding the given title and artist. */
  function NewAlbum(name: string, artist: string): (a: Album)
    ensures a.albumName == name && a.artistName == artist
  {
    Album(name, artist)
  }

  const ARTIST_TAG := "<key>Artist</key>"
  const ARTIST_FIELD := "<key>Artist</key><string>"
  const ALBUM_TAG := "<key>Album</key>"
  const ALBUM_FIELD := "<key>Album</key><string>"
  const STRING_CLOSE := "</string>"

  /** A line holding the artist tag; it is never also read as an album line. */
  predicate IsArtistLine(line: string)
  {
    Contains(line, ARTIST_TAG)
  }

  predicate IsAlbumLine(line: string)
  {
    !IsArtistLine(line) && Contains(line, ALBUM_TAG)
  }

  /** The scanner reads the line without indexing past the end of a split: a tag
      line also carries the full `<tag><string>` field opener. */
  predicate LineScans(line: string)
  {
    (IsArtistLine(line) ==> Contains(line, ARTIST_FIELD))
    && (IsAlbumLine(line) ==> Contains(line, ALBUM_FIELD))
  }

  predicate AllLinesScan(lines: seq<string>)
  {
    forall k :: 0 <= k < |lines| ==> LineScans(lines[k])
  }

  /** The value of a field: the text right after the first field opener, up to the
      next `</string>`, the next opener or the end of the line, whichever comes
      first. */
  function FieldValue(line: string, field: string): (v: string)
    requires field != [] && Contains(line, field)
    ensures var start := Index(line, field) + |field|;
      start + |v| <= |line| && line[start..start + |v|] == v
      && (start + |v| == |line| || OccursAt(line, STRING_CLOSE, start + |v|) || OccursAt(line, field, start + |v|))
    ensures !Contains(v, STRING_CLOSE)
    ensures !Contains(v, field)
  {
    FieldLocated(line, field, STRING_CLOSE, Index(line, field) + |field|, Field(line, field, STRING_CLOSE));
    Field(line, field, STRING_CLOSE)
  }

  /** The artist of the last artist line of `lines`, or "" when there is none. */
  function LastArtist(lines: seq<string>): string
    requires AllLinesScan(lines)
    decreases |lines|
  {
    if lines == [] then ""
    else
      var last := lines[|lines| - 1];
      if IsArtistLine(last) then FieldValue(last, ARTIST_FIELD)
      else LastArtist(lines[..|lines| - 1])
  }

  /** One album entry per album line, in line order, paired with the artist of the
      nearest artist line above it. */
  function Entries(lines: seq<string>): (es: seq<Album>)
    requires AllLinesScan(lines)
    ensures |es| <= |lines|
    decreases |lines|
  {
    if lines == [] then []
    else
      var init := lines[..|lines| - 1];
      var last := lines[|lines| - 1];
      Entries(init)
      + if IsAlbumLine(last) then [Album(FieldValue(last, ALBUM_FIELD), LastArtist(init))] else []
  }

  /** The album titles of a list of albums. */
  function Names(albums: seq<Album>): set<string>
    decreases |albums|
  {
    if albums == [] then {} else Names(albums[..|albums| - 1]) + {albums[|albums| - 1].albumName}
  }

  lemma {:induction false} NamesAppend(s: seq<Album>, t: seq<Album>)
    ensures Names(s + t) == Names(s) + Names(t)
    decreases |t|
  {
    if t != [] {
      var t' := t[..|t| - 1];
      assert (s + t)[..|s + t| - 1] == s + t';
      NamesAppend(s, t');
    } else {
      assert s + t == s;
    }
  }

  /** Keeps the first entry of each album title, in order. */
  function FirstByName(entries: seq<Album>): (out: seq<Album>)
    ensures |out| <= |entries|
    ensures Names(out) == Names(entries)
    decreases |entries|
  {
    if entries == [] then []
    else
      var kept := FirstByName(entries[..|entries| - 1]);
      var e := entries[|entries| - 1];
      assert entries == entries[..|entries| - 1] + [e];
      NamesAppend(entries[..|entries| - 1], [e]);
      NamesAppend(kept, [e]);
      if e.albumName in Names(kept) then kept else kept + [e]
  }

  /** A title is among the names exactly when some album carries it. */
  lemma {:induction false} NamesMembership(s: seq<Album>)
    ensures forall k :: 0 <= k < |s| ==> s[k].albumName in Names(s)
    ensures forall n :: n in Names(s) ==> exists k :: 0 <= k < |s| && s[k].albumName == n
    decreases |s|
  {
    if s != [] {
      var init := s[..|s| - 1];
      NamesMembership(init);
      forall k | 0 <= k < |s| - 1 ensures s[k].albumName in Names(s) {
        assert s[k] == init[k];
      }
      forall n | n in Names(s) ensures exists k :: 0 <= k < |s| && s[k].albumName == n {
        if n in Names(init) {
          var k :| 0 <= k < |init| && init[k].albumName == n;
          assert s[k] == init[k];
        } else {
          assert s[|s| - 1].albumName == n;
        }
      }
    }
  }

  /** The position of the first entry carrying the title `name`. */
  function FirstIndex(entries: seq<Album>, name: string): (k: nat)
    requires name in Names(entries)
    ensures k < |entries| && entries[k].albumName == name
    ensures forall j :: 0 <= j < k ==> entries[j].albumName != name
    decreases |entries|
  {
    var init := entries[..|entries| - 1];
    if name in Names(init) then
      var k := FirstIndex(init, name);
      assert forall j :: 0 <= j < k ==> entries[j] == init[j];
      k
    else
      NamesMembership(init);
      assert forall j :: 0 <= j < |init| ==> entries[j] == init[j];
      |entries| - 1
  }

  /** Appending an entry does not move the first position of an earlier title, and
      a new title is first found at the appended position. */
  lemma FirstIndexSnoc(init: seq<Album>, e: Album, n: string)
    requires n in Names(init + [e])
    ensures n in Names(init) ==> FirstIndex(init + [e], n) == FirstIndex(init, n)
    ensures n !in Names(init) ==> FirstIndex(init + [e], n) == |init|
  {
    assert (init + [e])[..|init|] == init;
  }

  /** The title of every kept album is among the entries' titles. */
  lemma KeptTitleIsEntryTitle(entries: seq<Album>, i: int)
    requires 0 <= i < |FirstByName(entries)|
    ensures FirstByName(entries)[i].albumName in Names(entries)
  {
    NamesMembership(FirstByName(entries));
  }

  lemma NamesSnoc(init: seq<Album>, e: Album)
    ensures Names(init + [e]) == Names(init) + {e.albumName}
  {
    assert (init + [e])[..|init|] == init;
  }

  /** Every kept album is the first entry with its title. */
  lemma {:induction false} FirstByNameKeepsFirst(entries: seq<Album>)
    ensures var out := FirstByName(entries);
      forall i :: 0 <= i < |out| ==>
        out[i].albumName in Names(entries) && out[i] == entries[FirstIndex(entries, out[i].albumName)]
    decreases |entries|
  {
    if entries != [] {
      var init := entries[..|entries| - 1];
      var e := entries[|entries| - 1];
      var kept := FirstByName(init);
      var out := FirstByName(entries);
      FirstByNameKeepsFirst(init);
      assert entries == init + [e];
      forall i | 0 <= i < |out|
        ensures out[i].albumName in Names(entries) && out[i] == entries[FirstIndex(entries, out[i].albumName)]
      {
        if i < |kept| {
          assert out[i] == kept[i];
          KeptTitleIsEntryTitle(init, i);
          NamesSnoc(init, e);
          FirstIndexSnoc(init, e, kept[i].albumName);
        } else {
          assert out[i] == e && e.albumName !in Names(init);
          FirstIndexSnoc(init, e, e.albumName);
        }
      }
    }
  }

  /** The kept albums come in the order in which their titles first appear. */
  lemma {:induction false} FirstByNameInOrder(entries: seq<Album>)
    ensures var out := FirstByName(entries);
      forall i, j :: 0 <= i < j < |out| ==>
        out[i].albumName in Names(entries) && out[j].albumName in Names(entries)
        && FirstIndex(entries, out[i].albumName) < FirstIndex(entries, out[j].albumName)
    decreases |entries|
  {
    if entries != [] {
      var init := entries[..|entries| - 1];
      var e := entries[|entries| - 1];
      var kept := FirstByName(init);
      var out := FirstByName(entries);
      FirstByNameInOrder(init);
      assert entries == init + [e];
      NamesSnoc(init, e);
      forall i, j | 0 <= i < j < |out|
        ensures out[i].albumName in Names(entries) && out[j].albumName in Names(entries)
          && FirstIndex(entries, out[i].albumName) < FirstIndex(entries, out[j].albumName)
      {
        assert out[i] == kept[i];
        KeptTitleIsEntryTitle(init, i);
        FirstIndexSnoc(init, e, kept[i].albumName);
        if j < |kept| {
          assert out[j] == kept[j];
          KeptTitleIsEntryTitle(init, j);
          FirstIndexSnoc(init, e, kept[j].albumName);
        } else {
          assert out[j] == e && e.albumName !in Names(init);
          FirstIndexSnoc(init, e, e.albumName);
        }
      }
    }
  }

  /** No title is kept twice: the importer de-duplicates by title alone. */
  lemma FirstByNameDistinct(entries: seq<Album>)
    ensures var out := FirstByName(entries);
      forall i, j :: 0 <= i < j < |out| ==> out[i].albumName != out[j].albumName
  {
    FirstByNameInOrder(entries);
  }

  /** The number of album lines (lines with the album tag and no artist tag). */
  function CountAlbumLines(lines: seq<string>): nat
    decreases |lines|
  {
    if lines == [] then 0
    else CountAlbumLines(lines[..|lines| - 1]) + if IsAlbumLine(lines[|lines| - 1]) then 1 else 0
  }

  /** The importer returns at most one album per album line. */
  lemma {:induction false} AtMostOneAlbumPerAlbumLine(lines: seq<string>)
    requires AllLinesScan(lines)
    ensures |FirstByName(Entries(lines))| <= |Entries(lines)| == CountAlbumLines(lines)
    decreases |lines|
  {
    if lines != [] {
      AtMostOneAlbumPerAlbumLine(lines[..|lines| - 1]);
    }
  }

  /** Line `k` is an artist line and no artist line follows it. */
  predicate IsLastArtistLine(lines: seq<string>, k: int)
  {
    0 <= k < |lines| && IsArtistLine(lines[k]) && forall j :: k < j < |lines| ==> !IsArtistLine(lines[j])
  }

  /** The current artist is that of the nearest artist line, or "" when no artist
      line has been read. */
  lemma {:induction false} LastArtistIsNearest(lines: seq<string>)
    requires AllLinesScan(lines)
    ensures (forall k :: 0 <= k < |lines| ==> !IsArtistLine(lines[k])) ==> LastArtist(lines) == ""
    ensures forall k :: IsLastArtistLine(lines, k) ==> LastArtist(lines) == FieldValue(lines[k], ARTIST_FIELD)
    decreases |lines|
  {
    if lines != [] {
      var init := lines[..|lines| - 1];
      var last := lines[|lines| - 1];
      LastArtistIsNearest(init);
      forall k | IsLastArtistLine(lines, k) ensures LastArtist(lines) == FieldValue(lines[k], ARTIST_FIELD) {
        if k < |lines| - 1 {
          assert !IsArtistLine(last);
          assert init[k] == lines[k];
          assert forall j :: k < j < |init| ==> init[j] == lines[j];
          assert IsLastArtistLine(init, k);
        }
      }
      if forall k :: 0 <= k < |lines| ==> !IsArtistLine(lines[k]) {
        assert !IsArtistLine(last);
        assert forall k :: 0 <= k < |init| ==> init[k] == lines[k];
      }
    }
  }

  /** A line carrying both tags is read as an artist line only: it sets the artist
      and adds no album. */
  lemma BothTagsReadAsArtist(lines: seq<string>, line: string)
    requires AllLinesScan(lines) && LineScans(line)
    requires Contains(line, ARTIST_TAG) && Contains(line, ALBUM_TAG)
    ensures AllLinesScan(lines + [line])
    ensures Entries(lines + [line]) == Entries(lines)
    ensures LastArtist(lines + [line]) == FieldValue(line, ARTIST_FIELD)
  {
    assert (lines + [line])[..|lines|] == lines;
  }

  /** Scanning one more line: how the entries and the current artist change. */
  lemma ScanOneMore(lines: seq<string>, i: int)
    requires 0 <= i < |lines| && AllLinesScan(lines[..i]) && LineScans(lines[i])
    ensures AllLinesScan(lines[..i + 1])
    ensures Entries(lines[..i + 1]) == Entries(lines[..i])
      + if IsAlbumLine(lines[i]) then [Album(FieldValue(lines[i], ALBUM_FIELD), LastArtist(lines[..i]))] else []
    ensures LastArtist(lines[..i + 1])
      == if IsArtistLine(lines[i]) then FieldValue(lines[i], ARTIST_FIELD) else LastArtist(lines[..i])
  {
    assert lines[..i + 1][..i] == lines[..i];
    assert lines[..i + 1][i] == lines[i];
  }

  /** A line that adds no entry leaves the kept albums as they were. */
  lemma NonAlbumLineStep(lines: seq<string>, i: int)
    requires 0 <= i < |lines| && AllLinesScan(lines[..i]) && LineScans(lines[i])
    requires !IsAlbumLine(lines[i])
    ensures AllLinesScan(lines[..i + 1])
    ensures FirstByName(Entries(lines[..i + 1])) == FirstByName(Entries(lines[..i]))
    ensures LastArtist(lines[..i + 1])
      == if IsArtistLine(lines[i]) then FieldValue(lines[i], ARTIST_FIELD) else LastArtist(lines[..i])
  {
    ScanOneMore(lines, i);
    assert Entries(lines[..i + 1]) == Entries(lines[..i]);
  }

  /** An album line adds its entry, which is kept when its title is new. */
  lemma AlbumLineStep(lines: seq<string>, i: int)
    requires 0 <= i < |lines| && AllLinesScan(lines[..i]) && LineScans(lines[i])
    requires IsAlbumLine(lines[i])
    ensures AllLinesScan(lines[..i + 1])
    ensures var kept := FirstByName(Entries(lines[..i]));
      var e := Album(FieldValue(lines[i], ALBUM_FIELD), LastArtist(lines[..i]));
      FirstByName(Entries(lines[..i + 1])) == if e.albumName in Names(kept) then kept else kept + [e]
    ensures LastArtist(lines[..i + 1]) == LastArtist(lines[..i])
  {
    ScanOneMore(lines, i);
    FirstByNameSnoc(Entries(lines[..i]), Album(FieldValue(lines[i], ALBUM_FIELD), LastArtist(lines[..i])));
  }

  /** Keeping first entries, one more entry at a time. */
  lemma FirstByNameSnoc(entries: seq<Album>, e: Album)
    ensures FirstByName(entries + [e])
      == if e.albumName in Names(FirstByName(entries)) then FirstByName(entries) else FirstByName(entries) + [e]
  {
    assert (entries + [e])[..|entries|] == entries;
  }

  /** generateAlbums. The scanner holds the current artist in a one-slot array and the
      titles seen so far in a set; an artist line updates the holder, an album line
      with an unseen title appends a new album. `None` is the index-out-of-range
      panic of a tag line without its field opener. */
  method GenerateAlbums(lines: seq<string>) returns (r: Option<seq<Album>>)
    ensures r.None? <==> !AllLinesScan(lines)
    ensures r.Some? ==> r.value == FirstByName(Entries(lines))
  {
    var albums: seq<Album> := [];
    var albumSet: set<string> := {};
    var artistNameHolder := new string[1](_ => "");

    for i := 0 to |lines|
      invariant AllLinesScan(lines[..i])
      invariant albums == FirstByName(Entries(lines[..i]))
      invariant albumSet == Names(albums)
      invariant artistNameHolder[0] == LastArtist(lines[..i])
    {
      var line := lines[i];

      if Contains(line, ARTIST_TAG) {
        var artistLine := Split(line, ARTIST_FIELD);
        if |artistLine| < 2 {
          assert !LineScans(lines[i]);
          return None;
        }
        var artistName := Split(artistLine[1], STRING_CLOSE)[0];
        NonAlbumLineStep(lines, i);
        artistNameHolder[0] := artistName;
        continue;
      }

      if Contains(line, ALBUM_TAG) {
        var albumLine := Split(line, ALBUM_FIELD);
        if |albumLine| < 2 {
          assert !LineScans(lines[i]);
          return None;
        }
        var albumName := Split(albumLine[1], STRING_CLOSE)[0];
        AlbumLineStep(lines, i);
        if !(albumName in albumSet) {
          NamesAppend(albums, [NewAlbum(albumName, artistNameHolder[0])]);
          albumSet := albumSet + {albumName};
          albums := albums + [NewAlbum(albumName, artistNameHolder[0])];
        }
        continue;
      }
      NonAlbumLineStep(lines, i);
    }
    assert lines[..|lines|] == lines;
    return Some(albums);
  }

  datatype Option<T> = None | Some(value: T)
}
