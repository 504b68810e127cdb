/** What a run of scrapeDataFromRYM promises: its effects alternate between one
    request and one sleep of 150 to 380 seconds, the store only grows and only at
    the keys of the albums it reached and at MISSING_ALBUMS, every album it reached
    ends up recorded, so that a second run from a fresh snapshot does nothing, and
    the snapshot of missing albums is not refreshed during a run. */
module ScraperProperties {
  import opened Library
  import opened Redis
  import opened Crawl
  import opened Extractor
  import opened Scraper

  /** An album the store knows about: its key holds something, or its name is in
      the snapshot or in MISSING_ALBUMS. */
  predicate Recorded(db: Sets, missingAlbums: seq<string>, a: Album)
  {
    Members(db, AlbumKey(a.albumName)) != {} || a.albumName in missingAlbums
    || a.albumName in Members(db, REDIS_MISSING_ALBUMS_KEY)
  }

  /** After a fetch exactly one key is written: the album's key gains the two
      ratings when there is an average rating, MISSING_ALBUMS gains the name
      otherwise. */
  lemma FetchWritesOneKey(db: Sets, albumName: string, avgRating: string, numRatings: string)
    ensures avgRating != [] ==>
      Published(db, albumName, avgRating, numRatings) == Added(db, AlbumKey(albumName), {avgRating, numRatings})
    ensures avgRating == [] ==>
      Published(db, albumName, avgRating, numRatings) == Added(db, REDIS_MISSING_ALBUMS_KEY, {albumName})
  {
    RatingsPublishedAddsBoth(db, albumName, avgRating, numRatings);
  }

  /** One visit keeps the effects paced and counts one fetch per request/sleep pair. */
  lemma VisitPaced(st: Scrape, a: Album, missingAlbums: seq<string>, read: string -> Extraction, intn: nat -> int)
    requires !st.panicked && Paced(st.trace, intn, MIN_WAIT) && |st.trace| == 2 * st.fetches
    ensures var next := Visit(st, a, missingAlbums, read, intn);
      Paced(next.trace, intn, MIN_WAIT) && |next.trace| == 2 * next.fetches + (if next.panicked then 1 else 0)
  {
    PacedSnoc(st.trace, intn, MIN_WAIT, st.fetches, Url(a));
  }

  /** The effects of a run alternate between a request and a sleep, the k-th sleep
      using the k-th draw; a run that panicked ends with its unanswered request. */
  lemma {:induction false} RunPaced(slugs: seq<Album>, db: Sets, missingAlbums: seq<string>, read: string -> Extraction, intn: nat -> int)
    ensures var s := Run(slugs, db, missingAlbums, read, intn);
      Paced(s.trace, intn, MIN_WAIT) && |s.trace| == 2 * s.fetches + (if s.panicked then 1 else 0)
    decreases |slugs|
  {
    if slugs != [] {
      var init := slugs[..|slugs| - 1];
      RunPaced(init, db, missingAlbums, read, intn);
      if !Run(init, db, missingAlbums, read, intn).panicked {
        VisitPaced(Run(init, db, missingAlbums, read, intn), slugs[|slugs| - 1], missingAlbums, read, intn);
      }
    }
  }

  /** Every wait of a run lies in [MIN_WAIT, MAX_WAIT] = [150, 380] seconds. */
  lemma RunWaitsWithinWindow(slugs: seq<Album>, db: Sets, missingAlbums: seq<string>, read: string -> Extraction, intn: nat -> int)
    requires DrawsBelow(intn, MAX_WAIT - MIN_WAIT + 1)
    ensures WaitsWithin(Run(slugs, db, missingAlbums, read, intn).trace, MIN_WAIT, MAX_WAIT)
  {
    RunPaced(slugs, db, missingAlbums, read, intn);
    PacedWaitsWithin(Run(slugs, db, missingAlbums, read, intn).trace, intn, MIN_WAIT, MAX_WAIT);
  }

  /** One visit adds to the store and changes nothing but the album's key and
      MISSING_ALBUMS. */
  lemma VisitWrites(st: Scrape, a: Album, missingAlbums: seq<string>, read: string -> Extraction, intn: nat -> int)
    ensures var next := Visit(st, a, missingAlbums, read, intn);
      Grows(st.db, next.db)
      && SameOutside(st.db, next.db, {REDIS_MISSING_ALBUMS_KEY, AlbumKey(a.albumName)})
  {
    if !st.panicked && !Skipped(st.db, missingAlbums, a) {
      var r := read(Url(a));
      if r.Ratings? {
        FetchWritesOneKey(st.db, a.albumName, r.avgRating, r.numRatings);
      }
    }
  }

  /** A run only adds to the store, and only at MISSING_ALBUMS and at the keys of the
      albums it reached. */
  lemma {:induction false} RunWrites(slugs: seq<Album>, db: Sets, missingAlbums: seq<string>, read: string -> Extraction, intn: nat -> int)
    ensures var s := Run(slugs, db, missingAlbums, read, intn);
      Grows(db, s.db) && SameOutside(db, s.db, {REDIS_MISSING_ALBUMS_KEY} + AlbumKeys(s.albums))
    decreases |slugs|
  {
    if slugs != [] {
      var init := slugs[..|slugs| - 1];
      var prev := Run(init, db, missingAlbums, read, intn);
      var a := slugs[|slugs| - 1];
      RunWrites(init, db, missingAlbums, read, intn);
      VisitWrites(prev, a, missingAlbums, read, intn);
      if !prev.panicked {
        assert AlbumKeys(prev.albums + [a]) == AlbumKeys(prev.albums) + {AlbumKey(a.albumName)};
      }
    }
  }

  /** What the store records of an album stays recorded when the store grows. */
  lemma RecordedGrows(db1: Sets, db2: Sets, missingAlbums: seq<string>, a: Album)
    requires Grows(db1, db2) && Recorded(db1, missingAlbums, a)
    ensures Recorded(db2, missingAlbums, a)
  {
    assert Members(db1, AlbumKey(a.albumName)) <= Members(db2, AlbumKey(a.albumName));
    assert Members(db1, REDIS_MISSING_ALBUMS_KEY) <= Members(db2, REDIS_MISSING_ALBUMS_KEY);
  }

  /** A visit that does not panic leaves its album recorded. */
  lemma VisitRecords(st: Scrape, a: Album, missingAlbums: seq<string>, read: string -> Extraction, intn: nat -> int)
    requires !Visit(st, a, missingAlbums, read, intn).panicked
    ensures Recorded(Visit(st, a, missingAlbums, read, intn).db, missingAlbums, a)
  {
    if !Skipped(st.db, missingAlbums, a) {
      var r := read(Url(a));
      FetchWritesOneKey(st.db, a.albumName, r.avgRating, r.numRatings);
      if r.avgRating != [] {
        assert r.avgRating in Members(Visit(st, a, missingAlbums, read, intn).db, AlbumKey(a.albumName));
      }
    }
  }

  /** Every album of a run that did not panic is recorded in the final store. */
  lemma {:induction false} RunRecordsEveryAlbum(slugs: seq<Album>, db: Sets, missingAlbums: seq<string>, read: string -> Extraction, intn: nat -> int)
    requires !Run(slugs, db, missingAlbums, read, intn).panicked
    ensures forall j :: 0 <= j < |slugs| ==> Recorded(Run(slugs, db, missingAlbums, read, intn).db, missingAlbums, slugs[j])
    decreases |slugs|
  {
    if slugs != [] {
      var init := slugs[..|slugs| - 1];
      var prev := Run(init, db, missingAlbums, read, intn);
      var s := Run(slugs, db, missingAlbums, read, intn);
      RunRecordsEveryAlbum(init, db, missingAlbums, read, intn);
      VisitWrites(prev, slugs[|slugs| - 1], missingAlbums, read, intn);
      VisitRecords(prev, slugs[|slugs| - 1], missingAlbums, read, intn);
      forall j | 0 <= j < |slugs|
        ensures Recorded(s.db, missingAlbums, slugs[j])
      {
        if j < |init| {
          assert init[j] == slugs[j];
          RecordedGrows(prev.db, s.db, missingAlbums, slugs[j]);
        }
      }
    }
  }

  /** A run in which every album is skipped requests nothing and writes nothing. */
  lemma {:induction false} RunAllSkipped(slugs: seq<Album>, db: Sets, missingAlbums: seq<string>, read: string -> Extraction, intn: nat -> int)
    requires forall j :: 0 <= j < |slugs| ==> Skipped(db, missingAlbums, slugs[j])
    ensures Run(slugs, db, missingAlbums, read, intn) == Scrape(db, [], slugs, 0, false)
    decreases |slugs|
  {
    if slugs != [] {
      var init := slugs[..|slugs| - 1];
      var last := slugs[|slugs| - 1];
      assert Run(init, db, missingAlbums, read, intn) == Scrape(db, [], init, 0, false) by {
        assert forall j :: 0 <= j < |init| ==> init[j] == slugs[j];
        RunAllSkipped(init, db, missingAlbums, read, intn);
      }
      assert Skipped(db, missingAlbums, last);
      assert init + [last] == slugs;
    }
  }

  /** Restarting the program after a run that did not panic, with the snapshot of
      MISSING_ALBUMS read again at startup as main does, requests no page and
      writes nothing, whatever the pages and draws are this time. */
  lemma SecondRunChangesNothing(slugs: seq<Album>, db: Sets, missing1: seq<string>, read: string -> Extraction, intn: nat -> int,
                                missing2: seq<string>, read2: string -> Extraction, intn2: nat -> int)
    requires Elements(missing1) == Members(db, REDIS_MISSING_ALBUMS_KEY)
    requires !Run(slugs, db, missing1, read, intn).panicked
    requires Elements(missing2) == Members(Run(slugs, db, missing1, read, intn).db, REDIS_MISSING_ALBUMS_KEY)
    ensures var db1 := Run(slugs, db, missing1, read, intn).db;
      Run(slugs, db1, missing2, read2, intn2) == Scrape(db1, [], slugs, 0, false)
  {
    var db1 := Run(slugs, db, missing1, read, intn).db;
    RunRecordsEveryAlbum(slugs, db, missing1, read, intn);
    RunWrites(slugs, db, missing1, read, intn);
    forall j | 0 <= j < |slugs|
      ensures Skipped(db1, missing2, slugs[j])
    {
      var name := slugs[j].albumName;
      if name in missing1 {
        assert name in Members(db, REDIS_MISSING_ALBUMS_KEY);
        assert name in Members(db1, REDIS_MISSING_ALBUMS_KEY);
      }
    }
    RunAllSkipped(slugs, db1, missing2, read2, intn2);
  }

  /** A run over two albums is two visits from the initial state. */
  lemma RunTwo(a: Album, b: Album, db: Sets, missingAlbums: seq<string>, read: string -> Extraction, intn: nat -> int)
    ensures Run([a], db, missingAlbums, read, intn) == Visit(Start(db), a, missingAlbums, read, intn)
    ensures Run([a, b], db, missingAlbums, read, intn)
      == Visit(Run([a], db, missingAlbums, read, intn), b, missingAlbums, read, intn)
  {
    assert [a][..0] == [];
    assert [a, b][..1] == [a];
  }

  /** No album key is MISSING_ALBUMS. */
  lemma AlbumKeyIsNotMissingKey(albumName: string)
    ensures AlbumKey(albumName) != REDIS_MISSING_ALBUMS_KEY
  {
    assert AlbumKey(albumName)[0] == 'A';
  }

  /** Recording an album as missing leaves its own key as it was. */
  lemma MissingLeavesAlbumKey(db: Sets, albumName: string)
    ensures Members(MissingPublished(db, albumName), AlbumKey(albumName)) == Members(db, AlbumKey(albumName))
  {
    AlbumKeyIsNotMissingKey(albumName);
  }

  /** A visit of an album that is neither cached nor in the snapshot, whose page
      the extractor reads, requests the page, writes what Published says and
      sleeps with the next draw. */
  lemma UncachedVisit(st: Scrape, a: Album, missingAlbums: seq<string>, read: string -> Extraction, intn: nat -> int)
    requires !st.panicked && Members(st.db, AlbumKey(a.albumName)) == {} && a.albumName !in missingAlbums
    requires read(Url(a)).Ratings?
    ensures var next := Visit(st, a, missingAlbums, read, intn);
      next.trace == st.trace + [Fetch(Url(a)), Sleep(intn(st.fetches) + MIN_WAIT)]
      && next.db == Published(st.db, a.albumName, read(Url(a)).avgRating, read(Url(a)).numRatings)
      && next.fetches == st.fetches + 1 && !next.panicked
  {
    var r := read(Url(a));
    VisitPublishes(st, a, missingAlbums, read, intn, Url(a), r,
                   Published(st.db, a.albumName, r.avgRating, r.numRatings),
                   st.trace + [Fetch(Url(a)), Sleep(intn(st.fetches) + MIN_WAIT)]);
  }

  /** The snapshot is read once at startup: an album that appears twice, whose key
      is empty, which is not in the snapshot, and whose page has no average rating,
      is requested twice in the same run although the first visit recorded it as
      missing. */
  lemma MissingAlbumRequestedTwice(a: Album, db: Sets, missingAlbums: seq<string>, read: string -> Extraction, intn: nat -> int)
    requires Members(db, AlbumKey(a.albumName)) == {} && a.albumName !in missingAlbums
    requires read(Url(a)).Ratings? && read(Url(a)).avgRating == []
    ensures Run([a, a], db, missingAlbums, read, intn).trace
      == [Fetch(Url(a)), Sleep(intn(0) + MIN_WAIT), Fetch(Url(a)), Sleep(intn(1) + MIN_WAIT)]
  {
    var first := Visit(Start(db), a, missingAlbums, read, intn);
    UncachedVisit(Start(db), a, missingAlbums, read, intn);
    MissingLeavesAlbumKey(db, a.albumName);
    UncachedVisit(first, a, missingAlbums, read, intn);
    RunTwo(a, a, db, missingAlbums, read, intn);
  }

  /** By contrast an album found on its first visit is skipped on the second: its
      key is read before each request. */
  lemma FoundAlbumRequestedOnce(a: Album, db: Sets, missingAlbums: seq<string>, read: string -> Extraction, intn: nat -> int)
    requires Members(db, AlbumKey(a.albumName)) == {} && a.albumName !in missingAlbums
    requires read(Url(a)).Ratings? && read(Url(a)).avgRating != []
    ensures Run([a, a], db, missingAlbums, read, intn).trace == [Fetch(Url(a)), Sleep(intn(0) + MIN_WAIT)]
  {
    var r := read(Url(a));
    var first := Visit(Start(db), a, missingAlbums, read, intn);
    UncachedVisit(Start(db), a, missingAlbums, read, intn);
    assert Skipped(first.db, missingAlbums, a) by {
      FetchWritesOneKey(db, a.albumName, r.avgRating, r.numRatings);
      assert r.avgRating in Members(first.db, AlbumKey(a.albumName));
    }
    RunTwo(a, a, db, missingAlbums, read, intn);
  }
}
