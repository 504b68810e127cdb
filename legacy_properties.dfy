/** What a run of the earlier loop promises: every album of the input is requested
    exactly once, in input order, each request followed by a sleep of 60 to 120
    seconds; the store only grows, only at FOUND_ALBUMS and at the keys of the
    albums, and pages without a rating write nothing. */
module LegacyProperties {
  import opened Library
  import opened Redis
  import opened Extractor
  import opened Crawl
  import opened LegacyScraper

  /** A page that gives no average rating, or on which the extractor panics. */
  predicate NoRating(e: Extraction)
  {
    e.RangePanic? || e.avgRating == []
  }

  /** The writes after a request: with an average rating, FOUND_ALBUMS gains the
      name and "0" and the album's key gains both ratings and "0"; without one,
      the store is unchanged. */
  lemma FetchWrites(db: Sets, albumName: string, avgRating: string, numRatings: string)
    ensures avgRating != [] ==>
      Published(db, albumName, avgRating, numRatings)
      == Added(Added(db, REDIS_FOUND_ALBUMS_KEY, {albumName, ZERO}), AlbumKey(albumName), {avgRating, numRatings, ZERO})
    ensures avgRating == [] ==> Published(db, albumName, avgRating, numRatings) == db
  {
    RatingsPublishedAddsThree(FoundPublished(db, albumName), albumName, avgRating, numRatings);
  }

  /** One visit requests the album's page and, unless the extractor panics, sleeps
      with the next draw. */
  lemma VisitPaced(st: Scrape, a: Album, read: string -> Extraction, intn: nat -> int)
    requires !st.panicked && Paced(st.trace, intn, MIN_WAIT) && |st.trace| == 2 * st.fetches
    ensures var next := Visit(st, a, read, intn);
      Paced(next.trace, intn, MIN_WAIT) && |next.trace| == 2 * next.fetches + (if next.panicked then 1 else 0)
      && next.trace[|st.trace|] == Fetch(Url(a))
  {
    PacedSnoc(st.trace, intn, MIN_WAIT, st.fetches, Url(a));
  }

  /** The effects of a run: for each album reached, in order, the request of its
      page and then a sleep using the draw of the same rank, except that a run that
      panicked ends with the request that made it panic. */
  lemma {:induction false} RunSchedule(slugs: seq<Album>, db: Sets, read: string -> Extraction, intn: nat -> int)
    ensures var s := Run(slugs, db, read, intn);
      Paced(s.trace, intn, MIN_WAIT)
      && |s.trace| == 2 * s.fetches + (if s.panicked then 1 else 0)
      && |s.albums| == s.fetches + (if s.panicked then 1 else 0)
      && (forall k :: 0 <= k < |s.trace| && k % 2 == 0 ==> s.trace[k] == Fetch(Url(s.albums[k / 2])))
    decreases |slugs|
  {
    if slugs != [] {
      var init := slugs[..|slugs| - 1];
      var prev := Run(init, db, read, intn);
      var a := slugs[|slugs| - 1];
      RunSchedule(init, db, read, intn);
      if !prev.panicked {
        VisitPaced(prev, a, read, intn);
        var s := Visit(prev, a, read, intn);
        forall k | 0 <= k < |s.trace| && k % 2 == 0
          ensures s.trace[k] == Fetch(Url(s.albums[k / 2]))
        {
          if k < |prev.trace| {
            assert s.trace[k] == s.trace[..|prev.trace| + 1][k] == prev.trace[k];
            assert s.albums[k / 2] == prev.albums[k / 2];
          } else {
            assert k == |prev.trace| && k / 2 == |prev.albums|;
          }
        }
      }
    }
  }

  /** There is no cache check: a run that does not panic requests every album of the
      input exactly once, in input order, and sleeps after each request. */
  lemma RunRequestsEveryAlbum(slugs: seq<Album>, db: Sets, read: string -> Extraction, intn: nat -> int)
    requires !Run(slugs, db, read, intn).panicked
    ensures var t := Run(slugs, db, read, intn).trace;
      |t| == 2 * |slugs|
      && forall k :: 0 <= k < |t| ==>
        t[k] == if k % 2 == 0 then Fetch(Url(slugs[k / 2])) else Sleep(intn(k / 2) + MIN_WAIT)
  {
    RunSchedule(slugs, db, read, intn);
  }

  /** Every wait of a run lies in [MIN_WAIT, MAX_WAIT] = [60, 120] seconds. */
  lemma RunWaitsWithinWindow(slugs: seq<Album>, db: Sets, read: string -> Extraction, intn: nat -> int)
    requires DrawsBelow(intn, MAX_WAIT - MIN_WAIT + 1)
    ensures WaitsWithin(Run(slugs, db, read, intn).trace, MIN_WAIT, MAX_WAIT)
  {
    RunSchedule(slugs, db, read, intn);
    PacedWaitsWithin(Run(slugs, db, read, intn).trace, intn, MIN_WAIT, MAX_WAIT);
  }

  /** One visit adds to the store and changes nothing but FOUND_ALBUMS and the
      album's key. */
  lemma VisitWrites(st: Scrape, a: Album, read: string -> Extraction, intn: nat -> int)
    ensures var next := Visit(st, a, read, intn);
      Grows(st.db, next.db) && SameOutside(st.db, next.db, {REDIS_FOUND_ALBUMS_KEY, AlbumKey(a.albumName)})
  {
    if !st.panicked {
      var r := read(Url(a));
      if r.Ratings? {
        FetchWrites(st.db, a.albumName, r.avgRating, r.numRatings);
      }
    }
  }

  /** A run only adds to the store, and only at FOUND_ALBUMS and at the keys of the
      albums it reached. */
  lemma {:induction false} RunWrites(slugs: seq<Album>, db: Sets, read: string -> Extraction, intn: nat -> int)
    ensures var s := Run(slugs, db, read, intn);
      Grows(db, s.db) && SameOutside(db, s.db, {REDIS_FOUND_ALBUMS_KEY} + AlbumKeys(s.albums))
    decreases |slugs|
  {
    if slugs != [] {
      var init := slugs[..|slugs| - 1];
      var prev := Run(init, db, read, intn);
      var a := slugs[|slugs| - 1];
      RunWrites(init, db, read, intn);
      VisitWrites(prev, a, read, intn);
      if !prev.panicked {
        assert AlbumKeys(prev.albums + [a]) == AlbumKeys(prev.albums) + {AlbumKey(a.albumName)};
      }
    }
  }

  /** A run in which no page gives an average rating leaves the store as it was. */
  lemma {:induction false} RunWithoutRatingsWritesNothing(slugs: seq<Album>, db: Sets, read: string -> Extraction, intn: nat -> int)
    requires forall j :: 0 <= j < |slugs| ==> NoRating(read(Url(slugs[j])))
    ensures Run(slugs, db, read, intn).db == db
    decreases |slugs|
  {
    if slugs != [] {
      var init := slugs[..|slugs| - 1];
      var a := slugs[|slugs| - 1];
      assert forall j :: 0 <= j < |init| ==> init[j] == slugs[j];
      RunWithoutRatingsWritesNothing(init, db, read, intn);
      assert NoRating(read(Url(a)));
    }
  }

  /** The record of a found album: its name in FOUND_ALBUMS and the two ratings in
      its key. */
  ghost predicate FoundRecorded(db: Sets, a: Album, read: string -> Extraction)
  {
    var r := read(Url(a));
    r.Ratings? && r.avgRating != [] ==>
      a.albumName in Members(db, REDIS_FOUND_ALBUMS_KEY)
      && r.avgRating in Members(db, AlbumKey(a.albumName))
      && r.numRatings in Members(db, AlbumKey(a.albumName))
  }

  /** What FoundRecorded says of an album stays true when the store grows. */
  lemma FoundRecordedGrows(db1: Sets, db2: Sets, a: Album, read: string -> Extraction)
    requires Grows(db1, db2) && FoundRecorded(db1, a, read)
    ensures FoundRecorded(db2, a, read)
  {
    assert Members(db1, REDIS_FOUND_ALBUMS_KEY) <= Members(db2, REDIS_FOUND_ALBUMS_KEY);
    assert Members(db1, AlbumKey(a.albumName)) <= Members(db2, AlbumKey(a.albumName));
  }

  /** A visit of an album whose page gives an average rating records it. */
  lemma VisitRecordsFound(st: Scrape, a: Album, read: string -> Extraction, intn: nat -> int)
    requires !st.panicked
    ensures FoundRecorded(Visit(st, a, read, intn).db, a, read)
  {
    var r := read(Url(a));
    if r.Ratings? {
      FetchWrites(st.db, a.albumName, r.avgRating, r.numRatings);
    }
  }

  /** After a run that did not panic, every album whose page gives an average
      rating is in FOUND_ALBUMS with both ratings under its key. */
  lemma {:induction false} RunRecordsFoundAlbums(slugs: seq<Album>, db: Sets, read: string -> Extraction, intn: nat -> int)
    requires !Run(slugs, db, read, intn).panicked
    ensures forall j :: 0 <= j < |slugs| ==> FoundRecorded(Run(slugs, db, read, intn).db, slugs[j], read)
    decreases |slugs|
  {
    if slugs != [] {
      var init := slugs[..|slugs| - 1];
      var prev := Run(init, db, read, intn);
      var a := slugs[|slugs| - 1];
      var s := Run(slugs, db, read, intn);
      assert s == Visit(prev, a, read, intn) && !prev.panicked;
      RunRecordsFoundAlbums(init, db, read, intn);
      VisitWrites(prev, a, read, intn);
      VisitRecordsFound(prev, a, read, intn);
      forall j | 0 <= j < |slugs|
        ensures FoundRecorded(s.db, slugs[j], read)
      {
        if j < |init| {
          assert init[j] == slugs[j];
          FoundRecordedGrows(prev.db, s.db, slugs[j], read);
        }
      }
    }
  }
}
