/** The current scrape loop, scrapeDataFromRYM, with publishRatings,
    publishMissingAlbum, contains and the `/rating/:albumName` lookup rule. An album
    is fetched only when its `ALBUM:` set is empty and its name is not in the
    snapshot of missing albums taken at startup; every fetch ends in exactly one
    kind of write and a sleep of 150 to 380 seconds. */
module Scraper {
  import opened GoStrings
  import opened Normalizer
  import opened Extractor
  import opened Library
  import opened Redis
  import opened Crawl

  const MIN_WAIT: int := 150
  const MAX_WAIT: int := 380
  const REDIS_MISSING_ALBUMS_KEY: string := "MISSING_ALBUMS"

  /** contains: a linear search with an early return; exact membership. */
  method SliceContains(arr: seq<string>, element: string) returns (found: bool)
    ensures found <==> element in arr
  {
    for k := 0 to |arr|
      invariant element !in arr[..k]
    {
      if arr[k] == element {
        return true;
      }
    }
    assert arr[..|arr|] == arr;
    return false;
  }

  /** The store after publishRatings: one SADD of the average rating, then one of
      the number of ratings, both on the album's key. */
  function RatingsPublished(db: Sets, albumName: string, avgRating: string, numRatings: string): Sets
  {
    Added(Added(db, AlbumKey(albumName), {avgRating}), AlbumKey(albumName), {numRatings})
  }

  /** Together the two SADDs add both strings to the album's set and touch no other
      key; equal strings collapse into one member. */
  lemma RatingsPublishedAddsBoth(db: Sets, albumName: string, avgRating: string, numRatings: string)
    ensures RatingsPublished(db, albumName, avgRating, numRatings)
      == Added(db, AlbumKey(albumName), {avgRating, numRatings})
  {
    AddedTwice(db, AlbumKey(albumName), {avgRating}, {numRatings});
    assert {avgRating} + {numRatings} == {avgRating, numRatings};
  }

  /** publishRatings. */
  method PublishRatings(client: Store, albumName: string, avgRating: string, numRatings: string)
    modifies client
    ensures client.db == RatingsPublished(old(client.db), albumName, avgRating, numRatings)
  {
    assert Elements([avgRating]) == {avgRating} && Elements([numRatings]) == {numRatings};
    client.SAdd(AlbumKey(albumName), [avgRating]);
    client.SAdd(AlbumKey(albumName), [numRatings]);
  }

  /** The store after publishMissingAlbum. */
  function MissingPublished(db: Sets, albumName: string): Sets
  {
    Added(db, REDIS_MISSING_ALBUMS_KEY, {albumName})
  }

  /** publishMissingAlbum. */
  method PublishMissingAlbum(client: Store, albumName: string)
    modifies client
    ensures client.db == MissingPublished(old(client.db), albumName)
  {
    assert Elements([albumName]) == {albumName};
    client.SAdd(REDIS_MISSING_ALBUMS_KEY, [albumName]);
  }

  /** Lines 122-137 of the loop: the ratings when the page shows an average
      rating, the missing-album record otherwise. */
  method Publish(client: Store, albumName: string, avgRating: string, numRatings: string)
    modifies client
    ensures client.db == Published(old(client.db), albumName, avgRating, numRatings)
  {
    if avgRating != [] {
      PublishRatings(client, albumName, avgRating, numRatings);
    } else {
      PublishMissingAlbum(client, albumName);
    }
  }

  /** The skip rule: an album already cached under its key, or named in the
      startup snapshot of missing albums, is not fetched. */
  predicate Skipped(db: Sets, missingAlbums: seq<string>, a: Album)
  {
    Members(db, AlbumKey(a.albumName)) != {} || a.albumName in missingAlbums
  }

  /** The write that follows a fetch: a non-empty average rating is published
      with the number of ratings, otherwise the album is recorded as missing. */
  function Published(db: Sets, albumName: string, avgRating: string, numRatings: string): Sets
  {
    if avgRating != [] then RatingsPublished(db, albumName, avgRating, numRatings)
    else MissingPublished(db, albumName)
  }

  /** One iteration of the loop, for the album `a` it has just rewritten with its
      slugs. A panic in the extractor ends the run. */
  function Visit(st: Scrape, a: Album, missingAlbums: seq<string>, read: string -> Extraction, intn: nat -> int): (next: Scrape)
    ensures st.panicked ==> next == st
    ensures !st.panicked ==> next.albums == st.albums + [a]
    ensures !st.panicked && Skipped(st.db, missingAlbums, a) ==>
      next.db == st.db && next.trace == st.trace && next.fetches == st.fetches && !next.panicked
    ensures !st.panicked && !Skipped(st.db, missingAlbums, a) ==>
      |next.trace| > |st.trace| && next.trace[..|st.trace| + 1] == st.trace + [Fetch(Url(a))]
  {
    if st.panicked then st
    else
      var reached := st.(albums := st.albums + [a]);
      if Skipped(st.db, missingAlbums, a) then reached
      else
        var url := Url(a);
        match read(url)
        case RangePanic => reached.(trace := st.trace + [Fetch(url)], panicked := true)
        case Ratings(avgRating, numRatings) =>
          reached.(db := Published(st.db, a.albumName, avgRating, numRatings),
                   trace := st.trace + [Fetch(url), Sleep(intn(st.fetches) + MIN_WAIT)],
                   fetches := st.fetches + 1)
  }

  /** The loop over the albums `slugs` (each already rewritten with its slugs),
      from the store `db`. */
  function Run(slugs: seq<Album>, db: Sets, missingAlbums: seq<string>, read: string -> Extraction, intn: nat -> int): (s: Scrape)
    ensures |s.albums| <= |slugs| && s.albums == slugs[..|s.albums|]
    ensures !s.panicked ==> s.albums == slugs
    decreases |slugs|
  {
    if slugs == [] then Start(db)
    else
      var init := slugs[..|slugs| - 1];
      var prev := Run(init, db, missingAlbums, read, intn);
      assert prev.albums == slugs[..|prev.albums|] by {
        assert init[..|prev.albums|] == slugs[..|prev.albums|];
      }
      assert !prev.panicked ==> prev.albums + [slugs[|slugs| - 1]] == slugs;
      Visit(prev, slugs[|slugs| - 1], missingAlbums, read, intn)
  }

  /** Run on one more album is Visit on the run so far. */
  lemma RunSnoc(slugs: seq<Album>, i: int, db: Sets, missingAlbums: seq<string>, read: string -> Extraction, intn: nat -> int)
    requires 0 <= i < |slugs|
    ensures Run(slugs[..i + 1], db, missingAlbums, read, intn)
      == Visit(Run(slugs[..i], db, missingAlbums, read, intn), slugs[i], missingAlbums, read, intn)
  {
    assert slugs[..i + 1][..i] == slugs[..i];
  }

  /** A run that reached `prev` over the first `i` albums reaches what Visit makes
      of `prev` and the next album over the first `i + 1`. */
  lemma RunExtends(slugs: seq<Album>, i: int, db: Sets, missingAlbums: seq<string>, read: string -> Extraction,
                   intn: nat -> int, prev: Scrape, next: Scrape)
    requires 0 <= i < |slugs| && Run(slugs[..i], db, missingAlbums, read, intn) == prev
    requires Visit(prev, slugs[i], missingAlbums, read, intn) == next
    ensures Run(slugs[..i + 1], db, missingAlbums, read, intn) == next
  {
    RunSnoc(slugs, i, db, missingAlbums, read, intn);
  }

  /** Once a run has panicked, the albums after it change nothing. */
  lemma {:induction false} RunAfterPanic(slugs: seq<Album>, n: int, db: Sets, missingAlbums: seq<string>, read: string -> Extraction, intn: nat -> int)
    requires 0 <= n <= |slugs| && Run(slugs[..n], db, missingAlbums, read, intn).panicked
    ensures Run(slugs, db, missingAlbums, read, intn) == Run(slugs[..n], db, missingAlbums, read, intn)
    decreases |slugs| - n
  {
    if n < |slugs| {
      RunSnoc(slugs, n, db, missingAlbums, read, intn);
      RunAfterPanic(slugs, n + 1, db, missingAlbums, read, intn);
    } else {
      assert slugs[..n] == slugs;
    }
  }

  /** A run over a prefix that panicked, or over all of `slugs`, is the run over
      `slugs`; an array holding the albums that run reached followed by the raw
      albums after them is that run's albums and the rest of `raws`. */
  lemma RunEnds(raws: seq<Album>, slugs: seq<Album>, n: int, db: Sets, missingAlbums: seq<string>,
                read: string -> Extraction, intn: nat -> int, st: Scrape, entries: seq<Album>)
    requires 0 <= n <= |slugs| == |raws| == |entries| && Run(slugs[..n], db, missingAlbums, read, intn) == st
    requires st.panicked || n == |slugs|
    requires entries[..n] == st.albums && entries[n..] == raws[n..]
    ensures Run(slugs, db, missingAlbums, read, intn) == st
    ensures entries == st.albums + raws[|st.albums|..]
  {
    if st.panicked {
      RunAfterPanic(slugs, n, db, missingAlbums, read, intn);
    } else {
      assert slugs[..n] == slugs;
    }
    assert entries == entries[..n] + entries[n..];
  }

  /** Visit of an album that is not skipped, when the extractor panics on its page:
      the fetch is recorded and the run ends. */
  lemma VisitPanics(st: Scrape, a: Album, missingAlbums: seq<string>, read: string -> Extraction,
                    intn: nat -> int, url: string, trace: seq<Event>)
    requires !st.panicked && !Skipped(st.db, missingAlbums, a)
    requires url == Url(a) && read(url).RangePanic? && trace == st.trace + [Fetch(url)]
    ensures Visit(st, a, missingAlbums, read, intn) == Scrape(st.db, trace, st.albums + [a], st.fetches, true)
  {
  }

  /** Visit of an album that is not skipped, when the extractor reads its page: the
      read, the write `db` and the sleep, with one more fetch counted. */
  lemma VisitPublishes(st: Scrape, a: Album, missingAlbums: seq<string>, read: string -> Extraction,
                       intn: nat -> int, url: string, ratings: Extraction, db: Sets, trace: seq<Event>)
    requires !st.panicked && !Skipped(st.db, missingAlbums, a)
    requires url == Url(a) && ratings == read(url) && ratings.Ratings?
    requires db == Published(st.db, a.albumName, ratings.avgRating, ratings.numRatings)
    requires trace == st.trace + [Fetch(url), Sleep(intn(st.fetches) + MIN_WAIT)]
    ensures Visit(st, a, missingAlbums, read, intn) == Scrape(db, trace, st.albums + [a], st.fetches + 1, false)
  {
  }

  /** Lines 97-142 of the loop for an album that is not skipped: the fetch, the
      write and the sleep, as Visit describes them for the run so far (store,
      effects `trace0`, albums `reached`, `fetches0` fetches). */
  method FetchAlbum(client: Store, a: Album, ghost missingAlbums: seq<string>, fetch: string -> string,
                    ghost read: string -> Extraction, intn: nat -> int, trace0: seq<Event>, fetches0: nat, ghost reached: seq<Album>)
    returns (trace: seq<Event>, fetches: nat, panicked: bool)
    requires Reads(read, fetch) && !Skipped(client.db, missingAlbums, a)
    modifies client
    ensures Visit(Scrape(old(client.db), trace0, reached, fetches0, false), a, missingAlbums, read, intn)
      == Scrape(client.db, trace, reached + [a], fetches, panicked)
  {
    ghost var st := Scrape(client.db, trace0, reached, fetches0, false);
    var url := Url(a);
    var ratings := ReadPage(fetch, read, url);
    trace := trace0 + [Fetch(url)];
    if ratings.RangePanic? {
      VisitPanics(st, a, missingAlbums, read, intn, url, trace);
      return trace, fetches0, true;
    }
    Publish(client, a.albumName, ratings.avgRating, ratings.numRatings);
    var randomVal := intn(fetches0) + MIN_WAIT;
    trace := trace + [Sleep(randomVal)];
    assert trace == st.trace + [Fetch(url), Sleep(intn(st.fetches) + MIN_WAIT)];
    VisitPublishes(st, a, missingAlbums, read, intn, url, ratings, client.db, trace);
    return trace, fetches0 + 1, false;
  }

  /** The loop body for the rewritten album `a` after line 84: the skip rule, then
      FetchAlbum. */
  method ScrapeAlbum(client: Store, a: Album, missingAlbums: seq<string>, fetch: string -> string,
                     ghost read: string -> Extraction, intn: nat -> int, trace0: seq<Event>, fetches0: nat, ghost reached: seq<Album>)
    returns (trace: seq<Event>, fetches: nat, panicked: bool)
    requires Reads(read, fetch)
    modifies client
    ensures Visit(Scrape(old(client.db), trace0, reached, fetches0, false), a, missingAlbums, read, intn)
      == Scrape(client.db, trace, reached + [a], fetches, panicked)
  {
    var value := client.SMembers(AlbumKey(a.albumName));
    if |value| > 0 {
      return trace0, fetches0, false;
    }
    var isMissing := SliceContains(missingAlbums, a.albumName);
    if isMissing {
      return trace0, fetches0, false;
    }
    trace, fetches, panicked := FetchAlbum(client, a, missingAlbums, fetch, read, intn, trace0, fetches0, reached);
  }

  /** One iteration of the loop for entry `i`: the entry is overwritten in place
      with its rewritten form (lines 83-84) and handled as Visit says, which
      extends the run over the first `i` rewritten albums by one. */
  method ScrapeEntry(albums: array<Album>, i: int, client: Store, missingAlbums: seq<string>,
                     fetch: string -> string, ghost read: string -> Extraction, intn: nat -> int,
                     format: Album -> Album, trace0: seq<Event>, fetches0: nat, ghost raws: seq<Album>, ghost db0: Sets)
    returns (trace: seq<Event>, fetches: nat, panicked: bool)
    requires Reads(read, fetch) && 0 <= i < albums.Length == |raws| && albums[i..] == raws[i..]
    requires Run(Rewritten(format, raws)[..i], db0, missingAlbums, read, intn)
      == Scrape(client.db, trace0, albums[..i], fetches0, false)
    modifies albums, client
    ensures Run(Rewritten(format, raws)[..i + 1], db0, missingAlbums, read, intn)
      == Scrape(client.db, trace, albums[..i + 1], fetches, panicked)
    ensures albums[i + 1..] == raws[i + 1..]
  {
    ghost var slugs := Rewritten(format, raws);
    ghost var prev := Scrape(client.db, trace0, albums[..i], fetches0, false);
    RewrittenAt(format, raws, i);
    albums[i] := format(albums[i]);
    assert albums[..i] == prev.albums && albums[i] == slugs[i] && albums[i + 1..] == raws[i + 1..];
    trace, fetches, panicked := ScrapeAlbum(client, albums[i], missingAlbums, fetch, read, intn, trace0, fetches0, prev.albums);
    RunExtends(slugs, i, db0, missingAlbums, read, intn, prev, Scrape(client.db, trace, albums[..i + 1], fetches, panicked));
  }

  /** The loop of scrapeDataFromRYM (lines 81-143) for a rewriting function
      `format`; a panic of the extractor stops it with the albums after the
      current one untouched. */
  method ScrapeLoop(albums: array<Album>, client: Store, missingAlbums: seq<string>,
                    fetch: string -> string, ghost read: string -> Extraction, intn: nat -> int,
                    format: Album -> Album)
    returns (trace: seq<Event>, panicked: bool)
    requires Reads(read, fetch)
    modifies albums, client
    ensures var run := Run(Rewritten(format, old(albums[..])), old(client.db), missingAlbums, read, intn);
      client.db == run.db && trace == run.trace && panicked == run.panicked
      && albums[..] == run.albums + old(albums[..])[|run.albums|..]
  {
    ghost var raws := albums[..];
    ghost var slugs := Rewritten(format, raws);
    ghost var db0 := client.db;
    trace := [];
    panicked := false;
    var fetches: nat := 0;
    for i := 0 to albums.Length
      invariant Run(slugs[..i], db0, missingAlbums, read, intn) == Scrape(client.db, trace, albums[..i], fetches, false)
      invariant albums[i..] == raws[i..]
    {
      trace, fetches, panicked := ScrapeEntry(albums, i, client, missingAlbums, fetch, read, intn, format, trace, fetches, raws, db0);
      if panicked {
        RunEnds(raws, slugs, i + 1, db0, missingAlbums, read, intn,
                Scrape(client.db, trace, albums[..i + 1], fetches, true), albums[..]);
        return;
      }
    }
    RunEnds(raws, slugs, albums.Length, db0, missingAlbums, read, intn,
            Scrape(client.db, trace, albums[..], fetches, false), albums[..]);
  }

  /** scrapeDataFromRYM: the loop with each entry's album name and artist name
      overwritten by their slugs (lines 83-84). */
  method ScrapeDataFromRym(albums: array<Album>, client: Store, missingAlbums: seq<string>,
                           fetch: string -> string, intn: nat -> int)
    returns (trace: seq<Event>, panicked: bool)
    modifies albums, client
    ensures var run := Run(Rewritten(Formatted, old(albums[..])), old(client.db), missingAlbums, Reader(fetch), intn);
      client.db == run.db && trace == run.trace && panicked == run.panicked
      && albums[..] == run.albums + old(albums[..])[|run.albums|..]
  {
    trace, panicked := ScrapeLoop(albums, client, missingAlbums, fetch, Reader(fetch), intn, Formatted);
  }
}
