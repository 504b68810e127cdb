/** What the two generations of the scrape loop share: the album URL, the cache key,
    the first step of each iteration (both names replaced by their slugs), and the
    observable effects of a run (page requests and sleeps). */
module Crawl {
  import opened GoStrings
  import opened Normalizer
  import opened Library
  import opened Redis
  import opened Extractor

  const BASE_URL: string := "https://rateyourmusic.com/release/album/"
  const REDIS_ALBUM_KEY: string := "ALBUM:"

  /** An effect of the loop on the outside world: an HTTP GET of a page, or a sleep
      of a number of seconds. */
  datatype Event = Fetch(url: string) | Sleep(seconds: int)

  /** The state of a run: the store, the effects so far, the albums the loop has
      reached (already rewritten with their slugs), how many pages were fetched
      and whether the run stopped with a panic. */
  datatype Scrape = Scrape(db: Sets, trace: seq<Event>, albums: seq<Album>, fetches: nat, panicked: bool)

  /** What the loop reads from the page at a URL: getRatingsFromResponseString on
      the body that `fetch` returns for it. */
  ghost function Reader(fetch: string -> string): (read: string -> Extraction)
    ensures forall url :: read(url) == GetRatings(fetch(url))
  {
    url => GetRatings(fetch(url))
  }

  /** `read` gives, for each URL, what the extractor makes of the page `fetch`
      returns; the fact is used only where a page is actually fetched. */
  ghost predicate Reads(read: string -> Extraction, fetch: string -> string)
  {
    forall url {:trigger fetch(url)} :: read(url) == GetRatings(fetch(url))
  }

  /** The GET of an album's page and the extraction of its ratings from the body
      (the same three lines in both generations of the loop). */
  method ReadPage(fetch: string -> string, ghost read: string -> Extraction, url: string)
    returns (ratings: Extraction)
    requires Reads(read, fetch)
    ensures ratings == read(url)
  {
    var html := fetch(url);
    ratings := GetRatings(html);
  }

  /** `intn(k)` is the value the k-th call of rand.Intn(n) returns, which Go
      guarantees lies in [0, n). */
  ghost predicate DrawsBelow(intn: nat -> int, n: int)
  {
    forall k: nat :: 0 <= intn(k) < n
  }

  /** The effects alternate between a page request and a sleep, and the k-th sleep
      lasts `minWait` seconds plus the k-th draw. */
  predicate Paced(trace: seq<Event>, intn: nat -> int, minWait: int)
  {
    forall k :: 0 <= k < |trace| ==>
      if k % 2 == 0 then trace[k].Fetch? else trace[k] == Sleep(intn(k / 2) + minWait)
  }

  /** Every sleep lasts between `lo` and `hi` seconds. */
  predicate WaitsWithin(trace: seq<Event>, lo: int, hi: int)
  {
    forall k :: 0 <= k < |trace| && trace[k].Sleep? ==> lo <= trace[k].seconds <= hi
  }

  /** A paced run whose draws come from rand.Intn(maxWait - minWait + 1) sleeps
      between minWait and maxWait seconds each time. */
  lemma PacedWaitsWithin(trace: seq<Event>, intn: nat -> int, minWait: int, maxWait: int)
    requires Paced(trace, intn, minWait) && DrawsBelow(intn, maxWait - minWait + 1)
    ensures WaitsWithin(trace, minWait, maxWait)
  {
    forall k | 0 <= k < |trace| && trace[k].Sleep?
      ensures minWait <= trace[k].seconds <= maxWait
    {
      assert k % 2 == 1 && trace[k] == Sleep(intn(k / 2) + minWait);
      assert 0 <= intn(k / 2) < maxWait - minWait + 1;
    }
  }

  /** Appending a fetch, and the sleep that uses the next draw, keeps a run paced. */
  lemma PacedSnoc(trace: seq<Event>, intn: nat -> int, minWait: int, n: nat, url: string)
    requires Paced(trace, intn, minWait) && |trace| == 2 * n
    ensures Paced(trace + [Fetch(url), Sleep(intn(n) + minWait)], intn, minWait)
    ensures Paced(trace + [Fetch(url)], intn, minWait)
  {
    var longer := trace + [Fetch(url), Sleep(intn(n) + minWait)];
    forall k | 0 <= k < |longer|
      ensures if k % 2 == 0 then longer[k].Fetch? else longer[k] == Sleep(intn(k / 2) + minWait)
    {
      if k == 2 * n + 1 {
        assert k / 2 == n;
      } else if k < 2 * n {
        assert longer[k] == trace[k];
      }
    }
    assert trace + [Fetch(url)] == longer[..2 * n + 1];
  }

  /** The cache keys of the albums of a run. */
  function AlbumKeys(albums: seq<Album>): set<string>
  {
    set a | a in albums :: AlbumKey(a.albumName)
  }

  /** The run before the first album: nothing fetched, nothing reached. */
  function Start(db: Sets): Scrape
  {
    Scrape(db, [], [], 0, false)
  }

  /** `albums[i].albumName = formatAlbumName(...)` followed by
      `albums[i].artistName = formatArtistName(...)`. */
  function Formatted(raw: Album): (a: Album)
    ensures forall c :: c in a.albumName ==> SlugChar(c)
    ensures forall c :: c in a.artistName ==> SlugChar(c)
  {
    Album(FormatAlbumName(raw.albumName), FormatArtistName(raw.artistName))
  }

  /** Every album rewritten by `format`, in order. */
  function Rewritten(format: Album -> Album, raws: seq<Album>): (slugs: seq<Album>)
    ensures |slugs| == |raws|
    decreases |raws|
  {
    if raws == [] then [] else [format(raws[0])] + Rewritten(format, raws[1..])
  }

  /** The k-th album of Rewritten is the k-th raw album rewritten. */
  lemma {:induction false} RewrittenAt(format: Album -> Album, raws: seq<Album>, k: int)
    requires 0 <= k < |raws|
    ensures Rewritten(format, raws)[k] == format(raws[k])
    decreases k
  {
    if k > 0 {
      RewrittenAt(format, raws[1..], k - 1);
    }
  }

  /** The page of an album: BASE_URL + artist slug + "/" + album slug. */
  function Url(a: Album): string
  {
    BASE_URL + a.artistName + "/" + a.albumName
  }

  /** The Redis key holding an album's ratings. */
  function AlbumKey(albumName: string): string
  {
    REDIS_ALBUM_KEY + albumName
  }

  /** Different album names never share a key. */
  lemma AlbumKeyInjective(n1: string, n2: string)
    requires n1 != n2
    ensures AlbumKey(n1) != AlbumKey(n2)
  {
    assert AlbumKey(n1)[|REDIS_ALBUM_KEY|..] == n1;
    assert AlbumKey(n2)[|REDIS_ALBUM_KEY|..] == n2;
  }

  /** The URL of an album whose names are slugs, as Formatted makes them, can be
      taken apart again: after BASE_URL the path splits at its one slash into the
      artist slug and the album slug. This holds because the formatters turn every
      slash into an underscore. */
  lemma UrlSplitsIntoSlugs(a: Album)
    requires forall c :: c in a.albumName ==> SlugChar(c)
    requires forall c :: c in a.artistName ==> SlugChar(c)
    ensures |BASE_URL| <= |Url(a)| && Url(a)[..|BASE_URL|] == BASE_URL
    ensures Split(Url(a)[|BASE_URL|..], "/") == [a.artistName, a.albumName]
  {
    assert Url(a)[|BASE_URL|..] == a.artistName + "/" + a.albumName;
    SplitAtOnlySlash(Url(a)[|BASE_URL|..], a.artistName, a.albumName);
  }

  /** Text made of two slash-free parts joined by one slash splits into the two. */
  lemma SplitAtOnlySlash(s: string, left: string, right: string)
    requires s == left + "/" + right && '/' !in left && '/' !in right
    ensures Split(s, "/") == [left, right]
  {
    assert s[..|left|] == left;
    assert OccursAt(s, "/", |left|);
    IndexAtFirstChar(s, "/", |left|);
    assert s[|left| + 1..] == right;
    AbsentWhenCharMissing(right, "/", '/');
  }
}
