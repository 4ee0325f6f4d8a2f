/**
 * The JSON listing endpoint api/movies.php: a fixed-window rate limiter kept in
 * the file cache (120 requests per client per 60-second window), the parsing of
 * the query string, the mapping of each catalogue movie to its API shape, and
 * the self/prev/next links with their Link header.
 *
 * The clock is a parameter (`now`, unix seconds); `parse_url` and the TMDb
 * configuration used for poster URLs are parameters too.
 */
module ApiMovies {
  import opened Wrappers
  import opened Ints
  import opened Strings
  import opened Json
  import opened Query
  import opened Cache
  import opened Movies
  import Tmdb
  import Url
  import Http

  const RateLimitMax: int := 120
  const WindowSeconds: int := 60
  const ApiMaxPerPage: int := 30
  const RateNamespace: string := "api"

  // ---------------------------------------------------------------------------
  // Rate limiter

  /** The per-client counter: requests admitted in the window that ends at `reset`. */
  datatype Bucket = Bucket(count: int, reset: int)

  /** The cache key of a client: 'movies:' and the remote address ('anonymous' when unknown). */
  function RateKey(ip: Option<string>): (k: string)
    ensures StartsWith(k, "movies:")
  {
    "movies:" + ip.GetOr("anonymous")
  }

  /** How the bucket is stored in the cache. */
  function EncodeBucket(b: Bucket): Json {
    JObject(map["count" := JInt(b.count), "reset" := JInt(b.reset)])
  }

  /**
   * The bucket a cached value stands for: none unless it is an array; a count
   * or reset that is missing or not an integer reads as 0.
   */
  function StoredBucket(j: Json): (s: Option<Bucket>)
    ensures s.Some? <==> j.IsArray()
    ensures s.Some? ==> s.value == Bucket(GetInt(j, "count").GetOr(0), GetInt(j, "reset").GetOr(0))
  {
    if j.IsArray() then Some(Bucket(GetInt(j, "count").GetOr(0), GetInt(j, "reset").GetOr(0))) else None
  }

  /** Storing a bucket and reading it back gives the same bucket. */
  lemma StoredBucketRoundTrip(b: Bucket)
    ensures StoredBucket(EncodeBucket(b)) == Some(b)
  {
  }

  /** The bucket in force at `now`: the stored one while its window is open, else a fresh window. */
  function Window(s: Option<Bucket>, now: int): (b: Bucket)
    ensures (s.None? || s.value.reset <= now) ==> b == Bucket(0, now + WindowSeconds)
    ensures (s.Some? && s.value.reset > now) ==> b == s.value
    ensures b.reset > now
  {
    if s.None? || s.value.reset <= now then Bucket(0, now + WindowSeconds) else s.value
  }

  /** The limiter's verdict on one request. */
  datatype Decision =
    | Limited(retryAfter: int, bucket: Bucket)
    | Admitted(bucket: Bucket, ttl: int)

  function Decide(b: Bucket, now: int): (d: Decision)
    // rejected exactly when the window's count has reached the maximum; nothing is counted
    ensures d.Limited? <==> b.count >= RateLimitMax
    ensures d.Limited? ==> d.bucket == b && d.retryAfter == Max(1, b.reset - now) && d.retryAfter >= 1
    // otherwise the count rises by exactly one and is kept for the rest of the window (at least 1 s)
    ensures d.Admitted? ==> d.bucket == Bucket(b.count + 1, b.reset) && d.ttl == Max(1, b.reset - now) && d.ttl >= 1
  {
    if b.count >= RateLimitMax then Limited(Max(1, b.reset - now), b)
    else Admitted(Bucket(b.count + 1, b.reset), Max(1, b.reset - now))
  }

  /** One request against the stored state: whether it is admitted, and the state afterwards. */
  function Serve(s: Option<Bucket>, now: int): (r: (bool, Option<Bucket>))
    ensures r.0 <==> Window(s, now).count < RateLimitMax
    ensures r.0 ==> r.1 == Some(Bucket(Window(s, now).count + 1, Window(s, now).reset))
    ensures !r.0 ==> r.1 == s
  {
    match Decide(Window(s, now), now)
    case Limited(_, _) => (false, s)
    case Admitted(b, _) => (true, Some(b))
  }

  /** How many requests at the given times are admitted and counted against the window ending at R. */
  function AdmittedIn(s: Option<Bucket>, times: seq<int>, R: int): nat
    decreases |times|
  {
    if times == [] then 0
    else
      var r := Serve(s, times[0]);
      (if r.0 && Window(s, times[0]).reset == R then 1 else 0) + AdmittedIn(r.1, times[1..], R)
  }

  /** What the state has already spent of the window ending at R, when that window is still open after t0. */
  function Used(s: Option<Bucket>, R: int, t0: int): int {
    if s.Some? && s.value.reset == R && R > t0 then s.value.count else 0
  }

  /**
   * Within one window at most 120 requests are admitted: starting from a state
   * that has spent `Used` of the window ending at R, the requests arriving at
   * non-decreasing times from t0 on add at most 120 - Used to it. A window that
   * has not started by t0 and is not the stored one receives nothing before a
   * request opens it.
   */
  lemma {:induction false} AtMostMaxPerWindow(s: Option<Bucket>, times: seq<int>, R: int, t0: int)
    requires forall i :: 0 <= i < |times| ==> times[i] >= t0
    requires forall i, j :: 0 <= i < j < |times| ==> times[i] <= times[j]
    requires s.Some? ==> 0 <= s.value.count <= RateLimitMax
    ensures AdmittedIn(s, times, R) + Used(s, R, t0) <= RateLimitMax
    ensures (R < t0 + WindowSeconds && (s.None? || s.value.reset != R)) ==> AdmittedIn(s, times, R) == 0
    decreases |times|
  {
    if times != [] {
      var t := times[0];
      var rest := times[1..];
      var r := Serve(s, t);
      assert forall i :: 0 <= i < |rest| ==> rest[i] >= t by {
        forall i | 0 <= i < |rest| ensures rest[i] >= t {
          assert rest[i] == times[i + 1];
        }
      }
      assert forall i, j :: 0 <= i < j < |rest| ==> rest[i] <= rest[j] by {
        forall i, j | 0 <= i < j < |rest| ensures rest[i] <= rest[j] {
          assert rest[i] == times[i + 1] && rest[j] == times[j + 1];
        }
      }
      AtMostMaxPerWindow(r.1, rest, R, t);
    }
  }

  /** From an empty cache, no window ever admits more than 120 requests. */
  lemma FreshClientAtMostMax(times: seq<int>, R: int)
    requires forall i, j :: 0 <= i < j < |times| ==> times[i] <= times[j]
    ensures AdmittedIn(None, times, R) <= RateLimitMax
  {
    if times != [] {
      AtMostMaxPerWindow(None, times, R, times[0]);
    }
  }

  /**
   * The cache keeps the limiter's state faithfully: a bucket written with ttl
   * max(1, reset - now) and read at any later time yields the same window as
   * the bucket itself, whether the entry is still there or has expired.
   */
  lemma BucketSurvivesCache(files: Files, slot: Slot, b: Bucket, now: nat, later: int, storedAt: string)
    requires b.reset > now && later >= now
    ensures var stored := files[slot := Payload(Record(EncodeBucket(b), Max(1, b.reset - now), now, storedAt))];
            Window(StoredBucket(ReadSlot(stored, slot, later)), later) == Window(Some(b), later)
  {
    var ttl := Max(1, b.reset - now);
    if later <= now + ttl {
      GetAfterSet(files, slot, EncodeBucket(b), ttl, now, storedAt, later);
    } else {
      GetAfterExpiry(files, slot, EncodeBucket(b), ttl, now, storedAt, later);
    }
  }

  /**
   * Lines 9-33: read the client's bucket, open a fresh window when needed, and
   * either reject or count the request and write the bucket back.
   */
  method RateLimit(cache: FileCache, ip: Option<string>, now: nat, storedAt: string) returns (d: Decision)
    modifies cache
    ensures var slot := SlotOf(cache.hash, RateNamespace, RateKey(ip));
            var read := AfterRead(old(cache.files), slot, now);
            && d == Decide(Window(StoredBucket(ReadSlot(old(cache.files), slot, now)), now), now)
            && (d.Limited? ==> cache.files == read)
            && (d.Admitted? ==> cache.files == read[slot := Payload(Record(EncodeBucket(d.bucket), d.ttl, now, storedAt))])
  {
    var key := RateKey(ip);
    var stored := cache.Get(RateNamespace, key, now);
    // lines 15-20: the stored window, or a fresh one; lines 22-33: reject, or count and write back
    d := Decide(Window(StoredBucket(stored), now), now);
    if d.Admitted? {
      cache.Set(RateNamespace, key, EncodeBucket(d.bucket), d.ttl, now, storedAt);
    }
  }

  /** The headers passed along with the 429 answer; Retry-After is sent on its own before them. */
  function LimitedHeaders(b: Bucket): (h: Params)
    ensures UniqueKeys(h)
    ensures Lookup(h, "X-RateLimit-Limit") == Some(IntToString(RateLimitMax)) && Lookup(h, "X-RateLimit-Remaining") == Some("0")
    ensures Lookup(h, "X-RateLimit-Reset") == Some(IntToString(b.reset))
  {
    var h := [("X-RateLimit-Limit", IntToString(RateLimitMax)), ("X-RateLimit-Remaining", "0"), ("X-RateLimit-Reset", IntToString(b.reset))];
    assert h[0] in h && h[1] in h && h[2] in h;
    h
  }

  /** The headers passed along with a served listing. */
  function SuccessHeaders(b: Bucket): (h: Params)
    ensures UniqueKeys(h)
    ensures Lookup(h, "X-RateLimit-Limit") == Some(IntToString(RateLimitMax))
    ensures Lookup(h, "X-RateLimit-Reset") == Some(IntToString(b.reset))
    // the remaining allowance after this request, never negative
    ensures Lookup(h, "X-RateLimit-Remaining").Some?
    // (read back through `(int)`, which saturates only for a count below 120 - PHP_INT_MAX)
    ensures ToInt(Lookup(h, "X-RateLimit-Remaining").value) == Min(Max(0, RateLimitMax - b.count), PhpIntMax) >= 0
    ensures b.count >= 0 ==> ToInt(Lookup(h, "X-RateLimit-Remaining").value) == Max(0, RateLimitMax - b.count)
  {
    ToIntOfIntToString(Max(0, RateLimitMax - b.count));
    var h := [("Cache-Control", "public, max-age=120, stale-while-revalidate=60"),
              ("X-Application-Name", "Filmoteca Pro"),
              ("X-RateLimit-Limit", IntToString(RateLimitMax)),
              ("X-RateLimit-Remaining", IntToString(Max(0, RateLimitMax - b.count))),
              ("X-RateLimit-Reset", IntToString(b.reset))];
    assert h[2] in h && h[3] in h && h[4] in h;
    h
  }

  // ---------------------------------------------------------------------------
  // The request

  /** The listing request after parsing the query string. */
  datatype ApiQuery = ApiQuery(page: int, perPage: int, filters: Filters, includeTmdb: bool)

  function ParseQuery(get: Params): (q: ApiQuery)
    // page is at least 1 and per_page within [1, 30]
    ensures q.page == Max(1, ToInt(Lookup(get, "page").GetOr("1"))) && q.page >= 1
    ensures q.perPage == Clamp(ToInt(Lookup(get, "per_page").GetOr("12")), 1, ApiMaxPerPage)
    ensures 1 <= q.perPage <= ApiMaxPerPage
    // search and genre are trimmed; year is passed as given
    ensures q.filters == Filters(Some(Trim(Lookup(get, "search").GetOr(""))), Some(Trim(Lookup(get, "genre").GetOr(""))),
                                 Lookup(get, "year"))
    // tmdb=1/true/on/yes (any case, surrounding blanks allowed) asks for TMDb details
    ensures q.includeTmdb <==> ValidateBool(Lookup(get, "tmdb").GetOr("false"))
  {
    ApiQuery(
      Max(1, ToInt(Lookup(get, "page").GetOr("1"))),
      Clamp(ToInt(Lookup(get, "per_page").GetOr("12")), 1, ApiMaxPerPage),
      Filters(Some(Trim(Lookup(get, "search").GetOr(""))), Some(Trim(Lookup(get, "genre").GetOr(""))), Lookup(get, "year")),
      ValidateBool(Lookup(get, "tmdb").GetOr("false")))
  }

  /** The API's own clamp is within the repository's, so the metadata echoes the request unchanged. */
  lemma PaginationEchoesQuery(ms: seq<Movie>, get: Params, p: Prims)
    ensures var q := ParseQuery(get);
            var r := Paginated(ms, q.filters, q.page, q.perPage, p);
            r.meta.page == q.page && r.meta.perPage == q.perPage && |r.data| <= ApiMaxPerPage
  {
    var q := ParseQuery(get);
    PaginatedLength(ms, q.filters, q.page, q.perPage, p);
  }

  // ---------------------------------------------------------------------------
  // Response shaping

  const TmdbMovieBase: string := "https://www.themoviedb.org/movie/"

  datatype AggregateRating = AggregateRating(ratingValue: Rating, ratingCount: int)

  datatype TmdbInfo = TmdbInfo(id: int, url: string, poster: Option<string>)

  /** A movie as the endpoint returns it (`poster_srcset` is not part of this model). */
  datatype ApiMovie = ApiMovie(
    id: int, tmdbId: Option<int>, title: string, slug: string, year: int, genre: Option<string>,
    summary: string, director: Option<string>, duration: Option<int>, rating: Option<Rating>,
    ratingCount: Option<int>, poster: Option<Poster>, posterPathRemote: Option<string>,
    aggregateRating: Option<AggregateRating>, self: string, tmdb: Option<TmdbInfo>)

  /** The array_map callback of lines 58-90. `configuration` is what `tmdb_configuration` returned. */
  function ToApi(m: Movie, includeTmdb: bool, appUrl: string, configuration: Json): (a: ApiMovie)
    // the catalogue fields are copied unchanged
    ensures a.id == m.id && a.tmdbId == m.tmdbId && a.title == m.title && a.slug == m.slug && a.year == m.year
    ensures a.genre == m.genre && a.summary == m.summary && a.director == m.director && a.duration == m.duration
    ensures a.rating == m.rating && a.ratingCount == m.ratingCount && a.poster == m.poster && a.posterPathRemote == m.posterRemote
    // aggregateRating only when both the rating and its count are non-empty
    ensures a.aggregateRating.Some? <==> HasRating(m) && HasRatingCount(m)
    ensures a.aggregateRating.Some? ==> a.aggregateRating.value == AggregateRating(m.rating.value, m.ratingCount.value)
    // TMDb details only when asked for and the movie has a TMDb id
    ensures a.tmdb.Some? <==> includeTmdb && HasTmdbId(m)
    ensures a.tmdb.Some? ==> a.tmdb.value.id == m.tmdbId.value && a.tmdb.value.url == TmdbMovieBase + IntToString(m.tmdbId.value)
    ensures a.tmdb.Some? ==> a.tmdb.value.poster == Tmdb.PosterUrl(m.posterRemote, "w500", configuration)
    ensures a.self == FilmUrl(appUrl, m)
  {
    ApiMovie(
      m.id, m.tmdbId, m.title, m.slug, m.year, m.genre, m.summary, m.director, m.duration, m.rating,
      m.ratingCount, m.poster, m.posterRemote,
      if HasRating(m) && HasRatingCount(m) then Some(AggregateRating(m.rating.value, m.ratingCount.value)) else None,
      FilmUrl(appUrl, m),
      if includeTmdb && HasTmdbId(m) then
        Some(TmdbInfo(m.tmdbId.value, TmdbMovieBase + IntToString(m.tmdbId.value), Tmdb.PosterUrl(m.posterRemote, "w500", configuration)))
      else None)
  }

  datatype Links = Links(self: string, prev: Option<string>, next: Option<string>)

  /** The endpoint's address under APP_URL, ready for a query string. */
  function Endpoint(appUrl: string): string {
    TrimRight(appUrl, {'/'}) + "/api/movies.php?"
  }

  /** The request's own query with `page` set to n. */
  function PageQuery(get: Params, n: int): (q: Params)
    requires UniqueKeys(get)
    ensures UniqueKeys(q) && Lookup(q, "page") == Some(IntToString(n))
    ensures forall k :: k != "page" ==> Lookup(q, k) == Lookup(get, k)
  {
    Set(get, "page", IntToString(n))
  }

  /** Lines 94-102. */
  function PageLinks(appUrl: string, get: Params, page: int, totalPages: int): (l: Links)
    requires UniqueKeys(get)
    ensures l.self == Endpoint(appUrl) + Build(PageQuery(get, page))
    // prev exists iff page > 1, next iff page < total_pages; each is the same query with the page moved by one
    ensures l.prev.Some? <==> page > 1
    ensures l.next.Some? <==> page < totalPages
    ensures l.prev.Some? ==> l.prev.value == Endpoint(appUrl) + Build(PageQuery(get, page - 1))
    ensures l.next.Some? ==> l.next.value == Endpoint(appUrl) + Build(PageQuery(get, page + 1))
  {
    var query := Set(get, "page", IntToString(page));
    SetTwice(get, "page", IntToString(page), IntToString(page - 1));
    SetTwice(get, "page", IntToString(page), IntToString(page + 1));
    Links(
      Endpoint(appUrl) + Build(query),
      if page > 1 then Some(Endpoint(appUrl) + Build(Set(query, "page", IntToString(page - 1)))) else None,
      if page < totalPages then Some(Endpoint(appUrl) + Build(Set(query, "page", IntToString(page + 1)))) else None)
  }

  /** Lines 104-113: the Link header, sent only when there is a neighbouring page. */
  function LinkHeader(l: Links): (h: Option<string>)
    ensures h.Some? <==> l.prev.Some? || l.next.Some?
    ensures l.prev.Some? ==> StartsWith(h.value, "<" + l.prev.value + ">; rel=\"prev\"")
    ensures l.next.Some? ==> EndsWith(h.value, "<" + l.next.value + ">; rel=\"next\"")
    // the whole value: the one link there is, or prev then next separated by ", "
    ensures l.prev.Some? && l.next.None? ==> h == Some("<" + l.prev.value + ">; rel=\"prev\"")
    ensures l.prev.None? && l.next.Some? ==> h == Some("<" + l.next.value + ">; rel=\"next\"")
    ensures l.prev.Some? && l.next.Some? ==>
      h == Some(("<" + l.prev.value + ">; rel=\"prev\"") + ", " + ("<" + l.next.value + ">; rel=\"next\""))
  {
    var prev := if l.prev.Some? then ["<" + l.prev.value + ">; rel=\"prev\""] else [];
    var next := if l.next.Some? then ["<" + l.next.value + ">; rel=\"next\""] else [];
    var parts := prev + next;
    if parts == [] then None
    else
      JoinEnds(parts, ", ");
      assert |parts| == 1 ==> Join(parts, ", ") == parts[0];
      assert |parts| == 2 ==> Join(parts, ", ") == parts[0] + ", " + parts[1] by {
        if |parts| == 2 {
          assert parts[1..] == [parts[1]];
        }
      }
      assert l.prev.Some? ==> parts[0] == prev[0];
      assert l.prev.Some? && l.next.Some? ==> |parts| == 2 && parts[1] == next[0];
      assert l.prev.None? ==> parts == next;
      Some(Join(parts, ", "))
  }

  /** A joined list starts with its first part and ends with its last. */
  lemma {:induction false} JoinEnds(parts: seq<string>, sep: string)
    requires parts != []
    ensures StartsWith(Join(parts, sep), parts[0])
    ensures EndsWith(Join(parts, sep), parts[|parts| - 1])
  {
    if |parts| > 1 {
      JoinEnds(parts[1..], sep);
      assert Join(parts, sep) == parts[0] + sep + Join(parts[1..], sep);
      assert parts[1..][|parts[1..]| - 1] == parts[|parts| - 1];
    } else {
      assert Join(parts, sep) == parts[0];
    }
  }

  /** Lines 36-44: the CORS answer, allowed only for the origin of APP_URL. */
  function CorsLines(appUrl: string, parse: Url.Parser, origin: Option<string>): (lines: seq<string>)
    ensures lines != [] <==> (Truthy(origin) && parse(appUrl).Some? && origin.value == OriginHost(parse(appUrl).value))
    ensures lines != [] ==> lines == ["Access-Control-Allow-Origin: " + origin.value, "Vary: Origin"]
  {
    var allowed := if parse(appUrl).Some? then [OriginHost(parse(appUrl).value)] else [];
    if Truthy(origin) && Http.OriginAllowed(origin, allowed) then
      ["Access-Control-Allow-Origin: " + origin.value, "Vary: Origin"]
    else []
  }

  /** scheme://host[:port] of a parsed URL (a missing part reads as empty). */
  function OriginHost(u: Url.UrlParts): (h: string)
    ensures h != "" && h != "*"
  {
    var h := u.scheme.GetOr("") + "://" + u.host.GetOr("") + (if u.port.Some? then ":" + IntToString(u.port.value) else "");
    assert h[|u.scheme.GetOr("")|] == ':';
    h
  }

  /** The body of a served listing. */
  datatype ListBody = ListBody(data: seq<ApiMovie>, meta: Meta, links: Links)

  /** What the endpoint answers: the header lines sent directly, then the status, headers and body given to http_json_response. */
  datatype Reply =
    | TooManyRequests(lines: seq<string>, headers: Params)
    | Listed(lines: seq<string>, headers: Params, body: ListBody)

  /** Each movie of a page in its API shape, in order. */
  function ApiData(ms: seq<Movie>, includeTmdb: bool, appUrl: string, configuration: Json): (r: seq<ApiMovie>)
    ensures |r| == |ms| && forall i :: 0 <= i < |ms| ==> r[i] == ToApi(ms[i], includeTmdb, appUrl, configuration)
  {
    seq(|ms|, i requires 0 <= i < |ms| => ToApi(ms[i], includeTmdb, appUrl, configuration))
  }

  /** The header lines sent directly: the CORS ones first, then the Link header when there is one. */
  function DirectLines(cors: seq<string>, link: Option<string>): (lines: seq<string>)
    ensures |lines| >= |cors| && lines[..|cors|] == cors
    ensures |lines| > |cors| <==> link.Some?
    ensures link.Some? ==> lines == cors + ["Link: " + link.value]
  {
    cors + (if link.Some? then ["Link: " + link.value] else [])
  }

  /** The listing answer for an admitted request; `b` is the bucket after counting it. */
  function ListReply(ms: seq<Movie>, p: Prims, get: Params, appUrl: string, parse: Url.Parser,
                     origin: Option<string>, configuration: Json, b: Bucket): (r: Reply)
    requires UniqueKeys(get)
    ensures r.Listed? && r.headers == SuccessHeaders(b)
  {
    var q := ParseQuery(get);
    var page := Paginated(ms, q.filters, q.page, q.perPage, p);
    var links := PageLinks(appUrl, get, q.page, page.meta.totalPages);
    Listed(DirectLines(CorsLines(appUrl, parse, origin), LinkHeader(links)), SuccessHeaders(b),
           ListBody(ApiData(page.data, q.includeTmdb, appUrl, configuration), page.meta, links))
  }

  /**
   * The listing answer carries the page's metadata, its movies in the API's
   * shape, the prev/next links, and a Link header exactly when there are links.
   */
  lemma ListReplyBody(ms: seq<Movie>, p: Prims, get: Params, appUrl: string, parse: Url.Parser,
                      origin: Option<string>, configuration: Json, b: Bucket)
    requires UniqueKeys(get)
    ensures var r := ListReply(ms, p, get, appUrl, parse, origin, configuration, b);
            var q := ParseQuery(get);
            var page := Paginated(ms, q.filters, q.page, q.perPage, p);
            && r.body.meta == page.meta
            && r.body.data == ApiData(page.data, q.includeTmdb, appUrl, configuration)
            && r.body.links == PageLinks(appUrl, get, q.page, page.meta.totalPages)
            && r.lines == DirectLines(CorsLines(appUrl, parse, origin), LinkHeader(r.body.links))
  {
  }

  /** The 429 answer: Retry-After first, then the limit headers. */
  function LimitedReply(retryAfter: int, b: Bucket): (r: Reply)
    ensures r.TooManyRequests? && r.lines == ["Retry-After: " + IntToString(retryAfter)]
    ensures r.headers == LimitedHeaders(b)
  {
    TooManyRequests(["Retry-After: " + IntToString(retryAfter)], LimitedHeaders(b))
  }

  /** The whole request: the limiter decides first; only an admitted request reads the catalogue. */
  method Handle(cache: FileCache, ip: Option<string>, now: nat, storedAt: string,
                ms: seq<Movie>, p: Prims, get: Params, appUrl: string, parse: Url.Parser,
                origin: Option<string>, configuration: Json) returns (r: Reply)
    requires UniqueKeys(get)
    modifies cache
    ensures var slot := SlotOf(cache.hash, RateNamespace, RateKey(ip));
            var d := Decide(Window(StoredBucket(ReadSlot(old(cache.files), slot, now)), now), now);
            && (d.Limited? ==> r == LimitedReply(d.retryAfter, d.bucket) && cache.files == AfterRead(old(cache.files), slot, now))
            && (d.Admitted? ==> r == ListReply(ms, p, get, appUrl, parse, origin, configuration, d.bucket)
                                && cache.files == AfterRead(old(cache.files), slot, now)[slot := Payload(Record(EncodeBucket(d.bucket), d.ttl, now, storedAt))])
  {
    var d := RateLimit(cache, ip, now, storedAt);
    if d.Limited? {
      return LimitedReply(d.retryAfter, d.bucket);
    }
    r := ListReply(ms, p, get, appUrl, parse, origin, configuration, d.bucket);
  }
}
