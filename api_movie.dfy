/**
 * The JSON detail endpoint api/movie.php: the request names a movie by a
 * positive `id` or else by `slug`; an unknown movie is a 404; the TMDb
 * payload and its YouTube trailers are added only when `tmdb` is a true
 * flag and the movie has a TMDb id; the body maps the movie's fields, its
 * page link and its JSON-LD, and is sent with its own Cache-Control.
 *
 * `tmdb_get_movie` is a parameter (`tmdbMovie`), as are the base path that
 * `app_url` uses and the TMDb configuration.
 */
module ApiMovie {
  import opened Wrappers
  import opened Strings
  import opened Json
  import opened Query
  import opened Movies
  import opened Seo
  import Url
  import Http
  import Trailers

  const DetailCacheControl: string := "public, max-age=300, stale-while-revalidate=120"
  const InvalidMessage: string := "Specify id or slug"

  /** The headers handed to http_json_response (lines 73-75). */
  const DetailHeaders: Params := [("Cache-Control", DetailCacheControl)]

  /** `$movie['genre'] ?? $movie['genres'] ?? null`. */
  datatype Genres = GenreName(name: string) | GenreList(list: ListField) | NoGenres

  /** The `data` object of lines 49-70. */
  datatype Detail = Detail(
    id: int, tmdbId: Option<int>, title: string, slug: string, year: int, genres: Genres,
    summary: string, director: Option<string>, cast: ListField, duration: Option<int>,
    rating: Option<Rating>, ratingCount: Option<int>, poster: Option<Poster>,
    posterPathRemote: Option<string>, posterCachedAt: Option<string>,
    html: string, jsonld: Json, tmdb: Option<Json>)

  /** What the endpoint answers: an error object with its status, or the movie. */
  datatype Reply =
    | Failure(status: int, error: string, message: Option<string>)
    | Found(body: Detail, headers: Params)

  /** Line 14: `(int) ($_GET['id'] ?? 0)`. */
  function RequestedId(get: Params): int {
    ToInt(Lookup(get, "id").GetOr("0"))
  }

  /** Line 28: `filter_var($_GET['tmdb'] ?? 'false', FILTER_VALIDATE_BOOLEAN)`. */
  predicate IncludeTmdb(get: Params) {
    ValidateBool(Lookup(get, "tmdb").GetOr("false"))
  }

  /** Lines 29-32: the TMDb payload, fetched only when asked for and the movie has a TMDb id. */
  function TmdbPayload(m: Movie, get: Params, tmdbMovie: int -> Option<Json>): Option<Json> {
    if IncludeTmdb(get) && HasTmdbId(m) then tmdbMovie(m.tmdbId.value) else None
  }

  /** Lines 33-45: the YouTube trailers of the payload; a video without a name keeps none. */
  function EmbedsOf(payload: Option<Json>): seq<Embed> {
    Trailers.Embeds(Trailers.VideoResults(payload), None)
  }

  /** Line 55. */
  function GenresOf(m: Movie): (g: Genres)
    ensures m.genre.Some? ==> g == GenreName(m.genre.value)
    ensures m.genre.None? && !m.genres.Missing? ==> g == GenreList(m.genres)
    ensures m.genre.None? && m.genres.Missing? ==> g == NoGenres
  {
    if m.genre.Some? then GenreName(m.genre.value)
    else if !m.genres.Missing? then GenreList(m.genres)
    else NoGenres
  }

  /** Lines 48-71 for the movie found, with the payload and the trailers collected from it. */
  function DetailOf(m: Movie, payload: Option<Json>, embeds: seq<Embed>, base: string, appUrl: string, configuration: Json): Detail {
    Detail(
      m.id, m.tmdbId, m.title, m.slug, m.year, GenresOf(m), m.summary, m.director, m.cast, m.duration,
      m.rating, m.ratingCount, m.poster, m.posterRemote, m.posterCachedAt,
      Url.AppPath(base, "film/" + IntToString(m.id) + "/" + m.slug),
      MovieJsonLd(m, embeds, appUrl, configuration),
      payload)
  }

  /** The answer for a found movie. */
  function Answer(m: Movie, get: Params, base: string, appUrl: string, tmdbMovie: int -> Option<Json>, configuration: Json): Reply {
    var payload := TmdbPayload(m, get, tmdbMovie);
    Found(DetailOf(m, payload, EmbedsOf(payload), base, appUrl, configuration), DetailHeaders)
  }

  /** TMDb data, and with it any trailer, appears only when asked for and the movie has a TMDb id. */
  lemma TmdbOnlyWhenAsked(m: Movie, get: Params, base: string, appUrl: string, tmdbMovie: int -> Option<Json>, configuration: Json)
    ensures var d := Answer(m, get, base, appUrl, tmdbMovie, configuration).body;
            && (d.tmdb.Some? ==> IncludeTmdb(get) && HasTmdbId(m))
            && (IncludeTmdb(get) && HasTmdbId(m) ==> d.tmdb == tmdbMovie(m.tmdbId.value))
            && (!(IncludeTmdb(get) && HasTmdbId(m)) ==> d.jsonld == MovieJsonLd(m, [], appUrl, configuration))
  {
    var payload := TmdbPayload(m, get, tmdbMovie);
    if !(IncludeTmdb(get) && HasTmdbId(m)) {
      assert Trailers.VideoResults(payload) == [];
    }
  }

  /** Every trailer in the JSON-LD is a YouTube video of the payload, with its own name or none. */
  lemma TrailersFromPayload(payload: Option<Json>)
    ensures forall e :: e in EmbedsOf(payload) ==>
              exists v :: v in Trailers.VideoResults(payload) && Trailers.IsYouTube(v)
                          && e == Trailers.EmbedOf(v, None) && e.name == GetStr(v, "name")
  {
    Trailers.EmbedsFromYouTube(Trailers.VideoResults(payload), None);
  }

  /** `links.html` is the movie's own page, as `app_path` writes it. */
  lemma HtmlLinkIsFilmPage(m: Movie, get: Params, base: string, appUrl: string, tmdbMovie: int -> Option<Json>, configuration: Json)
    ensures Answer(m, get, base, appUrl, tmdbMovie, configuration).body.html == Url.AppPath(base, FilmPath(m))
  {
    var rel := "film/" + IntToString(m.id) + "/" + m.slug;
    assert FilmPath(m) == "/" + rel;
    Url.LeadingSlashesIgnored(base, rel);
  }

  /** The detail is served with its own Cache-Control and the default Content-Type and ETag. */
  lemma DetailHeadersSent(encode: Json -> Option<string>, sha1: string -> string, payload: Json, ifNoneMatch: Option<string>)
    requires encode(payload).Some?
    ensures var r := Http.JsonResponse(encode, sha1, payload, 200, DetailHeaders, ifNoneMatch);
            && Lookup(r.headers, "Cache-Control") == Some(DetailCacheControl)
            && Lookup(r.headers, "Content-Type") == Some(Http.JsonContentType)
            && Lookup(r.headers, "ETag") == Some(Http.Etag(sha1, encode(payload).value))
  {
    assert UniqueKeys(DetailHeaders);
    var etag := Http.Etag(sha1, encode(payload).value);
    assert Keys(DetailHeaders) == ["Cache-Control"];
    assert Lookup(Http.DefaultHeaders(etag), "Content-Type") == Some(Http.JsonContentType);
    assert Lookup(Http.DefaultHeaders(etag), "ETag") == Some(etag);
  }

  /**
   * Lines 14-71. `ms` is the catalogue the lookups search; `base` is
   * `app_base_path()`.
   */
  method Handle(get: Params, ms: seq<Movie>, p: Prims, base: string, appUrl: string,
                tmdbMovie: int -> Option<Json>, configuration: Json) returns (r: Reply)
    // neither a positive id nor a slug: 400
    ensures r == Failure(400, "invalid_request", Some(InvalidMessage)) <==> RequestedId(get) <= 0 && Lookup(get, "slug").None?
    // a positive id is looked up by id, whatever the slug
    ensures RequestedId(get) > 0 ==>
              && (r == Failure(404, "not_found", None) <==> forall m :: m in ms ==> m.id != RequestedId(get))
              && (r.Found? ==> exists k :: 0 <= k < |ms| && ms[k].id == RequestedId(get) && (forall j :: 0 <= j < k ==> ms[j].id != RequestedId(get))
                                          && r == Answer(Hydrate(ms[k], p), get, base, appUrl, tmdbMovie, configuration))
    // otherwise by slug
    ensures RequestedId(get) <= 0 && Lookup(get, "slug").Some? ==>
              var slug := Lookup(get, "slug").value;
              && (r == Failure(404, "not_found", None) <==> forall m :: m in ms ==> m.slug != slug)
              && (r.Found? ==> exists k :: 0 <= k < |ms| && ms[k].slug == slug && (forall j :: 0 <= j < k ==> ms[j].slug != slug)
                                          && r == Answer(Hydrate(ms[k], p), get, base, appUrl, tmdbMovie, configuration))
    ensures r.Failure? || r.Found?
  {
    var id := RequestedId(get);
    var slug := Lookup(get, "slug");
    if id <= 0 && slug.None? {
      return Failure(400, "invalid_request", Some(InvalidMessage));
    }
    var found: Option<Movie>;
    if id > 0 {
      found := Find(ms, id, p);
    } else {
      found := FindBySlug(ms, slug.value, p);
    }
    if found.None? {
      return Failure(404, "not_found", None);
    }
    r := Respond(found.value, get, base, appUrl, tmdbMovie, configuration);
  }

  /** Lines 28-71 for the movie found: the payload, the trailers collected one by one, the body. */
  method Respond(m: Movie, get: Params, base: string, appUrl: string,
                 tmdbMovie: int -> Option<Json>, configuration: Json) returns (r: Reply)
    ensures r == Answer(m, get, base, appUrl, tmdbMovie, configuration)
  {
    var payload: Option<Json> := None;
    var embeds: seq<Embed> := [];
    if IncludeTmdb(get) && HasTmdbId(m) {
      payload := tmdbMovie(m.tmdbId.value);
      embeds := Trailers.Collect(Trailers.VideoResults(payload), None);
    }
    assert payload == TmdbPayload(m, get, tmdbMovie);
    assert embeds == EmbedsOf(payload);
    r := Found(DetailOf(m, payload, embeds, base, appUrl, configuration), DetailHeaders);
  }
}
