/**
 * The movie page film.php (lines 10-69): the `/film/{id}/{slug}` match, the
 * 404 for an unknown id, the 301 to the canonical address when the slug in
 * the request is not the stored one, the trailer embeds (only for a movie
 * with a TMDb id), the page metadata with its og type, and the two JSON-LD
 * documents (the movie and its breadcrumb trail).
 *
 * `tmdb_get_movie` is a parameter (`tmdbMovie`: TMDb id to decoded payload,
 * None for null), as are the TMDb configuration and `mb_strimwidth` at 155
 * characters (`strimwidth`). The HTML markup after line 69 is not modelled.
 */
module Film {
  import opened Wrappers
  import opened Ints
  import opened Strings
  import opened Json
  import opened Query
  import opened Movies
  import opened Seo
  import Index
  import Trailers

  const PageNotFound: string := "Pagina non trovata"
  const FilmNotFound: string := "Film non trovato"
  const TitleSuffix: string := " — Scheda Film | Filmoteca Pro"

  /** What the page does with a request. */
  datatype Outcome =
    | NotFound(message: string)
    | MovedTo(location: string)
    | Page(movie: Movie, embeds: seq<Embed>, meta: Params, movieJsonLd: Json, breadcrumb: Json)

  /** Line 18: `trim($segments[2]) ?: ''` (a slug that trims to "0" reads as ''). */
  function RequestedSlug(segment: string): string {
    if Falsy(Trim(segment)) then "" else Trim(segment)
  }

  /** A stored slug is accepted as requested exactly when trimming keeps it and it is not "0". */
  lemma SlugAccepted(slug: string)
    ensures RequestedSlug(slug) == slug <==> Trim(slug) == slug && slug != "0"
  {
    if slug == "" {
      assert Trim(slug) == "";
    }
  }

  /** The name a trailer without one gets. */
  function FallbackName(m: Movie): Option<string> {
    Some(m.title + " Trailer")
  }

  /** Lines 33-51: the trailer embeds, from the TMDb payload, which is fetched only for a movie with a TMDb id. */
  function EmbedsFor(m: Movie, tmdbMovie: int -> Option<Json>): seq<Embed> {
    if HasTmdbId(m) then Trailers.Embeds(Trailers.VideoResults(tmdbMovie(m.tmdbId.value)), FallbackName(m)) else []
  }

  /** There are embeds exactly when the movie has a TMDb id and TMDb lists a YouTube video; each is named. */
  lemma EmbedsFromTmdb(m: Movie, tmdbMovie: int -> Option<Json>)
    ensures EmbedsFor(m, tmdbMovie) != [] <==>
              HasTmdbId(m) && exists v :: v in Trailers.VideoResults(tmdbMovie(m.tmdbId.value)) && Trailers.IsYouTube(v)
    ensures forall e :: e in EmbedsFor(m, tmdbMovie) ==> e.name.Some? && StartsWith(e.embedUrl, Trailers.EmbedPrefix)
  {
    if HasTmdbId(m) {
      var videos := Trailers.VideoResults(tmdbMovie(m.tmdbId.value));
      Trailers.NoEmbedsIff(videos, FallbackName(m));
      Trailers.EmbedsFromYouTube(videos, FallbackName(m));
      forall e | e in EmbedsFor(m, tmdbMovie)
        ensures e.name.Some? && StartsWith(e.embedUrl, Trailers.EmbedPrefix)
      {
        var v :| v in videos && Trailers.IsYouTube(v) && e == Trailers.EmbedOf(v, FallbackName(m));
        assert e.embedUrl[..|Trailers.EmbedPrefix|] == Trailers.EmbedPrefix;
      }
    }
  }

  /** Line 59: 'video.movie' when there is a trailer. */
  function OgType(embeds: seq<Embed>): string {
    if embeds != [] then "video.movie" else "movie"
  }

  /** Lines 53-60: the overrides handed to `seo_default_meta`. */
  function Overrides(m: Movie, canonical: string, embeds: seq<Embed>, image: Option<string>, description: string): (o: NullableParams)
    ensures UniqueNullableKeys(o)
  {
    var o := [("title", Some(m.title + TitleSuffix)),
              ("description", Some(description)),
              ("image", image),
              ("url", Some(canonical)),
              ("canonical", Some(canonical)),
              ("type", Some(OgType(embeds)))];
    assert o[0].0 == "title" && o[1].0 == "description" && o[2].0 == "image";
    assert o[3].0 == "url" && o[4].0 == "canonical" && o[5].0 == "type";
    o
  }

  /** The canonical address of line 57 is the movie's own page under APP_URL. */
  lemma CanonicalIsFilmUrl(appUrl: string, m: Movie)
    ensures Canonical(appUrl, FilmPath(m)) == FilmUrl(appUrl, m)
  {
    assert FilmPath(m)[0] == '/' by { assert FilmPath(m)[..6] == "/film/"; }
  }

  /** Lines 64-68: Home, the catalogue, then the movie. */
  function Crumbs(m: Movie, appUrl: string): (cs: seq<Crumb>)
    ensures |cs| == 3
    ensures cs[0] == Crumb("Home", Canonical(appUrl, "/")) && cs[1] == Crumb("Catalogo", Canonical(appUrl, "/page/1"))
    ensures cs[2] == Crumb(m.title, FilmUrl(appUrl, m))
  {
    CanonicalIsFilmUrl(appUrl, m);
    [Crumb("Home", Canonical(appUrl, "/")),
     Crumb("Catalogo", Canonical(appUrl, "/page/1")),
     Crumb(m.title, Canonical(appUrl, FilmPath(m)))]
  }

  /** Lines 53-60: the page's metadata. */
  function PageMetaFor(m: Movie, embeds: seq<Embed>, appUrl: string, configuration: Json, strimwidth: string -> string): Params {
    DefaultMeta(appUrl, Overrides(m, FilmUrl(appUrl, m), embeds, Image(m, configuration), strimwidth(m.summary)))
  }

  /** Lines 53-69: the page of a found movie requested under its own slug, with the embeds collected. */
  function PageFor(m: Movie, embeds: seq<Embed>, appUrl: string, configuration: Json, strimwidth: string -> string): Outcome {
    Page(m, embeds, PageMetaFor(m, embeds, appUrl, configuration, strimwidth),
         MovieJsonLd(m, embeds, appUrl, configuration), BreadcrumbJsonLd(Crumbs(m, appUrl)))
  }

  /** What a found movie's request gets: the redirect when the slug differs, else the page. */
  function Respond(m: Movie, requestedSlug: string, appUrl: string, tmdbMovie: int -> Option<Json>,
                   configuration: Json, strimwidth: string -> string): Outcome {
    if requestedSlug != m.slug then MovedTo(FilmUrl(appUrl, m))
    else PageFor(m, EmbedsFor(m, tmdbMovie), appUrl, configuration, strimwidth)
  }

  lemma RespondPage(m: Movie, requestedSlug: string, appUrl: string, tmdbMovie: int -> Option<Json>,
                    configuration: Json, strimwidth: string -> string)
    requires requestedSlug == m.slug
    ensures Respond(m, requestedSlug, appUrl, tmdbMovie, configuration, strimwidth) == PageFor(m, EmbedsFor(m, tmdbMovie), appUrl, configuration, strimwidth)
  {
  }

  /** An override of a given pair list is used by `seo_default_meta`. */
  lemma OverrideAt(appUrl: string, o: NullableParams, i: int, v: string)
    requires UniqueNullableKeys(o) && 0 <= i < |o| && o[i].1 == Some(v) && v != ""
    requires o[i].0 != "url" || v != "0"
    ensures Lookup(DefaultMeta(appUrl, o), o[i].0) == Some(v)
  {
    assert (o[i].0, Some(v)) == o[i];
    OverrideWins(appUrl, o, o[i].0, v);
  }

  /** The title override wins over the default. */
  lemma TitleWins(appUrl: string, m: Movie, canonical: string, embeds: seq<Embed>, image: Option<string>, description: string)
    ensures Lookup(DefaultMeta(appUrl, Overrides(m, canonical, embeds, image, description)), "title") == Some(m.title + TitleSuffix)
  {
    OverrideAt(appUrl, Overrides(m, canonical, embeds, image, description), 0, m.title + TitleSuffix);
  }

  /** The url override wins over the default, unless it is empty. */
  lemma UrlWins(appUrl: string, m: Movie, canonical: string, embeds: seq<Embed>, image: Option<string>, description: string)
    requires canonical != "" && canonical != "0"
    ensures Lookup(DefaultMeta(appUrl, Overrides(m, canonical, embeds, image, description)), "url") == Some(canonical)
  {
    OverrideAt(appUrl, Overrides(m, canonical, embeds, image, description), 3, canonical);
  }

  /** The canonical override wins over the default, unless it is ''. */
  lemma CanonicalWins(appUrl: string, m: Movie, canonical: string, embeds: seq<Embed>, image: Option<string>, description: string)
    requires canonical != ""
    ensures Lookup(DefaultMeta(appUrl, Overrides(m, canonical, embeds, image, description)), "canonical") == Some(canonical)
  {
    OverrideAt(appUrl, Overrides(m, canonical, embeds, image, description), 4, canonical);
  }

  /** The og type override wins over the default. */
  lemma TypeWins(appUrl: string, m: Movie, canonical: string, embeds: seq<Embed>, image: Option<string>, description: string)
    ensures Lookup(DefaultMeta(appUrl, Overrides(m, canonical, embeds, image, description)), "type") == Some(OgType(embeds))
  {
    OverrideAt(appUrl, Overrides(m, canonical, embeds, image, description), 5, OgType(embeds));
  }

  /** The page's metadata: its own title, the canonical address as url and canonical, and the og type. */
  lemma PageMeta(m: Movie, embeds: seq<Embed>, appUrl: string, configuration: Json, strimwidth: string -> string)
    ensures var meta := PageMetaFor(m, embeds, appUrl, configuration, strimwidth);
            && Lookup(meta, "title") == Some(m.title + TitleSuffix)
            && Lookup(meta, "url") == Some(FilmUrl(appUrl, m))
            && Lookup(meta, "canonical") == Some(FilmUrl(appUrl, m))
            && Lookup(meta, "type") == Some(if embeds != [] then "video.movie" else "movie")
  {
    var canonical := FilmUrl(appUrl, m);
    assert |canonical| > 6 by { assert StartsWith(canonical, TrimRight(appUrl, {'/'}) + "/film/"); }
    var image, description := Image(m, configuration), strimwidth(m.summary);
    TitleWins(appUrl, m, canonical, embeds, image, description);
    UrlWins(appUrl, m, canonical, embeds, image, description);
    CanonicalWins(appUrl, m, canonical, embeds, image, description);
    TypeWins(appUrl, m, canonical, embeds, image, description);
  }

  /** The breadcrumb trail is Home, Catalogo, then the movie's title, at positions 1, 2, 3. */
  lemma PageBreadcrumb(m: Movie, appUrl: string)
    ensures var j := BreadcrumbJsonLd(Crumbs(m, appUrl));
            && Field(j, "itemListElement").Some? && Field(j, "itemListElement").value.JList?
            && var items := Field(j, "itemListElement").value.items;
            && |items| == 3
            && Field(items[0], "name") == Some(JStr("Home")) && Field(items[0], "item") == Some(JStr(Canonical(appUrl, "/")))
            && Field(items[1], "name") == Some(JStr("Catalogo")) && Field(items[1], "item") == Some(JStr(Canonical(appUrl, "/page/1")))
            && Field(items[2], "name") == Some(JStr(m.title)) && Field(items[2], "item") == Some(JStr(FilmUrl(appUrl, m)))
            && Field(items[2], "position") == Some(JInt(3))
  {
    var cs := Crumbs(m, appUrl);
  }

  /** Following the redirect ends on the page: the canonical path matches and carries the movie's id and slug. */
  lemma RedirectSettles(m: Movie)
    requires 0 <= m.id <= PhpIntMax && '\n' !in m.slug
    requires Trim(m.slug) == m.slug && m.slug != "0"
    ensures Index.MatchFilm(FilmPath(m)).Some?
    ensures ToInt(Index.MatchFilm(FilmPath(m)).value.0) == m.id
    ensures RequestedSlug(Index.MatchFilm(FilmPath(m)).value.1) == m.slug
  {
    Index.FilmRouteMatches(m);
    ToIntOfIntToString(m.id);
    SlugAccepted(m.slug);
  }

  /** A movie whose slug is "0" is redirected from its own canonical path to that same address. */
  lemma ZeroSlugNeverSettles(m: Movie)
    requires m.id >= 0 && m.slug == "0"
    ensures Index.MatchFilm(FilmPath(m)).Some?
    ensures RequestedSlug(Index.MatchFilm(FilmPath(m)).value.1) != m.slug
  {
    Index.FilmRouteMatches(m);
    SlugAccepted("0");
  }

  /** Lines 27-69, for the movie found: the redirect, or the page with its trailers collected one by one. */
  method Answer(m: Movie, requestedSlug: string, appUrl: string, tmdbMovie: int -> Option<Json>,
                configuration: Json, strimwidth: string -> string) returns (o: Outcome)
    ensures o == Respond(m, requestedSlug, appUrl, tmdbMovie, configuration, strimwidth)
    ensures !o.NotFound?
  {
    CanonicalIsFilmUrl(appUrl, m);
    if requestedSlug != m.slug {
      return MovedTo(Canonical(appUrl, FilmPath(m)));
    }
    var embeds: seq<Embed> := [];
    if HasTmdbId(m) {
      var payload := tmdbMovie(m.tmdbId.value);
      embeds := Trailers.Collect(Trailers.VideoResults(payload), FallbackName(m));
    }
    assert embeds == EmbedsFor(m, tmdbMovie);
    o := PageFor(m, embeds, appUrl, configuration, strimwidth);
    RespondPage(m, requestedSlug, appUrl, tmdbMovie, configuration, strimwidth);
  }

  /**
   * Lines 10-69. `uri` is the request path as `parse_url` gave it (or ''), and
   * `ms` the catalogue `movies_find` searches.
   */
  method Serve(uri: string, ms: seq<Movie>, p: Prims, appUrl: string, tmdbMovie: int -> Option<Json>,
               configuration: Json, strimwidth: string -> string) returns (o: Outcome)
    // a path that is not a film route, or an unknown id, is a 404
    ensures Index.MatchFilm(uri).None? ==> o == NotFound(PageNotFound)
    ensures Index.MatchFilm(uri).Some? && (forall m :: m in ms ==> m.id != ToInt(Index.MatchFilm(uri).value.0)) ==>
              o == NotFound(FilmNotFound)
    ensures o == NotFound(FilmNotFound) ==>
              Index.MatchFilm(uri).Some? && forall m :: m in ms ==> m.id != ToInt(Index.MatchFilm(uri).value.0)
    // otherwise the response for the first movie with the id
    ensures !o.NotFound? ==> Index.MatchFilm(uri).Some?
    ensures !o.NotFound? ==>
              var id := ToInt(Index.MatchFilm(uri).value.0);
              exists k :: 0 <= k < |ms| && ms[k].id == id && (forall j :: 0 <= j < k ==> ms[j].id != id)
                          && o == Respond(Hydrate(ms[k], p), RequestedSlug(Index.MatchFilm(uri).value.1), appUrl, tmdbMovie, configuration, strimwidth)
  {
    var segments := Index.MatchFilm(uri);
    if segments.None? {
      return NotFound(PageNotFound);
    }
    var movieId := ToInt(segments.value.0);
    var requestedSlug := RequestedSlug(segments.value.1);
    var found := Find(ms, movieId, p);
    if found.None? {
      return NotFound(FilmNotFound);
    }
    ghost var k :| 0 <= k < |ms| && ms[k].id == movieId && found.value == Hydrate(ms[k], p) && forall j :: 0 <= j < k ==> ms[j].id != movieId;
    o := Answer(found.value, requestedSlug, appUrl, tmdbMovie, configuration, strimwidth);
  }
}
