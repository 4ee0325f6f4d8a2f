/**
 * sitemap.php: every movie of the catalogue, read page by page through
 * `movies_paginated` (60 per page, no filters) until the last page, then
 * one `<url>` per movie after the site root.
 *
 * The clock is a parameter (`now`, already formatted), as is the conversion
 * of `updated_at` to a W3C date (`w3c`); XML escaping is not modelled.
 */
module Sitemap {
  import opened Wrappers
  import opened Ints
  import opened Strings
  import opened Movies

  const PerPage: int := 60
  const DefaultAppUrl: string := "http://localhost"

  /** Line 10: `rtrim(env('APP_URL', 'http://localhost'), '/')`. */
  function AppUrl(appUrlEnv: Option<string>): (u: string)
    ensures u == [] || u[|u| - 1] != '/'
  {
    TrimRight(appUrlEnv.GetOr(DefaultAppUrl), {'/'})
  }

  /** The whole catalogue, sorted, as the listing pages show it. */
  function Catalogue(ms: seq<Movie>, p: Prims): seq<Movie> {
    Listing(ms, NoFilters, p)
  }

  /** `total_pages` of the unfiltered listing at 60 per page: enough pages for the whole catalogue. */
  function TotalPages(ms: seq<Movie>, p: Prims): nat {
    CeilDiv(|Catalogue(ms, p)|, PerPage)
  }

  /** Page `page` of the unfiltered listing is the matching 60-movie slice of the catalogue. */
  lemma PageIsSlice(ms: seq<Movie>, p: Prims, page: int)
    requires page >= 1
    ensures Paginated(ms, NoFilters, page, PerPage, p).data == Slice(Catalogue(ms, p), (page - 1) * PerPage)
  {
    var all := Catalogue(ms, p);
    PaginatedIsChunk(ms, NoFilters, page, PerPage, p);
    PageChunkSlice(all, page, PerPage);
  }

  /** Every page reports the same page count, the least that covers the catalogue. */
  lemma PageReportsCount(ms: seq<Movie>, p: Prims, page: int)
    requires page >= 1
    ensures Paginated(ms, NoFilters, page, PerPage, p).meta.totalPages == TotalPages(ms, p)
    ensures (TotalPages(ms, p) - 1) * PerPage < |Catalogue(ms, p)| <= TotalPages(ms, p) * PerPage
            || (|Catalogue(ms, p)| == 0 && TotalPages(ms, p) == 0)
  {
    CeilDivExact(|Catalogue(ms, p)|, PerPage);
  }

  /** The 60 movies of the catalogue from position lo on, or fewer at the end. */
  function Slice(all: seq<Movie>, lo: nat): (r: seq<Movie>)
    ensures |r| <= PerPage
  {
    if lo < |all| then all[lo..Min(|all|, lo + PerPage)] else []
  }

  /** Line 16: `movies_paginated([], $page, 60)`, its data and `total_pages`. */
  method Request(ms: seq<Movie>, p: Prims, page: int) returns (data: seq<Movie>, totalPages: nat)
    requires page >= 1
    ensures data == Slice(Catalogue(ms, p), (page - 1) * PerPage)
    ensures totalPages == TotalPages(ms, p)
  {
    var result := Paginated(ms, NoFilters, page, PerPage, p);
    PageIsSlice(ms, p, page);
    PageReportsCount(ms, p, page);
    data := result.data;
    totalPages := result.meta.totalPages;
  }

  /**
   * Lines 11-19: pages 1, 2, ... until the page count reported is passed,
   * at least one request. Returns the movies collected and the number of
   * requests made.
   */
  method Collect(ms: seq<Movie>, p: Prims) returns (collected: seq<Movie>, requests: nat)
    ensures collected == Catalogue(ms, p)
    ensures requests == Max(1, TotalPages(ms, p))
  {
    ghost var all := Catalogue(ms, p);
    ghost var total := TotalPages(ms, p);
    PageCount(ms, p);
    var page := 1;
    collected := [];
    // the body of the do-while, once
    var data, totalPages := Request(ms, p, page);
    PrefixExtend(all, 0);
    collected := collected + data;
    page := page + 1;
    requests := 1;
    while page <= totalPages
      invariant 2 <= page && requests == page - 1
      invariant totalPages == total
      invariant page - 1 <= Max(1, total)
      invariant collected == Prefix(all, page - 1)
      decreases total - page
    {
      data, totalPages := Request(ms, p, page);
      PrefixExtend(all, page - 1);
      collected := collected + data;
      page := page + 1;
      requests := requests + 1;
    }
    PrefixWhole(all, page - 1);
  }

  /** The first n pages of a sequence, 60 per page. */
  function Prefix(all: seq<Movie>, n: nat): (r: seq<Movie>)
    ensures |r| <= |all|
  {
    all[..Min(n * PerPage, |all|)]
  }

  /** The page count covers the catalogue: 60 times it reaches the last movie. */
  lemma PageCount(ms: seq<Movie>, p: Prims)
    ensures |Catalogue(ms, p)| <= TotalPages(ms, p) * PerPage
    ensures TotalPages(ms, p) == 0 ==> Catalogue(ms, p) == []
  {
    PageReportsCount(ms, p, 1);
  }

  /** Appending page n + 1 to the first n pages gives the first n + 1 pages. */
  lemma PrefixExtend(all: seq<Movie>, n: nat)
    ensures Prefix(all, n) + Slice(all, n * PerPage) == Prefix(all, n + 1)
  {
  }

  /** Enough pages cover the whole sequence. */
  lemma PrefixWhole(all: seq<Movie>, n: nat)
    requires |all| <= n * PerPage
    ensures Prefix(all, n) == all
  {
  }

  /** The image of a `<url>`. */
  datatype Image = Image(loc: string, caption: string)

  /** One `<url>` of the urlset. */
  datatype Entry = Entry(loc: string, lastmod: string, changefreq: Option<string>, priority: string, image: Option<Image>)

  /** Lines 26-30. */
  function RootEntry(appUrl: string, now: string): Entry {
    Entry(appUrl + "/", now, None, "1.0", None)
  }

  /** Lines 32-47. */
  function MovieEntry(appUrl: string, m: Movie, now: string, w3c: string -> string): Entry {
    var lastmod := if Truthy(m.updatedAt) then w3c(m.updatedAt.value) else now;
    var image :=
      if m.poster.Some? && Truthy(m.poster.value.url) then Some(Image(m.poster.value.url.value, m.title + " poster"))
      else None;
    Entry(appUrl + "/film/" + IntToString(m.id) + "/" + m.slug, lastmod, Some("weekly"), "0.8", image)
  }

  /** Lines 25-49: the root, then one entry per movie collected, in order. */
  function Urlset(appUrl: string, movies: seq<Movie>, now: string, w3c: string -> string): (us: seq<Entry>)
    ensures |us| == |movies| + 1
  {
    [RootEntry(appUrl, now)] + seq(|movies|, i requires 0 <= i < |movies| => MovieEntry(appUrl, movies[i], now, w3c))
  }

  /** The root comes first: the site URL with a trailing slash, dated now, priority 1.0. */
  lemma UrlsetRoot(appUrl: string, movies: seq<Movie>, now: string, w3c: string -> string)
    ensures var e := Urlset(appUrl, movies, now, w3c)[0];
            e.loc == appUrl + "/" && e.lastmod == now && e.priority == "1.0" && e.changefreq.None? && e.image.None?
  {
  }

  /**
   * Movie i is entry i + 1: weekly, priority 0.8, dated by its `updated_at`
   * when that is not empty, else now, with an image exactly when its poster
   * URL is not empty.
   */
  lemma UrlsetMovie(appUrl: string, movies: seq<Movie>, now: string, w3c: string -> string, i: int)
    requires 0 <= i < |movies|
    ensures var m := movies[i]; var e := Urlset(appUrl, movies, now, w3c)[i + 1];
            && e.changefreq == Some("weekly") && e.priority == "0.8"
            && (e.lastmod == if Truthy(m.updatedAt) then w3c(m.updatedAt.value) else now)
            && (e.image.Some? <==> m.poster.Some? && Truthy(m.poster.value.url))
            && (e.image.Some? ==> e.image.value == Image(m.poster.value.url.value, m.title + " poster"))
  {
    assert Urlset(appUrl, movies, now, w3c)[i + 1] == MovieEntry(appUrl, movies[i], now, w3c);
  }

  /** A movie's sitemap URL is the canonical film page URL the rest of the site links to. */
  lemma MovieLocIsFilmUrl(appUrlEnv: Option<string>, m: Movie, now: string, w3c: string -> string)
    ensures MovieEntry(AppUrl(appUrlEnv), m, now, w3c).loc == FilmUrl(appUrlEnv.GetOr(DefaultAppUrl), m)
  {
    var appUrl := AppUrl(appUrlEnv);
    assert appUrl + "/film/" + IntToString(m.id) + "/" + m.slug == appUrl + FilmPath(m);
  }

  /** The sitemap lists every movie of the catalogue once, in the sorted catalogue's order (year, newest first, then title), after the root. */
  method Render(ms: seq<Movie>, p: Prims, appUrlEnv: Option<string>, now: string, w3c: string -> string)
    returns (us: seq<Entry>)
    ensures us == Urlset(AppUrl(appUrlEnv), Catalogue(ms, p), now, w3c)
    ensures |us| == |Catalogue(ms, p)| + 1
  {
    var appUrl := AppUrl(appUrlEnv);
    var collected, _ := Collect(ms, p);
    us := Urlset(appUrl, collected, now, w3c);
  }
}
