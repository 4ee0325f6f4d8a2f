/**
 * index.php: the catalogue's front controller. It normalises the request path,
 * dispatches film and sitemap paths, reads the page and the filters from the
 * query and from the pretty routes `/page/{n}` and `/genere/{slug}[/page/{n}]`,
 * redirects `/page` and `?page=n` to their canonical routes, and builds the
 * route paths, the page URLs and the prev/next Link header of a listing.
 *
 * The three PCRE patterns are written out as functions. `$` matches at the
 * end of the subject or before a final newline, `\d` is an ASCII digit and
 * `\w` an ASCII letter, digit or '_'.
 */
module Index {
  import opened Wrappers
  import opened Ints
  import opened Strings
  import opened Query
  import opened Movies
  import Url
  import Seo

  // ---------------------------------------------------------------------------
  // build_route_path and build_page_url

  /** The base path with '' read as '/' and a missing leading '/' added. */
  function NormalBase(basePath: string): (b: string)
    ensures b != "" && b[0] == '/'
    ensures basePath == "" ==> b == "/"
    ensures basePath != "" && basePath[0] == '/' ==> b == basePath
    ensures basePath != "" && basePath[0] != '/' ==> b == "/" + basePath
  {
    var b := if basePath == "" then "/" else basePath;
    if b != "/" && !StartsWith(b, "/") then "/" + b else b
  }

  /** `build_route_path`. */
  function RoutePath(basePath: string, page: int): (r: string)
    // the first page is the base itself
    ensures page <= 1 ==> r == NormalBase(basePath)
    // later pages hang "/page/{n}" under it, directly under the root
    ensures page > 1 && NormalBase(basePath) == "/" ==> r == "/page/" + IntToString(page)
    ensures page > 1 && NormalBase(basePath) != "/" ==> r == NormalBase(basePath) + "/page/" + IntToString(page)
    ensures r != "" && r[0] == '/'
  {
    var b := NormalBase(basePath);
    if page <= 1 then b
    else if b == "/" then "/page/" + IntToString(page)
    else b + "/page/" + IntToString(page)
  }

  /** The query parameters a page URL keeps: never `page`, and no `genre` under a genre route. */
  function PageQuery(params: NullableParams, basePath: string): (q: Params)
  {
    Present(params, if basePath != "/" then {"page", "genre"} else {"page"})
  }

  /** `build_page_url`. */
  function PageUrl(page: int, params: NullableParams, basePath: string): (u: string)
    ensures PageQuery(params, basePath) == [] ==> u == RoutePath(basePath, page)
    ensures PageQuery(params, basePath) != [] ==> u == RoutePath(basePath, page) + "?" + Build(PageQuery(params, basePath))
  {
    var q := PageQuery(params, basePath);
    var path := RoutePath(basePath, page);
    if q != [] then path + "?" + Build(q) else path
  }

  /**
   * What the query of a page URL holds: `page` is always dropped, `genre` is
   * dropped under a genre route, null and '' values are dropped, and every
   * other parameter is kept with its value.
   */
  lemma PageQueryContents(params: NullableParams, basePath: string)
    ensures var q := PageQuery(params, basePath);
      && (forall p :: p in q ==> p.0 != "page" && (basePath != "/" ==> p.0 != "genre"))
      && (forall p :: p in q ==> (p.0, Some(p.1)) in params && p.1 != "")
      && (forall k, v :: (k, Some(v)) in params && v != "" && k != "page" && (basePath != "/" ==> k != "genre") ==> (k, v) in q)
  {
  }

  // ---------------------------------------------------------------------------
  // The route patterns

  /** `$` at this point: the end of the subject, or a final newline. */
  predicate AtEnd(rest: string) {
    rest == "" || rest == "\n"
  }

  /** The length of the longest prefix of s whose characters all satisfy p. */
  function Run(s: string, p: char -> bool): (n: nat)
    ensures n <= |s|
    ensures forall i :: 0 <= i < n ==> p(s[i])
    ensures n < |s| ==> !p(s[n])
  {
    if s == [] || !p(s[0]) then 0 else 1 + Run(s[1..], p)
  }

  /** A prefix whose characters satisfy p, followed by one that does not (or nothing), is the run. */
  lemma {:induction false} RunOf(s: string, t: string, p: char -> bool)
    requires forall i :: 0 <= i < |s| ==> p(s[i])
    requires t == [] || !p(t[0])
    ensures Run(s + t, p) == |s|
  {
    if s != [] {
      assert (s + t)[1..] == s[1..] + t;
      RunOf(s[1..], t, p);
    } else {
      assert s + t == t;
    }
  }

  predicate IsWordOrDash(c: char) {
    'a' <= c <= 'z' || 'A' <= c <= 'Z' || IsDigit(c) || c == '_' || c == '-'
  }

  /** `#^/film/(\d+)/(.*)$#`: the digits and the rest of the line. */
  function MatchFilm(uri: string): (m: Option<(string, string)>)
    ensures m.Some? ==> StartsWith(uri, "/film/") && m.value.0 != [] && forall i :: 0 <= i < |m.value.0| ==> IsDigit(m.value.0[i])
    ensures m.Some? ==> '\n' !in m.value.1
  {
    if !StartsWith(uri, "/film/") then None
    else
      var rest := uri[6..];
      var n := Run(rest, IsDigit);
      if n == 0 || n == |rest| || rest[n] != '/' then None
      else
        var tail := rest[n + 1..];
        var k := IndexOf(tail, '\n');
        if AtEnd(tail[k..]) then Some((rest[..n], tail[..k])) else None
  }

  /** `#^/page/(\d+)$#`: the digits. */
  function MatchPage(uri: string): (m: Option<string>)
    ensures m.Some? ==> m.value != [] && forall i :: 0 <= i < |m.value| ==> IsDigit(m.value[i])
  {
    if !StartsWith(uri, "/page/") then None
    else
      var rest := uri[6..];
      var n := Run(rest, IsDigit);
      if n >= 1 && AtEnd(rest[n..]) then Some(rest[..n]) else None
  }

  /** `#^/genere/([\w-]+)(?:/page/(\d+))?$#`: the slug and, when the page part is there, its digits. */
  function MatchGenre(uri: string): (m: Option<(string, Option<string>)>)
    ensures m.Some? ==> m.value.0 != [] && forall i :: 0 <= i < |m.value.0| ==> IsWordOrDash(m.value.0[i])
    ensures m.Some? && m.value.1.Some? ==> m.value.1.value != [] && forall i :: 0 <= i < |m.value.1.value| ==> IsDigit(m.value.1.value[i])
  {
    if !StartsWith(uri, "/genere/") then None
    else
      var rest := uri[8..];
      var n := Run(rest, IsWordOrDash);
      if n == 0 then None
      else
        var after := rest[n..];
        if StartsWith(after, "/page/") && Run(after[6..], IsDigit) >= 1 && AtEnd(after[6..][Run(after[6..], IsDigit)..]) then
          Some((rest[..n], Some(after[6..][..Run(after[6..], IsDigit)])))
        else if AtEnd(after) then Some((rest[..n], None))
        else None
  }

  /** "/film/" + digits + "/" + a one-line slug matches the film route, giving back both parts. */
  lemma FilmPatternMatches(digits: string, slug: string)
    requires digits != [] && forall i :: 0 <= i < |digits| ==> IsDigit(digits[i])
    requires '\n' !in slug
    ensures MatchFilm("/film/" + digits + "/" + slug) == Some((digits, slug))
  {
    var uri := "/film/" + digits + "/" + slug;
    assert uri[..6] == "/film/";
    var rest := uri[6..];
    assert rest == digits + ("/" + slug);
    RunOf(digits, "/" + slug, IsDigit);
    var n := |digits|;
    assert rest[..n] == digits && rest[n] == '/';
    var tail := rest[n + 1..];
    assert tail == slug;
    assert IndexOf(tail, '\n') == |tail|;
    assert tail[|tail|..] == "" && tail[..|tail|] == slug;
  }

  /** The film route of a movie with a non-negative id and a one-line slug matches, giving back both parts. */
  lemma FilmRouteMatches(m: Movie)
    requires m.id >= 0 && '\n' !in m.slug
    ensures MatchFilm(FilmPath(m)) == Some((IntToString(m.id), m.slug))
  {
    var digits := IntToString(m.id);
    assert digits == NatToString(m.id);
    FilmPatternMatches(digits, m.slug);
  }

  /** Page n > 1 of the catalogue is routed back to page n. */
  lemma PageRouteMatches(n: int)
    requires 1 < n <= PhpIntMax
    ensures MatchPage(RoutePath("/", n)) == Some(IntToString(n))
    ensures ToInt(IntToString(n)) == n
  {
    var digits := IntToString(n);
    var uri := RoutePath("/", n);
    assert uri[6..] == digits;
    RunOf(digits, "", IsDigit);
    assert digits + "" == digits;
    assert digits[|digits|..] == "";
    ToIntOfIntToString(n);
  }

  /** "/genere/" + slug + "/page/" + digits matches the genre route with its page part. */
  lemma GenrePagePatternMatches(slug: string, digits: string)
    requires slug != [] && forall i :: 0 <= i < |slug| ==> IsWordOrDash(slug[i])
    requires digits != [] && forall i :: 0 <= i < |digits| ==> IsDigit(digits[i])
    ensures MatchGenre("/genere/" + slug + "/page/" + digits) == Some((slug, Some(digits)))
  {
    var uri := "/genere/" + slug + "/page/" + digits;
    assert uri[..8] == "/genere/";
    var rest := uri[8..];
    assert rest == slug + ("/page/" + digits);
    RunOf(slug, "/page/" + digits, IsWordOrDash);
    var after := rest[|slug|..];
    assert after == "/page/" + digits;
    assert after[..6] == "/page/";
    assert after[6..] == digits + "";
    RunOf(digits, "", IsDigit);
    assert after[6..][|digits|..] == "";
    assert rest[..|slug|] == slug && after[6..][..|digits|] == digits;
  }

  /** "/genere/" + slug alone matches the genre route without a page part. */
  lemma GenreBarePatternMatches(slug: string)
    requires slug != [] && forall i :: 0 <= i < |slug| ==> IsWordOrDash(slug[i])
    ensures MatchGenre("/genere/" + slug) == Some((slug, None))
  {
    var uri := "/genere/" + slug;
    assert uri[..8] == "/genere/";
    assert uri[8..] == slug + "";
    RunOf(slug, "", IsWordOrDash);
    assert uri[8..][|slug|..] == "";
    assert uri[8..][..|slug|] == slug;
  }

  /** A genre route gives back its slug, and its page when that is above 1. */
  lemma GenreRouteMatches(slug: string, n: int)
    requires slug != [] && forall i :: 0 <= i < |slug| ==> IsWordOrDash(slug[i])
    ensures MatchGenre(RoutePath("/genere/" + slug, n)) == Some((slug, if n > 1 then Some(IntToString(n)) else None))
  {
    var base := "/genere/" + slug;
    assert NormalBase(base) == base;
    if n > 1 {
      var digits := IntToString(n);
      assert digits == NatToString(n);
      GenrePagePatternMatches(slug, digits);
    } else {
      GenreBarePatternMatches(slug);
    }
  }

  // ---------------------------------------------------------------------------
  // The request prologue

  /** Where a request goes. */
  datatype Outcome =
    | ToFilm(uri: string)
    | ToSitemap
    | Redirect(location: string)
    | Catalog(page: int, filters: Filters, get: Params, basePath: string)

  /** Lines 10-15: the request path without the base prefix and without trailing '/'. */
  function NormalUri(path: Option<string>, basePrefix: string): (uri: string)
    ensures uri != "" && (uri == "/" || uri[|uri| - 1] != '/')
  {
    var uri := if path.None? || Falsy(path.value) then "/" else path.value;
    var uri := if basePrefix != "" && StartsWith(uri, basePrefix) then
                 (var rest := uri[|basePrefix|..]; if Falsy(rest) then "/" else rest)
               else uri;
    var trimmed := TrimRight(uri, {'/'});
    if Falsy(trimmed) then "/" else trimmed
  }

  /** Line 70: the base of the listing's canonical path, from the genre filter. */
  function CatalogBase(genre: Option<string>): (b: string)
    ensures !Truthy(genre) ==> b == "/"
    ensures Truthy(genre) ==> b == "/genere/" + AsciiLower(ReplaceChar(genre.value, ' ', '-'))
  {
    if Truthy(genre) then "/genere/" + AsciiLower(ReplaceChar(genre.value, ' ', '-')) else "/"
  }

  /** Lines 27 and 38-48: the page, from the query, then from a page or genre route. */
  function PageOf(uri: string, get: Params): (page: int)
    ensures page >= 1
    ensures MatchPage(uri).Some? ==> page == Max(1, ToInt(MatchPage(uri).value))
    ensures MatchGenre(uri).Some? && Truthy(MatchGenre(uri).value.1) ==> page == Max(1, ToInt(MatchGenre(uri).value.1.value))
    // with neither route, `(int) ($_GET['page'] ?? 1)`, at least 1
    ensures MatchPage(uri).None? && (MatchGenre(uri).None? || !Truthy(MatchGenre(uri).value.1)) ==>
              page == Max(1, ToInt(Lookup(get, "page").GetOr("1")))
  {
    RoutesExclusive(uri);
    var genre := MatchGenre(uri);
    if genre.Some? && Truthy(genre.value.1) then Max(1, ToInt(genre.value.1.value))
    else if MatchPage(uri).Some? then Max(1, ToInt(MatchPage(uri).value))
    else Max(1, ToInt(Lookup(get, "page").GetOr("1")))
  }

  /** No URI matches both the page route and the genre route. */
  lemma RoutesExclusive(uri: string)
    ensures MatchPage(uri).None? || MatchGenre(uri).None?
  {
    if MatchPage(uri).Some? {
      assert uri[1] == 'p';
    }
  }

  /** Lines 30 and 42-44: the genre filter, from a genre route (its slug with '-' read as ' '), else the query. */
  function GenreOf(uri: string, get: Params): (genre: Option<string>)
    ensures MatchGenre(uri).Some? ==> genre == Some(ReplaceChar(MatchGenre(uri).value.0, '-', ' '))
    ensures MatchGenre(uri).None? ==> genre == Lookup(get, "genre")
  {
    if MatchGenre(uri).Some? then Some(ReplaceChar(MatchGenre(uri).value.0, '-', ' ')) else Lookup(get, "genre")
  }

  /** Line 55: the route a ?page redirect goes to; the slug goes through PHP truthiness, so "0" counts as none. */
  function RedirectBase(uri: string): string {
    if MatchGenre(uri).Some? && !Falsy(MatchGenre(uri).value.0) then "/genere/" + MatchGenre(uri).value.0 else "/"
  }

  /**
   * A ?page redirect from a genre route keeps the genre, except for the slug
   * "0", which PHP reads as false: `/genere/0?page=2` is sent to `/page/2`.
   */
  lemma RedirectBaseOfGenre(slug: string)
    requires slug != [] && forall i :: 0 <= i < |slug| ==> IsWordOrDash(slug[i])
    ensures RedirectBase("/genere/" + slug) == if slug == "0" then "/" else "/genere/" + slug
  {
    GenreBarePatternMatches(slug);
  }

  /**
   * Lines 10-70. `path` is what `parse_url` gave for the request path,
   * `basePrefix` is `app_base_path()` and `get` is `$_GET`.
   */
  method Route(path: Option<string>, basePrefix: string, get: Params) returns (o: Outcome)
    requires UniqueKeys(get)
    // film pages and the sitemap are dispatched before anything else
    ensures MatchFilm(NormalUri(path, basePrefix)).Some? ==> o == ToFilm(NormalUri(path, basePrefix))
    ensures MatchFilm(NormalUri(path, basePrefix)).None? && NormalUri(path, basePrefix) in {"/sitemap.xml", "/sitemap.php"} ==> o == ToSitemap
    // a bare /page goes to the application root
    ensures NormalUri(path, basePrefix) == "/page" ==> o == Redirect(Url.AppPath(basePrefix, ""))
    // a listing is on the page and with the filters the route and the query give, never on a page above 1 given with ?page
    ensures o.Catalog? ==> var uri := NormalUri(path, basePrefix);
              && o.page == PageOf(uri, get) && ("page" in Keys(get) ==> o.page == 1)
              && o.filters == Filters(Some(Lookup(get, "search").GetOr("")), GenreOf(uri, get), Lookup(get, "year"))
              && o.basePath == CatalogBase(o.filters.genre)
    // the genre from the route is written into the query unless the query has one
    ensures o.Catalog? ==>
              && UniqueKeys(o.get)
              && Lookup(o.get, "genre") == (if "genre" in Keys(get) || !Truthy(o.filters.genre) then Lookup(get, "genre") else o.filters.genre)
              && forall k :: k != "genre" ==> Lookup(o.get, k) == Lookup(get, k)
    // any other redirect is ?page above 1, sent to the canonical route of that page
    ensures o.Redirect? && NormalUri(path, basePrefix) != "/page" ==> var uri := NormalUri(path, basePrefix);
              && "page" in Keys(get) && PageOf(uri, get) > 1
              && o.location == RoutePath(RedirectBase(uri), PageOf(uri, get))
  {
    var uri := NormalUri(path, basePrefix);
    if MatchFilm(uri).Some? {
      return ToFilm(uri);
    }
    if uri == "/sitemap.xml" || uri == "/sitemap.php" {
      return ToSitemap;
    }
    var page := Max(1, ToInt(Lookup(get, "page").GetOr("1")));
    var searchTerm := Lookup(get, "search").GetOr("");
    var yearFilter := Lookup(get, "year");
    var genreFilter := Lookup(get, "genre");
    var genreSlug: Option<string> := None;

    if uri == "/page" {
      return Redirect(Url.AppPath(basePrefix, ""));
    }
    var pageMatch := MatchPage(uri);
    if pageMatch.Some? {
      page := Max(1, ToInt(pageMatch.value));
    }
    var genreMatch := MatchGenre(uri);
    if genreMatch.Some? {
      genreSlug := Some(genreMatch.value.0);
      genreFilter := Some(ReplaceChar(genreMatch.value.0, '-', ' '));
      if Truthy(genreMatch.value.1) {
        page := Max(1, ToInt(genreMatch.value.1.value));
      }
    }
    assert page == PageOf(uri, get);
    var query := get;
    if Truthy(genreFilter) && "genre" !in Keys(get) {
      query := Set(get, "genre", genreFilter.value);
    }
    if "page" in Keys(get) && page > 1 {
      var redirectBase := if Truthy(genreSlug) then "/genere/" + genreSlug.value else "/";
      assert redirectBase == RedirectBase(uri) by {
        assert genreSlug.Some? <==> genreMatch.Some?;
        assert genreSlug.Some? ==> genreSlug.value == genreMatch.value.0;
      }
      var canonicalPagePath := RoutePath(redirectBase, page);
      return Redirect(canonicalPagePath);
    }
    o := Catalog(page, Filters(Some(searchTerm), genreFilter, yearFilter), query, CatalogBase(genreFilter));
  }

  // ---------------------------------------------------------------------------
  // The Link header of a listing (lines 84-95)

  function PrevLink(appUrl: string, basePath: string, page: int): string {
    "<" + Seo.Canonical(appUrl, RoutePath(basePath, page - 1)) + ">; rel=\"prev\""
  }

  function NextLink(appUrl: string, basePath: string, page: int): string {
    "<" + Seo.Canonical(appUrl, RoutePath(basePath, page + 1)) + ">; rel=\"next\""
  }

  /** The prev/next links: none for a single page, prev only after page 1, next only before the last page. */
  function ListingLinks(appUrl: string, basePath: string, page: int, totalPages: int): (links: seq<string>)
    ensures totalPages <= 1 ==> links == []
    ensures PrevLink(appUrl, basePath, page) in links <==> totalPages > 1 && page > 1
    ensures NextLink(appUrl, basePath, page) in links <==> totalPages > 1 && page < totalPages
    ensures forall l :: l in links ==> l == PrevLink(appUrl, basePath, page) || l == NextLink(appUrl, basePath, page)
    ensures |links| <= 2 && (|links| == 2 ==> links[0] == PrevLink(appUrl, basePath, page))
  {
    var prev := PrevLink(appUrl, basePath, page);
    var next := NextLink(appUrl, basePath, page);
    assert prev != next by {
      RelDiffers(Seo.Canonical(appUrl, RoutePath(basePath, page - 1)), Seo.Canonical(appUrl, RoutePath(basePath, page + 1)));
    }
    if totalPages <= 1 then []
    else if page > 1 && page < totalPages then [prev, next]
    else if page > 1 then [prev]
    else if page < totalPages then [next]
    else []
  }

  /** A prev link is never a next link. */
  lemma RelDiffers(a: string, b: string)
    ensures "<" + a + ">; rel=\"prev\"" != "<" + b + ">; rel=\"next\""
  {
    var p := ">; rel=\"prev\"";
    var q := ">; rel=\"next\"";
    var x := ("<" + a) + p;
    var y := ("<" + b) + q;
    if |x| == |y| {
      assert x[|x| - 5] == p[|p| - 5] == 'p';
      assert y[|y| - 5] == q[|q| - 5] == 'n';
    }
  }

  /** The header line sent, only when there is a link. */
  function LinkHeader(links: seq<string>): (h: Option<string>)
    ensures h.Some? <==> links != []
    ensures h.Some? ==> h.value == "Link: " + Join(links, ", ")
  {
    if links == [] then None else Some("Link: " + Join(links, ", "))
  }
}
