/**
 * The movie repository of movies.php on its in-memory path (no database
 * configured): hydration of stored rows, the filter / sort / chunk pipeline
 * behind `movies_paginated`, lookups by id and slug, the recent list, the
 * distinct genres, the count, and the SQL WHERE builder.
 *
 * Lower-casing (`mb_strtolower`), JSON decoding of list columns and the poster
 * URL (which depends on the file system and on TMDb) are parameters, bundled
 * in `Prims`.
 */
module Movies {
  import opened Wrappers
  import opened Ints
  import opened Strings
  import opened Sorting

  const DefaultPerPage: int := 12
  const MaxPerPage: int := 60

  /** A decimal rating, kept as its literal text. */
  datatype Rating = Rating(literal: string)

  /** A list column: absent (or null), a decoded list, or JSON text still to decode. */
  datatype ListField = Missing | Items(items: seq<string>) | Encoded(text: string)

  /** The `poster` entry hydration adds (its `srcset` is not part of this model). */
  datatype Poster = Poster(url: Option<string>, alt: string)

  datatype Movie = Movie(
    id: int,
    tmdbId: Option<int>,
    title: string,
    slug: string,
    year: int,
    genre: Option<string>,
    genres: ListField,
    posterLocal: Option<string>,
    posterRemote: Option<string>,
    posterCachedAt: Option<string>,
    summary: string,
    director: Option<string>,
    cast: ListField,
    duration: Option<int>,
    rating: Option<Rating>,
    ratingCount: Option<int>,
    updatedAt: Option<string>,
    poster: Option<Poster>)

  /** The primitives the repository uses but does not define. */
  datatype Prims = Prims(
    lower: string -> string,
    decodeList: string -> Option<seq<string>>,
    posterUrl: Movie -> Option<string>)

  /** The request filters; each is null or the raw text the caller passed. */
  datatype Filters = Filters(search: Option<string>, genre: Option<string>, year: Option<string>)

  const NoFilters: Filters := Filters(None, None, None)

  /** `!empty($movie['tmdb_id'])`. */
  predicate HasTmdbId(m: Movie) {
    m.tmdbId.Some? && m.tmdbId.value != 0
  }

  /** `!empty($movie['rating'])`: set, and not a zero (a literal made only of '0' and '.'). */
  predicate HasRating(m: Movie) {
    m.rating.Some? && exists i :: 0 <= i < |m.rating.value.literal| && m.rating.value.literal[i] !in {'0', '.'}
  }

  /** `!empty($movie['rating_count'])`. */
  predicate HasRatingCount(m: Movie) {
    m.ratingCount.Some? && m.ratingCount.value != 0
  }

  /** The movie's page: /film/{id}/{slug}. */
  function FilmPath(m: Movie): (p: string)
    ensures StartsWith(p, "/film/") && EndsWith(p, "/" + m.slug)
  {
    var p := "/film/" + IntToString(m.id) + "/" + m.slug;
    assert p[..6] == "/film/";
    assert p[|p| - |"/" + m.slug|..] == "/" + m.slug;
    p
  }

  /** The movie's absolute page under APP_URL (its trailing '/' removed). */
  function FilmUrl(appUrl: string, m: Movie): (u: string)
    ensures StartsWith(u, TrimRight(appUrl, {'/'}) + "/film/") && EndsWith(u, "/" + m.slug)
  {
    var base := TrimRight(appUrl, {'/'});
    PrependAffixes(base, FilmPath(m), "/film/", "/" + m.slug);
    base + FilmPath(m)
  }

  function GenreList(m: Movie): seq<string> {
    if m.genres.Items? then m.genres.items else []
  }

  function CastList(m: Movie): seq<string> {
    if m.cast.Items? then m.cast.items else []
  }

  // ---------------------------------------------------------------------------
  // The seed catalogue (movies_seed_data)

  function SeedMovie(id: int, tmdb: int, title: string, slug: string, year: int, genre: string, genres: seq<string>,
                     remote: string, summary: string, director: string, cast: seq<string>,
                     duration: int, rating: string, count: int): Movie
  {
    Movie(id, Some(tmdb), title, slug, year, Some(genre), Items(genres), None, Some(remote), None,
          summary, Some(director), Items(cast), Some(duration), Some(Rating(rating)), Some(count),
          Some("2024-01-01 10:00:00"), None)
  }

  function SeedInception(): Movie {
    SeedMovie(1, 27205, "Inception", "inception-2010", 2010, "Science Fiction", ["Science Fiction", "Action"],
      "/9gk7adHYeDvHkCSEqAvQNLV5Uge.jpg",
      "Un ladro capace di infiltrarsi nei sogni viene incaricato di impiantare un'idea nella mente di un magnate.",
      "Christopher Nolan", ["Leonardo DiCaprio", "Joseph Gordon-Levitt", "Elliot Page"], 148, "8.3", 32000)
  }

  function SeedIlPadrino(): Movie {
    SeedMovie(2, 238, "Il padrino", "il-padrino-1972", 1972, "Crime", ["Crime", "Drama"],
      "/3bhkrj58Vtu7enYsRolD1fZdja1.jpg",
      "La saga dei Corleone racconta l'ascesa e la trasformazione del potere criminale in America.",
      "Francis Ford Coppola", ["Marlon Brando", "Al Pacino", "James Caan"], 175, "9.2", 42000)
  }

  function SeedMatrix(): Movie {
    SeedMovie(3, 603, "Matrix", "matrix-1999", 1999, "Action", ["Action", "Science Fiction"],
      "/f89U3ADr1oiB1s9GkdPOEpXUk5H.jpg",
      "Thomas Anderson scopre la vera natura della realtà e abbraccia il suo destino come Neo.",
      "Lana Wachowski, Lilly Wachowski", ["Keanu Reeves", "Carrie-Anne Moss", "Laurence Fishburne"], 136, "8.2", 28000)
  }

  function SeedAmelie(): Movie {
    SeedMovie(4, 1891, "Il favoloso mondo di Amélie", "il-favoloso-mondo-di-amelie-2001", 2001, "Romance", ["Romance", "Comedy"],
      "/wnUAcUrMRGPPZUDroLezhz7kwR7.jpg",
      "Amélie decide di dedicarsi a migliorare la vita degli altri mentre scopre l'amore.",
      "Jean-Pierre Jeunet", ["Audrey Tautou", "Mathieu Kassovitz"], 122, "8.0", 17000)
  }

  function SeedSchindlersList(): Movie {
    SeedMovie(5, 424, "Schindler's List", "schindlers-list-1993", 1993, "Drama", ["Drama", "History"],
      "/c8Ass7acuOe4za6DhSattE359gr.jpg",
      "La storia di Oskar Schindler e del suo piano per salvare centinaia di ebrei durante l'olocausto.",
      "Steven Spielberg", ["Liam Neeson", "Ben Kingsley", "Ralph Fiennes"], 195, "8.6", 25000)
  }

  function SeedData(): seq<Movie> {
    [SeedInception(), SeedIlPadrino(), SeedMatrix(), SeedAmelie(), SeedSchindlersList()]
  }

  // ---------------------------------------------------------------------------
  // Hydration (movies_hydrate)

  /** A hydrated movie: list columns are decoded, genres fall back to the primary genre, a poster is set. */
  predicate Hydrated(m: Movie) {
    && !m.cast.Encoded?
    && !m.genres.Encoded?
    && (m.genres.Missing? ==> m.genre.None?)
    && m.poster.Some?
  }

  function DecodeField(f: ListField, decode: string -> Option<seq<string>>): ListField {
    if f.Encoded? then Items(decode(f.text).GetOr([])) else f
  }

  function Hydrate(m: Movie, p: Prims): (h: Movie)
    ensures Hydrated(h)
    // only the two list columns and the poster change
    ensures h == m.(cast := h.cast, genres := h.genres, poster := h.poster)
    // lists that are already decoded are kept
    ensures m.cast.Items? ==> h.cast == m.cast
    ensures m.genres.Items? ==> h.genres == m.genres
    // JSON text is decoded, and text that does not decode to a list becomes []
    ensures m.cast.Encoded? ==> h.cast == Items(p.decodeList(m.cast.text).GetOr([]))
    ensures m.genres.Encoded? ==> h.genres == Items(p.decodeList(m.genres.text).GetOr([]))
    // absent genres fall back to [genre]
    ensures m.genres.Missing? && m.genre.Some? ==> h.genres == Items([m.genre.value])
    ensures h.poster.Some? && h.poster.value.alt == m.title + " poster"
  {
    var cast := DecodeField(m.cast, p.decodeList);
    var genres := DecodeField(m.genres, p.decodeList);
    var genres' := if genres.Missing? && m.genre.Some? then Items([m.genre.value]) else genres;
    var rows := m.(cast := cast, genres := genres');
    rows.(poster := Some(Poster(p.posterUrl(rows), m.title + " poster")))
  }

  function HydrateAll(ms: seq<Movie>, p: Prims): (r: seq<Movie>)
    ensures |r| == |ms| && forall i :: 0 <= i < |ms| ==> r[i] == Hydrate(ms[i], p)
    ensures forall m :: m in r ==> Hydrated(m)
  {
    seq(|ms|, i requires 0 <= i < |ms| => Hydrate(ms[i], p))
  }

  /** Hydrating twice decodes nothing more: the list columns are those of one hydration. */
  lemma HydrateIdempotentOnLists(m: Movie, p: Prims)
    ensures Hydrate(Hydrate(m, p), p).cast == Hydrate(m, p).cast
    ensures Hydrate(Hydrate(m, p), p).genres == Hydrate(m, p).genres
  {
  }

  // ---------------------------------------------------------------------------
  // Filtering (the array_filter callback of movies_repository_from_seed)

  /** The lower-cased genres a genre filter is compared with: every entry of genres, then the primary genre. */
  function GenreHaystack(m: Movie, lower: string -> string): (hay: seq<string>) {
    var list := GenreList(m);
    seq(|list|, i requires 0 <= i < |list| => lower(list[i])) + (if m.genre.Some? then [lower(m.genre.value)] else [])
  }

  /** The haystack holds the lower-cased genres and primary genre, and nothing else. */
  lemma GenreHaystackMembers(m: Movie, lower: string -> string)
    ensures forall g :: g in GenreList(m) ==> lower(g) in GenreHaystack(m, lower)
    ensures m.genre.Some? ==> lower(m.genre.value) in GenreHaystack(m, lower)
    ensures forall x :: x in GenreHaystack(m, lower) ==>
              (exists g :: g in GenreList(m) && x == lower(g)) || (m.genre.Some? && x == lower(m.genre.value))
  {
    var list := GenreList(m);
    var hay := GenreHaystack(m, lower);
    forall g | g in list ensures lower(g) in hay {
      var i :| 0 <= i < |list| && list[i] == g;
      assert hay[i] == lower(g);
    }
    forall x | x in hay
      ensures (exists g :: g in list && x == lower(g)) || (m.genre.Some? && x == lower(m.genre.value))
    {
      var i :| 0 <= i < |hay| && hay[i] == x;
      if i < |list| {
        assert list[i] in list;
      }
    }
  }

  /** The callback as the source writes it: one flag, narrowed by each supplied filter in turn. */
  predicate Passes(f: Filters, m: Movie, lower: string -> string) {
    var p1 := if !EmptyOpt(f.search)
              then Contains(lower(m.title), lower(f.search.value)) || Contains(lower(m.summary), lower(f.search.value))
              else true;
    var p2 := if p1 && !EmptyOpt(f.genre) then lower(f.genre.value) in GenreHaystack(m, lower) else p1;
    var p3 := if p2 && !EmptyOpt(f.year) then m.year == ToInt(f.year.value) else p2;
    p3
  }

  /** Each filter stated on its own; an absent or empty filter ("" or "0") admits every movie. */
  ghost predicate MatchesSearch(f: Filters, m: Movie, lower: string -> string) {
    !EmptyOpt(f.search) ==>
      (exists i :: OccursAt(lower(m.title), lower(f.search.value), i)) ||
      (exists i :: OccursAt(lower(m.summary), lower(f.search.value), i))
  }

  ghost predicate MatchesGenre(f: Filters, m: Movie, lower: string -> string) {
    !EmptyOpt(f.genre) ==>
      (exists g :: g in GenreList(m) && lower(g) == lower(f.genre.value)) ||
      (m.genre.Some? && lower(m.genre.value) == lower(f.genre.value))
  }

  ghost predicate MatchesYear(f: Filters, m: Movie) {
    !EmptyOpt(f.year) ==> m.year == ToInt(f.year.value)
  }

  /** The source's flag computation is exactly the conjunction of the three filters. */
  lemma PassesIffAllFilters(f: Filters, m: Movie, lower: string -> string)
    ensures Passes(f, m, lower) <==> MatchesSearch(f, m, lower) && MatchesGenre(f, m, lower) && MatchesYear(f, m)
  {
    if !EmptyOpt(f.search) {
      ContainsIff(lower(m.title), lower(f.search.value));
      ContainsIff(lower(m.summary), lower(f.search.value));
    }
    if !EmptyOpt(f.genre) {
      var needle := lower(f.genre.value);
      var hay := GenreHaystack(m, lower);
      GenreHaystackMembers(m, lower);
      if needle in hay {
        assert (exists g :: g in GenreList(m) && needle == lower(g)) || (m.genre.Some? && needle == lower(m.genre.value));
      }
    }
  }

  function Filter(ms: seq<Movie>, f: Filters, lower: string -> string): (r: seq<Movie>)
    ensures forall m {:trigger m in r} :: m in r <==> m in ms && Passes(f, m, lower)
  {
    if ms == [] then []
    else
      assert ms == [ms[0]] + ms[1..];
      (if Passes(f, ms[0], lower) then [ms[0]] else []) + Filter(ms[1..], f, lower)
  }

  /** Filter only removes: each movie is kept at most as often as it occurs. */
  lemma {:induction false} FilterSubMultiset(ms: seq<Movie>, f: Filters, lower: string -> string)
    ensures multiset(Filter(ms, f, lower)) <= multiset(ms)
  {
    if ms != [] {
      assert ms == [ms[0]] + ms[1..];
      FilterSubMultiset(ms[1..], f, lower);
    }
  }

  /**
   * Filter keeps the stored order: filtering a concatenation concatenates
   * the filtered parts (and FilterSingle says what each single movie gives).
   */
  lemma {:induction false} FilterAppend(a: seq<Movie>, b: seq<Movie>, f: Filters, lower: string -> string)
    ensures Filter(a + b, f, lower) == Filter(a, f, lower) + Filter(b, f, lower)
  {
    if a == [] {
      assert a + b == b;
    } else {
      ghost var head := if Passes(f, a[0], lower) then [a[0]] else [];
      ghost var x, y := Filter(a[1..], f, lower), Filter(b, f, lower);
      assert Filter(a + b, f, lower) == head + Filter(a[1..] + b, f, lower) by {
        assert a == [a[0]] + a[1..];
        assert a + b == [a[0]] + (a[1..] + b);
      }
      FilterAppend(a[1..], b, f, lower);
      assert Filter(a, f, lower) == head + x;
      assert head + (x + y) == (head + x) + y;
    }
  }

  /** A single movie is kept exactly when it passes the filters. */
  lemma FilterSingle(m: Movie, f: Filters, lower: string -> string)
    ensures Filter([m], f, lower) == if Passes(f, m, lower) then [m] else []
  {
    assert [m][1..] == [];
  }

  // ---------------------------------------------------------------------------
  // Ordering: year descending, then title ascending

  predicate MovieLe(a: Movie, b: Movie) {
    a.year > b.year || (a.year == b.year && LexLe(a.title, b.title))
  }

  lemma MovieLeTotalPreorder()
    ensures TotalPreorder(MovieLe)
  {
    forall a: Movie, b: Movie ensures MovieLe(a, b) || MovieLe(b, a) {
      LexLeTotal(a.title, b.title);
    }
    forall a: Movie, b: Movie, c: Movie | MovieLe(a, b) && MovieLe(b, c) ensures MovieLe(a, c) {
      if a.year == b.year && b.year == c.year {
        LexLeTransitive(a.title, b.title, c.title);
      }
    }
  }

  /** Every hydrated movie that passes the filters, sorted by year, newest first, then by title. */
  function Listing(ms: seq<Movie>, f: Filters, p: Prims): (r: seq<Movie>)
    ensures Sorted(r, MovieLe)
    ensures multiset(r) == multiset(Filter(HydrateAll(ms, p), f, p.lower))
    ensures |r| == |Filter(HydrateAll(ms, p), f, p.lower)|
    ensures forall m :: m in r <==> m in HydrateAll(ms, p) && Passes(f, m, p.lower)
  {
    var filtered := Filter(HydrateAll(ms, p), f, p.lower);
    MovieLeTotalPreorder();
    SortBySorted(filtered, MovieLe);
    var r := SortBy(filtered, MovieLe);
    assert forall m :: m in r <==> m in multiset(r);
    assert forall m :: m in filtered <==> m in multiset(filtered);
    assert |r| == |multiset(r)|;
    r
  }

  // ---------------------------------------------------------------------------
  // Chunking (array_chunk) and the page of a listing

  /** Removing one chunk of k from more than k elements removes exactly one page. */
  lemma CeilDivStep(n: nat, k: nat)
    requires k >= 1 && n > k
    ensures CeilDiv(n, k) == CeilDiv(n - k, k) + 1
  {
    var c := CeilDiv(n - k, k);
    CeilDivBounds(n - k, k, c);
    CeilDivBounds(n, k, c + 1);
    CeilDivBounds(n, k, c);
    assert (c + 1) * k == c * k + k;
    if c > 0 {
      CeilDivBounds(n - k, k, c - 1);
      assert (c - 1) * k == c * k - k;
    }
  }

  lemma CeilDivOne(n: nat, k: nat)
    requires k >= 1 && 1 <= n <= k
    ensures CeilDiv(n, k) == 1
  {
    CeilDivBounds(n, k, 0);
    CeilDivBounds(n, k, 1);
  }

  function Chunks<T>(s: seq<T>, k: nat): (cs: seq<seq<T>>)
    requires k >= 1
    ensures |cs| == CeilDiv(|s|, k)
    decreases |s|
  {
    if s == [] then []
    else if |s| <= k then CeilDivOne(|s|, k); [s]
    else
      CeilDivStep(|s|, k);
      [s[..k]] + Chunks(s[k..], k)
  }

  function Flatten<T>(xss: seq<seq<T>>): seq<T> {
    if xss == [] then [] else xss[0] + Flatten(xss[1..])
  }

  /** The i-th chunk is the slice [i*k, min(|s|, i*k + k)). */
  lemma {:induction false} ChunkAt<T>(s: seq<T>, k: nat, i: nat)
    requires k >= 1 && i < |Chunks(s, k)|
    ensures i * k < |s|
    ensures Chunks(s, k)[i] == s[i * k..Min(|s|, i * k + k)]
    decreases |s|
  {
    if i > 0 {
      assert |s| > k;
      ChunkAt(s[k..], k, i - 1);
      assert (i - 1) * k + k == i * k;
      assert s[k..][(i - 1) * k..Min(|s| - k, (i - 1) * k + k)] == s[i * k..Min(|s|, i * k + k)];
    }
  }

  /** Concatenating the chunks in order gives back the whole sequence. */
  lemma {:induction false} FlattenChunks<T>(s: seq<T>, k: nat)
    requires k >= 1
    ensures Flatten(Chunks(s, k)) == s
    decreases |s|
  {
    if |s| > k {
      FlattenChunks(s[k..], k);
      assert s == s[..k] + s[k..];
    } else if s != [] {
      assert Flatten(Chunks(s, k)) == s + Flatten([]);
    }
  }

  /** `$chunks[max(0, $page - 1)] ?? []`. */
  function PageChunk<T>(s: seq<T>, page: int, k: nat): seq<T>
    requires k >= 1
  {
    var idx := Max(0, page - 1);
    var cs := Chunks(s, k);
    if idx < |cs| then cs[idx] else []
  }

  /** A page is the slice starting at (page-1)*k, of length min(k, |s| - (page-1)*k), and [] past the end. */
  lemma PageChunkSlice<T>(s: seq<T>, page: int, k: nat)
    requires k >= 1 && page >= 1
    ensures var lo := (page - 1) * k;
            PageChunk(s, page, k) == if lo < |s| then s[lo..Min(|s|, lo + k)] else []
    ensures |PageChunk(s, page, k)| == Min(k, Max(0, |s| - (page - 1) * k))
  {
    var idx: nat := page - 1;
    CeilDivBounds(|s|, k, idx);
    if idx < |Chunks(s, k)| {
      ChunkAt(s, k, idx);
    }
  }

  /** A page of a sorted sequence is sorted, and holds only elements of the sequence. */
  lemma PageChunkSortedSubset<T>(s: seq<T>, page: int, k: nat, le: (T, T) -> bool)
    requires k >= 1
    ensures Sorted(s, le) ==> Sorted(PageChunk(s, page, k), le)
    ensures forall x :: x in PageChunk(s, page, k) ==> x in s
  {
    var page' := Max(1, page);
    assert PageChunk(s, page, k) == PageChunk(s, page', k);
    PageChunkSlice(s, page', k);
    var lo := (page' - 1) * k;
    if lo < |s| {
      SortedSlice(s, lo, Min(|s|, lo + k), le);
    }
  }

  lemma CeilDivExact(n: nat, k: nat)
    requires k >= 1
    ensures var c := CeilDiv(n, k); ((c - 1) * k < n <= c * k) || (n == 0 && c == 0)
  {
    var c := CeilDiv(n, k);
    CeilDivBounds(n, k, c);
    if c > 0 {
      CeilDivBounds(n, k, c - 1);
    } else {
      CeilDivBounds(n, k, 0);
    }
  }

  // ---------------------------------------------------------------------------
  // movies_repository_from_seed and movies_paginated

  datatype SeedResult = SeedResult(data: seq<Movie>, total: nat)

  datatype Meta = Meta(page: int, perPage: int, total: nat, totalPages: nat)

  datatype PageResult = PageResult(data: seq<Movie>, meta: Meta)

  function FromSeed(ms: seq<Movie>, f: Filters, page: int, perPage: int, p: Prims): (r: SeedResult)
    requires perPage >= 1
    // total counts every match, whatever the page
    ensures r.total == |Filter(HydrateAll(ms, p), f, p.lower)|
    // the page holds min(per_page, total - (page-1)*per_page) movies, none past the end
    ensures page >= 1 ==> |r.data| == Min(perPage, Max(0, r.total - (page - 1) * perPage))
    // every movie on the page is hydrated and passes every filter, and the page is sorted by year, newest first, then by title
    ensures forall m :: m in r.data ==> Hydrated(m) && Passes(f, m, p.lower)
    ensures Sorted(r.data, MovieLe)
  {
    var listing := Listing(ms, f, p);
    PageChunkSortedSubset(listing, page, perPage, MovieLe);
    if page >= 1 then
      PageChunkSlice(listing, page, perPage);
      SeedResult(PageChunk(listing, page, perPage), |listing|)
    else
      SeedResult(PageChunk(listing, page, perPage), |listing|)
  }

  function Paginated(ms: seq<Movie>, f: Filters, page: int, perPage: int, p: Prims): (r: PageResult)
    // the clamped request is echoed in the metadata
    ensures r.meta.page == Max(1, page)
    ensures 1 <= r.meta.perPage <= MaxPerPage
    ensures 1 <= perPage <= MaxPerPage ==> r.meta.perPage == perPage
    ensures perPage < 1 ==> r.meta.perPage == 1
    ensures perPage > MaxPerPage ==> r.meta.perPage == MaxPerPage
    ensures r.meta.total == |Filter(HydrateAll(ms, p), f, p.lower)|
    ensures r.meta.totalPages == CeilDiv(r.meta.total, r.meta.perPage)
  {
    var page' := Max(1, page);
    var perPage' := Clamp(perPage, 1, MaxPerPage);
    var result := FromSeed(ms, f, page', perPage', p);
    PageResult(result.data, Meta(page', perPage', result.total, CeilDiv(result.total, perPage')))
  }

  /** total_pages = ceil(total / per_page): the fewest pages that hold every match. */
  lemma PaginatedPageCount(ms: seq<Movie>, f: Filters, page: int, perPage: int, p: Prims)
    ensures var m := Paginated(ms, f, page, perPage, p).meta;
            (m.totalPages - 1) * m.perPage < m.total <= m.totalPages * m.perPage || (m.total == 0 && m.totalPages == 0)
  {
    CountedPages(Paginated(ms, f, page, perPage, p).meta);
  }

  /** Page metadata whose page count is ceil(total / per_page) has just enough pages. */
  lemma CountedPages(m: Meta)
    requires m.perPage >= 1 && m.totalPages == CeilDiv(m.total, m.perPage)
    ensures (m.totalPages - 1) * m.perPage < m.total <= m.totalPages * m.perPage || (m.total == 0 && m.totalPages == 0)
  {
    CeilDivExact(m.total, m.perPage);
  }

  /** The page holds min(per_page, total - (page-1)*per_page) movies, none past the end. */
  lemma PaginatedLength(ms: seq<Movie>, f: Filters, page: int, perPage: int, p: Prims)
    ensures var r := Paginated(ms, f, page, perPage, p);
            |r.data| == Min(r.meta.perPage, Max(0, r.meta.total - (r.meta.page - 1) * r.meta.perPage))
  {
    var page', perPage' := Max(1, page), Clamp(perPage, 1, MaxPerPage);
    var result := FromSeed(ms, f, page', perPage', p);
    var r := Paginated(ms, f, page, perPage, p);
    assert r.data == result.data;
    assert r.meta.page == page' && r.meta.perPage == perPage' && r.meta.total == result.total;
  }

  /** Every movie of a page is hydrated and matches the filters, and the page is sorted by year, newest first, then by title. */
  lemma PaginatedMatches(ms: seq<Movie>, f: Filters, page: int, perPage: int, p: Prims)
    ensures var r := Paginated(ms, f, page, perPage, p);
            (forall m :: m in r.data ==> Hydrated(m) && Passes(f, m, p.lower)) && Sorted(r.data, MovieLe)
  {
  }

  /** An in-range request returns chunk page - 1 of the listing and counts the chunks. */
  lemma PaginatedIsChunk(ms: seq<Movie>, f: Filters, page: int, perPage: int, p: Prims)
    requires 1 <= perPage <= MaxPerPage && page >= 1
    ensures Paginated(ms, f, page, perPage, p).data == PageChunk(Listing(ms, f, p), page, perPage)
    ensures Paginated(ms, f, page, perPage, p).meta.totalPages == |Chunks(Listing(ms, f, p), perPage)|
  {
  }

  /** Pages 1 .. total_pages are the chunks of the listing, in order. */
  lemma PagesAreChunks(ms: seq<Movie>, f: Filters, perPage: int, p: Prims)
    requires 1 <= perPage <= MaxPerPage
    ensures var n := Paginated(ms, f, 1, perPage, p).meta.totalPages;
            seq(n, i requires 0 <= i < n => Paginated(ms, f, i + 1, perPage, p).data) == Chunks(Listing(ms, f, p), perPage)
  {
    PaginatedIsChunk(ms, f, 1, perPage, p);
    forall i | 1 <= i <= Paginated(ms, f, 1, perPage, p).meta.totalPages
      ensures Paginated(ms, f, i, perPage, p).data == Chunks(Listing(ms, f, p), perPage)[i - 1]
    {
      PaginatedIsChunk(ms, f, i, perPage, p);
    }
  }

  /** Reading pages 1 .. total_pages in order reproduces the whole sorted listing: nothing lost, nothing repeated. */
  lemma AllPagesReproduceListing(ms: seq<Movie>, f: Filters, perPage: int, p: Prims)
    requires 1 <= perPage <= MaxPerPage
    ensures var n := Paginated(ms, f, 1, perPage, p).meta.totalPages;
            Flatten(seq(n, i requires 0 <= i < n => Paginated(ms, f, i + 1, perPage, p).data)) == Listing(ms, f, p)
  {
    PagesAreChunks(ms, f, perPage, p);
    FlattenChunks(Listing(ms, f, p), perPage);
  }

  // ---------------------------------------------------------------------------
  // Lookups (movies_find, movies_find_by_slug)

  /** The seed branch of movies_find: the first movie with the id, hydrated, or null. */
  method Find(ms: seq<Movie>, id: int, p: Prims) returns (r: Option<Movie>)
    ensures r.None? <==> forall m :: m in ms ==> m.id != id
    ensures r.Some? ==> exists k :: 0 <= k < |ms| && ms[k].id == id && r.value == Hydrate(ms[k], p)
                                    && forall j :: 0 <= j < k ==> ms[j].id != id
  {
    var i := 0;
    while i < |ms|
      invariant 0 <= i <= |ms|
      invariant forall j :: 0 <= j < i ==> ms[j].id != id
    {
      if ms[i].id == id {
        return Some(Hydrate(ms[i], p));
      }
      i := i + 1;
    }
    return None;
  }

  /** The seed branch of movies_find_by_slug: the first movie with the slug, hydrated, or null. */
  method FindBySlug(ms: seq<Movie>, slug: string, p: Prims) returns (r: Option<Movie>)
    ensures r.None? <==> forall m :: m in ms ==> m.slug != slug
    ensures r.Some? ==> exists k :: 0 <= k < |ms| && ms[k].slug == slug && r.value == Hydrate(ms[k], p)
                                    && forall j :: 0 <= j < k ==> ms[j].slug != slug
  {
    var i := 0;
    while i < |ms|
      invariant 0 <= i <= |ms|
      invariant forall j :: 0 <= j < i ==> ms[j].slug != slug
    {
      if ms[i].slug == slug {
        return Some(Hydrate(ms[i], p));
      }
      i := i + 1;
    }
    return None;
  }

  // ---------------------------------------------------------------------------
  // movies_count, movies_recent, movies_distinct_genres

  function Count(ms: seq<Movie>, f: Filters, p: Prims): (n: nat)
    ensures n == |Filter(HydrateAll(ms, p), f, p.lower)|
  {
    FromSeed(ms, f, 1, PhpIntMax, p).total
  }

  function UpdatedKey(m: Movie): string {
    m.updatedAt.GetOr("")
  }

  /** a comes no later than b when a was updated at or after b. */
  predicate RecentLe(a: Movie, b: Movie) {
    LexLe(UpdatedKey(b), UpdatedKey(a))
  }

  lemma RecentLeTotalPreorder()
    ensures TotalPreorder(RecentLe)
  {
    forall a: Movie, b: Movie ensures RecentLe(a, b) || RecentLe(b, a) {
      LexLeTotal(UpdatedKey(a), UpdatedKey(b));
    }
    forall a: Movie, b: Movie, c: Movie | RecentLe(a, b) && RecentLe(b, c) ensures RecentLe(a, c) {
      LexLeTransitive(UpdatedKey(c), UpdatedKey(b), UpdatedKey(a));
    }
  }

  function Recent(ms: seq<Movie>, limit: int, p: Prims): (r: seq<Movie>)
    ensures |r| == Min(Max(1, limit), |ms|)
    ensures Sorted(r, RecentLe)
    ensures multiset(r) <= multiset(HydrateAll(ms, p))
    ensures forall m :: m in r ==> Hydrated(m)
    // the most recent: every movie left out was updated no later than every movie kept
    ensures forall a, b :: a in r && b in multiset(HydrateAll(ms, p)) - multiset(r) ==> RecentLe(a, b)
  {
    var n := Max(1, limit);
    var all := HydrateAll(ms, p);
    var sorted := SortBy(all, RecentLe);
    RecentLeTotalPreorder();
    SortBySorted(all, RecentLe);
    var cut := Min(n, |sorted|);
    SortedSlice(sorted, 0, cut, RecentLe);
    SortedPrefixFirst(sorted, cut, RecentLe);
    assert forall m :: m in sorted ==> m in multiset(all);
    sorted[..cut]
  }

  /** Each value of r occurs in it exactly once. */
  predicate Distinct(r: seq<string>) {
    forall x :: x in r ==> multiset(r)[x] == 1
  }

  /** `array_unique`: the first occurrence of each value, in order (values in seen are dropped). */
  function UniqueFrom(xs: seq<string>, seen: set<string>): (r: seq<string>)
    ensures forall x :: x in r <==> x in xs && x !in seen
    ensures Distinct(r)
  {
    if xs == [] then []
    else if xs[0] in seen then UniqueFrom(xs[1..], seen)
    else
      var rest := UniqueFrom(xs[1..], seen + {xs[0]});
      assert xs[0] !in rest;
      [xs[0]] + rest
  }

  /** Every `genres` entry of every movie, in order (`array_merge(...$all)`). */
  function AllGenres(ms: seq<Movie>): (r: seq<string>)
    ensures forall g :: g in r <==> exists m :: m in ms && g in GenreList(m)
  {
    if ms == [] then []
    else
      assert forall m :: m in ms <==> m == ms[0] || m in ms[1..];
      GenreList(ms[0]) + AllGenres(ms[1..])
  }

  /**
   * The seed branch of movies_distinct_genres: every `genres` entry of every
   * movie, once each, sorted by the natural case-insensitive order `natLe`.
   */
  function DistinctGenres(ms: seq<Movie>, natLe: (string, string) -> bool): (r: seq<string>)
    ensures forall g :: g in r <==> exists m :: m in ms && g in GenreList(m)
    ensures Distinct(r)
    ensures multiset(r) == multiset(UniqueFrom(AllGenres(ms), {}))
  {
    var unique := UniqueFrom(AllGenres(ms), {});
    var r := SortBy(unique, natLe);
    DistinctPermutation(unique, r);
    r
  }

  /** A reordering of a sequence without repeats has the same members and no repeats. */
  lemma DistinctPermutation(a: seq<string>, b: seq<string>)
    requires Distinct(a) && multiset(a) == multiset(b)
    ensures Distinct(b) && forall x :: x in b <==> x in a
  {
    assert forall x :: x in b <==> x in multiset(b);
    assert forall x :: x in a <==> x in multiset(a);
  }

  /** If natLe is a total preorder, the distinct genres are sorted by it. */
  lemma DistinctGenresSorted(ms: seq<Movie>, natLe: (string, string) -> bool)
    requires TotalPreorder(natLe)
    ensures Sorted(DistinctGenres(ms, natLe), natLe)
  {
    SortBySorted(UniqueFrom(AllGenres(ms), {}), natLe);
  }

  // ---------------------------------------------------------------------------
  // movies_build_where (database branch: the clauses and bound parameters)

  datatype SqlParam = PStr(s: string) | PInt(n: int)

  /** The named placeholders a WHERE clause binds; `Name` is the text after the colon. */
  datatype Placeholder = Search | Genre | GenreJson | Year {
    function Name(): string {
      match this
      case Search => "search"
      case Genre => "genre"
      case GenreJson => "genre_json"
      case Year => "year"
    }
  }

  const SearchClause: string := "(title LIKE :search OR summary LIKE :search)"
  const GenreClause: string := "(genre = :genre OR JSON_CONTAINS(genres, :genre_json))"
  const YearClause: string := "year = :year"

  /** The clauses, in the order the supplied filters are checked. */
  function WhereClauses(f: Filters): seq<string> {
    (if !EmptyOpt(f.search) then [SearchClause] else [])
    + (if !EmptyOpt(f.genre) then [GenreClause] else [])
    + (if !EmptyOpt(f.year) then [YearClause] else [])
  }

  method BuildWhere(f: Filters, jsonEncode: string -> string) returns (where: string, params: map<Placeholder, SqlParam>)
    ensures where == "" <==> EmptyOpt(f.search) && EmptyOpt(f.genre) && EmptyOpt(f.year)
    ensures where != "" ==> where == "WHERE " + Join(WhereClauses(f), " AND ")
    ensures Search in params <==> !EmptyOpt(f.search)
    ensures Search in params ==> params[Search] == PStr("%" + f.search.value + "%")
    ensures Genre in params <==> !EmptyOpt(f.genre)
    ensures GenreJson in params <==> !EmptyOpt(f.genre)
    ensures Genre in params ==> params[Genre] == PStr(f.genre.value) && params[GenreJson] == PStr(jsonEncode(f.genre.value))
    ensures Year in params <==> !EmptyOpt(f.year)
    ensures Year in params ==> params[Year] == PInt(ToInt(f.year.value))
  {
    var hasSearch, hasGenre, hasYear := !EmptyOpt(f.search), !EmptyOpt(f.genre), !EmptyOpt(f.year);
    var clauses: seq<string> := [];
    params := map[];
    if hasSearch {
      clauses := clauses + [SearchClause];
      params := params[Search := PStr("%" + f.search.value + "%")];
    }
    assert clauses == if hasSearch then [SearchClause] else [];
    if hasGenre {
      clauses := clauses + [GenreClause];
      params := params[Genre := PStr(f.genre.value)];
      params := params[GenreJson := PStr(jsonEncode(f.genre.value))];
    }
    if hasYear {
      clauses := clauses + [YearClause];
      params := params[Year := PInt(ToInt(f.year.value))];
    }
    assert clauses == WhereClauses(f);
    if clauses == [] {
      where := "";
    } else {
      where := "WHERE " + Join(clauses, " AND ");
      assert where[0] == 'W';
    }
  }
}
