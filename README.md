# Filmoteca in Dafny

Filmoteca is a small PHP movie catalogue: listing and detail pages, a JSON
API, an admin area for CSV import and poster upload, enrichment from TMDb
(The Movie Database), a file-per-key TTL cache, a fixed-window rate limiter
on the public movies endpoint, a sitemap, two command-line scripts (TMDb
sync and database migrations) and the page script that drives the theme
switch, the navigation burger, live search and the watchlist.

This project models that core, one Dafny module per source file, and
proves what each part promises:

- `Movies` (movies.php): hydrating a row, poster URLs, filtering, sorting,
  pagination (pages are chunks of the sorted, filtered catalogue and
  together reproduce it), find by id or slug, recent movies and the
  distinct, sorted genres.
- `Cache` (lib/cache.php): a `FileCache` class over a map of files with
  expiry; a value written is read back until it expires.
- `Url`, `Env`, `Http`, `Seo`, `Tmdb`, `Images`, `Auth` (lib/): base path
  and canonical URLs, `.env` loading, headers and JSON responses, SEO
  metadata, the cached TMDb client, image variants and srcsets, login and
  single-use CSRF tokens.
- `Index`, `Film`, `Trailers`, `ApiMovie`, `ApiMovies`, `Sitemap`: the
  pages, the detail and listing API (with its rate limiter) and the
  sitemap, each as a request handler over the modelled state.
- `ImportCsv`, `UploadPoster` (admin/): CSV import into the catalogue and
  poster upload with variant generation.
- `TmdbSync`, `RunMigrations` (scripts/cli/): the sync loop and its
  counters and exit code (both as intended and as written, where a
  rejected update throws and ends the script), and the statement splitter
  and runner.
- `MainJs` (assets/js/main.js): the page's state as a `Page` class, with
  the HTML escaper proved inverse to decoding.
- Shared modules: `Wrappers` (Option, integer helpers), `Strings` (PHP
  trimming, `empty()`, the `(int)` cast, split and join), `Query` (PHP
  string-keyed arrays), `Json` (decoded JSON values) and `Sorting` (stable
  insertion sort, used where PHP's `usort` orders movies and genres).

The clock, randomness, hashing, the file system, the database, HTTP and
image libraries are parameters of the operations that use them (functions
or plain values), so every result is stated for every behaviour of those
collaborators.

## Model

| member | source | states |
|---|---|---|
| Url.BasePath | lib/url.php:14-30 | a trimmed APP_BASE_PATH wins as '/'+path; otherwise the path of a truthy, parsable APP_URL that is neither '' nor '/'; otherwise ''; the result is '' or starts with '/' |
| Url.AppUrlPath | lib/url.php:20-26 | a path is taken from APP_URL exactly when APP_URL is truthy, parses, and has a path other than '' and '/' |
| Url.HostUrl | lib/url.php:40-57 | '' for an empty APP_URL; APP_URL without trailing '/' when it does not parse or has no host; else scheme (default http), '://', host and ':port' when present |
| Url.CollapseSlashes | lib/url.php:69 | equals SurplusDropped: exactly the '/' that follow another '/' are removed, every other character stays in order; so no "//" remains, the length never grows, the first and last characters are kept |
| Url.SurplusDroppedFront | lib/url.php:69 | the reference SurplusDropped, built from the end, unfolds from the front as the collapse does |
| Url.CollapseSlashesNoop | lib/url.php:69 | collapsing a string without "//" leaves it unchanged |
| Url.AppPath | lib/url.php:60-75 | never ''; an empty path gives the base, or "/" without one; a clean base ("" or "/seg…" without "//" or trailing '/') and a path of segments give exactly base + '/' + path without its leading '/'; otherwise no "//", no trailing '/' except for "/" itself, and a leading '/' |
| Url.Combine | lib/url.php:63-69 | non-empty, no "//", starts with '/' or with the base; for a clean base and path it is exactly base + '/' + path without its leading slashes |
| Url.DropTrailingSlash | lib/url.php:70-74 | a string without trailing '/' (or "/" itself) is unchanged; otherwise exactly its final '/' goes; the result has no trailing '/' except "/" |
| Url.AppPathTrailingSlash | lib/url.php:70-72 | a clean path with one trailing '/' gives the same app path as without it |
| Url.CleanJoinKept | lib/url.php:69 | a clean base joined to a clean path by '/' has nothing to collapse |
| Url.LeadingSlashesIgnored | lib/url.php:63 | a leading '/' on a non-empty path does not change app_path |
| Url.AppUrl | lib/url.php:77-94 | relative path unless absolute with a host; host + '/' for the root; else the host without trailing '/' followed by the path |
| Url.AssetUrl | lib/url.php:96-99 | the app URL of "assets/" + path without leading slashes; for a clean base and asset path exactly the host without trailing '/' (absolute with a host) or nothing, then base + "/assets", then '/' + path when the path is not empty |
| Url.AssetPathExact | lib/url.php:96-99 | under a clean base the asset path is base + "/assets", then '/' + the asset path when there is one |
| Url.AssetLeadingSlashIgnored | lib/url.php:98 | leading slashes of an asset path do not change the URL |
| Url.UrlConfig.constructor | lib/url.php:9 | both memos start empty, for the given environment |
| Url.UrlConfig.AppBasePath | lib/url.php:7-31 | returns BasePath of the environment, remembers it, and keeps the host memo |
| Url.UrlConfig.AppHostUrl | lib/url.php:33-58 | returns HostUrl of the environment, remembers it, and keeps the base-path memo |
| Url.UrlConfig.Url | lib/url.php:77-94 | app_url through the memos equals AppUrl of the computed base path and host |
| Env.ParseLine | lib/env.php:23-33 | blank and '#' lines are skipped; a parsed key is never empty and holds no '=' (split at the first '=') |
| Env.ParseLineSplit | lib/env.php:22-33 | a line key=raw with a clean key and a raw value without blanks at its ends gives the key and the raw value stripped of surrounding quote characters |
| Env.ParseLineQuoted | lib/env.php:26-29 | key="value" and key='value' give the value without its quotes |
| Env.ParseLineNoEquals | lib/env.php:26-31 | a non-blank, non-comment line without '=' gives the trimmed line as key and the empty value |
| Env.ParseLineOf | lib/env.php:23-33 | a line key=value, with a clean key and an unquoted, untrimmed-clean value (which may hold '='), parses back to exactly that key and value |
| Env.ParseAll | lib/env.php:22-23 | one parsed entry per line, in order |
| Env.LastLineWins | lib/env.php:38 | a key is loaded exactly when some line has it, and its loaded value is the one on the last such line |
| Env.FirstLineExported | lib/env.php:34-37 | a key is exported exactly when it was not defined before and the file has it, with the value of its first line |
| Env.Step | lib/env.php:34-38 | one more line: a skipped line changes nothing; a pair overwrites the loaded key and is exported only if the key is neither defined nor exported yet |
| Env.ReadStep | lib/env.php:34-38 | the same step seen on the process environment and `$_ENV` with what was exported so far |
| Env.FillMissing | lib/env.php:43-53 | the keys of both maps; an existing key keeps its value, a missing one takes the source's |
| Env.StringValued | lib/env.php:50 | exactly the `$_SERVER` entries whose value is a string |
| Env.LoadedPrecedence | lib/env.php:17-55 | the loaded map takes the file first, then `$_ENV` as it was before loading, then string `$_SERVER` values; values the file exported never show through |
| Env.ReadLines | lib/env.php:19-41 | the loop yields the file's last-wins map and adds to the process environment and `$_ENV` exactly the first-line values of keys neither held |
| Env.Environment.constructor | lib/env.php:10 | the memo starts empty; process environment, `$_ENV`, `$_SERVER` and file as given |
| Env.Environment.Load | lib/env.php:8-56 | the first call exports the file's new keys to both environments and returns and remembers the loaded map; later calls return the memo and change nothing |
| Env.Environment.Get | lib/env.php:61-75 | the loaded value when the key is loaded, else the process environment's, else the default |
| Cache.SlotOf | lib/cache.php:11-19 | a file is named by the namespace without surrounding '/' and the sha1 of the key |
| Cache.ExpiresAt | lib/cache.php:45 | now + ttl for a positive ttl, otherwise 0 (never expires) |
| Cache.Record | lib/cache.php:47-51 | the payload written is an object of exactly value, expires_at and stored_at, with the computed expiry |
| Cache.ReadSlot | lib/cache.php:21-40 | a miss (null) for a missing or unreadable file, a payload that is not an array or lacks expires_at, or a non-zero expiry before now; else the stored value, null when absent |
| Cache.AfterRead | lib/cache.php:35-36 | a read deletes only its own slot and only when that entry has expired; every other file stays |
| Cache.GetAfterSet | lib/cache.php:42-60 | a read after a write returns the value written while its ttl has not run out (or for ttl <= 0) |
| Cache.GetAfterExpiry | lib/cache.php:35-38 | once a positive ttl has run out, the read is a miss and deletes the file |
| Cache.OtherSlotsUnaffected | lib/cache.php:11-19 | writing or deleting one slot leaves every other slot's read unchanged |
| Cache.NamespacesIndependent | lib/cache.php:14 | equal keys in namespaces that differ after trimming '/' use different files |
| Cache.FileCache.constructor | lib/cache.php:9 | a cache over the given files and hash |
| Cache.FileCache.Get | lib/cache.php:21-40 | cache_get returns ReadSlot of the files before the call and leaves AfterRead |
| Cache.FileCache.Set | lib/cache.php:42-60 | cache_set overwrites exactly the key's slot with the record |
| Cache.FileCache.Forget | lib/cache.php:62-68 | cache_forget removes exactly the key's slot |
| Http.OriginAllowed | lib/http.php:39-51 | no Origin header or an empty allow-list refuses; a "*" entry admits any present origin; otherwise the origin is admitted exactly when it is listed |
| Http.Merge | lib/http.php:22 | array_merge keeps keys unique and the base keys first, in their order |
| Http.MergeLookup | lib/http.php:22 | after the merge a key reads as in the overriding headers when present there, otherwise as in the defaults |
| Http.MergeLookupAll | lib/http.php:22 | the same override rule for every key at once |
| Http.DefaultHeaders | lib/http.php:16-20 | the defaults are Content-Type, Cache-Control and ETag, each once |
| Http.JsonResponse | lib/http.php:5-37 | an encoding failure is a 500 with the fixed error body and only Content-Type; otherwise caller headers override the defaults, every default key is still sent, and the reply is a bodiless 304 exactly when the trimmed If-None-Match equals the weak ETag, else the given status with the encoded body |
| Http.NotModifiedKeepsHeaders | lib/http.php:24-30 | a matching conditional request gets the very headers of the full response, status 304 and no body |
| Http.Output.constructor | lib/http.php:32 | nothing sent yet: status 200, no header lines, empty body |
| Http.Output.Emit | lib/http.php:26-36 | the status is set, one header line per pair is appended in order after the earlier ones, and the body is echoed only when present |
| Auth.CredentialsOf | lib/auth.php:33-35 | the user name is ADMIN_USERNAME when set, else ADMIN_USER; hash and plaintext password are taken as configured |
| Auth.NoUserNoLogin | lib/auth.php:37-39 | with no configured user name (unset, "" or "0") nobody logs in |
| Auth.OnlyConfiguredUser | lib/auth.php:41-43 | a successful login was made with exactly the configured, non-empty user name |
| Auth.HashTakesPrecedence | lib/auth.php:46-47 | with a hash configured the plaintext password is irrelevant and login succeeds exactly when the user matches and password_verify accepts |
| Auth.PlainPassword | lib/auth.php:48-50 | without a hash, login succeeds exactly when the user matches and the non-empty plaintext password equals the configured one; with neither nobody logs in |
| Auth.Issue | lib/auth.php:88-95 | a form with a non-empty token keeps it and nothing changes; otherwise the new token is stored for that form only; other forms' tokens are untouched |
| Auth.Consume | lib/auth.php:101-113 | accepted exactly when a non-empty token equals the form's stored one; acceptance removes only that form's token, refusal changes nothing |
| Auth.IssueIdempotent | lib/auth.php:89-91 | asking for a form's token twice returns the same token and stores nothing new |
| Auth.TokensStayValid | lib/auth.php:92-94 | issuing and consuming keep every stored token a 64-digit lower-case hex string |
| Auth.IssuedIsAccepted | lib/auth.php:85-113 | a token handed out for a form is accepted for that form, and is then spent |
| Auth.ReplayRefused | lib/auth.php:108-112 | a token that was accepted is refused when replayed |
| Auth.Session.constructor | lib/auth.php:12-27 | a new session has no admin and no CSRF tokens |
| Auth.Session.Login | lib/auth.php:29-62 | succeeds exactly when the credentials authenticate; then the admin record holds the user name and the time; a failure leaves the session as it was |
| Auth.Session.Logout | lib/auth.php:64-69 | nobody is logged in afterwards, the session id is the new one, and the CSRF tokens stay |
| Auth.Session.RequireRedirect | lib/auth.php:77-83 | no redirect exactly when logged in; otherwise the redirect is to the login page under the base path |
| Auth.Session.Token | lib/auth.php:85-96 | returns and stores what Issue gives for the old tokens; the login state is untouched |
| Auth.Session.Verify | lib/auth.php:98-114 | answers and stores what Consume gives for the old tokens; the login state is untouched |
| Auth.LoginThenLogout | lib/auth.php:29-69 | a login followed by a logout leaves nobody logged in and the tokens as they were |
| Images.DetectExtension | lib/images.php:13-21 | webp, png and gif exactly for their own MIME types, jpg for every other type |
| Images.Aliases | lib/images.php:60-129 | the aliases of the size map, one per entry, in order |
| Images.Variants | lib/images.php:58-134 | the result map built up by the loops has each key once |
| Images.VariantsLookup | lib/images.php:73-77 | every alias maps to its own file, base.alias.ext |
| Images.VariantsBase | lib/images.php:58-128 | `_base` maps to the main file base.ext unless an alias of that name overwrote it |
| Images.VariantsKeys | lib/images.php:40-137 | with distinct aliases other than `_base`, the keys are `_base` followed by the aliases in order |
| Images.WrittenAll | lib/images.php:129-135 | every alias file was written exactly when each alias's path is writable |
| Images.SaveVariants | lib/images.php:32-138 | a result exactly when the upload is non-empty, decodes when a library is used, and every file (main and variants) is written; that result is the full variant map with webp extensions under a library and jpg without |
| Images.WriteVariants | lib/images.php:99-122 | stops with no result at the first variant that cannot be written; otherwise returns the full variant map |
| Images.Srcset | lib/images.php:144-153 | one srcset entry per variant |
| Images.SrcsetAt | lib/images.php:145-152 | entry i carries variant i's alias and the URL of variant i's path |
| Images.SourceBelowRoot | lib/images.php:146-150 | a file below the document root is served at its path relative to that root, without leading '/', under the app URL |
| Images.GenerateSrcset | lib/images.php:140-154 | the loop builds exactly the srcset of the variants for the normalised document root |
| Images.EntryUrl | lib/images.php:146-150 | one path's URL: '\' made '/', the root removed, leading '/' trimmed, then made absolute |
| Tmdb.CacheTtl | lib/tmdb.php:11-14 | the configured TTL cast to int, 86400 when unset |
| Tmdb.QueryParams | lib/tmdb.php:38-41 | for a v3 call with an API key, `api_key` comes first (a caller's own `api_key` value wins) followed by the other parameters in order; every other key reads as the caller gave it; otherwise the parameters are unchanged |
| Tmdb.RequestUrl | lib/tmdb.php:43-45 | a query string is appended exactly when there are parameters |
| Tmdb.Headers | lib/tmdb.php:47-54 | Accept first, then User-Agent, then an `Authorization: Bearer` line exactly when a read token is configured |
| Tmdb.Accepted | lib/tmdb.php:69-82 | a body is kept exactly when there was no transport error, the status is below 400 and the body is an array |
| Tmdb.RequestSpec | lib/tmdb.php:16-87 | with no credentials, or a v4 call without a read token, null with no cache or network access; a cache hit under `method:url:json(params)` is returned without a request; a miss sends exactly one request, and only an accepted body is cached with the TMDb TTL and returned, else null with nothing cached |
| Tmdb.SecondCallServedFromCache | lib/tmdb.php:32-84 | after a successful call, the same call while the entry is fresh is answered from the cache with the same value and sends nothing |
| Tmdb.Client.constructor | lib/tmdb.php:16 | the client holds the configuration, the cache, the encoder and the transport it is given |
| Tmdb.Client.Call | lib/tmdb.php:16-87 | returns, sends and leaves in the cache exactly what RequestSpec prescribes for the cache files before the call |
| Tmdb.Client.Configuration | lib/tmdb.php:89-92 | a GET of /configuration without parameters, as RequestSpec prescribes |
| Tmdb.Client.GetMovie | lib/tmdb.php:103-110 | a GET of /movie/<id> with the append parameters, as RequestSpec prescribes |
| Tmdb.MoviePath | lib/tmdb.php:109 | "/movie/" followed by the decimal id |
| Tmdb.MovieParams | lib/tmdb.php:105-108 | `append_to_response` is the only parameter, and is sent exactly when the append list is non-empty |
| Tmdb.PosterUrl | lib/tmdb.php:117-128 | none for an empty path or a configuration without a non-empty `secure_base_url` string; otherwise the base without trailing '/', then '/', the size and the path |
| Movies.FilmPath | film.php:27 | a movie's page path starts with /film/ and ends with its slug |
| Movies.FilmUrl | sitemap.php:33 | the absolute page URL is APP_URL without trailing '/', then /film/, ending with the slug |
| Movies.Hydrate | movies.php:283-301 | only cast, genres and poster change; decoded lists are kept, JSON text is decoded and text that is not a list becomes []; absent genres fall back to [genre]; the poster alt is the title plus " poster" |
| Movies.HydrateAll | movies.php:181 | one hydrated movie per stored row, in the same order |
| Movies.HydrateIdempotentOnLists | movies.php:285-296 | hydrating a hydrated movie decodes nothing more: its lists stay as they are |
| Movies.GenreHaystackMembers | movies.php:191-195 | the genre haystack holds exactly the lower-cased genres entries and the lower-cased primary genre |
| Movies.PassesIffAllFilters | movies.php:183-202 | the callback's single flag is exactly the conjunction of the search, genre and year filters, each admitting every movie when absent or empty |
| Movies.Filter | movies.php:183-202 | keeps exactly the movies that pass |
| Movies.FilterSubMultiset | movies.php:183-202 | each movie is kept at most as often as it occurs: filtering only removes |
| Movies.FilterAppend | movies.php:183-202 | filtering a concatenation is the concatenation of the filtered parts: the stored order of the movies is kept |
| Movies.FilterSingle | movies.php:183-202 | a single movie is kept exactly when it passes |
| Movies.MovieLeTotalPreorder | movies.php:204-206 | year descending, then title ascending, is a total preorder |
| Movies.Listing | movies.php:181-206 | the matching hydrated movies sorted by year descending then title: a permutation of the filtered movies, holding exactly those that pass |
| Movies.CeilDivStep | movies.php:209 | taking one full chunk off more than a chunk's worth removes one page |
| Movies.CeilDivOne | movies.php:209 | between one and a chunk's worth of items fill exactly one page |
| Movies.Chunks | movies.php:209 | array_chunk gives ceil(n / k) chunks |
| Movies.ChunkAt | movies.php:209 | chunk i is the slice from i*k up to the smaller of n and i*k + k |
| Movies.FlattenChunks | movies.php:209 | concatenating the chunks in order gives back the whole sequence |
| Movies.PageChunkSlice | movies.php:209-211 | page p is the slice starting at (p-1)*k, of length min(k, n - (p-1)*k), empty past the end |
| Movies.PageChunkSortedSubset | movies.php:209-211 | a page of a sorted listing is sorted and holds only listing elements |
| Movies.CeilDivExact | movies.php:226 | ceil(n / k) pages are enough for n items and one fewer is not |
| Movies.FromSeed | movies.php:179-217 | the total counts every match whatever the page; the page holds min(per_page, total - (page-1)*per_page) hydrated, matching movies sorted by year, newest first, then by title |
| Movies.Paginated | movies.php:219-237 | page is at least 1, per_page is clamped to 1..60, total counts every match and total_pages is ceil(total / per_page) |
| Movies.PaginatedPageCount | movies.php:226 | total_pages is the fewest pages that hold every match |
| Movies.CountedPages | movies.php:226 | page metadata counted by ceil(total / per_page) has just enough pages |
| Movies.PaginatedLength | movies.php:208-229 | the page returned holds min(per_page, total - (page-1)*per_page) movies, none past the end |
| Movies.PaginatedMatches | movies.php:181-211 | every movie on a page is hydrated and passes the filters, and the page is sorted by year, newest first, then by title |
| Movies.PaginatedIsChunk | movies.php:209-226 | an in-range request returns chunk page-1 of the sorted listing, and total_pages is the number of chunks |
| Movies.PagesAreChunks | movies.php:209-226 | pages 1..total_pages are the chunks of the listing, in order |
| Movies.AllPagesReproduceListing | movies.php:179-237 | reading pages 1..total_pages in order gives back the whole sorted listing: nothing lost, nothing repeated |
| Movies.Find | movies.php:253-258 | null exactly when no movie has the id; otherwise the hydrated first movie with that id |
| Movies.FindBySlug | movies.php:275-280 | null exactly when no movie has the slug; otherwise the hydrated first movie with that slug |
| Movies.Count | movies.php:354-355 | the number of hydrated movies that pass the filters |
| Movies.RecentLeTotalPreorder | movies.php:395 | most recently updated first (a missing updated_at as "") is a total preorder |
| Movies.Recent | movies.php:383-397 | min(max(1, limit), n) hydrated movies taken from the catalogue, most recently updated first, and none left out was updated later than one kept |
| Movies.UniqueFrom | movies.php:378 | array_unique keeps each value once, and every value of the input |
| Movies.AllGenres | movies.php:376-377 | the merged list holds exactly the genres entries of all movies |
| Movies.DistinctGenres | movies.php:376-380 | every genre of every movie, once each, a reordering of array_unique's result |
| Movies.DistinctPermutation | movies.php:378-379 | sorting a list without repeats keeps its members and adds no repeats |
| Movies.DistinctGenresSorted | movies.php:379 | the distinct genres are sorted by the natural case-insensitive order, given that it is a total preorder |
| Movies.BuildWhere | movies.php:155-177 | no WHERE exactly when no filter is supplied; otherwise WHERE and the clauses of the supplied filters joined by AND in order; each placeholder is bound exactly when its filter is supplied, to %search%, the genre and its JSON, or the integer year |
| Index.NormalBase | index.php:194-197 | the base path always starts with '/': '' reads as '/', a missing leading '/' is added, any other base is kept |
| Index.RoutePath | index.php:192-205 | page 1 and below is the base itself; a later page adds /page/n, directly after the root or after the base otherwise; the result starts with '/' |
| Index.PageUrl | index.php:181-190 | the route path, with a query string exactly when some parameter is kept |
| Index.PageQueryContents | index.php:183-188 | the query keeps every non-null, non-empty parameter except `page`, and except `genre` under a genre route, and nothing else |
| Index.Run | index.php:17-42 | the longest prefix whose characters all belong to the class: every character in it does, the next one does not |
| Index.RunOf | index.php:17-42 | a class-only prefix followed by a character outside the class is exactly the run |
| Index.MatchFilm | index.php:17 | a match means the path starts with /film/, the id is a non-empty digit run and the rest holds no newline |
| Index.MatchPage | index.php:38 | a match yields a non-empty digit run |
| Index.MatchGenre | index.php:42 | a match yields a non-empty slug of word characters and '-', and a non-empty digit run when the page part is there |
| Index.FilmPatternMatches | index.php:17 | "/film/" + digits + "/" + a one-line slug matches, giving back the digits and the slug |
| Index.FilmRouteMatches | index.php:17 | the film path of a movie with a non-negative id and a one-line slug routes back to that id and slug |
| Index.PageRouteMatches | index.php:192-205 | the route path of page n > 1 (up to PHP_INT_MAX) is routed back to page n |
| Index.GenrePagePatternMatches | index.php:42-47 | "/genere/" + slug + "/page/" + digits matches with both parts |
| Index.GenreBarePatternMatches | index.php:42-44 | "/genere/" + slug alone matches without a page part |
| Index.GenreRouteMatches | index.php:192-205 | the route path of a genre slug gives back the slug, and the page when it is above 1 |
| Index.NormalUri | index.php:10-15 | the request path is never empty, and is '/' or has no trailing '/' |
| Index.CatalogBase | index.php:70 | the root without a genre filter, else /genere/ and the lower-cased genre with spaces as '-' |
| Index.PageOf | index.php:27-48 | the page is at least 1: from a /page/n route, else from the page part of a genre route, else from ?page |
| Index.RoutesExclusive | index.php:38-42 | no URI matches both the /page/n pattern and the /genere/slug pattern, so at most one of them sets the page |
| Index.GenreOf | index.php:30-44 | a genre route's slug with '-' read as ' ', else the query's genre |
| Index.RedirectBaseOfGenre | index.php:54-57 | a ?page redirect from /genere/slug keeps the genre, except for the slug "0", which PHP reads as false and sends to the root's /page/n |
| Index.Route | index.php:10-70 | film routes and the sitemap dispatch first; a bare /page redirects to the root; ?page above 1 redirects to the canonical route of that page; otherwise the listing uses the page and filters the route and query give, with the route's genre written into the query unless it has one |
| Index.ListingLinks | index.php:84-92 | no links for a single page; prev exactly after page 1 and next exactly before the last page, prev first |
| Index.RelDiffers | index.php:87-90 | a prev link is never a next link |
| Index.LinkHeader | index.php:93-95 | a Link header exactly when there is a link, joining them with ", " |
| Seo.Defaults | lib/seo.php:12-23 | the ten default keys, each once, in the source's order |
| Seo.Merged | lib/seo.php:25 | a key reads as the override when that override is neither null nor '', else as the default |
| Seo.DefaultMeta | lib/seo.php:8-31 | every key but url reads as after the merge; url is the merged url unless that is empty ('' or "0"), then canonical |
| Seo.MergedHasCanonical | lib/seo.php:17-25 | canonical is always present after the merge |
| Seo.DefaultMetaRenderable | lib/seo.php:12-28 | every key the renderer reads is present, so the default meta can always be rendered |
| Seo.MergedOverride | lib/seo.php:25 | an override that is neither null nor '' is the merged value of its key |
| Seo.OverrideWins | lib/seo.php:25-28 | an override that is neither null nor '' is always the final value (for url, unless it is "0") |
| Seo.MetaTags | lib/seo.php:36-51 | the fifteen tags, in order, each the fixed text around its key's escaped value |
| Seo.LayoutOneLine | lib/seo.php:37-51 | the fixed text of every tag holds no newline |
| Seo.RenderMeta | lib/seo.php:33-54 | the block is the fifteen tags of the layout, in order, joined by newlines, so it starts with the title tag |
| Seo.LayoutKeysRendered | lib/seo.php:36-53 | every tag shows one of the ten keys the renderer requires |
| Seo.RenderMetaOneTagPerLine | lib/seo.php:36-53 | when no rendered value escapes to text with a newline, splitting the block at newlines gives back exactly the fifteen tags |
| Seo.RenderMetaOneLineValues | lib/seo.php:35-53 | with an escaper that adds no newline (as htmlspecialchars) and meta values without newlines, the block is one tag per line |
| Seo.Canonical | lib/seo.php:56-64 | APP_URL without trailing '/', then '/' for an empty path, the path itself when it starts with '/', else '/' and the path |
| Seo.DropEmpty | lib/seo.php:146-168 | keeps exactly the fields that are neither null nor '', unchanged |
| Seo.VideoObject | lib/seo.php:145-153 | a trailer is an object typed VideoObject with no null or '' field |
| Seo.FirstTen | lib/seo.php:133 | array_slice keeps the first min(10, n) names, in order |
| Seo.Actors | lib/seo.php:127-134 | one Person per name among the first ten, in order |
| Seo.Trailers | lib/seo.php:144-154 | one VideoObject per video, in order |
| Seo.CoreFields | lib/seo.php:107-118 | the first ten fields: url is the canonical URL, @id is canonical#movie, datePublished is year-01-01, duration is PT<n>M or null |
| Seo.PutIf | lib/seo.php:120-142 | a conditional assignment adds exactly its key under its condition and changes no other field |
| Seo.ExtraFields | lib/seo.php:120-166 | director exactly when non-empty, actor exactly with a cast, aggregateRating exactly with both rating and count, trailer exactly with videos, potentialAction always; each holds the value built for it |
| Seo.Image | lib/seo.php:114 | the hydrated poster URL when there is one |
| Seo.MovieJsonLd | lib/seo.php:101-169 | an object holding the built fields without those that are null or '' |
| Seo.ExtraKeys | lib/seo.php:120-166 | the fields added later are only director, actor, aggregateRating, trailer and potentialAction |
| Seo.CoreKept | lib/seo.php:107-168 | url, @id, datePublished and duration read as the first ten fields built them |
| Seo.MovieJsonLdIdentity | lib/seo.php:103-111 | the document's url is the film page URL and its @id is that URL followed by #movie |
| Seo.MovieJsonLdDates | lib/seo.php:105-117 | datePublished is January 1st of the year; duration is ISO 8601 minutes, present exactly when the movie has one |
| Seo.MovieJsonLdOptionalFields | lib/seo.php:120-168 | director only when non-empty; actor only with a cast, holding the first ten names; aggregateRating only when rating and count are both non-empty; trailer only with videos, one VideoObject each, in order |
| Seo.ExtraKept | lib/seo.php:168 | an optional field survives the final filter exactly when it was added, unchanged |
| Seo.NotCoreKey | lib/seo.php:107-118 | the optional fields' names are not among the first ten |
| Seo.BreadcrumbJsonLd | lib/seo.php:171-185 | a BreadcrumbList with one item per crumb, positions 1..n in input order, names and items copied |
| Film.SlugAccepted | film.php:18-28 | a stored slug is accepted as requested exactly when trimming keeps it and it is not "0" |
| Film.EmbedsFromTmdb | film.php:33-51 | there are embeds exactly when the movie has a TMDb id and TMDb lists a YouTube video; each embed is named and points at the YouTube embed URL |
| Film.Overrides | film.php:53-60 | the overrides passed to the metadata defaults have each key once |
| Film.CanonicalIsFilmUrl | film.php:27-57 | the canonical address is the movie's own page under APP_URL |
| Film.Crumbs | film.php:64-68 | three crumbs: Home at the root, Catalogo at /page/1, then the movie's title at its page |
| Film.RespondPage | film.php:28-69 | a request under the movie's own slug gets the page, with the embeds TMDb gives |
| Film.OverrideAt | film.php:53-60 | any non-empty override in the list is used by the metadata defaults |
| Film.TitleWins | film.php:54 | the title override wins over the default |
| Film.UrlWins | film.php:57 | the url override wins over the default, unless it is empty |
| Film.CanonicalWins | film.php:58 | the canonical override wins over the default |
| Film.TypeWins | film.php:59 | the og type override wins over the default |
| Film.PageMeta | film.php:53-60 | the page's title is the movie's title with the site suffix, url and canonical are the movie's page URL, and the type is video.movie exactly when there is a trailer |
| Film.PageBreadcrumb | film.php:64-68 | the breadcrumb document lists Home, Catalogo and the movie at positions 1, 2 and 3 with their addresses |
| Film.RedirectSettles | film.php:17-31 | for a slug without surrounding blanks other than "0", the redirect target matches the film route and carries the movie's id and slug, so it is served without another redirect |
| Film.ZeroSlugNeverSettles | film.php:18-30 | a movie whose slug is "0" is redirected from its own canonical address, because the requested slug reads as '' |
| Film.Answer | film.php:27-69 | for a found movie, the redirect when the slug differs, else the page with its trailers collected one by one; never a 404 |
| Film.Serve | film.php:10-69 | a path that is not a film route, or an id no movie has, is a 404 with its message; otherwise the answer for the first movie with that id, hydrated |
| Trailers.EmbedOf | film.php:43-48 | the embed URL is the YouTube embed prefix and the key; a thumbnail exactly when the key is non-empty; the video's name, else the fallback; the publication date copied |
| Trailers.Embeds | film.php:39-49 | no more embeds than videos |
| Trailers.EmbedsAppend | film.php:39-49 | collecting over two lists in turn appends what each contributes |
| Trailers.EmbedsFromYouTube | film.php:40-42 | every embed comes from a YouTube video of the list, and every YouTube video gives one |
| Trailers.NoEmbedsIff | film.php:40-59 | there is no embed exactly when no video is on YouTube |
| Trailers.Collect | film.php:39-49 | the loop collects exactly the embeds of the YouTube videos, in order |
| Trailers.VideoResults | film.php:38-39 | no payload gives no videos |
| ApiMovie.GenresOf | api/movie.php:55 | the primary genre when set, else the genres list when present, else null |
| ApiMovie.TmdbOnlyWhenAsked | api/movie.php:28-69 | TMDb data appears only when asked for and the movie has a TMDb id, and is then TMDb's payload; otherwise the JSON-LD has no trailer |
| ApiMovie.TrailersFromPayload | api/movie.php:34-44 | every trailer is a YouTube video of the payload, carrying its own name or none |
| ApiMovie.HtmlLinkIsFilmPage | api/movie.php:65-67 | links.html is the movie's own page under the base path |
| ApiMovie.DetailHeadersSent | api/movie.php:73-75 | the detail is served with its own Cache-Control and the default Content-Type and ETag |
| ApiMovie.Handle | api/movie.php:14-75 | a 400 exactly when there is neither a positive id nor a slug; a positive id is looked up by id whatever the slug, otherwise by slug; a 404 exactly when no movie matches; else the answer for the first match, hydrated |
| ApiMovie.Respond | api/movie.php:28-71 | the loop over the payload's videos gives exactly the answer for the movie found |
| ApiMovies.RateKey | api/movies.php:9-10 | the client's bucket key is 'movies:' followed by the remote address, 'anonymous' when unknown |
| ApiMovies.StoredBucket | api/movies.php:12-13 | a cached value stands for a bucket exactly when it is an array; a missing or non-integer count or reset reads as 0 |
| ApiMovies.StoredBucketRoundTrip | api/movies.php:12-33 | a bucket written to the cache reads back as the same bucket |
| ApiMovies.Window | api/movies.php:13-15 | a missing bucket, or one whose reset is at or before now, becomes {count 0, reset now+60}; an open one is kept; the window in force always ends after now |
| ApiMovies.Decide | api/movies.php:17-33 | rejected exactly when count is at least 120, with the bucket unchanged and Retry-After max(1, reset-now); otherwise count rises by one, stored with ttl max(1, reset-now) |
| ApiMovies.Serve | api/movies.php:12-33 | a request is admitted exactly when its window's count is below 120; admission stores the incremented bucket, rejection leaves the state as it was |
| ApiMovies.AtMostMaxPerWindow | api/movies.php:13-33 | requests arriving at non-decreasing times add at most 120 minus what the state already spent to any one window, and nothing to a window not yet open that is not the stored one |
| ApiMovies.FreshClientAtMostMax | api/movies.php:13-33 | from an empty cache no window ever admits more than 120 requests |
| ApiMovies.BucketSurvivesCache | api/movies.php:12-33 | a bucket written with ttl max(1, reset-now) and read at any later time yields the same window as the bucket itself, whether or not the entry has expired |
| ApiMovies.RateLimit | api/movies.php:9-33 | the decision is the one for the window read from the cache; a rejection writes nothing, an admission writes the counted bucket back with its ttl |
| ApiMovies.LimitedHeaders | api/movies.php:24-28 | the 429 carries the limit 120, remaining "0" and the bucket's reset, each once |
| ApiMovies.SuccessHeaders | api/movies.php:121-127 | the listing carries the limit 120, the reset, and remaining max(0, 120 - count), read back by `(int)` as that value for every count that is not negative |
| ApiMovies.ParseQuery | api/movies.php:46-55 | page is max(1, ?page); per_page is ?per_page (default 12) clamped to 1..30; search and genre are trimmed; year is passed as given; tmdb is a boolean flag |
| ApiMovies.PaginationEchoesQuery | api/movies.php:46-57 | the API's clamp is within the repository's, so the metadata echoes the requested page and per_page and a page holds at most 30 movies |
| ApiMovies.ToApi | api/movies.php:58-90 | fields are copied from the movie; aggregateRating exactly when rating and rating_count are both non-empty; tmdb exactly when asked for and the movie has a TMDb id, with its id, TMDb page and w500 poster; self is the film page URL |
| ApiMovies.PageQuery | api/movies.php:94-101 | the request's query with page set to n and every other key as given |
| ApiMovies.PageLinks | api/movies.php:94-102 | self is the endpoint with the current page; prev exactly when page > 1 and next exactly when page < total_pages, each with its page number |
| ApiMovies.LinkHeader | api/movies.php:104-113 | a Link header exactly when there is a prev or next link; its value is `<prev>; rel="prev"` alone, `<next>; rel="next"` alone, or both joined by ", " with prev first |
| ApiMovies.JoinEnds | api/movies.php:112 | a joined list starts with its first part and ends with its last |
| ApiMovies.CorsLines | api/movies.php:36-44 | the CORS headers are sent exactly when the request's origin equals scheme://host[:port] of APP_URL |
| ApiMovies.OriginHost | api/movies.php:38 | the derived origin is never empty and never "*" |
| ApiMovies.ApiData | api/movies.php:58-90 | each movie of the page in its API shape, in order |
| ApiMovies.DirectLines | api/movies.php:41-44 | the CORS lines first, then the Link line exactly when there is one |
| ApiMovies.ListReply | api/movies.php:115-127 | the listing is served with the success headers for the counted bucket |
| ApiMovies.ListReplyBody | api/movies.php:57-119 | the listing carries the page's metadata, its movies in API shape, the prev/next links, and a Link header exactly when there are links |
| ApiMovies.LimitedReply | api/movies.php:19-28 | the 429 sends Retry-After first, then the limit headers |
| ApiMovies.Handle | api/movies.php:9-127 | the limiter decides first: a rejected request gets the 429 and the cache only loses the client's slot if it expired; an admitted one gets the listing, and the client's slot then holds the counted bucket with a ttl of max(1, reset - now) |
| ImportCsv.Missing | admin/import_csv.php:38-39 | exactly the required columns (title, slug, year) the header lacks |
| ImportCsv.MissingFrom | admin/import_csv.php:39 | exactly the listed columns the header lacks, in order |
| ImportCsv.Combine | admin/import_csv.php:48 | the combined row has exactly the header's columns |
| ImportCsv.CombineLastWins | admin/import_csv.php:48 | a column named once keeps its own cell; a repeated one keeps the cell of its last occurrence |
| ImportCsv.ListOf | admin/import_csv.php:57-63 | the items are trimmed '|'-separated parts of the column, none of them falsy |
| ImportCsv.ListOfItems | admin/import_csv.php:57-63 | each item holds no '|' and no blank at either end |
| ImportCsv.FilterTruthyKeepsAll | admin/import_csv.php:57-63 | the filter keeps a list whose items are all truthy unchanged |
| ImportCsv.ListOfJoin | admin/import_csv.php:57-63 | items without '|', surrounding blanks or falsy values, joined with '|', are read back as the same list |
| ImportCsv.KeptPositions | admin/import_csv.php:57-63 | array_filter keeps one original position per kept item |
| ImportCsv.GapStoredAsObject | admin/import_csv.php:57-87 | as written, "x&#124;&#124;y" keeps positions 0 and 2, which json_encode writes as an object, not a list |
| ImportCsv.GapDroppedInList | admin/import_csv.php:57-63 | with positions dropped, "x&#124;&#124;y" is the list [x, y] |
| ImportCsv.GapParts | admin/import_csv.php:57 | "x&#124;&#124;y" splits and trims into x, "" and y |
| ImportCsv.GapSplit | admin/import_csv.php:57 | "x&#124;&#124;y" splits into x, "" and y |
| ImportCsv.GapKept | admin/import_csv.php:57 | of x, "" and y the filter keeps x at 0 and y at 2 |
| ImportCsv.Normalise | admin/import_csv.php:52-63 | year is the int of the year cell (0 when absent); duration, rating and rating_count are set exactly when their column exists; genres from a non-empty genres column, else [genre] when that is non-empty, else []; cast from a non-empty cast column, else [] |
| ImportCsv.RowOf | admin/import_csv.php:45-64 | a row exactly for a non-blank record with as many cells as the header, holding exactly the header's columns |
| ImportCsv.RowOfAsWritten | admin/import_csv.php:45-51 | as written, a non-blank record whose cell count differs from the header's throws |
| ImportCsv.RowOfAsWrittenAgrees | admin/import_csv.php:45-64 | where the record as written is kept, it gives the same row as RowOf, and only there |
| ImportCsv.IllSizedRecordAborts | admin/import_csv.php:44-51 | as written, one non-blank data record with too few or too many cells aborts the whole import |
| ImportCsv.AbortedStaysAborted | admin/import_csv.php:44-65 | once the earlier records have aborted, the whole file has |
| ImportCsv.LastThrowAborts | admin/import_csv.php:48 | an ill-sized last record aborts the whole file |
| ImportCsv.Rows | admin/import_csv.php:44-65 | no more rows than records |
| ImportCsv.RowsHaveHeaderColumns | admin/import_csv.php:48 | every row has a cell for exactly the header's columns |
| ImportCsv.RowsAppend | admin/import_csv.php:44-65 | the rows of consecutive parts of the file append |
| ImportCsv.NoRowBetween | admin/import_csv.php:45-51 | a record that gives no row leaves the rows around it as they are |
| ImportCsv.SkippedRecord | admin/import_csv.php:45-51 | a blank or ill-sized record is skipped: the other records' rows are unchanged |
| ImportCsv.RowsStep | admin/import_csv.php:44-65 | one more record adds its row, if it gives one |
| ImportCsv.CollectRows | admin/import_csv.php:44-65 | the loop collects exactly the rows of the data records, in file order |
| ImportCsv.ParseFile | admin/import_csv.php:33-69 | no header is an error; an accepted file has at least one row and fewer rows than records |
| ImportCsv.HeaderChecked | admin/import_csv.php:37-41 | an accepted header has every required column; a header lacking one is refused, naming exactly the missing columns |
| ImportCsv.AcceptedRows | admin/import_csv.php:43-69 | an accepted file gives the rows of its data records, each with title, slug and year |
| ImportCsv.Catalog.constructor | admin/import_csv.php:70-72 | nothing written yet |
| ImportCsv.Catalog.Import | admin/import_csv.php:71-99 | all rows are written and the count reported when every statement succeeds; otherwise nothing is written and the first failure's message is reported |
| ImportCsv.Process | admin/import_csv.php:33-104 | a rejected file is its error; without a database the preview message; with one, the accepted rows go through one transaction as Catalog.Import states: all written and counted when every statement succeeds, else nothing written and the first failure reported after the import-error prefix; an error never writes anything |
| ImportCsv.Post | admin/import_csv.php:21-104 | the CSRF token is checked first and spent when accepted; then a failed upload, then an unreadable file are errors; then a rejected file is its error, without a database the preview message, and with one the transaction's outcome, including the first failing row's message when one fails; an error never writes anything |
| UploadPoster.ReplaceRuns | admin/upload_poster.php:43 | the replacement leaves only letters, digits and '-', and never lengthens the name |
| UploadPoster.Sanitize | admin/upload_poster.php:43-44 | the cleaned name is never longer than the name it came from |
| UploadPoster.ReplaceRunsIdentity | admin/upload_poster.php:43 | the replacement changes the name exactly when it holds a character outside letters, digits and '-' |
| UploadPoster.SkipRunAll | admin/upload_poster.php:43 | a run of characters outside letters, digits and '-' is skipped whole, up to the next name character |
| UploadPoster.CharKept | admin/upload_poster.php:43 | a letter, digit or '-' is kept as it is |
| UploadPoster.RunReplaced | admin/upload_poster.php:43 | a maximal run of other characters becomes a single '-' |
| UploadPoster.ReplaceRunsRun | admin/upload_poster.php:43 | name characters, then a maximal run of other characters, then the rest: the name characters are kept, the run becomes one '-', and the rest is replaced in turn |
| UploadPoster.SanitizeClean | admin/upload_poster.php:43-44 | a cleaned name holds only letters, digits and '-' and has no '-' at either end |
| UploadPoster.SanitizeIdentity | admin/upload_poster.php:43-44 | a name is kept unchanged exactly when it is already clean |
| UploadPoster.SanitizeIdempotent | admin/upload_poster.php:43-44 | cleaning a cleaned name changes nothing |
| UploadPoster.SanitizeRun | admin/upload_poster.php:43-44 | two clean parts around a run of other characters are joined by one '-' ("Star Wars" becomes "Star-Wars") |
| UploadPoster.RelativeBase | admin/upload_poster.php:62-71 | the stored path has no backslash and is never longer than the resolved path |
| UploadPoster.RelativeBelowRoot | admin/upload_poster.php:64-71 | a file below the project root is stored by its path from the root, with no leading '/' |
| UploadPoster.RelativeOutsideRoot | admin/upload_poster.php:63-71 | with no project root known, a file is stored by its own path with backslashes turned into '/' |
| UploadPoster.GeneratedKeys | admin/upload_poster.php:81-83 | the logged keys are exactly the variant keys other than `_base` |
| UploadPoster.PosterAliases | admin/upload_poster.php:50-55 | the poster sizes are w154, w342, w500 and w780, in that order |
| UploadPoster.PosterAliasesDistinct | admin/upload_poster.php:50-55 | the poster size names are distinct and none is `_base` |
| UploadPoster.PosterVariants | admin/upload_poster.php:56-83 | the variants written are `_base` then the four sizes, `_base` names the base path with the library's extension, and the log lists the four sizes |
| UploadPoster.PosterStore.constructor | admin/upload_poster.php:72-89 | a store starts with the given database flag and paths and no manual logs |
| UploadPoster.PosterStore.Record | admin/upload_poster.php:72-89 | with a database, the movie's local poster path is set and nothing else changes; without one, one manual log with the id, the path and the generated keys is appended and nothing else changes |
| UploadPoster.Rejection | admin/upload_poster.php:29-47 | the upload goes on exactly when a file arrived without error, with an allowed type, within 6 MB, readable, and its directory exists; a missing file is the upload error |
| UploadPoster.Store | admin/upload_poster.php:29-91 | a failed check gives its own error, a failed variant write gives the variants error, and an error changes nothing; a success records the resolved relative path under the movie's id and names the movie's title |
| UploadPoster.Post | admin/upload_poster.php:21-91 | the CSRF token is checked and spent first, and a refused token is the CSRF error; with an accepted token the outcome is the one PostMovie states for the posted movie id, and an error changes no stored path or log |
| UploadPoster.PostMovie | admin/upload_poster.php:23-91 | a non-positive or unknown id is "not found"; otherwise, for the first movie with that id, a failed check gives its error, a failed variant write the variants error, and a success names its title and records its stored path: under its id with a database, else in one more manual log listing the four sizes |
| Sitemap.AppUrl | sitemap.php:10 | the site URL never ends with '/' |
| Sitemap.PageIsSlice | sitemap.php:16 | each page of the unfiltered listing is the matching run of 60 movies of the sorted catalogue |
| Sitemap.PageReportsCount | sitemap.php:16-19 | every page reports the same page count, the least whose pages of 60 cover the catalogue |
| Sitemap.Slice | sitemap.php:16 | a page holds at most 60 movies |
| Sitemap.Request | sitemap.php:16 | one request returns that page's run of the catalogue and the catalogue's page count |
| Sitemap.PageCount | sitemap.php:19 | the page count covers the whole catalogue, and is zero only for an empty catalogue |
| Sitemap.PrefixExtend | sitemap.php:17 | merging the next page onto the pages collected gives one more page of the catalogue |
| Sitemap.PrefixWhole | sitemap.php:15-19 | once enough pages are collected they are the whole catalogue |
| Sitemap.Collect | sitemap.php:11-19 | the loop collects exactly the sorted catalogue, making one request per page and at least one |
| Sitemap.Urlset | sitemap.php:25-49 | the sitemap has one entry per movie collected plus the root |
| Sitemap.UrlsetRoot | sitemap.php:26-30 | the first entry is the site URL with a trailing '/', dated now, with priority 1.0 |
| Sitemap.UrlsetMovie | sitemap.php:32-47 | movie i is entry i + 1: weekly, priority 0.8, dated by its `updated_at` when set and else now, with an image captioned by its title exactly when it has a poster URL |
| Sitemap.MovieLocIsFilmUrl | sitemap.php:33 | a movie's sitemap address is the canonical film page address the rest of the site links to |
| Sitemap.Render | sitemap.php:10-49 | the sitemap lists every movie of the catalogue once, in the sorted catalogue's order (year, newest first, then title), after the root |
| TmdbSync.Limit | scripts/cli/tmdb_sync.php:20-21 | the limit is at least 1: 50 when the option is absent, the option's integer value when that is at least 1, else 1 |
| TmdbSync.SelectQuery | scripts/cli/tmdb_sync.php:30-42 | the query always requires a TMDb id; it adds the `since` clause and its one parameter exactly in delta mode with a since date; its limit is at least 1 |
| TmdbSync.DirectorIsFirst | scripts/cli/tmdb_sync.php:63-70 | the director is the name of the first crew member whose job is Director |
| TmdbSync.DirectorKept | scripts/cli/tmdb_sync.php:64-70 | with no Director in the crew the stored director stays |
| TmdbSync.Director | scripts/cli/tmdb_sync.php:63-70 | the loop that stops at the first Director finds the director the crew names |
| TmdbSync.Names | scripts/cli/tmdb_sync.php:79 | the cast names never outnumber the cast |
| TmdbSync.NamesAllNamed | scripts/cli/tmdb_sync.php:79 | when every cast member has a name, the names are theirs, position by position |
| TmdbSync.CastOf | scripts/cli/tmdb_sync.php:79 | the stored cast is the first eight names of the payload's cast, or all of them when fewer |
| TmdbSync.Plan | scripts/cli/tmdb_sync.php:72-80 | each column takes the payload's value when it is present and not null, else keeps the stored value; the director and cast are the ones computed |
| TmdbSync.PlanOfBarePayload | scripts/cli/tmdb_sync.php:72-80 | a payload with nothing in it keeps every stored column and sets the cast to an empty list |
| TmdbSync.Statuses | scripts/cli/tmdb_sync.php:54-96 | every selected movie gets one status, in order |
| TmdbSync.TallyPartition | scripts/cli/tmdb_sync.php:54-96 | every status falls in exactly one of synced, fetch failed and update failed |
| TmdbSync.CountsPartition | scripts/cli/tmdb_sync.php:54-96 | each movie is counted once, in exactly one status |
| TmdbSync.IssuedCount | scripts/cli/tmdb_sync.php:57-89 | an UPDATE is issued for every movie whose payload arrived, and only for those |
| TmdbSync.NoFailuresIffAllSynced | scripts/cli/tmdb_sync.php:54-99 | no failure is counted exactly when every movie was synced |
| TmdbSync.Sync | scripts/cli/tmdb_sync.php:51-96 | with the `else` branch of lines 92-95 taking effect (see Findings), the loop counts as successes exactly the synced movies, as failures the others, and issues exactly the UPDATEs for the payloads that arrived, in order |
| TmdbSync.ExitCode | scripts/cli/tmdb_sync.php:99 | the exit code is 2 exactly when something failed, else 0 |
| TmdbSync.Prepare | scripts/cli/tmdb_sync.php:13-46 | help exits 0 and no database exits 1, both before any query; otherwise the query is SelectQuery of the options, and the script exits 0 exactly when it selects no movie |
| TmdbSync.Run | scripts/cli/tmdb_sync.php:11-99 | as intended: help exits 0 and no database exits 1, both before any query; no movie selected exits 0; otherwise every selected movie is counted once and the exit code is 0 exactly when all were synced, else 2 |
| TmdbSync.FirstRejected | scripts/cli/tmdb_sync.php:89-95 | the position of the first movie whose UPDATE is rejected: within the list, or the list's length; the movie there (when inside the list) is rejected |
| TmdbSync.NoneRejectedBefore | scripts/cli/tmdb_sync.php:89-95 | no movie before that position has its UPDATE rejected |
| TmdbSync.SyncAsWritten | scripts/cli/tmdb_sync.php:51-96 | as written, with exceptions on: it stops exactly when an UPDATE is rejected, having counted only the movies before it and sent the UPDATEs up to and including the rejected one |
| TmdbSync.RunAsWritten | scripts/cli/tmdb_sync.php:11-99 | as written: as Run before the loop; exit 255 exactly when an UPDATE is rejected, sending no later UPDATE; otherwise 0 when all were synced, else 2 |
| TmdbSync.UpdateFailedCount | scripts/cli/tmdb_sync.php:89-95 | no movie is counted as rejected when none is |
| TmdbSync.RejectedUpdateAborts | scripts/cli/tmdb_sync.php:89-95 | with the first of two UPDATEs rejected, the script as written sends only that UPDATE (and exits 255), while the intended run updates the second movie, counts one success and one failure, and exits 2 |
| RunMigrations.RunEnd | scripts/cli/run_migrations.php:39 | the `\s*` of the separator pattern takes the whole run of white space that starts there |
| RunMigrations.LastNewline | scripts/cli/run_migrations.php:39 | finds the last newline of a range, or says there is none |
| RunMigrations.SeparatorEnd | scripts/cli/run_migrations.php:39 | a separator starts only at a ';' and ends after it |
| RunMigrations.FindSeparator | scripts/cli/run_migrations.php:39 | the separator found starts at or after the search position and matches there |
| RunMigrations.Pieces | scripts/cli/run_migrations.php:39 | the split always gives at least one piece, and a script without separator is one piece |
| RunMigrations.StatementsClean | scripts/cli/run_migrations.php:39-43 | every statement executed is trimmed and neither empty nor "0" |
| RunMigrations.TrimmedTruthyClean | scripts/cli/run_migrations.php:39 | what survives trimming and dropping the falsy entries is trimmed and truthy |
| RunMigrations.FindFrom | scripts/cli/run_migrations.php:39 | the split skips every character that is not ';' |
| RunMigrations.SeparatorAt | scripts/cli/run_migrations.php:39 | ";" and a newline not followed by white space is a separator of exactly those two characters |
| RunMigrations.FirstSeparator | scripts/cli/run_migrations.php:39 | the first separator of a statement without ';' followed by ";" and a newline is that pair |
| RunMigrations.PiecesStep | scripts/cli/run_migrations.php:39 | splitting a statement, ";" and a newline, and the rest gives the statement and then the pieces of the rest |
| RunMigrations.PiecesOfScript | scripts/cli/run_migrations.php:39 | a script written one statement per line splits into its statements and an empty tail |
| RunMigrations.StatementsOfScript | scripts/cli/run_migrations.php:39 | a script written one trimmed, non-empty statement per line runs exactly those statements, in order |
| RunMigrations.RanInOrderUnique | scripts/cli/run_migrations.php:40-50 | the statements attempted and the verdict of a run are determined by the statements and the database |
| RunMigrations.RunStatements | scripts/cli/run_migrations.php:40-50 | the statements run in order, every one but the last attempted succeeded, and the first failure stops the run and fails it |
| RunMigrations.RunFile | scripts/cli/run_migrations.php:26-53 | an unreadable script fails before any statement; a readable one runs its statements in order, and on success reports their count |
| RunMigrations.Migrate | scripts/cli/run_migrations.php:7-24 | no database or unreadable migrations exit 1 before any statement; the seed runs only after every migration succeeded; the exit code is 0 exactly when both scripts ran every statement, and then both counts are reported |
| MainJs.Normalize | assets/js/main.js:6 | the path starts with '/', and is the given path when that already did, else the given path after a '/' |
| MainJs.NormalizeIdempotent | assets/js/main.js:6 | normalizing a normalized path changes nothing |
| MainJs.ResolvePath | assets/js/main.js:5-11 | the URL is the absolute base when it is set, else the base path, followed by the normalized path |
| MainJs.ResolveIgnoresLeadingSlash | assets/js/main.js:5-11 | a path resolves to the same URL with or without its leading '/' |
| MainJs.InitialTheme | assets/js/main.js:17-21 | the stored theme when there is one, else dark when the system prefers dark, else light |
| MainJs.Toggle | assets/js/main.js:30 | the new theme is dark or light, and dark exactly when the current one is not dark |
| MainJs.ToggleInvolution | assets/js/main.js:29-32 | two clicks on the theme button restore a dark or light theme |
| MainJs.Flip | assets/js/main.js:38-39 | `aria-expanded` becomes "true" or "false", and "true" exactly when it was not "true" |
| MainJs.FlipTwice | assets/js/main.js:37-42 | two clicks on the burger restore a set `aria-expanded` |
| MainJs.ReplaceAllConcat | assets/js/main.js:49-55 | replacing a character in joined text replaces it in each part |
| MainJs.ReplaceAllAbsent | assets/js/main.js:49-55 | replacing a character that does not occur changes nothing |
| MainJs.EscapeConcat | assets/js/main.js:49-55 | escaping joined text escapes each part |
| MainJs.EscapeOne | assets/js/main.js:49-55 | each character is escaped to its own entity, or kept when it is not special; no entity is escaped twice because '&' goes first |
| MainJs.EscapeHtmlPerChar | assets/js/main.js:49-55 | the chain of five replacements is escaping character by character |
| MainJs.EscapedIsInert | assets/js/main.js:49-55 | escaped text has no raw '<', '>', '"' or "'" |
| MainJs.UnescapeEntity | assets/js/main.js:49-55 | decoding an entity followed by more text gives its character, then the decoded rest |
| MainJs.UnescapeEscape | assets/js/main.js:49-55 | a browser decoding the escaped text reads back exactly the text given |
| MainJs.JsLength | assets/js/main.js:119 | `.length` counts UTF-16 code units: between the number of characters and twice it, zero only for "", and the number of characters when all are in the Basic Multilingual Plane |
| MainJs.SearchTerm | assets/js/main.js:118-119 | a search starts exactly when the trimmed term is empty or has a `.length` of at least three, and uses the trimmed term; three characters always suffice, and for BMP text exactly three characters are needed |
| MainJs.AstralPairSearched | assets/js/main.js:118-119 | a term of two characters outside the BMP (two emoji) is searched for, since each counts two UTF-16 code units |
| MainJs.SearchParams | assets/js/main.js:91-94 | with a term, the request carries `search` set to it and every other parameter of the page unchanged |
| MainJs.Dedup | assets/js/main.js:152 | the watchlist loaded holds each stored id once and no other |
| MainJs.Without | assets/js/main.js:166 | removing an id keeps exactly the other ids, and keeps them distinct |
| MainJs.Toggled | assets/js/main.js:165-173 | a click puts the id in the watchlist exactly when it was not there, leaves every other id as it was, and keeps the ids distinct |
| MainJs.WithoutAbsent | assets/js/main.js:166 | removing an id that is not there changes nothing |
| MainJs.WithoutLast | assets/js/main.js:166-170 | removing the id just added gives back the watchlist before it |
| MainJs.ToggledTwice | assets/js/main.js:164-175 | clicking twice on a movie not in the watchlist restores the watchlist exactly |
| MainJs.Page.constructor | assets/js/main.js:1-21 | the page starts with the configured bases, the initial theme, the burger as marked up and the stored watchlist without repeats |
| MainJs.Page.ClickTheme | assets/js/main.js:23-32 | the theme flips, is stored, and `aria-pressed` says whether it is dark; nothing else changes |
| MainJs.Page.ClickBurger | assets/js/main.js:37-42 | `aria-expanded` flips, the burger toggles `is-active` and so does the menu when there is one; nothing else changes |
| MainJs.Page.ClickWatchlist | assets/js/main.js:164-175 | the id leaves or joins the watchlist, the whole list is stored, and nothing else changes |
| MainJs.Page.Search | assets/js/main.js:85-123 | a request is made exactly when the term is long enough or empty, to the API path with the page's query and the term |
| Strings.ToInt | index.php:27 | the `(int)` cast of a request parameter always lies between PHP_INT_MIN and PHP_INT_MAX: beyond them it saturates |
| Strings.ToIntOfNatToString | index.php:39 | the decimal text of a natural number reads back as that number, or PHP_INT_MAX when it is larger |
| Strings.ToIntOfNegative | index.php:27 | a minus sign before the decimal text of n reads back as -n, or PHP_INT_MIN when that is smaller |
| Strings.ToIntOfIntToString | film.php:17 | the `(int)` cast reads back every integer within the 64-bit range written in decimal, and saturates outside it; so an id printed in a film address is the id parsed from it |
| Sorting.SortedPrefixFirst | movies.php:395-396 | a prefix of a sorted sequence is a sub-multiset of it, and each of its elements comes no later than each element left out |
| Query.Set | lib/tmdb.php:98-107 | assigning a key leaves the keys unique, makes the key give the new value, leaves every other key as it was, keeps the place of an existing key and appends a new one |
| Query.SetTwice | lib/tmdb.php:98-107 | assigning a key twice is assigning it once to the later value |
| Query.Remove | index.php:183-186 | unsetting a key keeps exactly the other entries, in order, and no other key's value changes |
| Query.RemoveAbsent | index.php:183-186 | unsetting a key that is not there changes nothing |

## Left out

- Floating point: ratings are kept as the decimal text stored; PHP's float cast of a rating, `number_format` and `toFixed` are not modelled.
- Image resizing arithmetic and pixel data: the image library is a parameter that either writes a variant or fails; which library is present (and WebP support) is a parameter too.
- PHP's conversion of numeric-string array keys to integers is not modelled; keys stay strings.
- Strings.ToInt: models leading white space, a sign, leading decimal digits and the saturation at `PHP_INT_MAX`/`PHP_INT_MIN`; exponent forms ("1e3", which PHP reads as 1000), hexadecimal and float forms are read by their leading digits only.
- `Number()` of a non-numeric watchlist id (NaN) is not modelled; ids are integers.
- The `?? 1` fallback on `total_pages` in sitemap.php never applies, because the listing always reports a page count.
- A failure part way through writing files (variants, logs, the cache) leaves no partial state in the model.
- SQL upsert semantics and `NOW()` timestamps are not modelled; the database is an oracle that accepts or rejects each statement. With `PDO::ERRMODE_EXCEPTION` (lib/db.php:28) a rejected statement throws: the CSV import catches it and rolls back, the sync script does not (TmdbSync.SyncAsWritten, TmdbSync.RunAsWritten). UploadPoster.PosterStore.Record treats its `UPDATE` as accepted: a rejected one would end the request with an uncaught exception, which is not modelled.
- `DIRECTORY_SEPARATOR` is taken to be '/'.
- `SET NAMES utf8mb4` in run_migrations.php is not modelled, nor is its `$statement === ''` test, which can never hold after the empty statements are filtered out.
- The database branches of movies.php are modelled only through the seed catalogue; the SQL `ORDER BY`/`LIMIT` of the listing is taken to agree with the seed ordering.
- `hash_equals` timing behaviour and the session cookie parameters of `auth_start_session` are not modelled.
- `mb_strimwidth` is a parameter of the description shortening; `fgetcsv` is abstracted as a list of records of cells.
- `http_build_query` and `json_encode` are modelled as plain concrete encoders without percent-encoding or JSON string escaping; JSON object key order and XML/HTML escaping in the templates are not modelled.
- Titles are ordered byte by byte; PHP's numeric-string comparison in `strcmp`-based sorting of numeric titles is not modelled.
- Query parameters that arrive as arrays instead of strings, duplicate `URLSearchParams` keys and repeated `getopt` options are not modelled.
- A TMDb `crew` or `cast` that arrives as a JSON object instead of a list gives no members in the model.
- `tmdb_search_movie` and `tmdb_get_movie_videos` are not modelled: no core page calls them.
- `seo_json_ld` and `seo_build_home_jsonld` are not modelled: they only serialise the arrays the modelled builders return.
- The srcset of `movies_build_poster_payload` and `poster_srcset` in api/movies.php take the poster URL as a parameter; their HTML is not modelled.
- `json_encode` of the synced cast is kept as a JSON list value, not as text.
- UploadPoster.Sanitize: the poster name is always derived from the slug; the fallback to the title and to "poster" when a movie has no slug is not modelled, since every catalogue movie has a slug.
- Concrete facts about the individual seed movies are not stated.
- Concurrency between requests (the cache, the rate limiter and the session are used by one request at a time).
- The DOM of main.js: only the state the handlers change is modelled; the share buttons, the HTML `renderMovies` builds, `AbortController`, the 300 ms debounce, `JSON.parse` of corrupted storage and the text of labels and classes are not.
- `.env` parsing with `FILE_SKIP_EMPTY_LINES` is modelled as skipping blank lines.
- The TMDb client used by the sync script is a parameter (a function from TMDb id to payload).

## Findings

| source | as written | input that shows it | evidently intended | confidence | as-written member | corrected member |
|---|---|---|---|---|---|---|
| admin/import_csv.php:48-51 | `array_combine` throws a `ValueError` (PHP 8) when a record has a different number of cells than the header, so one short record aborts the whole import | a header of 3 columns and a record of 2 cells | the record is skipped, as the `if (!$row)` guard after it expects | not executed; high | ImportCsv.IllSizedRecordAborts | ImportCsv.SkippedRecord |
| admin/import_csv.php:57,63 | `array_filter` keeps the positions of the items it keeps, so a genre list with an empty item is stored as a JSON object | the column "a&#124;&#124;b" | a JSON list of the non-empty items (`array_values`) | not executed; medium | ImportCsv.GapStoredAsObject | ImportCsv.GapDroppedInList |
| scripts/cli/tmdb_sync.php:89-95 | with `PDO::ERRMODE_EXCEPTION` (lib/db.php:28) a rejected `UPDATE` throws a `PDOException` that nothing catches, so the script stops with status 255 and its `else` branch never runs | two movies whose first `UPDATE` is rejected | count the failure, go on to the next movie and exit with status 2 | not executed; high | TmdbSync.RejectedUpdateAborts | TmdbSync.Sync |
