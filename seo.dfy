/**
 * lib/seo.php: page metadata with defaults, the meta tags rendered from it,
 * canonical URLs under APP_URL, and the schema.org JSON-LD documents for a
 * movie and for a breadcrumb trail.
 *
 * `htmlspecialchars` is a parameter (`escape`); JSON-LD documents are `Json`
 * values (object key order is not modelled).
 */
module Seo {
  import opened Wrappers
  import opened Strings
  import opened Json
  import opened Query
  import opened Movies
  import Tmdb
  import Http

  // ---------------------------------------------------------------------------
  // seo_default_meta

  function Defaults(appUrl: string): (d: Params)
    ensures UniqueKeys(d) && |d| == 10
    ensures Keys(d) == ["title", "description", "robots", "url", "canonical", "image", "type", "site_name", "twitter_card", "locale"]
  {
    var base := TrimRight(appUrl, {'/'});
    [("title", "Filmoteca Pro — Catalogo film SEO-first"),
     ("description", "Filmoteca Pro unisce catalogo film, trailer e community con integrazione TMDb e ottimizzazioni SEO."),
     ("robots", "index,follow"),
     ("url", base + "/"),
     ("canonical", base + "/"),
     ("image", base + "/assets/images/icon.svg"),
     ("type", "website"),
     ("site_name", "Filmoteca Pro"),
     ("twitter_card", "summary_large_image"),
     ("locale", "it_IT")]
  }

  /** `array_merge` of the defaults with the overrides that are neither null nor ''. */
  function Merged(appUrl: string, overrides: NullableParams): (r: Params)
    requires UniqueNullableKeys(overrides)
    ensures UniqueKeys(r)
    ensures forall k :: Lookup(r, k) == (if k in Keys(Present(overrides, {}))
                                         then Lookup(Present(overrides, {}), k) else Lookup(Defaults(appUrl), k))
  {
    PresentUnique(overrides, {});
    Http.MergeLookupAll(Defaults(appUrl), Present(overrides, {}));
    Http.Merge(Defaults(appUrl), Present(overrides, {}))
  }

  /**
   * `seo_default_meta`: overrides that are null or '' are ignored, the others
   * replace the defaults, and an empty `url` (PHP's `empty`: '' or "0") falls
   * back to `canonical`.
   */
  function DefaultMeta(appUrl: string, overrides: NullableParams): (r: Params)
    requires UniqueNullableKeys(overrides)
    ensures UniqueKeys(r)
    // a key other than url reads as after the merge
    ensures forall k :: k != "url" ==> Lookup(r, k) == Lookup(Merged(appUrl, overrides), k)
    // url is the merged value unless that is empty, then canonical
    ensures var merged := Merged(appUrl, overrides);
            Lookup(r, "url") == if Falsy(Lookup(merged, "url").GetOr("")) then Lookup(merged, "canonical") else Lookup(merged, "url")
  {
    var merged := Merged(appUrl, overrides);
    if Falsy(Lookup(merged, "url").GetOr("")) then
      MergedHasCanonical(appUrl, overrides);
      Set(merged, "url", Lookup(merged, "canonical").GetOr(""))
    else merged
  }

  lemma MergedHasCanonical(appUrl: string, overrides: NullableParams)
    requires UniqueNullableKeys(overrides)
    ensures Lookup(Merged(appUrl, overrides), "canonical").Some?
  {
    assert Keys(Defaults(appUrl))[4] == "canonical";
  }

  /** Every rendered key is present after the defaults are applied, so the page can always be rendered. */
  lemma DefaultMetaRenderable(appUrl: string, overrides: NullableParams)
    requires UniqueNullableKeys(overrides)
    ensures forall k :: k in RenderedKeys ==> k in Keys(DefaultMeta(appUrl, overrides))
  {
    var merged := Merged(appUrl, overrides);
    var r := DefaultMeta(appUrl, overrides);
    forall k | k in RenderedKeys ensures k in Keys(r) {
      assert k in Keys(Defaults(appUrl));
      assert Lookup(merged, k).Some?;
    }
  }

  /** An override that is neither null nor '' is the merged value of its key. */
  lemma MergedOverride(appUrl: string, overrides: NullableParams, k: string, v: string)
    requires UniqueNullableKeys(overrides)
    requires (k, Some(v)) in overrides && v != ""
    ensures Lookup(Merged(appUrl, overrides), k) == Some(v)
  {
    PresentUnique(overrides, {});
    var given := Present(overrides, {});
    assert (k, v) in given;
    assert k in Keys(given) by {
      var i :| 0 <= i < |given| && given[i] == (k, v);
      assert Keys(given)[i] == k;
    }
    assert Lookup(given, k) == Some(v);
  }

  /** An override that is neither null nor '' is always used (for url, unless it is "0"). */
  lemma OverrideWins(appUrl: string, overrides: NullableParams, k: string, v: string)
    requires UniqueNullableKeys(overrides)
    requires (k, Some(v)) in overrides && v != ""
    requires k != "url" || v != "0"
    ensures Lookup(DefaultMeta(appUrl, overrides), k) == Some(v)
  {
    MergedOverride(appUrl, overrides, k, v);
    if k == "url" {
      assert !Falsy(v);
    }
  }

  // ---------------------------------------------------------------------------
  // seo_render_meta

  const RenderedKeys: set<string> := {"title", "description", "robots", "canonical", "type", "url", "image", "site_name", "locale", "twitter_card"}

  function MetaValue(meta: Params, k: string): string {
    Lookup(meta, k).GetOr("")
  }

  /** Each tag is the text before the value, the meta key whose escaped value it shows, and the text after. */
  const Layout: seq<(string, string, string)> := [
    ("<title>", "title", "</title>"),
    ("<meta name=\"description\" content=\"", "description", "\">"),
    ("<meta name=\"robots\" content=\"", "robots", "\">"),
    ("<link rel=\"canonical\" href=\"", "canonical", "\">"),
    ("<meta property=\"og:title\" content=\"", "title", "\">"),
    ("<meta property=\"og:description\" content=\"", "description", "\">"),
    ("<meta property=\"og:type\" content=\"", "type", "\">"),
    ("<meta property=\"og:url\" content=\"", "url", "\">"),
    ("<meta property=\"og:image\" content=\"", "image", "\">"),
    ("<meta property=\"og:site_name\" content=\"", "site_name", "\">"),
    ("<meta property=\"og:locale\" content=\"", "locale", "\">"),
    ("<meta name=\"twitter:card\" content=\"", "twitter_card", "\">"),
    ("<meta name=\"twitter:title\" content=\"", "title", "\">"),
    ("<meta name=\"twitter:description\" content=\"", "description", "\">"),
    ("<meta name=\"twitter:image\" content=\"", "image", "\">")]

  function Tag(t: (string, string, string), meta: Params, escape: string -> string): string {
    t.0 + escape(MetaValue(meta, t.1)) + t.2
  }

  /** The fifteen tags, in order. */
  function MetaTags(meta: Params, escape: string -> string): (tags: seq<string>)
    ensures |tags| == |Layout| && forall i :: 0 <= i < |Layout| ==> tags[i] == Tag(Layout[i], meta, escape)
  {
    seq(|Layout|, i requires 0 <= i < |Layout| => Tag(Layout[i], meta, escape))
  }

  /** The fixed text around a value holds no newline. */
  predicate OneLine(t: (string, string, string)) {
    '\n' !in t.0 && '\n' !in t.2
  }

  lemma LayoutOneLine()
    ensures forall i :: 0 <= i < |Layout| ==> OneLine(Layout[i])
  {
    // checked three entries at a time, which keeps each proof small
    LayoutOneLineFrom0();
    LayoutOneLineFrom3();
    LayoutOneLineFrom6();
    LayoutOneLineFrom9();
    LayoutOneLineFrom12();
  }

  lemma LayoutOneLineFrom0()
    ensures forall i :: 0 <= i < 3 ==> OneLine(Layout[i])
  {
    assert OneLine(Layout[0]);
    assert OneLine(Layout[1]);
    assert OneLine(Layout[2]);
  }

  lemma LayoutOneLineFrom3()
    ensures forall i :: 3 <= i < 6 ==> OneLine(Layout[i])
  {
    assert OneLine(Layout[3]);
    assert OneLine(Layout[4]);
    assert OneLine(Layout[5]);
  }

  lemma LayoutOneLineFrom6()
    ensures forall i :: 6 <= i < 9 ==> OneLine(Layout[i])
  {
    assert OneLine(Layout[6]);
    assert OneLine(Layout[7]);
    assert OneLine(Layout[8]);
  }

  lemma LayoutOneLineFrom9()
    ensures forall i :: 9 <= i < 12 ==> OneLine(Layout[i])
  {
    assert OneLine(Layout[9]);
    assert OneLine(Layout[10]);
    assert OneLine(Layout[11]);
  }

  lemma LayoutOneLineFrom12()
    ensures forall i :: 12 <= i < 15 ==> OneLine(Layout[i])
  {
    assert OneLine(Layout[12]);
    assert OneLine(Layout[13]);
    assert OneLine(Layout[14]);
  }

  /**
   * `seo_render_meta`: the tags joined by newlines. Every rendered key must be
   * present: the escaping closure takes a `string`, and under strict types a
   * missing key (null) is a TypeError.
   */
  function RenderMeta(meta: Params, escape: string -> string): (html: string)
    requires forall k :: k in RenderedKeys ==> k in Keys(meta)
    ensures html == Join(MetaTags(meta, escape), "\n")
    ensures |html| >= 7 && html[..7] == "<title>"
  {
    var tags := MetaTags(meta, escape);
    assert tags[0] == "<title>" + escape(MetaValue(meta, "title")) + "</title>";
    Join(tags, "\n")
  }

  /** Every tag shows the value of a rendered key. */
  lemma LayoutKeysRendered()
    ensures forall i :: 0 <= i < |Layout| ==> Layout[i].1 in RenderedKeys
  {
  }

  /** When no rendered value escapes to text with a newline, the rendered block is one tag per line. */
  lemma RenderMetaOneTagPerLine(meta: Params, escape: string -> string)
    requires forall k :: k in RenderedKeys ==> k in Keys(meta)
    requires forall k :: k in RenderedKeys ==> '\n' !in escape(MetaValue(meta, k))
    ensures Split(RenderMeta(meta, escape), '\n') == MetaTags(meta, escape)
  {
    var tags := MetaTags(meta, escape);
    LayoutOneLine();
    LayoutKeysRendered();
    forall i | 0 <= i < |tags| ensures '\n' !in tags[i] {
      assert OneLine(Layout[i]);
      assert '\n' !in escape(MetaValue(meta, Layout[i].1));
      assert tags[i] == Layout[i].0 + escape(MetaValue(meta, Layout[i].1)) + Layout[i].2;
    }
    SplitJoin(tags, '\n');
  }

  /**
   * An escaper that adds no newline, as htmlspecialchars does (its entities
   * hold none), over meta values without newlines: one tag per line.
   */
  lemma RenderMetaOneLineValues(meta: Params, escape: string -> string)
    requires forall k :: k in RenderedKeys ==> k in Keys(meta)
    requires forall s :: '\n' !in s ==> '\n' !in escape(s)
    requires forall k :: k in RenderedKeys ==> '\n' !in MetaValue(meta, k)
    ensures Split(RenderMeta(meta, escape), '\n') == MetaTags(meta, escape)
  {
    RenderMetaOneTagPerLine(meta, escape);
  }

  // ---------------------------------------------------------------------------
  // seo_build_canonical

  /** `seo_build_canonical`: APP_URL without its trailing '/', then the path with a leading '/'. */
  function Canonical(appUrl: string, path: string): (u: string)
    ensures var base := TrimRight(appUrl, {'/'});
            && |u| > |base| && u[..|base|] == base && u[|base|] == '/'
            && (path == "" ==> u == base + "/")
            && (path != "" && path[0] == '/' ==> u == base + path)
            && (path != "" && path[0] != '/' ==> u == base + "/" + path)
  {
    var base := TrimRight(appUrl, {'/'});
    var normalised := if path == "" then "/" else path;
    var normalised := if normalised != "/" && !StartsWith(normalised, "/") then "/" + normalised else normalised;
    base + normalised
  }

  // ---------------------------------------------------------------------------
  // JSON-LD

  /** `array_filter` with `$v !== null && $v !== ''` on an object's fields. */
  function DropEmpty(fields: map<string, Json>): (r: map<string, Json>)
    ensures forall k :: k in r <==> k in fields && fields[k] != JNull && fields[k] != JStr("")
    ensures forall k :: k in r ==> r[k] == fields[k]
  {
    map k | k in fields && fields[k] != JNull && fields[k] != JStr("") :: fields[k]
  }

  function OptStr(s: Option<string>): Json {
    if s.Some? then JStr(s.value) else JNull
  }

  function Person(name: string): Json {
    JObject(map["@type" := JStr("Person"), "name" := JStr(name)])
  }

  /** A trailer as the pages collect it from TMDb videos. */
  datatype Embed = Embed(name: Option<string>, embedUrl: string, thumbnailUrl: Option<string>, publishedAt: Option<string>)

  function VideoObject(v: Embed): (j: Json)
    ensures j.JObject? && forall k :: k in j.fields ==> j.fields[k] != JNull && j.fields[k] != JStr("")
    ensures "@type" in j.fields && j.fields["@type"] == JStr("VideoObject")
  {
    var f := map["@type" := JStr("VideoObject"), "name" := OptStr(v.name), "embedUrl" := JStr(v.embedUrl),
                  "thumbnailUrl" := OptStr(v.thumbnailUrl), "uploadDate" := OptStr(v.publishedAt)];
    assert f["@type"] == JStr("VideoObject");
    JObject(DropEmpty(f))
  }

  /** `array_slice($xs, 0, 10)`. */
  function FirstTen(xs: seq<string>): (r: seq<string>)
    ensures |r| <= 10 && |r| <= |xs| && r == xs[..|r|]
    ensures |xs| <= 10 ==> r == xs
    ensures |xs| > 10 ==> |r| == 10
  {
    if |xs| <= 10 then xs else xs[..10]
  }

  function Actors(cast: seq<string>): (r: seq<Json>)
    ensures |r| == |FirstTen(cast)| && forall i :: 0 <= i < |r| ==> r[i] == Person(cast[i])
  {
    var names := FirstTen(cast);
    seq(|names|, i requires 0 <= i < |names| => Person(names[i]))
  }

  function Trailers(videos: seq<Embed>): (r: seq<Json>)
    ensures |r| == |videos| && forall i :: 0 <= i < |r| ==> r[i] == VideoObject(videos[i])
  {
    seq(|videos|, i requires 0 <= i < |videos| => VideoObject(videos[i]))
  }

  /** The ten fields every movie document starts from (before empty ones are dropped). */
  function CoreFields(m: Movie, canonical: string, image: Option<string>): (f: map<string, Json>)
    ensures f.Keys == {"@context", "@type", "@id", "url", "name", "description", "image", "genre", "datePublished", "duration"}
    ensures f["url"] == JStr(canonical) && f["@id"] == JStr(canonical + "#movie")
    ensures f["datePublished"] == JStr(IntToString(m.year) + "-01-01")
    ensures f["duration"] == if m.duration.Some? then JStr("PT" + IntToString(m.duration.value) + "M") else JNull
  {
    map[
      "@context" := JStr("https://schema.org"),
      "@type" := JStr("Movie"),
      "@id" := JStr(canonical + "#movie"),
      "url" := JStr(canonical),
      "name" := JStr(m.title),
      "description" := JStr(m.summary),
      "image" := OptStr(image),
      "genre" := OptStr(m.genre),
      "datePublished" := JStr(IntToString(m.year) + "-01-01"),
      "duration" := if m.duration.Some? then JStr("PT" + IntToString(m.duration.value) + "M") else JNull]
  }

  function RatingObject(m: Movie): Json
    requires m.rating.Some? && m.ratingCount.Some?
  {
    JObject(map["@type" := JStr("AggregateRating"), "ratingValue" := JNum(m.rating.value.literal), "ratingCount" := JInt(m.ratingCount.value)])
  }

  function WatchAction(canonical: string): Json {
    JObject(map[
      "@type" := JStr("WatchAction"),
      "target" := JObject(map["@type" := JStr("EntryPoint"), "urlTemplate" := JStr(canonical)]),
      "expectsAcceptanceOf" := JObject(map["@type" := JStr("Offer"), "availability" := JStr("https://schema.org/InStock")])])
  }

  /** A nested object or list: never dropped as null or ''. */
  predicate Nested(v: Json) {
    v.JObject? || v.JList?
  }

  /** `if (c) { $f[k] = v; }` on a map of nested values. */
  function PutIf(f: map<string, Json>, c: bool, k: string, v: Json): (r: map<string, Json>)
    requires forall k' :: k' in f ==> Nested(f[k'])
    requires c ==> Nested(v)
    ensures k in r <==> c || k in f
    ensures c ==> r[k] == v
    ensures forall k' :: k' != k ==> (k' in r <==> k' in f) && (k' in f ==> r[k'] == f[k'])
    ensures forall k' :: k' in r ==> Nested(r[k'])
  {
    if c then f[k := v] else f
  }

  /** The fields added after the first ten, each only under its condition (potentialAction always). */
  function ExtraFields(m: Movie, videos: seq<Embed>, canonical: string): (f: map<string, Json>)
    ensures "director" in f <==> Truthy(m.director)
    ensures "actor" in f <==> CastList(m) != []
    ensures "aggregateRating" in f <==> HasRating(m) && HasRatingCount(m)
    ensures "trailer" in f <==> videos != []
    ensures "potentialAction" in f
    ensures "director" in f ==> f["director"] == Person(m.director.value)
    ensures "actor" in f ==> f["actor"] == JList(Actors(CastList(m)))
    ensures "trailer" in f ==> f["trailer"] == JList(Trailers(videos))
    ensures forall k :: k in f ==> Nested(f[k])
  {
    var f := PutIf(map[], Truthy(m.director), "director", if Truthy(m.director) then Person(m.director.value) else JNull);
    var f := PutIf(f, CastList(m) != [], "actor", JList(Actors(CastList(m))));
    var f := PutIf(f, HasRating(m) && HasRatingCount(m), "aggregateRating",
                   if HasRating(m) && HasRatingCount(m) then RatingObject(m) else JNull);
    var f := PutIf(f, videos != [], "trailer", JList(Trailers(videos)));
    PutIf(f, true, "potentialAction", WatchAction(canonical))
  }

  /** `$movie['poster']['url'] ?? tmdb_build_poster_url($movie['poster_path_remote'] ?? null, 'w780')`. */
  function Image(m: Movie, configuration: Json): (image: Option<string>)
    ensures m.poster.Some? && m.poster.value.url.Some? ==> image == m.poster.value.url
  {
    if m.poster.Some? && m.poster.value.url.Some? then m.poster.value.url
    else Tmdb.PosterUrl(m.posterRemote, "w780", configuration)
  }

  /** The document's fields before empty ones are dropped: the first ten, then the extras. */
  function MovieFields(m: Movie, videos: seq<Embed>, canonical: string, image: Option<string>): map<string, Json>
  {
    CoreFields(m, canonical, image) + ExtraFields(m, videos, canonical)
  }

  /** `seo_build_movie_jsonld`. `configuration` is what `tmdb_configuration` returned. */
  function MovieJsonLd(m: Movie, videos: seq<Embed>, appUrl: string, configuration: Json): (j: Json)
    ensures j.JObject?
    // the fields built, without those that are null or ''
    ensures j.fields == DropEmpty(MovieFields(m, videos, FilmUrl(appUrl, m), Image(m, configuration)))
    ensures forall k :: k in j.fields ==> j.fields[k] != JNull && j.fields[k] != JStr("")
  {
    JObject(DropEmpty(MovieFields(m, videos, FilmUrl(appUrl, m), Image(m, configuration))))
  }

  /** The extras never hold one of the first ten fields. */
  lemma ExtraKeys(m: Movie, videos: seq<Embed>, canonical: string)
    ensures ExtraFields(m, videos, canonical).Keys <= {"director", "actor", "aggregateRating", "trailer", "potentialAction"}
  {
  }

  /** One of the first ten fields reads as built. */
  lemma CoreKept(m: Movie, videos: seq<Embed>, canonical: string, image: Option<string>, k: string)
    requires k in {"url", "@id", "datePublished", "duration"}
    ensures var data := MovieFields(m, videos, canonical, image);
            k in data && data[k] == CoreFields(m, canonical, image)[k]
  {
    var extra := ExtraFields(m, videos, canonical);
    ExtraKeys(m, videos, canonical);
    assert k !in extra by {
      if k == "url" {} else if k == "@id" {} else if k == "datePublished" {} else {}
    }
  }

  /** The page's canonical URL is the document's url, and its @id is canonical#movie. */
  lemma MovieJsonLdIdentity(m: Movie, videos: seq<Embed>, appUrl: string, configuration: Json)
    ensures var j := MovieJsonLd(m, videos, appUrl, configuration);
      && Field(j, "url") == Some(JStr(FilmUrl(appUrl, m)))
      && Field(j, "@id") == Some(JStr(FilmUrl(appUrl, m) + "#movie"))
  {
    CoreKept(m, videos, FilmUrl(appUrl, m), Image(m, configuration), "url");
    CoreKept(m, videos, FilmUrl(appUrl, m), Image(m, configuration), "@id");
  }

  /** The publication date is January 1st of the year; the duration is ISO 8601 minutes, or absent. */
  lemma MovieJsonLdDates(m: Movie, videos: seq<Embed>, appUrl: string, configuration: Json)
    ensures var j := MovieJsonLd(m, videos, appUrl, configuration);
      && Field(j, "datePublished") == Some(JStr(IntToString(m.year) + "-01-01"))
      && ("duration" in j.fields <==> m.duration.Some?)
      && (m.duration.Some? ==> j.fields["duration"] == JStr("PT" + IntToString(m.duration.value) + "M"))
  {
    CoreKept(m, videos, FilmUrl(appUrl, m), Image(m, configuration), "datePublished");
    CoreKept(m, videos, FilmUrl(appUrl, m), Image(m, configuration), "duration");
  }

  /**
   * director only when non-empty; actor only with a cast, holding its first ten
   * names; aggregateRating only when both the rating and its count are
   * non-empty; trailer only with videos, one VideoObject each, in order.
   */
  lemma MovieJsonLdOptionalFields(m: Movie, videos: seq<Embed>, appUrl: string, configuration: Json)
    ensures var j := MovieJsonLd(m, videos, appUrl, configuration);
      && ("director" in j.fields <==> Truthy(m.director))
      && ("director" in j.fields ==> j.fields["director"] == Person(m.director.value))
      && ("actor" in j.fields <==> CastList(m) != [])
      && ("actor" in j.fields ==> j.fields["actor"] == JList(Actors(CastList(m))))
      && ("aggregateRating" in j.fields <==> HasRating(m) && HasRatingCount(m))
      && ("trailer" in j.fields <==> videos != [])
      && ("trailer" in j.fields ==> j.fields["trailer"] == JList(Trailers(videos)))
  {
    var canonical := FilmUrl(appUrl, m);
    var image := Image(m, configuration);
    ExtraKept(m, videos, canonical, image, "director");
    ExtraKept(m, videos, canonical, image, "actor");
    ExtraKept(m, videos, canonical, image, "aggregateRating");
    ExtraKept(m, videos, canonical, image, "trailer");
  }

  /** A field added after the first ten survives the final filter unchanged. */
  lemma ExtraKept(m: Movie, videos: seq<Embed>, canonical: string, image: Option<string>, k: string)
    requires k in {"director", "actor", "aggregateRating", "trailer"}
    ensures var extra := ExtraFields(m, videos, canonical);
            var kept := DropEmpty(MovieFields(m, videos, canonical, image));
            (k in kept <==> k in extra) && (k in kept ==> kept[k] == extra[k])
  {
    var core := CoreFields(m, canonical, image);
    var extra := ExtraFields(m, videos, canonical);
    NotCoreKey(m, canonical, image, k);
    KeptFromSecond(core, extra, k);
  }

  /** The optional fields' names are not among the first ten. */
  lemma NotCoreKey(m: Movie, canonical: string, image: Option<string>, k: string)
    requires k in {"director", "actor", "aggregateRating", "trailer"}
    ensures k !in CoreFields(m, canonical, image)
  {
  }

  lemma KeptFromSecond(first: map<string, Json>, second: map<string, Json>, k: string)
    requires k !in first
    requires k in second ==> Nested(second[k])
    ensures var kept := DropEmpty(first + second);
            (k in kept <==> k in second) && (k in kept ==> kept[k] == second[k])
  {
  }

  /** One step of a breadcrumb trail. */
  datatype Crumb = Crumb(name: string, item: string)

  function ListItem(c: Crumb, position: int): Json {
    JObject(map["@type" := JStr("ListItem"), "position" := JInt(position), "name" := JStr(c.name), "item" := JStr(c.item)])
  }

  /** `seo_build_breadcrumb_jsonld`: positions 1..n in the given order, names and items copied. */
  function BreadcrumbJsonLd(crumbs: seq<Crumb>): (j: Json)
    ensures Field(j, "@type") == Some(JStr("BreadcrumbList"))
    ensures Field(j, "itemListElement").Some? && Field(j, "itemListElement").value.JList?
    ensures var items := Field(j, "itemListElement").value.items;
            && |items| == |crumbs|
            && forall i :: 0 <= i < |crumbs| ==>
                 && Field(items[i], "position") == Some(JInt(i + 1))
                 && Field(items[i], "name") == Some(JStr(crumbs[i].name))
                 && Field(items[i], "item") == Some(JStr(crumbs[i].item))
  {
    var items := seq(|crumbs|, i requires 0 <= i < |crumbs| => ListItem(crumbs[i], i + 1));
    JObject(map["@context" := JStr("https://schema.org"), "@type" := JStr("BreadcrumbList"), "itemListElement" := JList(items)])
  }
}
