/**
 * The trailer embeds that film.php (lines 38-50) and api/movie.php (lines
 * 33-45) collect from a TMDb movie payload: every YouTube video becomes an
 * embed with its player URL, its thumbnail when the video has a key, its name
 * (or a fallback) and its publication date. The two pages run the same loop
 * and differ only in the fallback name.
 */
module Trailers {
  import opened Wrappers
  import opened Strings
  import opened Json
  import opened Seo

  const EmbedPrefix := "https://www.youtube.com/embed/"
  const ThumbnailPrefix := "https://i.ytimg.com/vi/"
  const ThumbnailSuffix := "/hqdefault.jpg"

  /** `($video['site'] ?? '') === 'YouTube'`. */
  predicate IsYouTube(video: Json) {
    GetStr(video, "site") == Some("YouTube")
  }

  /** `$video['key']` as it is concatenated: a missing or null key reads as ''. */
  function VideoKey(video: Json): string {
    GetStr(video, "key").GetOr("")
  }

  /** One YouTube video as an embed; `fallbackName` stands in for a missing name. */
  function EmbedOf(video: Json, fallbackName: Option<string>): (e: Embed)
    ensures e.embedUrl == EmbedPrefix + VideoKey(video)
    // a thumbnail exactly when the key is non-empty
    ensures e.thumbnailUrl.Some? <==> Truthy(GetStr(video, "key"))
    ensures e.thumbnailUrl.Some? ==> e.thumbnailUrl.value == ThumbnailPrefix + VideoKey(video) + ThumbnailSuffix
    ensures e.name == if GetStr(video, "name").Some? then GetStr(video, "name") else fallbackName
    ensures e.publishedAt == GetStr(video, "published_at")
  {
    var key := VideoKey(video);
    Embed(
      if GetStr(video, "name").Some? then GetStr(video, "name") else fallbackName,
      EmbedPrefix + key,
      if Truthy(GetStr(video, "key")) then Some(ThumbnailPrefix + key + ThumbnailSuffix) else None,
      GetStr(video, "published_at"))
  }

  /** The embeds of the YouTube videos, in the order TMDb listed them; other sites are skipped. */
  function Embeds(videos: seq<Json>, fallbackName: Option<string>): (r: seq<Embed>)
    ensures |r| <= |videos|
  {
    if videos == [] then []
    else
      var rest := Embeds(videos[1..], fallbackName);
      if IsYouTube(videos[0]) then [EmbedOf(videos[0], fallbackName)] + rest else rest
  }

  /** Collecting over a longer list appends what the new videos contribute. */
  lemma {:induction false} EmbedsAppend(a: seq<Json>, b: seq<Json>, fallbackName: Option<string>)
    ensures Embeds(a + b, fallbackName) == Embeds(a, fallbackName) + Embeds(b, fallbackName)
  {
    if a != [] {
      assert (a + b)[1..] == a[1..] + b;
      EmbedsAppend(a[1..], b, fallbackName);
    } else {
      assert a + b == b;
    }
  }

  /** Every embed comes from a YouTube video of the list, and every YouTube video gives one. */
  lemma {:induction false} EmbedsFromYouTube(videos: seq<Json>, fallbackName: Option<string>)
    ensures forall e :: e in Embeds(videos, fallbackName) ==>
              exists v :: v in videos && IsYouTube(v) && e == EmbedOf(v, fallbackName)
    ensures forall v :: v in videos && IsYouTube(v) ==> EmbedOf(v, fallbackName) in Embeds(videos, fallbackName)
  {
    if videos != [] {
      EmbedsFromYouTube(videos[1..], fallbackName);
      assert forall v :: v in videos ==> v == videos[0] || v in videos[1..];
    }
  }

  /** There is no embed exactly when no video is on YouTube (which sets the page type). */
  lemma NoEmbedsIff(videos: seq<Json>, fallbackName: Option<string>)
    ensures Embeds(videos, fallbackName) == [] <==> forall v :: v in videos ==> !IsYouTube(v)
  {
    EmbedsFromYouTube(videos, fallbackName);
  }

  /** The `foreach` over the payload's videos. */
  method Collect(videos: seq<Json>, fallbackName: Option<string>) returns (embeds: seq<Embed>)
    ensures embeds == Embeds(videos, fallbackName)
  {
    embeds := [];
    for i := 0 to |videos|
      invariant embeds == Embeds(videos[..i], fallbackName)
    {
      EmbedsAppend(videos[..i], [videos[i]], fallbackName);
      assert videos[..i + 1] == videos[..i] + [videos[i]];
      if !IsYouTube(videos[i]) {
        continue;
      }
      embeds := embeds + [EmbedOf(videos[i], fallbackName)];
    }
    assert videos[..|videos|] == videos;
  }

  /** `$payload['videos']['results']` when it is a list; anything else gives no videos. */
  function VideoResults(payload: Option<Json>): (vs: seq<Json>)
    ensures payload.None? ==> vs == []
  {
    if payload.None? then []
    else match Field2(payload.value, "videos", "results")
      case Some(JList(items)) => items
      case _ => []
  }
}
