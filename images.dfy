/**
 * lib/images.php: the poster file extension for a MIME type, the variant
 * files `images_save_variants` writes (a main file plus one file per size
 * alias, all WebP when an image library is present, otherwise JPEG copies),
 * and the srcset entries built from the written paths.
 *
 * The image libraries are abstracted: which one is present is `Library`,
 * whether the upload decodes as an image is `decodes`, and whether writing a
 * path succeeds is `writes`. Resizing itself is not modelled.
 */
module Images {
  import opened Wrappers
  import opened Strings
  import opened Query
  import Url

  /** Lines 13-21. */
  function DetectExtension(mime: string): (ext: string)
    ensures ext == "webp" <==> mime == "image/webp"
    ensures ext == "png" <==> mime == "image/png"
    ensures ext == "gif" <==> mime == "image/gif"
    ensures ext == "jpg" <==> mime !in {"image/webp", "image/png", "image/gif"}
  {
    match mime
    case "image/webp" => "webp"
    case "image/png" => "png"
    case "image/gif" => "gif"
    case _ => "jpg"
  }

  /** Imagick is used when present, else GD, else the bytes are copied as they are. */
  datatype Library = Imagick | Gd | NoLibrary

  /** The extension of every file written. */
  function Extension(lib: Library): string {
    if lib == NoLibrary then "jpg" else "webp"
  }

  const BaseKey: string := "_base"

  /** `$targetBasePath . '.' . $alias . '.' . ext`. */
  function VariantPath(base: string, alias: string, ext: string): string {
    base + "." + alias + "." + ext
  }

  /** The aliases of a size map, in order. */
  function Aliases(sizes: seq<(string, int)>): (as_: seq<string>)
    ensures |as_| == |sizes| && forall i :: 0 <= i < |sizes| ==> as_[i] == sizes[i].0
  {
    seq(|sizes|, i requires 0 <= i < |sizes| => sizes[i].0)
  }

  /** The result map after the main file and the first aliases: `$results['_base']`, then `$results[$alias]` in turn. */
  function Variants(base: string, aliases: seq<string>, ext: string): (r: Params)
    ensures UniqueKeys(r)
    decreases |aliases|
  {
    if aliases == [] then [(BaseKey, base + "." + ext)]
    else
      var n := |aliases| - 1;
      Set(Variants(base, aliases[..n], ext), aliases[n], VariantPath(base, aliases[n], ext))
  }

  /** Every alias maps to its own file. */
  lemma {:induction false} VariantsLookup(base: string, aliases: seq<string>, ext: string, a: string)
    requires a in aliases
    ensures Lookup(Variants(base, aliases, ext), a) == Some(VariantPath(base, a, ext))
    decreases |aliases|
  {
    var n := |aliases| - 1;
    if a != aliases[n] {
      assert a in aliases[..n] by {
        var i :| 0 <= i < |aliases| && aliases[i] == a;
        assert aliases[..n][i] == a;
      }
      VariantsLookup(base, aliases[..n], ext, a);
    }
  }

  /** `_base` maps to the main file unless an alias of that name overwrote it. */
  lemma {:induction false} VariantsBase(base: string, aliases: seq<string>, ext: string)
    requires BaseKey !in aliases
    ensures Lookup(Variants(base, aliases, ext), BaseKey) == Some(base + "." + ext)
    decreases |aliases|
  {
    if aliases != [] {
      var n := |aliases| - 1;
      assert BaseKey != aliases[n];
      assert BaseKey !in aliases[..n] by {
        forall i | 0 <= i < n ensures aliases[..n][i] != BaseKey {
          assert aliases[..n][i] == aliases[i];
        }
      }
      VariantsBase(base, aliases[..n], ext);
    }
  }

  /** With distinct aliases other than `_base`, the keys are exactly `_base` followed by the aliases. */
  lemma {:induction false} VariantsKeys(base: string, aliases: seq<string>, ext: string)
    requires BaseKey !in aliases
    requires forall i, j :: 0 <= i < j < |aliases| ==> aliases[i] != aliases[j]
    ensures Keys(Variants(base, aliases, ext)) == [BaseKey] + aliases
    decreases |aliases|
  {
    if aliases != [] {
      var n := |aliases| - 1;
      var prefix := aliases[..n];
      VariantsKeys(base, prefix, ext);
      var prev := Variants(base, prefix, ext);
      assert aliases[n] !in Keys(prev) by {
        NotInPrefix(aliases);
      }
      KeysAppend(prev, aliases[n], VariantPath(base, aliases[n], ext));
      LastSplit(aliases);
    }
  }

  /** The last of distinct aliases other than `_base` is neither `_base` nor an earlier alias. */
  lemma NotInPrefix(aliases: seq<string>)
    requires aliases != [] && BaseKey !in aliases
    requires forall i, j :: 0 <= i < j < |aliases| ==> aliases[i] != aliases[j]
    ensures aliases[|aliases| - 1] !in [BaseKey] + aliases[..|aliases| - 1]
  {
  }

  lemma LastSplit<T>(xs: seq<T>)
    requires xs != []
    ensures xs == xs[..|xs| - 1] + [xs[|xs| - 1]]
  {
  }

  lemma KeysAppend(q: Params, k: string, v: string)
    ensures Keys(q + [(k, v)]) == Keys(q) + [k]
  {
  }

  lemma VariantsStep(base: string, aliases: seq<string>, ext: string, i: nat)
    requires i < |aliases|
    ensures Variants(base, aliases[..i + 1], ext)
            == Set(Variants(base, aliases[..i], ext), aliases[i], VariantPath(base, aliases[i], ext))
  {
    assert aliases[..i + 1][..i] == aliases[..i];
  }

  /** Whether the file of every alias is written. */
  predicate Written(base: string, aliases: seq<string>, ext: string, writes: string -> bool)
    decreases |aliases|
  {
    aliases == [] || (Written(base, aliases[..|aliases| - 1], ext, writes) && writes(VariantPath(base, aliases[|aliases| - 1], ext)))
  }

  lemma {:induction false} WrittenAll(base: string, aliases: seq<string>, ext: string, writes: string -> bool)
    ensures Written(base, aliases, ext, writes) <==> forall a :: a in aliases ==> writes(VariantPath(base, a, ext))
    decreases |aliases|
  {
    if aliases != [] {
      var n := |aliases| - 1;
      WrittenAll(base, aliases[..n], ext, writes);
      assert aliases == aliases[..n] + [aliases[n]];
    }
  }

  /** Whether every file of the call is written. */
  predicate AllWritten(base: string, aliases: seq<string>, ext: string, writes: string -> bool) {
    writes(base + "." + ext) && forall a :: a in aliases ==> writes(VariantPath(base, a, ext))
  }

  /**
   * Lines 32-138: the result map, or None when the upload is empty, does not
   * decode as an image, or a file cannot be written.
   */
  method SaveVariants(binary: string, base: string, sizes: seq<(string, int)>, lib: Library,
                      decodes: bool, writes: string -> bool) returns (r: Option<Params>)
    ensures r.Some? <==> binary != "" && (lib == NoLibrary || decodes)
                         && AllWritten(base, Aliases(sizes), Extension(lib), writes)
    ensures r.Some? ==> r.value == Variants(base, Aliases(sizes), Extension(lib))
  {
    if binary == "" {
      return None;
    }
    if lib != NoLibrary && !decodes {
      return None;
    }
    var ext := Extension(lib);
    var mainPath := base + "." + ext;
    if !writes(mainPath) {
      return None;
    }
    r := WriteVariants(base, Aliases(sizes), ext, writes);
  }

  /** The `foreach ($sizes ...)` loops: each alias in turn, stopping at the first file not written. */
  method WriteVariants(base: string, aliases: seq<string>, ext: string, writes: string -> bool) returns (r: Option<Params>)
    ensures r.Some? <==> forall a :: a in aliases ==> writes(VariantPath(base, a, ext))
    ensures r.Some? ==> r.value == Variants(base, aliases, ext)
  {
    var results: Params := [(BaseKey, base + "." + ext)];
    for i := 0 to |aliases|
      invariant results == Variants(base, aliases[..i], ext)
      invariant Written(base, aliases[..i], ext, writes)
    {
      var alias := aliases[i];
      var targetPath := VariantPath(base, alias, ext);
      if !writes(targetPath) {
        WrittenAll(base, aliases, ext, writes);
        assert aliases[i] in aliases;
        return None;
      }
      VariantsStep(base, aliases, ext, i);
      assert aliases[..i + 1][..i] == aliases[..i];
      results := Set(results, alias, targetPath);
    }
    assert aliases[..|aliases|] == aliases;
    WrittenAll(base, aliases, ext, writes);
    return Some(results);
  }

  // ---------------------------------------------------------------------------
  // srcset

  /** One entry of `images_generate_srcset`. */
  datatype Source = Source(size: string, url: string)

  /** Line 142-143: the document root without its trailing '/', with '\' as '/'. */
  function DocRootNormalized(docRoot: string): string {
    ReplaceChar(TrimRight(docRoot, {'/'}), '\\', '/')
  }

  /** Lines 146-150: a written path as an absolute URL below the document root. */
  function SourceUrl(docRoot: string, path: string, base: string, host: string): string {
    var relative := TrimLeft(RemoveAll(ReplaceChar(path, '\\', '/'), DocRootNormalized(docRoot)), {'/'});
    Url.AppUrl(base, host, relative, true)
  }

  /** The URL of every written path, for one document root, base path and host. */
  function UrlsBelow(docRoot: string, base: string, host: string): string -> string {
    path => SourceUrl(docRoot, path, base, host)
  }

  /** Lines 140-154: one entry per variant, in order, each under its alias with the URL of its path. */
  function Srcset(variants: Params, url: string -> string): (s: seq<Source>)
    ensures |s| == |variants|
    decreases |variants|
  {
    if variants == [] then []
    else
      var n := |variants| - 1;
      Srcset(variants[..n], url) + [Source(variants[n].0, url(variants[n].1))]
  }

  lemma SrcsetStep(variants: Params, url: string -> string, i: nat)
    requires i < |variants|
    ensures Srcset(variants[..i + 1], url) == Srcset(variants[..i], url) + [Source(variants[i].0, url(variants[i].1))]
  {
    assert variants[..i + 1][..i] == variants[..i];
  }

  /** Entry i of the srcset is variant i's alias with the URL of variant i's path. */
  lemma {:induction false} SrcsetAt(variants: Params, url: string -> string, i: nat)
    requires i < |variants|
    ensures Srcset(variants, url)[i] == Source(variants[i].0, url(variants[i].1))
    decreases |variants|
  {
    var n := |variants| - 1;
    if i < n {
      SrcsetAt(variants[..n], url, i);
      assert variants[..n][i] == variants[i];
    }
  }

  /**
   * A file below the document root is served from its path relative to that
   * root, as long as the root's text does not recur inside the relative part.
   */
  lemma SourceBelowRoot(root: string, rel: string, base: string, host: string)
    requires root != "" && root[|root| - 1] != '/' && '\\' !in root && '\\' !in rel
    requires !Contains(rel, root)
    ensures SourceUrl(root, root + rel, base, host) == Url.AppUrl(base, host, TrimLeft(rel, {'/'}), true)
  {
    assert TrimRight(root, {'/'}) == root;
    assert ReplaceChar(root, '\\', '/') == root;
    assert ReplaceChar(root + rel, '\\', '/') == root + rel;
    assert (root + rel)[..|root|] == root;
    assert (root + rel)[|root|..] == rel;
    RemoveAllAbsent(rel, root);
  }

  /** The `foreach` of lines 145-152. */
  method GenerateSrcset(variants: Params, docRoot: string, base: string, host: string) returns (srcset: seq<Source>)
    ensures srcset == Srcset(variants, UrlsBelow(docRoot, base, host))
  {
    var rootNormalized := ReplaceChar(TrimRight(docRoot, {'/'}), '\\', '/');
    srcset := [];
    for i := 0 to |variants|
      invariant srcset == Srcset(variants[..i], UrlsBelow(docRoot, base, host))
    {
      var (alias, path) := variants[i];
      var url := EntryUrl(docRoot, rootNormalized, path, base, host);
      SrcsetStep(variants, UrlsBelow(docRoot, base, host), i);
      srcset := srcset + [Source(alias, url)];
    }
    assert variants[..|variants|] == variants;
  }

  /** Lines 147-150: the URL of one written path. */
  method EntryUrl(docRoot: string, rootNormalized: string, path: string, base: string, host: string) returns (url: string)
    requires rootNormalized == DocRootNormalized(docRoot)
    ensures url == UrlsBelow(docRoot, base, host)(path)
  {
    var normalized := ReplaceChar(path, '\\', '/');
    var relative := TrimLeft(RemoveAll(normalized, rootNormalized), {'/'});
    url := Url.AppUrl(base, host, relative, true);
  }
}
