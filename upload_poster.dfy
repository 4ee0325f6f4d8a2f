/**
 * admin/upload_poster.php: an administrator uploads a poster for a movie.
 * After the CSRF token, the movie, the upload, its MIME type, its size and
 * its contents are checked in that order; the file name comes from the
 * movie's slug with every run of other characters replaced by '-'; the
 * variants are written by `images_save_variants`; the main file's path,
 * relative to the project root, is stored in the database, or, without a
 * database, in a JSON log naming the variants generated.
 *
 * The file system is abstracted: whether the poster directory exists or can
 * be made is `dirReady`, `realpath` and the project root are parameters, and
 * the image library, decoding and writing are those of `Images`.
 */
module UploadPoster {
  import opened Wrappers
  import opened Strings
  import opened Query
  import opened Movies
  import Auth
  import Images

  const Form: string := "admin_poster"
  const CsrfError: string := "Token CSRF non valido. Riprova."
  const NotFoundError: string := "Film non trovato."
  const UploadError: string := "Caricamento poster non riuscito."
  const FormatError: string := "Formato non supportato. Carica JPEG, PNG o WebP."
  const SizeError: string := "File troppo grande. Limite 6MB."
  const ReadError: string := "Impossibile leggere il file caricato."
  const DirectoryError: string := "Impossibile creare la cartella di destinazione."
  const VariantsError: string := "Impossibile generare le varianti del poster."

  /** Line 33. */
  const Allowed: seq<string> := ["image/jpeg", "image/png", "image/webp"]
  /** Line 36: 6 MiB. */
  const MaxSize: int := 6 * 1024 * 1024
  /** Lines 50-55: alias => maximum width. */
  const PosterSizes: seq<(string, int)> := [("w154", 154), ("w342", 342), ("w500", 500), ("w780", 780)]
  const UploadOk: int := 0

  /** Line 90. */
  function SuccessMessage(title: string): string {
    "Poster aggiornato per \"" + title + "\"."
  }

  // ---------------------------------------------------------------------------
  // The file name

  /** The characters `[a-z0-9-]` matches case-insensitively. */
  predicate NameChar(c: char) {
    'a' <= c <= 'z' || 'A' <= c <= 'Z' || '0' <= c <= '9' || c == '-'
  }

  /** What follows a run of characters outside the name set. */
  function SkipRun(s: string): (r: string)
    ensures |r| <= |s|
    ensures r == [] || NameChar(r[0])
  {
    if s != [] && !NameChar(s[0]) then SkipRun(s[1..]) else s
  }

  /** `preg_replace('/[^a-z0-9-]+/i', '-', s)`: each maximal run of other characters becomes one '-'. */
  function ReplaceRuns(s: string): (r: string)
    ensures |r| <= |s|
    ensures forall i :: 0 <= i < |r| ==> NameChar(r[i])
    decreases |s|
  {
    if s == [] then []
    else if NameChar(s[0]) then [s[0]] + ReplaceRuns(s[1..])
    else "-" + ReplaceRuns(SkipRun(s[1..]))
  }

  /** A name that needs no cleaning: only name characters, and no '-' at either end. */
  predicate Clean(s: string) {
    && (forall i :: 0 <= i < |s| ==> NameChar(s[i]))
    && (s == [] || (s[0] != '-' && s[|s| - 1] != '-'))
  }

  /** Lines 43-44: the runs replaced, then the '-' at either end trimmed. */
  function Sanitize(name: string): (r: string)
    ensures |r| <= |name|
  {
    TrimBy(ReplaceRuns(name), {'-'})
  }

  /** The replacement changes a string exactly when it holds a character outside the name set. */
  lemma {:induction false} ReplaceRunsIdentity(s: string)
    ensures ReplaceRuns(s) == s <==> forall i :: 0 <= i < |s| ==> NameChar(s[i])
    decreases |s|
  {
    if s != [] && NameChar(s[0]) {
      ReplaceRunsIdentity(s[1..]);
      assert forall i :: 0 <= i < |s| - 1 ==> s[1..][i] == s[i + 1];
      if ReplaceRuns(s) == s {
        assert ReplaceRuns(s[1..]) == ReplaceRuns(s)[1..];
      }
    }
  }

  /** A run of characters outside the name set is skipped whole, up to the next name character. */
  lemma {:induction false} SkipRunAll(run: string, y: string)
    requires forall i :: 0 <= i < |run| ==> !NameChar(run[i])
    requires y == [] || NameChar(y[0])
    ensures SkipRun(run + y) == y
    decreases |run|
  {
    if run != [] {
      assert (run + y)[1..] == run[1..] + y;
      SkipRunAll(run[1..], y);
    } else {
      assert run + y == y;
    }
  }

  /** A name character is kept as it is. */
  lemma CharKept(c: char, rest: string)
    requires NameChar(c)
    ensures ReplaceRuns([c] + rest) == [c] + ReplaceRuns(rest)
  {
    assert ([c] + rest)[1..] == rest;
  }

  /** A maximal run of characters outside the name set becomes a single '-'. */
  lemma RunReplaced(run: string, y: string)
    requires run != [] && forall i :: 0 <= i < |run| ==> !NameChar(run[i])
    requires y == [] || NameChar(y[0])
    ensures ReplaceRuns(run + y) == "-" + ReplaceRuns(y)
  {
    var s := run + y;
    assert !NameChar(s[0]);
    assert s[1..] == run[1..] + y;
    SkipRunAll(run[1..], y);
  }

  /**
   * Name characters are kept, and a maximal run of other characters after them
   * becomes a single '-': ReplaceRuns(x + run + y) == x + "-" + ReplaceRuns(y).
   */
  lemma {:induction false} ReplaceRunsRun(x: string, run: string, y: string)
    requires forall i :: 0 <= i < |x| ==> NameChar(x[i])
    requires run != [] && forall i :: 0 <= i < |run| ==> !NameChar(run[i])
    requires y == [] || NameChar(y[0])
    ensures ReplaceRuns(x + run + y) == x + "-" + ReplaceRuns(y)
    decreases |x|
  {
    var s := x + run + y;
    var tail := ReplaceRuns(y);
    if x == [] {
      assert s == run + y;
      RunReplaced(run, y);
    } else {
      var rest := x[1..] + run + y;
      assert s == [x[0]] + rest;
      CharKept(x[0], rest);
      ReplaceRunsRun(x[1..], run, y);
      assert [x[0]] + (x[1..] + "-" + tail) == x + "-" + tail;
    }
  }

  /** Two clean parts around a run of other characters are joined by one '-'. */
  lemma SanitizeRun(x: string, run: string, y: string)
    requires Clean(x) && Clean(y) && x != [] && y != []
    requires run != [] && forall i :: 0 <= i < |run| ==> !NameChar(run[i])
    ensures Sanitize(x + run + y) == x + "-" + y
  {
    ReplaceRunsRun(x, run, y);
    ReplaceRunsIdentity(y);
    var j := x + "-" + y;
    assert j[0] == x[0] && j[|j| - 1] == y[|y| - 1];
    TrimByIdentity(j, {'-'});
  }

  /** A cleaned name is clean. */
  lemma SanitizeClean(name: string)
    ensures Clean(Sanitize(name))
  {
    var runs := ReplaceRuns(name);
    var r := TrimBy(runs, {'-'});
    TrimByWithin(runs, {'-'});
    TrimByEnds(runs, {'-'});
    forall i | 0 <= i < |r| ensures NameChar(r[i]) {
      assert r[i] in runs;
      var j :| 0 <= j < |runs| && runs[j] == r[i];
    }
  }

  /** A name is left as it is exactly when it is clean. */
  lemma SanitizeIdentity(name: string)
    ensures Sanitize(name) == name <==> Clean(name)
  {
    if Clean(name) {
      ReplaceRunsIdentity(name);
      TrimByIdentity(name, {'-'});
    } else {
      SanitizeClean(name);
    }
  }

  /** Cleaning twice is cleaning once. */
  lemma SanitizeIdempotent(name: string)
    ensures Sanitize(Sanitize(name)) == Sanitize(name)
  {
    SanitizeClean(name);
    SanitizeIdentity(Sanitize(name));
  }

  /** Line 45: the movie's poster directory, under the admin directory `adminDir`. */
  function PosterDir(adminDir: string, id: int): string {
    adminDir + "/../assets/posters/" + IntToString(id)
  }

  /** Lines 43-49: the path, without extension, of the poster files. */
  function BasePath(adminDir: string, m: Movie): string {
    PosterDir(adminDir, m.id) + "/" + Sanitize(m.slug)
  }

  // ---------------------------------------------------------------------------
  // The stored path

  /** Line 62: `realpath($p) ?: $p`. */
  function BaseReal(baseAbsolute: string, realpath: string -> Option<string>): string {
    if Truthy(realpath(baseAbsolute)) then realpath(baseAbsolute).value else baseAbsolute
  }

  /** Lines 63-70: the path below the project root without leading '/', or the path itself when it is not below the root. */
  function Relative(baseReal: string, projectRoot: Option<string>): string {
    if Truthy(projectRoot) then
      var normalizedBase := ReplaceChar(baseReal, '\\', '/');
      var normalizedRoot := ReplaceChar(projectRoot.value, '\\', '/');
      if StartsWith(normalizedBase, normalizedRoot) then TrimLeft(normalizedBase[|normalizedRoot|..], {'/'})
      else baseReal
    else baseReal
  }

  /** Line 71: the relative path with '\' as '/'. */
  function RelativeBase(baseReal: string, projectRoot: Option<string>): (r: string)
    ensures '\\' !in r
    ensures |r| <= |baseReal|
  {
    ReplaceChar(Relative(baseReal, projectRoot), '\\', '/')
  }

  /** A file below the project root is stored by its path from the root. */
  lemma RelativeBelowRoot(root: string, rel: string)
    requires !Falsy(root) && '\\' !in root && '\\' !in rel
    ensures RelativeBase(root + "/" + rel, Some(root)) == TrimLeft(rel, {'/'})
  {
    var path := root + "/" + rel;
    ReplaceCharAbsent(root, '\\', '/');
    JoinedParts(root, rel);
    ReplaceCharAbsent(path, '\\', '/');
    assert StartsWith(ReplaceChar(path, '\\', '/'), ReplaceChar(root, '\\', '/'));
    assert Relative(path, Some(root)) == TrimLeft("/" + rel, {'/'});
    SlashIgnored(rel);
    NoBackslashTrimmed(rel);
    ReplaceCharAbsent(TrimLeft(rel, {'/'}), '\\', '/');
  }

  lemma JoinedParts(root: string, rel: string)
    requires '\\' !in root && '\\' !in rel
    ensures var path := root + "/" + rel;
            && '\\' !in path && path[..|root|] == root && path[|root|..] == "/" + rel
  {
    var path := root + "/" + rel;
    assert path == root + ("/" + rel);
    ConcatHalves(root, "/" + rel);
  }

  lemma NoBackslashTrimmed(rel: string)
    requires '\\' !in rel
    ensures '\\' !in TrimLeft(rel, {'/'})
  {
    SuffixAvoids(rel, TrimLeft(rel, {'/'}), '\\');
  }

  /** A character missing from a string is missing from its suffixes. */
  lemma SuffixAvoids(s: string, r: string, c: char)
    requires |r| <= |s| && r == s[|s| - |r|..] && c !in s
    ensures c !in r
  {
    forall i | 0 <= i < |r| ensures r[i] != c {
      assert r[i] == s[|s| - |r| + i];
    }
  }

  lemma SlashIgnored(rel: string)
    ensures TrimLeft("/" + rel, {'/'}) == TrimLeft(rel, {'/'})
  {
    assert ("/" + rel)[1..] == rel;
  }

  /** A file outside the project root, or with no root known, is stored by its own path. */
  lemma RelativeOutsideRoot(baseReal: string, projectRoot: Option<string>)
    requires !Truthy(projectRoot)
             || !StartsWith(ReplaceChar(baseReal, '\\', '/'), ReplaceChar(projectRoot.value, '\\', '/'))
    ensures RelativeBase(baseReal, projectRoot) == ReplaceChar(baseReal, '\\', '/')
  {
  }

  // ---------------------------------------------------------------------------
  // What is recorded

  /** Lines 81-83: the aliases of the variants, without `_base`. */
  function GeneratedKeys(variants: Params): (ks: seq<string>)
    requires UniqueKeys(variants)
    ensures Images.BaseKey !in ks
    ensures forall k :: k in ks <==> k in Keys(variants) && k != Images.BaseKey
  {
    var rest := Remove(variants, Images.BaseKey);
    assert forall k :: k in Keys(rest) <==> k in Keys(variants) && k != Images.BaseKey by {
      forall k ensures k in Keys(rest) <==> k in Keys(variants) && k != Images.BaseKey {
        assert k in Keys(rest) <==> Lookup(rest, k).Some?;
        assert k in Keys(variants) <==> Lookup(variants, k).Some?;
      }
    }
    Keys(rest)
  }

  /** The poster aliases. */
  function PosterAliases(): (as_: seq<string>)
    ensures as_ == ["w154", "w342", "w500", "w780"]
  {
    Images.Aliases(PosterSizes)
  }

  /** The poster aliases are distinct and none is `_base`. */
  lemma PosterAliasesDistinct()
    ensures Images.BaseKey !in PosterAliases()
    ensures forall i, j :: 0 <= i < j < |PosterAliases()| ==> PosterAliases()[i] != PosterAliases()[j]
  {
  }

  /** The variants written for a poster, whatever the library: `_base` then the four sizes. */
  lemma PosterVariants(basePath: string, ext: string)
    ensures Keys(Images.Variants(basePath, PosterAliases(), ext)) == [Images.BaseKey] + PosterAliases()
    ensures Lookup(Images.Variants(basePath, PosterAliases(), ext), Images.BaseKey) == Some(basePath + "." + ext)
    ensures GeneratedKeys(Images.Variants(basePath, PosterAliases(), ext)) == PosterAliases()
  {
    var aliases := PosterAliases();
    var v := Images.Variants(basePath, aliases, ext);
    PosterAliasesDistinct();
    Images.VariantsKeys(basePath, aliases, ext);
    Images.VariantsBase(basePath, aliases, ext);
    assert Keys(v)[0] == v[0].0;
    RemoveFirst(v);
    KeysTail(v);
  }

  lemma KeysTail(q: Params)
    requires q != []
    ensures Keys(q[1..]) == Keys(q)[1..]
  {
  }

  /** A poster recorded without a database: lines 84-88. */
  datatype ManualLog = ManualLog(movieId: int, posterPathLocal: string, generated: seq<string>)

  /** Where posters are recorded: `poster_path_local` per movie id, or the log files. */
  class PosterStore {
    /** `movies_supports_database()`. */
    const database: bool
    var localPaths: map<int, string>
    var logs: seq<ManualLog>

    constructor(database: bool, localPaths: map<int, string>)
      ensures this.database == database && this.localPaths == localPaths && logs == []
    {
      this.database := database;
      this.localPaths := localPaths;
      logs := [];
    }

    /** Lines 72-89. */
    method Record(id: int, relativeBase: string, variants: Params)
      requires UniqueKeys(variants)
      modifies this
      ensures database ==> localPaths == old(localPaths)[id := relativeBase] && logs == old(logs)
      ensures !database ==> localPaths == old(localPaths)
                            && logs == old(logs) + [ManualLog(id, relativeBase, GeneratedKeys(variants))]
    {
      if database {
        localPaths := localPaths[id := relativeBase];
      } else {
        var variantData := Remove(variants, Images.BaseKey);
        var variantKeys := Keys(variantData);
        logs := logs + [ManualLog(id, relativeBase, variantKeys)];
      }
    }
  }

  // ---------------------------------------------------------------------------
  // The request

  /** `$_FILES['poster']`: the upload error code, the detected MIME type, the size, and the contents when readable. */
  datatype PosterFile = PosterFile(error: int, mime: string, size: int, binary: Option<string>)

  datatype Outcome = Error(error: string) | Updated(message: string)

  /** Lines 29-47: the first check the upload fails before the variants are written, if any. */
  function Rejection(file: Option<PosterFile>, dirReady: bool): (e: Option<string>)
    ensures e.None? <==> (file.Some? && file.value.error == UploadOk && file.value.mime in Allowed
                          && file.value.size <= MaxSize && file.value.binary.Some? && dirReady)
    ensures file.None? ==> e == Some(UploadError)
  {
    if file.None? || file.value.error != UploadOk then Some(UploadError)
    else if file.value.mime !in Allowed then Some(FormatError)
    else if file.value.size > MaxSize then Some(SizeError)
    else if file.value.binary.None? then Some(ReadError)
    else if !dirReady then Some(DirectoryError)
    else None
  }

  /** Whether `images_save_variants` succeeds for this poster. */
  predicate Saved(binary: string, basePath: string, lib: Images.Library, decodes: bool, writes: string -> bool) {
    binary != "" && (lib == Images.NoLibrary || decodes)
    && Images.AllWritten(basePath, PosterAliases(), Images.Extension(lib), writes)
  }

  /** The path recorded for a poster saved at `basePath`. */
  function StoredPath(basePath: string, lib: Images.Library, realpath: string -> Option<string>, projectRoot: Option<string>): string {
    RelativeBase(BaseReal(basePath + "." + Images.Extension(lib), realpath), projectRoot)
  }

  /**
   * Lines 25-91 for the movie found: the checks, the variants, the stored
   * path, and the record.
   */
  method Store(m: Movie, file: Option<PosterFile>, adminDir: string, dirReady: bool,
               lib: Images.Library, decodes: bool, writes: string -> bool,
               realpath: string -> Option<string>, projectRoot: Option<string>, store: PosterStore)
    returns (o: Outcome)
    modifies store
    ensures Rejection(file, dirReady).Some? ==> o == Error(Rejection(file, dirReady).value)
    ensures (Rejection(file, dirReady).None?
             && !Saved(file.value.binary.value, BasePath(adminDir, m), lib, decodes, writes)) ==> o == Error(VariantsError)
    ensures o.Error? ==> store.localPaths == old(store.localPaths) && store.logs == old(store.logs)
    ensures o.Updated? ==>
              && Rejection(file, dirReady).None?
              && Saved(file.value.binary.value, BasePath(adminDir, m), lib, decodes, writes)
              && o == Updated(SuccessMessage(m.title))
              && var path := StoredPath(BasePath(adminDir, m), lib, realpath, projectRoot);
                 && (store.database ==> store.localPaths == old(store.localPaths)[m.id := path] && store.logs == old(store.logs))
                 && (!store.database ==> store.localPaths == old(store.localPaths)
                                         && store.logs == old(store.logs) + [ManualLog(m.id, path, PosterAliases())])
    ensures o.Error? || o.Updated?
  {
    if file.None? || file.value.error != UploadOk {
      return Error(UploadError);
    }
    var fileType := file.value.mime;
    if fileType !in Allowed {
      return Error(FormatError);
    }
    if file.value.size > MaxSize {
      return Error(SizeError);
    }
    if file.value.binary.None? {
      return Error(ReadError);
    }
    var binary := file.value.binary.value;
    var sanitized := Sanitize(m.slug);
    var posterDir := PosterDir(adminDir, m.id);
    if !dirReady {
      return Error(DirectoryError);
    }
    var basePath := posterDir + "/" + sanitized;
    var variants := Images.SaveVariants(binary, basePath, PosterSizes, lib, decodes, writes);
    if variants.None? {
      return Error(VariantsError);
    }
    PosterVariants(basePath, Images.Extension(lib));
    var baseAbsolute := Lookup(variants.value, Images.BaseKey).GetOr(basePath + ".webp");
    var relativeBase := RelativeBase(BaseReal(baseAbsolute, realpath), projectRoot);
    store.Record(m.id, relativeBase, variants.value);
    o := Updated(SuccessMessage(m.title));
  }

  /** Line 25: `(int) ($_POST['movie_id'] ?? 0)`. */
  function MovieId(post: Params): int {
    ToInt(Lookup(post, "movie_id").GetOr("0"))
  }

  /**
   * Lines 21-91 for a POST: the CSRF token, then the movie (looked up only
   * for a positive id), then the rest.
   */
  method Post(session: Auth.Session, token: Option<string>, post: Params, ms: seq<Movie>, prims: Prims,
              file: Option<PosterFile>, adminDir: string, dirReady: bool,
              lib: Images.Library, decodes: bool, writes: string -> bool,
              realpath: string -> Option<string>, projectRoot: Option<string>, store: PosterStore)
    returns (o: Outcome)
    modifies session, store
    // the CSRF token is checked first, and spent when it is accepted
    ensures session.tokens == Auth.Consume(old(session.tokens), Form, token).1
    ensures !Auth.Consume(old(session.tokens), Form, token).0 ==> o == Error(CsrfError)
    // then the movie, the upload, the variants and the record
    ensures Auth.Consume(old(session.tokens), Form, token).0 ==>
              MovieOutcome(o, MovieId(post), ms, prims, file, adminDir, dirReady, lib, decodes, writes, realpath, projectRoot,
                           store.database, old(store.localPaths), old(store.logs), store.localPaths, store.logs)
    ensures o.Error? ==> store.localPaths == old(store.localPaths) && store.logs == old(store.logs)
  {
    var valid := session.Verify(Form, token);
    if !valid {
      return Error(CsrfError);
    }
    o := PostMovie(MovieId(post), ms, prims, file, adminDir, dirReady, lib, decodes, writes, realpath, projectRoot, store);
  }

  /**
   * What a POST with an accepted token does for the movie id `id`: not found
   * (no positive id, or no movie with it), a check error, the variants error,
   * or the poster recorded for the first movie with that id, under its stored
   * path, in the database or in a manual log. `oldPaths`/`oldLogs` are the
   * store before the request, `paths`/`logs` after it.
   */
  ghost predicate MovieOutcome(o: Outcome, id: int, ms: seq<Movie>, prims: Prims,
                               file: Option<PosterFile>, adminDir: string, dirReady: bool,
                               lib: Images.Library, decodes: bool, writes: string -> bool,
                               realpath: string -> Option<string>, projectRoot: Option<string>,
                               database: bool, oldPaths: map<int, string>, oldLogs: seq<ManualLog>,
                               paths: map<int, string>, logs: seq<ManualLog>)
  {
    && ((id <= 0 || forall m :: m in ms ==> m.id != id) ==> o == Error(NotFoundError))
    && ((id > 0 && (exists m :: m in ms && m.id == id) && Rejection(file, dirReady).Some?)
        ==> o == Error(Rejection(file, dirReady).value))
    && (forall k :: (id > 0 && FirstWithId(ms, k, id) && Rejection(file, dirReady).None?
                     && !Saved(file.value.binary.value, BasePath(adminDir, Hydrate(ms[k], prims)), lib, decodes, writes))
                    ==> o == Error(VariantsError))
    && (o.Updated? ==>
          && id > 0
          && exists k :: FirstWithId(ms, k, id)
                         && var m := Hydrate(ms[k], prims);
                            var path := StoredPath(BasePath(adminDir, m), lib, realpath, projectRoot);
                            && o == Updated(SuccessMessage(m.title))
                            && Rejection(file, dirReady).None?
                            && Saved(file.value.binary.value, BasePath(adminDir, m), lib, decodes, writes)
                            && (database ==> paths == oldPaths[id := path] && logs == oldLogs)
                            && (!database ==> paths == oldPaths && logs == oldLogs + [ManualLog(id, path, PosterAliases())]))
    && (o.Updated? && database ==> paths.Keys == oldPaths.Keys + {id})
    && (o.Error? ==> paths == oldPaths && logs == oldLogs)
  }

  /** Lines 23-91 once the token is accepted: the movie with id `id`, then its poster. */
  method PostMovie(id: int, ms: seq<Movie>, prims: Prims,
                   file: Option<PosterFile>, adminDir: string, dirReady: bool,
                   lib: Images.Library, decodes: bool, writes: string -> bool,
                   realpath: string -> Option<string>, projectRoot: Option<string>, store: PosterStore)
    returns (o: Outcome)
    modifies store
    ensures MovieOutcome(o, id, ms, prims, file, adminDir, dirReady, lib, decodes, writes, realpath, projectRoot,
                         store.database, old(store.localPaths), old(store.logs), store.localPaths, store.logs)
  {
    var movie: Option<Movie> := None;
    if id > 0 {
      movie := Find(ms, id, prims);
    }
    if movie.None? {
      return Error(NotFoundError);
    }
    var k :| FirstWithId(ms, k, id) && movie.value == Hydrate(ms[k], prims);
    FirstWithIdUnique(ms, id);
    assert movie.value.id == id;
    o := Store(movie.value, file, adminDir, dirReady, lib, decodes, writes, realpath, projectRoot, store);
    assert o.Updated? ==> FirstWithId(ms, k, id) && movie.value == Hydrate(ms[k], prims);
  }

  /** ms[k] is the first movie of ms with that id, the one `movies_find` returns. */
  predicate FirstWithId(ms: seq<Movie>, k: int, id: int) {
    0 <= k < |ms| && ms[k].id == id && forall j :: 0 <= j < k ==> ms[j].id != id
  }

  /** There is at most one first movie with a given id. */
  lemma FirstWithIdUnique(ms: seq<Movie>, id: int)
    ensures forall k, k' :: FirstWithId(ms, k, id) && FirstWithId(ms, k', id) ==> k == k'
  {
  }
}
