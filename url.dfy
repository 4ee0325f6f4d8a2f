/**
 * The URL builders of lib/url.php: the application's base path and host (both
 * derived from APP_BASE_PATH / APP_URL and remembered after the first call),
 * and the relative and absolute URLs built from them.
 *
 * PHP's `parse_url` is a parameter: it yields None where PHP yields false, and
 * otherwise the components it found.
 */
module Url {
  import opened Wrappers
  import opened Strings

  /** The components `parse_url` may report. */
  datatype UrlParts = UrlParts(scheme: Option<string>, host: Option<string>, port: Option<int>, path: Option<string>)

  type Parser = string -> Option<UrlParts>

  /** The environment values the builders read: APP_BASE_PATH and APP_URL. */
  datatype Env = Env(basePath: Option<string>, appUrl: Option<string>)

  /** True when no two consecutive characters of s are both '/'. */
  predicate NoDoubleSlash(s: string) {
    forall i :: 0 <= i < |s| - 1 ==> !(s[i] == '/' && s[i + 1] == '/')
  }

  /** `app_base_path` without the memo: "" or a '/'-prefixed path. */
  function BasePath(env: Env, parse: Parser): (b: string)
    ensures b == "" || b[0] == '/'
    // a configured APP_BASE_PATH wins, with '/', ' ' and '\' trimmed from its ends
    ensures TrimBy(env.basePath.GetOr(""), {'/', ' ', '\\'}) != "" ==>
      b == "/" + TrimBy(env.basePath.GetOr(""), {'/', ' ', '\\'})
    // otherwise a non-root path of APP_URL, trimmed of '/'
    ensures (TrimBy(env.basePath.GetOr(""), {'/', ' ', '\\'}) == "" && AppUrlPath(env, parse).Some?) ==>
      b == "/" + TrimBy(AppUrlPath(env, parse).value, {'/'})
    // and "" when neither is there
    ensures (TrimBy(env.basePath.GetOr(""), {'/', ' ', '\\'}) == "" && AppUrlPath(env, parse).None?) ==> b == ""
  {
    var configured := TrimBy(env.basePath.GetOr(""), {'/', ' ', '\\'});
    if configured != "" then "/" + configured
    else
      var p := AppUrlPath(env, parse);
      if p.Some? then "/" + TrimBy(p.value, {'/'}) else ""
  }

  /** The path of a truthy APP_URL, when it parses and the path is neither "" nor "/". */
  function AppUrlPath(env: Env, parse: Parser): (p: Option<string>)
    ensures p.Some? <==> (Truthy(env.appUrl) && parse(env.appUrl.value).Some?
                          && parse(env.appUrl.value).value.path.Some?
                          && parse(env.appUrl.value).value.path.value !in {"", "/"})
    ensures p.Some? ==> p == parse(env.appUrl.value).value.path
  {
    if Truthy(env.appUrl) && parse(env.appUrl.value).Some? then
      var path := parse(env.appUrl.value).value.path;
      if path.Some? && path.value != "" && path.value != "/" then path else None
    else None
  }

  /** `app_host_url` without the memo. */
  function HostUrl(env: Env, parse: Parser): (h: string)
    // an empty APP_URL gives no host
    ensures env.appUrl.GetOr("") == "" ==> h == ""
    // when no host parses, APP_URL with its trailing '/' removed
    ensures (env.appUrl.GetOr("") != "" && (parse(env.appUrl.value).None? || parse(env.appUrl.value).value.host.None?)) ==>
      h == TrimRight(env.appUrl.value, {'/'})
    // otherwise scheme (default http) :// host, then :port when there is one
    ensures (env.appUrl.GetOr("") != "" && parse(env.appUrl.value).Some? && parse(env.appUrl.value).value.host.Some?) ==>
      var u := parse(env.appUrl.value).value;
      && StartsWith(h, u.scheme.GetOr("http") + "://" + u.host.value)
      && (u.port.None? ==> h == u.scheme.GetOr("http") + "://" + u.host.value)
      && (u.port.Some? ==> h == u.scheme.GetOr("http") + "://" + u.host.value + ":" + IntToString(u.port.value))
  {
    var appUrl := env.appUrl.GetOr("");
    if appUrl == "" then ""
    else
      var parsed := parse(appUrl);
      if parsed.None? || parsed.value.host.None? then TrimRight(appUrl, {'/'})
      else
        var host := parsed.value.scheme.GetOr("http") + "://" + parsed.value.host.value;
        if parsed.value.port.Some? then host + ":" + IntToString(parsed.value.port.value) else host
  }

  /** `preg_replace('#//+#', '/', s)`: every run of slashes becomes one. */
  function CollapseSlashes(s: string): (r: string)
    ensures r == SurplusDropped(s)
    ensures NoDoubleSlash(r)
    ensures |r| <= |s|
    ensures (r == "") <==> (s == "")
    ensures s != "" ==> r[0] == s[0]
    ensures s != "" ==> r[|r| - 1] == s[|s| - 1]
  {
    if |s| <= 1 then
      assert |s| == 1 ==> s[..0] == [];
      s
    else
      SurplusDroppedFront(s);
      if s[0] == '/' && s[1] == '/' then CollapseSlashes(s[1..])
      else [s[0]] + CollapseSlashes(s[1..])
  }

  /** Character i of s is a '/' right after another '/'. */
  predicate Surplus(s: string, i: int)
    requires 0 <= i < |s|
  {
    i > 0 && s[i] == '/' && s[i - 1] == '/'
  }

  /**
   * The characters of s in order, without those that are a '/' right after
   * another '/': what is left of every run of slashes is its first one.
   */
  function SurplusDropped(s: string): string {
    if s == [] then []
    else SurplusDropped(s[..|s| - 1]) + (if Surplus(s, |s| - 1) then [] else [s[|s| - 1]])
  }

  /** SurplusDropped read from the front: a "//" at the start loses its first '/', any other first character stays. */
  lemma {:induction false} SurplusDroppedFront(s: string)
    requires |s| >= 2
    ensures SurplusDropped(s) == if s[0] == '/' && s[1] == '/' then SurplusDropped(s[1..]) else [s[0]] + SurplusDropped(s[1..])
    decreases |s|
  {
    var init := s[..|s| - 1];
    if |s| == 2 {
      assert init == [s[0]] && s[1..] == [s[1]];
      assert s[1..][..0] == [];
      assert init[..0] == [];
    } else {
      SurplusDroppedFront(init);
      assert init[1..] == s[1..][..|s[1..]| - 1];
      assert Surplus(s[1..], |s[1..]| - 1) == Surplus(s, |s| - 1);
    }
  }

  /** Collapsing is the identity on a string that already has no "//". */
  lemma {:induction false} CollapseSlashesNoop(s: string)
    requires NoDoubleSlash(s)
    ensures CollapseSlashes(s) == s
  {
    if |s| > 1 {
      CollapseSlashesNoop(s[1..]);
    }
  }

  /** A base path as `app_base_path` builds it from a clean setting: "" or '/' then segments, no "//", no trailing '/'. */
  predicate CleanBase(base: string) {
    base == "" || (base[0] == '/' && base[|base| - 1] != '/' && NoDoubleSlash(base))
  }

  /** A relative path of non-empty segments: no '/' at either end and no "//". */
  predicate CleanPath(path: string) {
    path != "" && path[0] != '/' && path[|path| - 1] != '/' && NoDoubleSlash(path)
  }

  /** Joining two strings without "//" makes none unless the join itself is "//". */
  lemma NoDoubleSlashJoin(a: string, b: string)
    requires NoDoubleSlash(a) && NoDoubleSlash(b)
    requires a == "" || b == "" || a[|a| - 1] != '/' || b[0] != '/'
    ensures NoDoubleSlash(a + b)
  {
    var ab := a + b;
    forall i | 0 <= i < |ab| - 1 ensures !(ab[i] == '/' && ab[i + 1] == '/') {
      if i + 1 < |a| {
        assert ab[i] == a[i] && ab[i + 1] == a[i + 1];
      } else if i >= |a| {
        assert ab[i] == b[i - |a|] && ab[i + 1] == b[i + 1 - |a|];
      }
    }
  }

  /** A clean base, '/', and a clean path join into a string without "//" that ends as the path does. */
  lemma CleanJoin(base: string, path: string)
    requires CleanBase(base) && CleanPath(path)
    ensures var j := base + "/" + path; NoDoubleSlash(j) && j[|j| - 1] != '/' && j != "/"
  {
    NoDoubleSlashJoin(base, "/");
    NoDoubleSlashJoin(base + "/", path);
  }

  /** `app_path` for a given base path. */
  function AppPath(base: string, path: string): (r: string)
    ensures r != ""
    // the empty path names the base itself, or the root when there is no base
    ensures (path == "" && base != "") ==> r == base
    ensures (path == "" && base == "") ==> r == "/"
    // a path of segments, once its leading '/' are gone, is appended to a clean base after one '/'
    ensures CleanBase(base) && CleanPath(TrimLeft(path, {'/'})) ==> r == base + "/" + TrimLeft(path, {'/'})
    // otherwise: no "//", and a trailing '/' only for the root
    ensures (path != "" || base == "") ==> NoDoubleSlash(r) && (r[|r| - 1] == '/' ==> r == "/")
    // and a leading '/' whenever the base path has one (as `app_base_path` guarantees)
    ensures (path != "" || base == "") && (base == "" || base[0] == '/') ==> r[0] == '/'
  {
    if path == "" && base != "" then base
    else
      assert path == "" ==> Combine(base, path) == "/" by {
        if path == "" {
          assert TrimLeft(path, {'/'}) == "";
          CollapseSlashesNoop("/");
        }
      }
      DropTrailingSlash(Combine(base, path))
  }

  /** A path with one trailing '/' names the same place as the path without it. */
  lemma AppPathTrailingSlash(base: string, path: string)
    requires CleanBase(base) && CleanPath(path)
    ensures AppPath(base, path + "/") == base + "/" + path
  {
    var p := path + "/";
    var j := base + "/" + path;
    CleanJoin(base, path);
    NoDoubleSlashJoin(j, "/");
    assert Combine(base, p) == j + "/" by {
      TrimLeftAt(p, {'/'}, 0);
      assert base + "/" + TrimLeft(p, {'/'}) == j + "/";
      CollapseSlashesNoop(j + "/");
    }
    assert DropTrailingSlash(j + "/") == j by {
      assert (j + "/")[..|j + "/"| - 1] == j;
    }
  }

  /** The base and the path with one leading '/', every run of slashes collapsed. */
  function Combine(base: string, path: string): (c: string)
    ensures c != "" && NoDoubleSlash(c)
    ensures c[0] == if base == "" then '/' else base[0]
    // with nothing to collapse, the base, one '/' and the path without its leading '/'
    ensures CleanBase(base) && CleanPath(TrimLeft(path, {'/'})) ==> c == base + "/" + TrimLeft(path, {'/'})
  {
    var joined := base + "/" + TrimLeft(path, {'/'});
    assert joined[0] == if base == "" then '/' else base[0];
    CleanJoinKept(base, TrimLeft(path, {'/'}));
    CollapseSlashes(joined)
  }

  /** A clean base joined to a clean path has nothing to collapse. */
  lemma CleanJoinKept(base: string, path: string)
    ensures CleanBase(base) && CleanPath(path) ==> CollapseSlashes(base + "/" + path) == base + "/" + path
  {
    if CleanBase(base) && CleanPath(path) {
      CleanJoin(base, path);
      CollapseSlashesNoop(base + "/" + path);
    }
  }

  /**
   * `if ($c !== '/' && str_ends_with($c, '/')) $c = rtrim($c, '/')`, then ''
   * becomes '/', on a string that has no "//".
   */
  function DropTrailingSlash(c: string): (t: string)
    requires c != "" && NoDoubleSlash(c)
    ensures t != "" && NoDoubleSlash(t) && (t[|t| - 1] == '/' ==> t == "/")
    ensures t[0] == c[0]
    // exactly the final '/' goes, and only when c is not the root
    ensures (c == "/" || c[|c| - 1] != '/') ==> t == c
    ensures (c != "/" && c[|c| - 1] == '/') ==> t == c[..|c| - 1]
  {
    if c != "/" && c[|c| - 1] == '/' then
      TrimOneSlash(c);
      TrimRight(c, {'/'})
    else c
  }

  /** On a string without "//", rtrim of '/' removes exactly the final '/'. */
  lemma TrimOneSlash(s: string)
    requires |s| >= 2 && s[|s| - 1] == '/' && NoDoubleSlash(s)
    ensures TrimRight(s, {'/'}) == s[..|s| - 1]
    ensures s[|s| - 2] != '/'
  {
    assert s[|s| - 2] != '/';
    var r := TrimRight(s, {'/'});
    assert |r| >= |s| - 1;
  }

  /** A leading run of '/' on a non-empty path does not change `app_path`. */
  lemma LeadingSlashesIgnored(base: string, path: string)
    requires path != ""
    ensures AppPath(base, "/" + path) == AppPath(base, path)
  {
    assert TrimLeft("/" + path, {'/'}) == TrimLeft(path, {'/'}) by {
      TrimLeftCons('/', path, {'/'});
    }
  }

  /** TrimLeft removes exactly the prefix up to the first character outside cs. */
  lemma TrimLeftAt(s: string, cs: set<char>, p: nat)
    requires p <= |s| && (forall i :: 0 <= i < p ==> s[i] in cs) && (p == |s| || s[p] !in cs)
    ensures TrimLeft(s, cs) == s[p..]
  {
  }

  lemma TrimLeftCons(c: char, s: string, cs: set<char>)
    requires c in cs
    ensures TrimLeft([c] + s, cs) == TrimLeft(s, cs)
  {
    var b := TrimLeft(s, cs);
    var p := |s| - |b|;
    TrimLeftAt([c] + s, cs, p + 1);
    assert ([c] + s)[p + 1..] == s[p..];
  }

  /** `app_url` for a given base path and host. */
  function AppUrl(base: string, host: string, path: string, absolute: bool): (r: string)
    // relative URLs and absolute ones without a host are the path alone
    ensures (!absolute || host == "") ==> r == AppPath(base, path)
    // the root of an absolute URL is host + '/'
    ensures (absolute && host != "" && AppPath(base, path) == "/") ==> r == host + "/"
    // any other path is appended to the host without its trailing '/'
    ensures (absolute && host != "" && AppPath(base, path) != "/") ==>
      r == TrimRight(host, {'/'}) + AppPath(base, path) && EndsWith(r, AppPath(base, path))
  {
    var relative := AppPath(base, path);
    if !absolute then relative
    else if host == "" then relative
    else if relative == "/" then host + "/"
    else TrimRight(host, {'/'}) + relative
  }

  /** The directory `asset_url` serves from. */
  const AssetsDir: string := "assets"

  /** `asset_url`: a URL under the `assets/` directory. */
  function AssetUrl(base: string, host: string, path: string, absolute: bool): (r: string)
    ensures !absolute ==> r == AppPath(base, AssetsDir + "/" + TrimLeft(path, {'/'}))
    ensures !absolute ==> NoDoubleSlash(r)
    ensures !absolute && (base == "" || base[0] == '/') ==> r[0] == '/'
    // with a clean base and asset path: the host (when absolute), the base, "/assets", then '/' and the path
    ensures CleanBase(base) && (TrimLeft(path, {'/'}) == "" || CleanPath(TrimLeft(path, {'/'}))) ==>
      r == (if absolute && host != "" then TrimRight(host, {'/'}) else "") +
           (base + "/" + AssetsDir + (if TrimLeft(path, {'/'}) == "" then "" else "/" + TrimLeft(path, {'/'})))
  {
    AssetUrlExact(base, host, TrimLeft(path, {'/'}), absolute);
    AppUrl(base, host, AssetsDir + "/" + TrimLeft(path, {'/'}), absolute)
  }

  lemma AssetUrlExact(base: string, host: string, asset: string, absolute: bool)
    ensures CleanBase(base) && (asset == "" || CleanPath(asset)) ==>
      AppUrl(base, host, AssetsDir + "/" + asset, absolute) ==
        (if absolute && host != "" then TrimRight(host, {'/'}) else "") +
        (base + "/" + AssetsDir + (if asset == "" then "" else "/" + asset))
  {
    if CleanBase(base) && (asset == "" || CleanPath(asset)) {
      AssetPathExact(base, asset);
      var tail := if asset == "" then "" else "/" + asset;
      var rel := AppPath(base, AssetsDir + "/" + asset);
      assert rel == base + "/" + AssetsDir + tail;
      assert |rel| > 1;
      if absolute && host != "" {
        assert AppUrl(base, host, AssetsDir + "/" + asset, absolute) == TrimRight(host, {'/'}) + rel;
      } else {
        assert AppUrl(base, host, AssetsDir + "/" + asset, absolute) == rel;
        assert "" + rel == rel;
      }
    }
  }

  /** The path of an asset under a clean base: base + "/assets", then '/' and the asset path if any. */
  lemma AssetPathExact(base: string, asset: string)
    ensures CleanBase(base) && (asset == "" || CleanPath(asset)) ==>
      AppPath(base, AssetsDir + "/" + asset) == base + "/" + AssetsDir + (if asset == "" then "" else "/" + asset)
  {
    if CleanBase(base) && asset == "" {
      assert CleanPath(AssetsDir);
      AppPathTrailingSlash(base, AssetsDir);
      assert AssetsDir + "/" + asset == AssetsDir + "/";
    } else if CleanBase(base) && CleanPath(asset) {
      AssetUnder(base, asset);
    }
  }

  lemma AssetUnder(base: string, asset: string)
    requires CleanBase(base) && CleanPath(asset)
    ensures AppPath(base, AssetsDir + "/" + asset) == base + "/" + AssetsDir + "/" + asset
  {
    var p := AssetsDir + "/" + asset;
    assert p[0] == 'a';
    TrimLeftAt(p, {'/'}, 0);
    assert CleanPath(AssetsDir);
    NoDoubleSlashJoin(AssetsDir, "/");
    NoDoubleSlashJoin(AssetsDir + "/", asset);
    assert CleanPath(p);
    assert base + "/" + p == base + "/" + AssetsDir + "/" + asset;
  }

  /** Leading slashes of an asset path do not matter. */
  lemma AssetLeadingSlashIgnored(base: string, host: string, path: string, absolute: bool)
    ensures AssetUrl(base, host, "/" + path, absolute) == AssetUrl(base, host, path, absolute)
  {
    TrimLeftCons('/', path, {'/'});
  }

  /**
   * The memo of `app_base_path` and `app_host_url`: each is computed from the
   * environment on first use and then returned unchanged.
   */
  class UrlConfig {
    const env: Env
    const parse: Parser
    var basePath: Option<string>
    var host: Option<string>

    /** The remembered values are the ones the environment determines. */
    ghost predicate Valid()
      reads this
    {
      && (basePath.Some? ==> basePath.value == BasePath(env, parse))
      && (host.Some? ==> host.value == HostUrl(env, parse))
    }

    constructor(env: Env, parse: Parser)
      ensures Valid() && this.env == env && this.parse == parse
      ensures basePath.None? && host.None?
    {
      this.env := env;
      this.parse := parse;
      basePath := None;
      host := None;
    }

    method AppBasePath() returns (b: string)
      requires Valid()
      modifies this
      ensures Valid()
      ensures b == BasePath(env, parse)
      ensures basePath == Some(b) && host == old(host)
    {
      if basePath.Some? {
        return basePath.value;
      }
      b := BasePath(env, parse);
      basePath := Some(b);
    }

    method AppHostUrl() returns (h: string)
      requires Valid()
      modifies this
      ensures Valid()
      ensures h == HostUrl(env, parse)
      ensures host == Some(h) && basePath == old(basePath)
    {
      if host.Some? {
        return host.value;
      }
      h := HostUrl(env, parse);
      host := Some(h);
    }

    /** `app_url` through the memo. */
    method Url(path: string, absolute: bool) returns (r: string)
      requires Valid()
      modifies this
      ensures Valid()
      ensures r == AppUrl(BasePath(env, parse), HostUrl(env, parse), path, absolute)
    {
      var base := AppBasePath();
      var h := "";
      if absolute {
        h := AppHostUrl();
      }
      r := AppUrl(base, h, path, absolute);
    }
  }
}
