/**
 * assets/js/main.js: the browser side of the catalogue. Paths are resolved
 * against the configured base, the theme is read from local storage or the
 * system preference and toggled by a button, the navbar burger opens and
 * closes the menu, search terms of at least three characters (or none)
 * refresh the grid from api/movies.php, text is HTML-escaped before it is put
 * into markup, and a watchlist of movie ids is kept in local storage.
 *
 * The page is a class whose fields are the DOM attributes and storage
 * entries the handlers change; each click handler is a method.
 */
module MainJs {
  import opened Wrappers
  import opened Strings
  import opened Query

  // ---------------------------------------------------------------------------
  // resolvePath (lines 1-11)

  /** Lines 2-3: a configured base when it is a string, else "". */
  function ConfigString(v: Option<string>): string {
    v.GetOr("")
  }

  /** Line 6: the path with a leading '/'. */
  function Normalize(relativePath: string): (n: string)
    ensures StartsWith(n, "/")
    ensures StartsWith(relativePath, "/") ==> n == relativePath
    ensures !StartsWith(relativePath, "/") ==> n[1..] == relativePath
  {
    if StartsWith(relativePath, "/") then relativePath else "/" + relativePath
  }

  /** Normalizing twice adds nothing. */
  lemma NormalizeIdempotent(relativePath: string)
    ensures Normalize(Normalize(relativePath)) == Normalize(relativePath)
  {
  }

  /** Lines 5-11: the absolute base when it is not empty, else the base path, then the normalized path. */
  function ResolvePath(absoluteBase: string, basePath: string, relativePath: string): (u: string)
    ensures var prefix := if absoluteBase != "" then absoluteBase else basePath;
            StartsWith(u, prefix) && u[|prefix|..] == Normalize(relativePath)
  {
    var normalized := Normalize(relativePath);
    var u := (if absoluteBase != "" then absoluteBase else basePath) + normalized;
    ConcatHalves(if absoluteBase != "" then absoluteBase else basePath, normalized);
    u
  }

  /** A path with or without its leading '/' resolves to the same URL. */
  lemma ResolveIgnoresLeadingSlash(absoluteBase: string, basePath: string, path: string)
    requires !StartsWith(path, "/")
    ensures ResolvePath(absoluteBase, basePath, path) == ResolvePath(absoluteBase, basePath, "/" + path)
  {
    assert StartsWith("/" + path, "/");
  }

  // ---------------------------------------------------------------------------
  // Theme (lines 13-32)

  /** Lines 17-21: the stored theme when it is not empty, else dark when the system prefers it, else light. */
  function InitialTheme(stored: Option<string>, prefersDark: bool): (t: string)
    ensures stored.Some? && stored.value != "" ==> t == stored.value
    ensures (stored.None? || stored.value == "") && prefersDark ==> t == "dark"
    ensures (stored.None? || stored.value == "") && !prefersDark ==> t == "light"
  {
    if stored.Some? && stored.value != "" then stored.value
    else if prefersDark then "dark" else "light"
  }

  /** Line 30: dark becomes light, anything else becomes dark. */
  function Toggle(theme: string): (t: string)
    ensures t == "dark" || t == "light"
    ensures t == "dark" <==> theme != "dark"
  {
    if theme == "dark" then "light" else "dark"
  }

  /** On the two themes the toggle is its own inverse. */
  lemma ToggleInvolution(theme: string)
    requires theme == "dark" || theme == "light"
    ensures Toggle(Toggle(theme)) == theme
  {
  }

  // ---------------------------------------------------------------------------
  // Burger (lines 34-42)

  /** Line 38-39: `aria-expanded` becomes "false" when it was "true", else "true". */
  function Flip(expanded: Option<string>): (r: Option<string>)
    ensures r == Some("true") || r == Some("false")
    ensures r == Some("true") <==> expanded != Some("true")
  {
    Some(if expanded == Some("true") then "false" else "true")
  }

  /** Two clicks restore a set `aria-expanded`. */
  lemma FlipTwice(expanded: Option<string>)
    requires expanded == Some("true") || expanded == Some("false")
    ensures Flip(Flip(expanded)) == expanded
  {
  }

  // ---------------------------------------------------------------------------
  // escapeHtml (lines 49-55)

  /** `s.replace(/c/g, rep)` for a single character c. */
  function ReplaceAll(s: string, c: char, rep: string): string {
    if s == [] then [] else (if s[0] == c then rep else [s[0]]) + ReplaceAll(s[1..], c, rep)
  }

  /** Replacing in a concatenation replaces in each part. */
  lemma {:induction false} ReplaceAllConcat(a: string, b: string, c: char, rep: string)
    ensures ReplaceAll(a + b, c, rep) == ReplaceAll(a, c, rep) + ReplaceAll(b, c, rep)
  {
    if a == [] {
      assert a + b == b;
    } else {
      assert (a + b)[0] == a[0] && (a + b)[1..] == a[1..] + b;
      ReplaceAllConcat(a[1..], b, c, rep);
    }
  }

  /** Replacing in a one-character string. */
  lemma ReplaceOne(x: char, c: char, rep: string)
    ensures ReplaceAll([x], c, rep) == if x == c then rep else [x]
  {
    assert [x][1..] == [];
  }

  /** Replacing a character that does not occur changes nothing. */
  lemma {:induction false} ReplaceAllAbsent(s: string, c: char, rep: string)
    requires c !in s
    ensures ReplaceAll(s, c, rep) == s
  {
    if s != [] {
      ReplaceAllAbsent(s[1..], c, rep);
    }
  }

  /** Lines 49-55: '&' first, then '<', '>', '"' and "'". */
  function EscapeHtml(s: string): string {
    AfterAmp(ReplaceAll(s, '&', "&amp;"))
  }

  /** The entity each character is written as. */
  function Entity(x: char): string {
    match x
    case '&' => "&amp;"
    case '<' => "&lt;"
    case '>' => "&gt;"
    case '"' => "&quot;"
    case '\'' => "&#039;"
    case _ => [x]
  }

  /** Escaping character by character. */
  function EscapeChars(s: string): string {
    if s == [] then [] else Entity(s[0]) + EscapeChars(s[1..])
  }

  /** Escaping distributes over concatenation. */
  lemma EscapeConcat(a: string, b: string)
    ensures EscapeHtml(a + b) == EscapeHtml(a) + EscapeHtml(b)
  {
    ReplaceAllConcat(a, b, '&', "&amp;");
    var a1, b1 := ReplaceAll(a, '&', "&amp;"), ReplaceAll(b, '&', "&amp;");
    ReplaceAllConcat(a1, b1, '<', "&lt;");
    var a2, b2 := ReplaceAll(a1, '<', "&lt;"), ReplaceAll(b1, '<', "&lt;");
    ReplaceAllConcat(a2, b2, '>', "&gt;");
    var a3, b3 := ReplaceAll(a2, '>', "&gt;"), ReplaceAll(b2, '>', "&gt;");
    ReplaceAllConcat(a3, b3, '"', "&quot;");
    var a4, b4 := ReplaceAll(a3, '"', "&quot;"), ReplaceAll(b3, '"', "&quot;");
    ReplaceAllConcat(a4, b4, '\'', "&#039;");
  }

  /** The replacements that follow the one of '&', of '<', of '>' and of '"'. */
  function AfterAmp(s: string): string {
    AfterLt(ReplaceAll(s, '<', "&lt;"))
  }

  function AfterLt(s: string): string {
    AfterGt(ReplaceAll(s, '>', "&gt;"))
  }

  function AfterGt(s: string): string {
    AfterQuot(ReplaceAll(s, '"', "&quot;"))
  }

  function AfterQuot(s: string): string {
    ReplaceAll(s, '\'', "&#039;")
  }

  /** Text without the characters still to be replaced goes through unchanged. */
  lemma AfterQuotKeeps(e: string)
    requires '\'' !in e
    ensures AfterQuot(e) == e
  {
    ReplaceAllAbsent(e, '\'', "&#039;");
  }

  lemma AfterGtKeeps(e: string)
    requires '"' !in e && '\'' !in e
    ensures AfterGt(e) == e
  {
    ReplaceAllAbsent(e, '"', "&quot;");
    AfterQuotKeeps(e);
  }

  lemma AfterLtKeeps(e: string)
    requires '>' !in e && '"' !in e && '\'' !in e
    ensures AfterLt(e) == e
  {
    ReplaceAllAbsent(e, '>', "&gt;");
    AfterGtKeeps(e);
  }

  lemma AfterAmpKeeps(e: string)
    requires '<' !in e && '>' !in e && '"' !in e && '\'' !in e
    ensures AfterAmp(e) == e
  {
    ReplaceAllAbsent(e, '<', "&lt;");
    AfterLtKeeps(e);
  }

  lemma EscapeAmp()
    ensures EscapeHtml("&") == "&amp;"
  {
    ReplaceOne('&', '&', "&amp;");
    AfterAmpKeeps("&amp;");
  }

  lemma EscapeLt()
    ensures EscapeHtml("<") == "&lt;"
  {
    ReplaceOne('<', '&', "&amp;");
    ReplaceOne('<', '<', "&lt;");
    AfterLtKeeps("&lt;");
  }

  lemma EscapeGt()
    ensures EscapeHtml(">") == "&gt;"
  {
    ReplaceOne('>', '&', "&amp;");
    ReplaceOne('>', '<', "&lt;");
    ReplaceOne('>', '>', "&gt;");
    AfterGtKeeps("&gt;");
  }

  lemma EscapeQuot()
    ensures EscapeHtml("\"") == "&quot;"
  {
    ReplaceOne('"', '&', "&amp;");
    ReplaceOne('"', '<', "&lt;");
    ReplaceOne('"', '>', "&gt;");
    ReplaceOne('"', '"', "&quot;");
    AfterQuotKeeps("&quot;");
  }

  lemma EscapeApos()
    ensures EscapeHtml("'") == "&#039;"
  {
    ReplaceOne('\'', '&', "&amp;");
    ReplaceOne('\'', '<', "&lt;");
    ReplaceOne('\'', '>', "&gt;");
    ReplaceOne('\'', '"', "&quot;");
    ReplaceOne('\'', '\'', "&#039;");
  }

  lemma EscapePlain(x: char)
    requires x != '&' && x != '<' && x != '>' && x != '"' && x != '\''
    ensures EscapeHtml([x]) == [x]
  {
    ReplaceAllAbsent([x], '&', "&amp;");
    AfterAmpKeeps([x]);
  }

  /** One character is escaped to its entity: because '&' goes first, no entity is escaped again. */
  lemma EscapeOne(x: char)
    ensures EscapeHtml([x]) == Entity(x)
  {
    match x
    case '&' => EscapeAmp();
    case '<' => EscapeLt();
    case '>' => EscapeGt();
    case '"' => EscapeQuot();
    case '\'' => EscapeApos();
    case _ => EscapePlain(x);
  }

  /** The chain of replacements is escaping character by character. */
  lemma {:induction false} EscapeHtmlPerChar(s: string)
    ensures EscapeHtml(s) == EscapeChars(s)
  {
    if s != [] {
      assert s == [s[0]] + s[1..];
      EscapeConcat([s[0]], s[1..]);
      EscapeOne(s[0]);
      EscapeHtmlPerChar(s[1..]);
    }
  }

  /** What escaping leaves has no raw '<', '>', '"' or "'". */
  lemma {:induction false} EscapedIsInert(s: string)
    ensures var r := EscapeHtml(s); '<' !in r && '>' !in r && '"' !in r && '\'' !in r
  {
    EscapeHtmlPerChar(s);
    EscapeCharsInert(s);
  }

  lemma {:induction false} EscapeCharsInert(s: string)
    ensures var r := EscapeChars(s); '<' !in r && '>' !in r && '"' !in r && '\'' !in r
  {
    if s != [] {
      EntityInert(s[0]);
      EscapeCharsInert(s[1..]);
    }
  }

  lemma EntityInert(x: char)
    ensures var e := Entity(x); '<' !in e && '>' !in e && '"' !in e && '\'' !in e
  {
  }

  /** Decoding the five entities, as a browser reads the escaped text back. */
  function Unescape(s: string): string
    decreases |s|
  {
    if s == [] then []
    else if StartsWith(s, "&amp;") then "&" + Unescape(s[5..])
    else if StartsWith(s, "&lt;") then "<" + Unescape(s[4..])
    else if StartsWith(s, "&gt;") then ">" + Unescape(s[4..])
    else if StartsWith(s, "&quot;") then "\"" + Unescape(s[6..])
    else if StartsWith(s, "&#039;") then "'" + Unescape(s[6..])
    else [s[0]] + Unescape(s[1..])
  }

  /** A string whose character i differs from the prefix's does not start with it. */
  lemma NotPrefix(s: string, p: string, i: nat)
    requires i < |p| && i < |s| && s[i] != p[i]
    ensures !StartsWith(s, p)
  {
  }

  /** Decoding an entity followed by more text gives its character, then the decoded rest. */
  lemma UnescapeEntity(x: char, t: string)
    ensures Unescape(Entity(x) + t) == [x] + Unescape(t)
  {
    var e := Entity(x);
    var s := e + t;
    ConcatHalves(e, t);
    assert s[0] == e[0];
    if x == '&' {
      assert StartsWith(s, "&amp;");
    } else if x == '<' {
      NotPrefix(s, "&amp;", 1);
      assert StartsWith(s, "&lt;");
    } else if x == '>' {
      NotPrefix(s, "&amp;", 1);
      NotPrefix(s, "&lt;", 1);
      assert StartsWith(s, "&gt;");
    } else if x == '"' {
      NotPrefix(s, "&amp;", 1);
      NotPrefix(s, "&lt;", 1);
      NotPrefix(s, "&gt;", 1);
      assert StartsWith(s, "&quot;");
    } else if x == '\'' {
      NotPrefix(s, "&amp;", 1);
      NotPrefix(s, "&lt;", 1);
      NotPrefix(s, "&gt;", 1);
      NotPrefix(s, "&quot;", 1);
      assert StartsWith(s, "&#039;");
    } else {
      NotPrefix(s, "&amp;", 0);
      NotPrefix(s, "&lt;", 0);
      NotPrefix(s, "&gt;", 0);
      NotPrefix(s, "&quot;", 0);
      NotPrefix(s, "&#039;", 0);
    }
  }

  /** Escaping is undone by decoding: the text shown is the text given. */
  lemma {:induction false} UnescapeEscape(s: string)
    ensures Unescape(EscapeHtml(s)) == s
  {
    EscapeHtmlPerChar(s);
    UnescapeChars(s);
  }

  lemma {:induction false} UnescapeChars(s: string)
    ensures Unescape(EscapeChars(s)) == s
  {
    if s != [] {
      UnescapeEntity(s[0], EscapeChars(s[1..]));
      UnescapeChars(s[1..]);
    }
  }

  // ---------------------------------------------------------------------------
  // Search (lines 85-123)

  /** The characters `String.prototype.trim` removes: white space and line terminators. */
  const JsSpace: set<char> := {'\t', '\n', '\U{000B}', '\U{000C}', '\r', ' ', '\U{00A0}', '\U{1680}',
    '\U{2000}', '\U{2001}', '\U{2002}', '\U{2003}', '\U{2004}', '\U{2005}', '\U{2006}', '\U{2007}',
    '\U{2008}', '\U{2009}', '\U{200A}', '\U{2028}', '\U{2029}', '\U{202F}', '\U{205F}', '\U{3000}', '\U{FEFF}'}

  /**
   * `String.prototype.length`: the number of UTF-16 code units, one for a
   * character of the Basic Multilingual Plane and two (a surrogate pair) for
   * any other.
   */
  function JsLength(s: string): (n: nat)
    ensures |s| <= n <= 2 * |s|
    ensures n == 0 <==> s == ""
    ensures (forall i :: 0 <= i < |s| ==> (s[i] as int) < 0x1_0000) ==> n == |s|
  {
    if s == [] then 0
    else (if (s[0] as int) < 0x1_0000 then 1 else 2) + JsLength(s[1..])
  }

  /** Lines 118-119: the trimmed term, when it is long enough to search for or empty. */
  function SearchTerm(value: string): (term: Option<string>)
    ensures term.Some? <==> JsLength(TrimBy(value, JsSpace)) >= 3 || TrimBy(value, JsSpace) == ""
    ensures term.Some? ==> term.value == TrimBy(value, JsSpace)
    // three characters always suffice; below that, only characters outside the BMP count double
    ensures |TrimBy(value, JsSpace)| >= 3 ==> term.Some?
    ensures (forall i :: 0 <= i < |TrimBy(value, JsSpace)| ==> (TrimBy(value, JsSpace)[i] as int) < 0x1_0000) ==>
      (term.Some? <==> |TrimBy(value, JsSpace)| >= 3 || TrimBy(value, JsSpace) == "")
  {
    var t := TrimBy(value, JsSpace);
    if JsLength(t) >= 3 || JsLength(t) == 0 then Some(t) else None
  }

  /** Two characters outside the BMP, two emoji say, are a search term: each is two UTF-16 code units. */
  lemma AstralPairSearched(c: char)
    requires c as int >= 0x1_0000
    ensures SearchTerm([c, c]) == Some([c, c])
  {
    var t := [c, c];
    assert c !in JsSpace;
    assert TrimBy(t, JsSpace) == t by {
      TrimByIdentity(t, JsSpace);
    }
    assert JsLength(t) == 4 by {
      assert t[1..] == [c];
      assert JsLength([c]) == 2 by { assert [c][1..] == []; }
    }
  }

  /** Lines 91-95: the page's query with `search` set to the term when there is one, after the API path. */
  function SearchUrl(absoluteBase: string, basePath: string, location: Params, term: string): (u: string)
    requires UniqueKeys(location)
  {
    var params := if term != "" then Set(location, "search", term) else location;
    ResolvePath(absoluteBase, basePath, "/api/movies.php") + "?" + Build(params)
  }

  /** The parameters fetchMovies sends: the page's own, with `search` replaced or added when the term is not empty. */
  lemma SearchParams(location: Params, term: string)
    requires UniqueKeys(location)
    ensures term != "" ==> Lookup(Set(location, "search", term), "search") == Some(term)
    ensures term != "" ==> forall k :: k != "search" ==> Lookup(Set(location, "search", term), k) == Lookup(location, k)
  {
  }

  // ---------------------------------------------------------------------------
  // Watchlist (lines 151-176)

  predicate Distinct(ids: seq<int>) {
    forall i, j :: 0 <= i < j < |ids| ==> ids[i] != ids[j]
  }

  /** Line 152: `new Set(array)`: the first occurrence of each id, in order. */
  function Dedup(ids: seq<int>): (r: seq<int>)
    ensures Distinct(r)
    ensures forall x :: x in r <==> x in ids
  {
    if ids == [] then []
    else
      var init := Dedup(ids[..|ids| - 1]);
      var last := ids[|ids| - 1];
      assert forall x :: x in ids <==> x in ids[..|ids| - 1] || x == last;
      if last in init then init else init + [last]
  }

  /** `Set.delete`: the others keep their order. */
  function Without(ids: seq<int>, id: int): (r: seq<int>)
    ensures forall x :: x in r <==> x in ids && x != id
    ensures Distinct(ids) ==> Distinct(r)
  {
    if ids == [] then []
    else
      var rest := Without(ids[1..], id);
      assert Distinct(ids) ==> ids[0] !in ids[1..];
      if ids[0] == id then rest else [ids[0]] + rest
  }

  /** Lines 165-173: a click removes the id when it is in the watchlist, else adds it last. */
  function Toggled(ids: seq<int>, id: int): (r: seq<int>)
    ensures id in r <==> id !in ids
    ensures forall x :: x != id ==> (x in r <==> x in ids)
    ensures Distinct(ids) ==> Distinct(r)
  {
    if id in ids then Without(ids, id) else ids + [id]
  }

  /** Removing an id that is not there leaves the list as it was. */
  lemma {:induction false} WithoutAbsent(ids: seq<int>, id: int)
    requires id !in ids
    ensures Without(ids, id) == ids
  {
    if ids != [] {
      WithoutAbsent(ids[1..], id);
    }
  }

  /** Removing the last id of a list gives back the list before it. */
  lemma {:induction false} WithoutLast(ids: seq<int>, id: int)
    requires id !in ids
    ensures Without(ids + [id], id) == ids
  {
    if ids == [] {
      assert Without([id], id) == Without([], id);
    } else {
      assert (ids + [id])[1..] == ids[1..] + [id];
      WithoutLast(ids[1..], id);
    }
  }

  /** Clicking twice on a movie that was not in the watchlist restores it exactly. */
  lemma ToggledTwice(ids: seq<int>, id: int)
    requires id !in ids
    ensures Toggled(Toggled(ids, id), id) == ids
  {
    WithoutLast(ids, id);
  }

  // ---------------------------------------------------------------------------
  // The page

  const ThemeKey: string := "filmoteca-theme"

  /** The state main.js keeps: attributes it sets and local storage entries it writes. */
  class Page {
    const absoluteBase: string
    const basePath: string
    /** `document.body.dataset.theme`. */
    var theme: string
    /** localStorage `filmoteca-theme`. */
    var storedTheme: Option<string>
    /** The theme button's `aria-pressed`. */
    var pressed: Option<string>
    /** The burger's `aria-expanded`, and whether burger and menu carry `is-active`. */
    var expanded: Option<string>
    var burgerActive: bool
    var menuActive: bool
    /** The watchlist Set in insertion order, and what localStorage `filmoteca-watchlist` last received. */
    var watchlist: seq<int>
    var storedWatchlist: seq<int>

    predicate Valid()
      reads this
    {
      Distinct(watchlist)
    }

    /** Lines 1-21 and 152: the page as loaded, given the configuration, storage, system preference and markup. */
    constructor (config: (Option<string>, Option<string>), stored: Option<string>, prefersDark: bool,
                 storedIds: seq<int>, burgerExpanded: Option<string>, burgerIsActive: bool, menuIsActive: bool)
      ensures Valid()
      ensures basePath == ConfigString(config.0) && absoluteBase == ConfigString(config.1)
      ensures theme == InitialTheme(stored, prefersDark) && storedTheme == stored && pressed.None?
      ensures expanded == burgerExpanded && burgerActive == burgerIsActive && menuActive == menuIsActive
      ensures watchlist == Dedup(storedIds) && storedWatchlist == storedIds
    {
      basePath := ConfigString(config.0);
      absoluteBase := ConfigString(config.1);
      theme := InitialTheme(stored, prefersDark);
      storedTheme := stored;
      pressed := None;
      expanded := burgerExpanded;
      burgerActive := burgerIsActive;
      menuActive := menuIsActive;
      watchlist := Dedup(storedIds);
      storedWatchlist := storedIds;
    }

    /** Lines 23-32: the theme flips, is stored, and the button's `aria-pressed` says whether it is dark. */
    method ClickTheme()
      modifies this
      ensures theme == Toggle(old(theme)) && storedTheme == Some(theme)
      ensures pressed == Some(if theme == "dark" then "true" else "false")
      ensures expanded == old(expanded) && burgerActive == old(burgerActive) && menuActive == old(menuActive)
      ensures watchlist == old(watchlist) && storedWatchlist == old(storedWatchlist)
    {
      var newTheme := Toggle(theme);
      theme := newTheme;
      storedTheme := Some(newTheme);
      pressed := Some(if newTheme == "dark" then "true" else "false");
    }

    /** Lines 37-42: `aria-expanded` flips and both burger and menu toggle `is-active`. */
    method ClickBurger(menuPresent: bool)
      modifies this
      ensures expanded == Flip(old(expanded))
      ensures burgerActive == !old(burgerActive)
      ensures menuActive == if menuPresent then !old(menuActive) else old(menuActive)
      ensures theme == old(theme) && storedTheme == old(storedTheme) && pressed == old(pressed)
      ensures watchlist == old(watchlist) && storedWatchlist == old(storedWatchlist)
    {
      var wasExpanded := expanded == Some("true");
      expanded := Some(if wasExpanded then "false" else "true");
      burgerActive := !burgerActive;
      if menuPresent {
        menuActive := !menuActive;
      }
    }

    /** Lines 164-175: the id leaves or joins the watchlist and the whole list is stored. */
    method ClickWatchlist(id: int)
      requires Valid()
      modifies this
      ensures Valid()
      ensures watchlist == Toggled(old(watchlist), id) && storedWatchlist == watchlist
      ensures theme == old(theme) && storedTheme == old(storedTheme) && pressed == old(pressed)
      ensures expanded == old(expanded) && burgerActive == old(burgerActive) && menuActive == old(menuActive)
    {
      if id in watchlist {
        watchlist := Without(watchlist, id);
      } else {
        watchlist := watchlist + [id];
      }
      storedWatchlist := watchlist;
    }

    /** Lines 115-123 and 85-95: the URL fetched after typing, or none when the term is one or two characters. */
    method Search(location: Params, value: string) returns (request: Option<string>)
      requires UniqueKeys(location)
      ensures request.Some? <==> SearchTerm(value).Some?
      ensures request.Some? ==> request.value == SearchUrl(absoluteBase, basePath, location, SearchTerm(value).value)
    {
      var term := SearchTerm(value);
      if term.None? {
        return None;
      }
      request := Some(SearchUrl(absoluteBase, basePath, location, term.value));
    }
  }
}
