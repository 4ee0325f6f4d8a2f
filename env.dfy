/**
 * lib/env.php: the dotenv loader and `env()`. Each line of the file is
 * trimmed; blank lines and '#' comments are skipped; the line is split at its
 * first '='; key and value are trimmed and the value loses surrounding quote
 * characters; a line with an empty key is skipped. A key that the process
 * environment and `$_ENV` both lack is exported to both (so the first value in
 * the file is the one exported), while the loaded map keeps the last value.
 * `$_ENV`, then string-valued `$_SERVER` entries, fill in keys the file did
 * not set. The result is remembered after the first call.
 *
 * The file is given as its lines (None when it is not readable); the process
 * environment (`getenv`/`putenv`), `$_ENV` and `$_SERVER` are fields.
 */
module Env {
  import opened Wrappers
  import opened Strings

  /** The characters `trim($value, "\"'")` removes. */
  const Quotes: set<char> := {'"', '\''}

  // ---------------------------------------------------------------------------
  // One line

  /** Lines 23-33: a line as its key and value, or None when it is skipped. */
  function ParseLine(line: string): (r: Option<(string, string)>)
    // blank lines and comments are skipped
    ensures Trim(line) == "" || StartsWith(Trim(line), "#") ==> r.None?
    // a key is never empty and never holds '=' (the line is split at its first '=')
    ensures r.Some? ==> r.value.0 != "" && '=' !in r.value.0
  {
    var t := Trim(line);
    if t == "" || StartsWith(t, "#") then None
    else
      var i := IndexOf(t, '=');
      var key := Trim(t[..i]);
      var value := TrimBy(Trim(if i < |t| then t[i + 1..] else ""), Quotes);
      TrimByWithin(t[..i], Whitespace);
      if key == "" then None else Some((key, value))
  }

  /**
   * A line written as key=raw, for a key with no '=' and no blank at either
   * end that does not start a comment, and a raw value (which may hold '=')
   * with no blank at either end, gives that key and the raw value without
   * its surrounding quote characters.
   */
  lemma ParseLineSplit(key: string, raw: string)
    requires key != "" && '=' !in key && key[0] != '#'
    requires key[0] !in Whitespace && key[|key| - 1] !in Whitespace
    requires raw == "" || (raw[0] !in Whitespace && raw[|raw| - 1] !in Whitespace)
    ensures ParseLine(key + "=" + raw) == Some((key, TrimBy(raw, Quotes)))
  {
    var line := key + "=" + raw;
    assert line[0] == key[0];
    assert line[|line| - 1] == if raw == "" then '=' else raw[|raw| - 1];
    TrimByIdentity(line, Whitespace);
    var t := Trim(line);
    assert t == line;
    assert !StartsWith(t, "#") by {
      assert t[0] == key[0];
    }
    assert t[|key|] == '=';
    assert forall i :: 0 <= i < |key| ==> t[i] == key[i];
    var i := IndexOf(t, '=');
    assert i == |key|;
    assert t[..i] == key;
    assert t[i + 1..] == raw;
    TrimByIdentity(key, Whitespace);
    TrimByIdentity(raw, Whitespace);
    assert Trim(t[..i]) == key;
  }

  /**
   * A line written as key=value gives back that key and value, for a key as in
   * ParseLineSplit and a value (which may hold '=') with no blank or quote at
   * either end.
   */
  lemma ParseLineOf(key: string, value: string)
    requires key != "" && '=' !in key && key[0] != '#'
    requires key[0] !in Whitespace && key[|key| - 1] !in Whitespace
    requires value == "" || (value[0] !in Whitespace + Quotes && value[|value| - 1] !in Whitespace + Quotes)
    ensures ParseLine(key + "=" + value) == Some((key, value))
  {
    ParseLineSplit(key, value);
    TrimByIdentity(value, Quotes);
  }

  /** A value written between quote characters loses them: key="value" and key='value' give value. */
  lemma ParseLineQuoted(key: string, q: char, value: string)
    requires key != "" && '=' !in key && key[0] != '#'
    requires key[0] !in Whitespace && key[|key| - 1] !in Whitespace
    requires q in Quotes
    requires value == "" || (value[0] !in Quotes && value[|value| - 1] !in Quotes)
    ensures ParseLine(key + "=" + ([q] + value + [q])) == Some((key, value))
  {
    var raw := [q] + value + [q];
    assert raw[0] == q && raw[|raw| - 1] == q;
    ParseLineSplit(key, raw);
    TrimByWrapped(q, value, Quotes);
  }

  /** A line without '=' is a key alone: the trimmed line, with the empty value. */
  lemma ParseLineNoEquals(line: string)
    requires '=' !in line
    requires Trim(line) != "" && !StartsWith(Trim(line), "#")
    ensures ParseLine(line) == Some((Trim(line), ""))
  {
    var t := Trim(line);
    assert IndexOf(t, '=') == |t| by {
      TrimByWithin(line, Whitespace);
      assert '=' !in t;
    }
    assert Trim(t[..|t|]) == t by {
      assert t[..|t|] == t;
      TrimByIdempotent(line, Whitespace);
    }
    assert TrimBy(Trim(""), Quotes) == "";
  }

  // ---------------------------------------------------------------------------
  // The whole file

  /** A parsed line: its key and value, or None for a skipped line. */
  type Entry = Option<(string, string)>

  /** Every line of the file, parsed. */
  function ParseAll(lines: seq<string>): (ps: seq<Entry>)
    ensures |ps| == |lines|
    ensures forall i :: 0 <= i < |lines| ==> ps[i] == ParseLine(lines[i])
  {
    seq(|lines|, i requires 0 <= i < |lines| => ParseLine(lines[i]))
  }

  /** Line 38: the key/value map of the file, where a later line overrides an earlier one. */
  function FileEntries(ps: seq<Entry>): map<string, string> {
    if ps == [] then map[]
    else
      var prev := FileEntries(ps[..|ps| - 1]);
      match ps[|ps| - 1]
      case None => prev
      case Some((k, v)) => prev[k := v]
  }

  /** Lines 34-37: what is exported, where only the first value of a key not already defined counts. */
  function Exported(ps: seq<Entry>, defined: set<string>): map<string, string> {
    if ps == [] then map[]
    else
      var prev := Exported(ps[..|ps| - 1], defined);
      match ps[|ps| - 1]
      case None => prev
      case Some((k, v)) => if k in defined || k in prev then prev else prev[k := v]
  }

  /** Line i of the file has key k. */
  predicate HasKey(ps: seq<Entry>, i: int, k: string)
    requires 0 <= i < |ps|
  {
    ps[i].Some? && ps[i].value.0 == k
  }

  /** The loaded value of a key is the one on the last line with that key. */
  lemma {:induction false} LastLineWins(ps: seq<Entry>, k: string)
    ensures k in FileEntries(ps) <==> exists i :: 0 <= i < |ps| && HasKey(ps, i, k)
    ensures k in FileEntries(ps) ==>
              exists i :: 0 <= i < |ps| && ps[i] == Some((k, FileEntries(ps)[k]))
                          && forall j :: i < j < |ps| ==> !HasKey(ps, j, k)
  {
    if ps != [] {
      var n := |ps| - 1;
      var init := ps[..n];
      LastLineWins(init, k);
      assert forall i :: 0 <= i < n ==> ps[i] == init[i];
      if HasKey(ps, n, k) {
        assert ps[n] == Some((k, FileEntries(ps)[k]));
      } else {
        assert k in FileEntries(ps) <==> k in FileEntries(init);
        if k in FileEntries(ps) {
          var i :| 0 <= i < |init| && init[i] == Some((k, FileEntries(init)[k]))
                   && forall j :: i < j < |init| ==> !HasKey(init, j, k);
          assert ps[i] == Some((k, FileEntries(ps)[k]));
          assert HasKey(ps, i, k);
          forall j | i < j < |ps|
            ensures !HasKey(ps, j, k)
          {
            if j < n {
              assert !HasKey(init, j, k);
            }
          }
        }
        if i :| 0 <= i < |ps| && HasKey(ps, i, k) {
          assert HasKey(init, i, k);
        }
      }
    }
  }

  /** The exported value of a key is the one on its first line, and only keys not already defined are exported. */
  lemma {:induction false} FirstLineExported(ps: seq<Entry>, defined: set<string>, k: string)
    ensures k in Exported(ps, defined) <==> k !in defined && k in FileEntries(ps)
    ensures k in Exported(ps, defined) ==>
              exists i :: 0 <= i < |ps| && ps[i] == Some((k, Exported(ps, defined)[k]))
                          && forall j :: 0 <= j < i ==> !HasKey(ps, j, k)
  {
    if ps != [] {
      var n := |ps| - 1;
      var init := ps[..n];
      FirstLineExported(init, defined, k);
      LastLineWins(init, k);
      LastLineWins(ps, k);
      assert forall i :: 0 <= i < n ==> ps[i] == init[i];
      if k in Exported(init, defined) {
        var i :| 0 <= i < |init| && init[i] == Some((k, Exported(init, defined)[k]))
                 && forall j :: 0 <= j < i ==> !HasKey(init, j, k);
        assert Exported(ps, defined)[k] == Exported(init, defined)[k];
        assert ps[i] == Some((k, Exported(ps, defined)[k]));
        forall j | 0 <= j < i
          ensures !HasKey(ps, j, k)
        {
          assert !HasKey(init, j, k);
        }
      } else if k in Exported(ps, defined) {
        assert HasKey(ps, n, k);
        assert k !in FileEntries(init);
        forall j | 0 <= j < n
          ensures !HasKey(ps, j, k)
        {
          assert ps[j] == init[j];
          assert !HasKey(init, j, k);
        }
        assert ps[n] == Some((k, Exported(ps, defined)[k]));
      }
    }
  }

  /** One more line: a skipped line changes nothing; a key/value line sets the key
   *  in the loaded map, and is exported only when the key is not yet defined or exported. */
  lemma Step(done: seq<Entry>, x: Entry, defined: set<string>)
    ensures x.None? ==> FileEntries(done + [x]) == FileEntries(done)
                        && Exported(done + [x], defined) == Exported(done, defined)
    ensures x.Some? ==>
              var (k, v) := x.value;
              var e := Exported(done, defined);
              && FileEntries(done + [x]) == FileEntries(done)[k := v]
              && (k in defined || k in e ==> Exported(done + [x], defined) == e)
              && (k !in defined && k !in e ==> Exported(done + [x], defined) == e[k := v])
  {
    assert (done + [x])[..|done|] == done;
  }

  /** One more line, as `ReadLines` sees it: the process environment and `$_ENV` with what was exported so far. */
  lemma ReadStep(done: seq<Entry>, x: Entry, process: map<string, string>, envArray: map<string, string>)
    ensures var defined := process.Keys + envArray.Keys;
            var e, e' := Exported(done, defined), Exported(done + [x], defined);
            && (x.None? ==> FileEntries(done + [x]) == FileEntries(done) && e' == e)
            && (x.Some? ==>
                  var (k, v) := x.value;
                  && FileEntries(done + [x]) == FileEntries(done)[k := v]
                  && (k !in process + e && k !in envArray + e ==>
                        process + e' == (process + e)[k := v] && envArray + e' == (envArray + e)[k := v])
                  && (k in process + e || k in envArray + e ==> e' == e))
  {
    var defined := process.Keys + envArray.Keys;
    Step(done, x, defined);
    if x.Some? {
      var (k, v) := x.value;
      UnionUpdate(process, Exported(done, defined), k, v);
      UnionUpdate(envArray, Exported(done, defined), k, v);
    }
  }

  /** Adding a key after a union is adding it to the right operand. */
  lemma UnionUpdate(a: map<string, string>, e: map<string, string>, k: string, v: string)
    ensures a + e[k := v] == (a + e)[k := v]
  {
  }

  /** Lines 43-53: `src` fills in the keys that `vars` lacks. */
  function FillMissing(vars: map<string, string>, src: map<string, string>): (r: map<string, string>)
    ensures r.Keys == vars.Keys + src.Keys
    ensures forall k :: k in vars ==> r[k] == vars[k]
    ensures forall k :: k in src && k !in vars ==> r[k] == src[k]
  {
    src + vars
  }

  /** The `$_SERVER` entries whose value is a string. */
  function StringValued(server: map<string, Option<string>>): (r: map<string, string>)
    ensures forall k :: k in r <==> k in server && server[k].Some?
    ensures forall k :: k in r ==> r[k] == server[k].value
  {
    map k | k in server && server[k].Some? :: server[k].value
  }

  /** Lines 17-55: the loaded map, given `$_ENV` as it stands after the file was read. */
  function Loaded(ps: seq<Entry>, env: map<string, string>, server: map<string, Option<string>>): map<string, string> {
    FillMissing(FillMissing(FileEntries(ps), env), StringValued(server))
  }

  /**
   * The loaded map gives the file first, then `$_ENV` as it was before
   * loading, then string-valued `$_SERVER` entries: what the file exported
   * into `$_ENV` never shows through.
   */
  lemma LoadedPrecedence(ps: seq<Entry>, env: map<string, string>, process: map<string, string>,
                         server: map<string, Option<string>>, k: string)
    ensures var vars := Loaded(ps, env + Exported(ps, process.Keys + env.Keys), server);
            && (k in FileEntries(ps) ==> k in vars && vars[k] == FileEntries(ps)[k])
            && (k !in FileEntries(ps) && k in env ==> k in vars && vars[k] == env[k])
            && (k !in FileEntries(ps) && k !in env ==> (k in vars <==> k in server && server[k].Some?))
            && (k !in FileEntries(ps) && k !in env && k in vars ==> vars[k] == server[k].value)
  {
    FirstLineExported(ps, process.Keys + env.Keys, k);
  }

  /**
   * Lines 19-41: the lines in order; each key/value line sets the key in the
   * loaded map and is exported to the process environment and `$_ENV` when
   * neither already holds it.
   */
  method ReadLines(lines: seq<string>, process: map<string, string>, envArray: map<string, string>)
    returns (cache: map<string, string>, exportedTo: map<string, string>, envTo: map<string, string>)
    ensures cache == FileEntries(ParseAll(lines))
    ensures exportedTo == process + Exported(ParseAll(lines), process.Keys + envArray.Keys)
    ensures envTo == envArray + Exported(ParseAll(lines), process.Keys + envArray.Keys)
  {
    ghost var defined := process.Keys + envArray.Keys;
    ghost var ps := ParseAll(lines);
    ghost var done: seq<Entry> := [];
    cache, exportedTo, envTo := map[], process, envArray;
    for i := 0 to |lines|
      invariant done == ps[..i]
      invariant cache == FileEntries(done)
      invariant exportedTo == process + Exported(done, defined)
      invariant envTo == envArray + Exported(done, defined)
    {
      var parsed := ParseLine(lines[i]);
      ReadStep(done, parsed, process, envArray);
      if parsed.Some? {
        var key, value := parsed.value.0, parsed.value.1;
        if key !in exportedTo && key !in envTo {
          exportedTo := exportedTo[key := value];
          envTo := envTo[key := value];
        }
        cache := cache[key := value];
      }
      assert parsed == ps[i];
      PrefixStep(ps, i);
      done := done + [parsed];
    }
    assert done == ps;
  }

  // ---------------------------------------------------------------------------
  // The process state and the memo

  class Environment {
    /** `getenv`/`putenv`. */
    var process: map<string, string>
    /** `$_ENV`. */
    var envArray: map<string, string>
    /** `$_SERVER`; None for a value that is not a string. */
    const server: map<string, Option<string>>
    /** The lines of the dotenv file, None when it cannot be read. */
    const file: Option<seq<string>>
    /** `static $cache`. */
    var memo: Option<map<string, string>>

    constructor(process: map<string, string>, envArray: map<string, string>,
                server: map<string, Option<string>>, file: Option<seq<string>>)
      ensures this.process == process && this.envArray == envArray
      ensures this.server == server && this.file == file && memo.None?
    {
      this.process := process;
      this.envArray := envArray;
      this.server := server;
      this.file := file;
      memo := None;
    }

    /** The parsed lines of the file; none when it cannot be read. */
    function Entries(): seq<Entry> {
      if file.Some? then ParseAll(file.value) else []
    }

    /** `env_load`: computed once, then the remembered map. */
    method Load() returns (vars: map<string, string>)
      modifies this
      ensures memo == Some(vars)
      ensures old(memo).Some? ==> vars == old(memo).value && process == old(process) && envArray == old(envArray)
      ensures old(memo).None? ==>
                var exported := Exported(Entries(), old(process).Keys + old(envArray).Keys);
                && process == old(process) + exported
                && envArray == old(envArray) + exported
                && vars == Loaded(Entries(), envArray, server)
    {
      if memo.Some? {
        return memo.value;
      }
      var lines := if file.Some? then file.value else [];
      ghost var exported := Exported(Entries(), process.Keys + envArray.Keys);
      assert ParseAll(lines) == Entries();
      var cache, exportedTo, envTo := ReadLines(lines, process, envArray);
      assert exportedTo == process + exported && envTo == envArray + exported;
      process, envArray := exportedTo, envTo;
      vars := FillMissing(FillMissing(cache, envArray), StringValued(server));
      memo := Some(vars);
    }

    /** `env($key, $default)`: the loaded map, then the process environment, then the default. */
    method Get(key: string, default: Option<string>) returns (v: Option<string>)
      modifies this
      ensures memo.Some?
      ensures key in memo.value ==> v == Some(memo.value[key])
      ensures key !in memo.value && key in process ==> v == Some(process[key])
      ensures key !in memo.value && key !in process ==> v == default
    {
      var vars := Load();
      if key in vars {
        return Some(vars[key]);
      }
      if key in process {
        return Some(process[key]);
      }
      return default;
    }
  }
}
