/**
 * scripts/cli/run_migrations.php: runs sql/migrations.sql and then
 * sql/seed.sql, statement by statement, stopping at the first statement that
 * fails.
 *
 * A script is cut into statements the way `preg_split('/;\s*(?:\r?\n|$)/')`
 * cuts it, then each piece is trimmed and the PHP-falsy ones ("" and "0") are
 * dropped. The database answers each statement through `exec`, which is
 * given every statement already run (its state) and the statement.
 */
module RunMigrations {
  import opened Wrappers
  import opened Strings

  // ---------------------------------------------------------------------------
  // Cutting a script into statements (line 39)

  /** PCRE's `\s`. */
  const Space: set<char> := {' ', '\t', '\n', '\r', '\U{000B}', '\U{000C}'}

  /** The end of the run of `\s` characters starting at i. */
  function RunEnd(s: string, i: nat): (j: nat)
    requires i <= |s|
    ensures i <= j <= |s|
    ensures forall k :: i <= k < j ==> s[k] in Space
    ensures j == |s| || s[j] !in Space
    decreases |s| - i
  {
    if i < |s| && s[i] in Space then RunEnd(s, i + 1) else i
  }

  /** The position of the last newline in s[i..j], if any. */
  function LastNewline(s: string, i: nat, j: nat): (k: Option<nat>)
    requires i <= j <= |s|
    ensures k.Some? ==> i <= k.value < j && s[k.value] == '\n' && forall m :: k.value < m < j ==> s[m] != '\n'
    ensures k.None? ==> forall m :: i <= m < j ==> s[m] != '\n'
    decreases j - i
  {
    if i == j then None else if s[j - 1] == '\n' then Some(j - 1) else LastNewline(s, i, j - 1)
  }

  /**
   * Where the separator that starts at i ends, if one starts there: a ';',
   * then the longest run of `\s` that reaches the end of the script, or else
   * the part of the run up to its last newline; without a newline there is
   * no separator.
   */
  function SeparatorEnd(s: string, i: nat): (e: Option<nat>)
    requires i < |s|
    ensures e.Some? ==> s[i] == ';' && i < e.value <= |s|
  {
    if s[i] != ';' then None
    else
      var j := RunEnd(s, i + 1);
      if j == |s| then Some(j)
      else match LastNewline(s, i + 1, j)
        case Some(k) => Some(k + 1)
        case None => None
  }

  /** The first separator at or after i: where it starts and where it ends. */
  function FindSeparator(s: string, i: nat): (r: Option<(nat, nat)>)
    requires i <= |s|
    ensures r.Some? ==> i <= r.value.0 < |s| && SeparatorEnd(s, r.value.0) == Some(r.value.1)
    decreases |s| - i
  {
    if i == |s| then None
    else match SeparatorEnd(s, i)
      case Some(e) => Some((i, e))
      case None => FindSeparator(s, i + 1)
  }

  /** `preg_split('/;\s*(?:\r?\n|$)/', $s)`: the pieces between separators, in order. */
  function Pieces(s: string): (ps: seq<string>)
    ensures |ps| >= 1
    ensures FindSeparator(s, 0).None? ==> ps == [s]
    decreases |s|
  {
    match FindSeparator(s, 0)
    case None => [s]
    case Some((i, e)) => [s[..i]] + Pieces(s[e..])
  }

  /** Line 39: the pieces, trimmed, without the falsy ones. */
  function Statements(s: string): seq<string> {
    FilterTruthy(TrimAll(Pieces(s)))
  }

  /** Every statement that runs is trimmed and neither empty nor "0". */
  lemma StatementsClean(s: string)
    ensures forall st :: st in Statements(s) ==> !Falsy(st) && Trim(st) == st
  {
    TrimmedTruthyClean(Pieces(s));
  }

  /** What survives trimming and dropping the falsy entries is trimmed and truthy. */
  lemma TrimmedTruthyClean(xs: seq<string>)
    ensures forall st :: st in FilterTruthy(TrimAll(xs)) ==> !Falsy(st) && Trim(st) == st
  {
    var trimmed := TrimAll(xs);
    forall st | st in FilterTruthy(trimmed)
      ensures !Falsy(st) && Trim(st) == st
    {
      assert st in trimmed;
      var i :| 0 <= i < |trimmed| && trimmed[i] == st;
      TrimByIdempotent(xs[i], Whitespace);
    }
  }

  /** A script written one statement per line, each ended by ";\n". */
  function Script(stmts: seq<string>): string {
    if stmts == [] then "" else stmts[0] + ";\n" + Script(stmts[1..])
  }

  /** A statement the separator search leaves whole: not empty, no ';', not starting with white space. */
  predicate Unbroken(st: string) {
    st != "" && ';' !in st && st[0] !in Space
  }

  /** What a statement of such a script looks like: unbroken, trimmed, not falsy. */
  predicate Plain(st: string) {
    Unbroken(st) && Trim(st) == st && !Falsy(st)
  }

  /** The separator search skips characters that are not ';'. */
  lemma {:induction false} FindFrom(s: string, i: nat, p: nat, e: nat)
    requires i <= p < |s|
    requires forall k :: i <= k < p ==> s[k] != ';'
    requires SeparatorEnd(s, p) == Some(e)
    ensures FindSeparator(s, i) == Some((p, e))
    decreases p - i
  {
    if i < p {
      FindFrom(s, i + 1, p, e);
    }
  }

  /** A ";\n" followed by something other than white space is a separator of exactly those two characters. */
  lemma SeparatorAt(s: string, i: nat)
    requires i + 2 <= |s| && s[i] == ';' && s[i + 1] == '\n'
    requires i + 2 == |s| || s[i + 2] !in Space
    ensures SeparatorEnd(s, i) == Some(i + 2)
  {
    assert RunEnd(s, i + 2) == i + 2;
    assert RunEnd(s, i + 1) == i + 2;
  }

  /** The first separator of `a;\n t` is that ";\n" when a has no ';' and t does not start with white space. */
  lemma FirstSeparator(a: string, t: string)
    requires ';' !in a
    requires t == [] || t[0] !in Space
    ensures FindSeparator(a + ";\n" + t, 0) == Some((|a|, |a| + 2))
  {
    SemicolonFree(a, t);
    SeparatorAfter(a, t);
    FindFrom(a + ";\n" + t, 0, |a|, |a| + 2);
  }

  /** No ';' before the one that follows a. */
  lemma SemicolonFree(a: string, t: string)
    requires ';' !in a
    ensures forall k :: 0 <= k < |a| ==> (a + ";\n" + t)[k] != ';'
  {
    var s := a + ";\n" + t;
    forall k | 0 <= k < |a|
      ensures s[k] != ';'
    {
      assert s[k] == a[k];
    }
  }

  /** The ";\n" after a is a separator of those two characters. */
  lemma SeparatorAfter(a: string, t: string)
    requires t == [] || t[0] !in Space
    ensures SeparatorEnd(a + ";\n" + t, |a|) == Some(|a| + 2)
  {
    var s := a + ";\n" + t;
    assert s[|a|] == ';' && s[|a| + 1] == '\n';
    assert |a| + 2 < |s| ==> s[|a| + 2] == t[0];
    SeparatorAt(s, |a|);
  }

  /** The statement and the rest around a ";\n". */
  lemma AroundSeparator(a: string, t: string)
    ensures (a + ";\n" + t)[..|a|] == a && (a + ";\n" + t)[|a| + 2..] == t
  {
    var s := a + ";\n" + t;
    assert s == a + (";\n" + t);
    ConcatHalves(a, ";\n" + t);
    ConcatHalves(";\n", t);
  }

  /** Splitting `a;\n t` gives a, then the pieces of t. */
  lemma PiecesStep(a: string, t: string)
    requires ';' !in a
    requires t == [] || t[0] !in Space
    ensures Pieces(a + ";\n" + t) == [a] + Pieces(t)
  {
    FirstSeparator(a, t);
    AroundSeparator(a, t);
  }

  /** A script of unbroken statements starts with the first statement's first character. */
  lemma ScriptStart(stmts: seq<string>)
    requires stmts != [] && stmts[0] != ""
    ensures Script(stmts) != [] && Script(stmts)[0] == stmts[0][0]
  {
  }

  /** Splitting a script written statement by statement gives back its statements, then the empty tail. */
  lemma {:induction false} PiecesOfScript(stmts: seq<string>)
    requires forall i :: 0 <= i < |stmts| ==> Unbroken(stmts[i])
    ensures Pieces(Script(stmts)) == stmts + [""]
  {
    if stmts != [] {
      ScriptHead(stmts);
      PiecesOfScript(stmts[1..]);
      PiecesStep(stmts[0], Script(stmts[1..]));
    }
  }

  /** A script of unbroken statements is its first statement, ";\n", and a script of the others that does not start with white space. */
  lemma ScriptHead(stmts: seq<string>)
    requires stmts != []
    requires forall i :: 0 <= i < |stmts| ==> Unbroken(stmts[i])
    ensures Script(stmts) == stmts[0] + ";\n" + Script(stmts[1..])
    ensures ';' !in stmts[0]
    ensures forall i :: 0 <= i < |stmts[1..]| ==> Unbroken(stmts[1..][i])
    ensures Script(stmts[1..]) == [] || Script(stmts[1..])[0] !in Space
  {
    var rest := stmts[1..];
    assert Unbroken(stmts[0]);
    forall i | 0 <= i < |rest| ensures Unbroken(rest[i]) {
      assert rest[i] == stmts[i + 1];
    }
    if rest != [] {
      assert Unbroken(rest[0]);
      ScriptStart(rest);
    }
  }

  /** Dropping the falsy entries keeps the truthy list and drops the empty tail. */
  lemma {:induction false} FilterTruthyTail(xs: seq<string>)
    requires forall i :: 0 <= i < |xs| ==> !Falsy(xs[i])
    ensures FilterTruthy(xs + [""]) == xs
  {
    if xs != [] {
      assert (xs + [""])[1..] == xs[1..] + [""];
      FilterTruthyTail(xs[1..]);
    }
  }

  /** A script written one statement per line runs exactly those statements, in order. */
  lemma StatementsOfScript(stmts: seq<string>)
    requires forall i :: 0 <= i < |stmts| ==> Plain(stmts[i])
    ensures Statements(Script(stmts)) == stmts
  {
    assert forall i :: 0 <= i < |stmts| ==> Unbroken(stmts[i]);
    PiecesOfScript(stmts);
    TrimAllTail(stmts);
    FilterTruthyTail(stmts);
  }

  /** Trimming already trimmed statements and the empty tail changes nothing. */
  lemma TrimAllTail(xs: seq<string>)
    requires forall i :: 0 <= i < |xs| ==> Trim(xs[i]) == xs[i]
    ensures TrimAll(xs + [""]) == xs + [""]
  {
    assert Trim("") == "";
  }

  // ---------------------------------------------------------------------------
  // Running the statements (lines 40-52)

  /** Statement k succeeds after the history and the statements before it. */
  predicate Succeeds(history: seq<string>, statements: seq<string>, k: int, exec: (seq<string>, string) -> bool)
    requires 0 <= k < |statements|
  {
    exec(history + statements[..k], statements[k])
  }

  /**
   * The statements attempted form a prefix of the list, every one but the
   * last succeeded, and the last one failed exactly when the run failed; a
   * run that did not fail attempted them all.
   */
  predicate RanInOrder(history: seq<string>, statements: seq<string>, attempted: seq<string>, ok: bool,
                       exec: (seq<string>, string) -> bool)
  {
    && |attempted| <= |statements| && attempted == statements[..|attempted|]
    && (forall k :: 0 <= k < |attempted| - 1 ==> Succeeds(history, statements, k, exec))
    && (ok ==> attempted == statements && forall k :: 0 <= k < |statements| ==> Succeeds(history, statements, k, exec))
    && (!ok ==> attempted != [] && !Succeeds(history, statements, |attempted| - 1, exec))
  }

  /** The outcome of a run is determined: at most one prefix and verdict fit. */
  lemma RanInOrderUnique(history: seq<string>, statements: seq<string>, a1: seq<string>, ok1: bool,
                         a2: seq<string>, ok2: bool, exec: (seq<string>, string) -> bool)
    requires RanInOrder(history, statements, a1, ok1, exec)
    requires RanInOrder(history, statements, a2, ok2, exec)
    ensures a1 == a2 && ok1 == ok2
  {
  }

  /** Lines 40-50: each statement in order; the first failure stops the run. */
  method RunStatements(history: seq<string>, statements: seq<string>, exec: (seq<string>, string) -> bool)
    returns (attempted: seq<string>, ok: bool)
    ensures RanInOrder(history, statements, attempted, ok, exec)
  {
    attempted := [];
    var i := 0;
    while i < |statements|
      invariant 0 <= i <= |statements|
      invariant attempted == statements[..i]
      invariant forall k :: 0 <= k < i ==> Succeeds(history, statements, k, exec)
    {
      PrefixStep(statements, i);
      attempted := attempted + [statements[i]];
      if !exec(history + statements[..i], statements[i]) {
        return attempted, false;
      }
      i := i + 1;
    }
    ok := true;
  }

  /** What reading a script gives: not readable, a failed read, or its text. */
  datatype FileRead = Unreadable | ReadFailed | Contents(text: string)

  /** Lines 26-53: one script; an unreadable script stops the run before any statement. */
  method RunFile(history: seq<string>, file: FileRead, exec: (seq<string>, string) -> bool)
    returns (attempted: seq<string>, ok: bool, count: nat)
    ensures !file.Contents? ==> !ok && attempted == []
    ensures file.Contents? ==> RanInOrder(history, Statements(file.text), attempted, ok, exec)
    ensures ok ==> count == |Statements(file.text)|
  {
    if !file.Contents? {
      return [], false, 0;
    }
    var statements := Statements(file.text);
    attempted, ok := RunStatements(history, statements, exec);
    count := |statements|;
  }

  /**
   * Lines 7-24: the migrations, then the seed. Exit code 0 exactly when both
   * scripts were read and all their statements succeeded; the seed is
   * attempted only after every migration succeeded. `reports` holds the
   * statement count printed for each completed script.
   */
  method Migrate(connected: bool, migrations: FileRead, seed: FileRead, exec: (seq<string>, string) -> bool)
    returns (code: int, migrationsRun: seq<string>, seedRun: seq<string>, reports: seq<nat>)
    ensures code == 0 || code == 1
    ensures !connected || !migrations.Contents? ==> code == 1 && migrationsRun == [] && seedRun == []
    ensures connected && migrations.Contents? ==>
              RanInOrder([], Statements(migrations.text), migrationsRun, true, exec)
              || RanInOrder([], Statements(migrations.text), migrationsRun, false, exec)
    ensures seedRun != [] ==> migrations.Contents? && seed.Contents? && migrationsRun == Statements(migrations.text)
                              && RanInOrder(migrationsRun, Statements(seed.text), seedRun, code == 0, exec)
    ensures code == 0 ==> migrations.Contents? && seed.Contents?
                          && RanInOrder([], Statements(migrations.text), migrationsRun, true, exec)
                          && RanInOrder(migrationsRun, Statements(seed.text), seedRun, true, exec)
                          && reports == [|Statements(migrations.text)|, |Statements(seed.text)|]
    ensures code == 1 && connected && migrations.Contents? && seed.Contents? ==>
              RanInOrder([], Statements(migrations.text), migrationsRun, false, exec)
              || RanInOrder(migrationsRun, Statements(seed.text), seedRun, false, exec)
  {
    migrationsRun, seedRun, reports, code := [], [], [], 1;
    if connected {
      var ok, count;
      migrationsRun, ok, count := RunFile([], migrations, exec);
      if ok {
        reports := [count];
        seedRun, ok, count := RunFile(migrationsRun, seed, exec);
        if ok {
          reports := reports + [count];
          code := 0;
        }
      }
    }
  }
}
