/**
 * scripts/cli/tmdb_sync.php: selects movies that have a TMDb id (the most
 * recently updated first, at most `--limit` of them, only those updated
 * since `--since` in delta mode), fetches each one's TMDb details and
 * writes back summary, director, runtime, votes, poster path and the first
 * eight cast names.
 *
 * The database is a pair of parameters (`select` answers the SELECT,
 * `executes` says whether an UPDATE succeeds), and so is TMDb (`fetch`
 * answers tmdb_get_movie with the decoded body, JNull on failure).
 *
 * The connection is opened in PDO's exception mode (lib/db.php:28), so a
 * rejected UPDATE throws instead of returning false: the script as written
 * stops there with PHP's exit status 255 (SyncAsWritten, RunAsWritten).
 * Sync and Run model what the `else` branch of lines 92-95 intends: the
 * rejected movie is counted as a failure and the loop goes on.
 */
module TmdbSync {
  import opened Wrappers
  import opened Ints
  import opened Strings
  import opened Json

  // ---------------------------------------------------------------------------
  // Command line (lines 11-22)

  /** A long option declared `name::` as getopt reports it: missing, given without a value (false), or with one. */
  datatype Opt = Absent | Flag | Given(value: string)

  datatype Options = Options(mode: Opt, limit: Opt, since: Opt, help: Opt)

  const DefaultLimit: int := 50

  /** Lines 20-21: `(int)` of the option when set (false casts to 0), else 50, and at least 1. */
  function Limit(o: Opt): (n: int)
    ensures n >= 1
    ensures o.Absent? ==> n == DefaultLimit
    ensures o.Given? && ToInt(o.value) >= 1 ==> n == ToInt(o.value)
    ensures o.Given? && ToInt(o.value) < 1 ==> n == 1
    ensures o.Flag? ==> n == 1
  {
    var requested := match o
      case Absent => DefaultLimit
      case Flag => 0
      case Given(v) => ToInt(v);
    Max(1, requested)
  }

  /** Line 32: `$mode === 'delta' && $since`; a valueless option reads as false. */
  predicate Delta(o: Options) {
    o.mode == Given("delta") && o.since.Given? && !Falsy(o.since.value)
  }

  const NotNullClause: string := "tmdb_id IS NOT NULL"
  const SinceClause: string := "updated_at >= :since"

  /** The SELECT: its WHERE conditions, the bound named parameters and the LIMIT. */
  datatype Query = Query(clauses: seq<string>, params: seq<(string, string)>, limit: int)

  /** Lines 30-36 and 42: the query the script prepares. */
  function SelectQuery(o: Options): (q: Query)
    ensures |q.clauses| >= 1 && q.clauses[0] == NotNullClause
    ensures SinceClause in q.clauses <==> Delta(o)
    ensures q.params != [] <==> SinceClause in q.clauses
    ensures q.params != [] ==> q.params == [("since", o.since.value)]
    ensures q.limit >= 1
  {
    var delta := Delta(o);
    Query([NotNullClause] + (if delta then [SinceClause] else []),
          if delta then [("since", o.since.value)] else [],
          Limit(o.limit))
  }

  /** Line 38: the SQL text. */
  function Sql(q: Query): string {
    "SELECT * FROM movies WHERE " + Join(q.clauses, " AND ") + " ORDER BY updated_at DESC LIMIT :limit"
  }

  // ---------------------------------------------------------------------------
  // One movie (lines 55-87)

  /** The columns of a `movies` row the script reads; nullable columns are JNull when NULL. */
  datatype Row = Row(id: int, tmdbId: string, title: string, summary: Json, director: Json, duration: Json,
                     rating: Json, ratingCount: Json, posterPathRemote: Json)

  /** The values bound to the UPDATE. */
  datatype Update = Update(summary: Json, director: Json, duration: Json, rating: Json, ratingCount: Json,
                           posterPathRemote: Json, cast: Json)

  /** `!$payload`: what PHP treats as false among decoded values. */
  predicate PayloadFalsy(j: Json) {
    || j == JNull || j == JBool(false) || j == JInt(0)
    || (j.JStr? && Falsy(j.s)) || j == JList([]) || j == JObject(map[])
  }

  /** `$payload['credits'][$k] ?? []` as a list (a value that is not a list gives no elements). */
  function Credits(payload: Json, k: string): seq<Json> {
    match Field2(payload, "credits", k)
    case Some(JList(xs)) => xs
    case _ => []
  }

  /** Line 66: `($crewMember['job'] ?? '') === 'Director'`. */
  predicate IsDirector(member: Json) {
    Field(member, "job") == Some(JStr("Director"))
  }

  /** `$crewMember['name']`: null when missing. */
  function NameOf(member: Json): Json {
    Field(member, "name").GetOr(JNull)
  }

  /** The director's name: the first crew member whose job is Director, else the existing value. */
  function DirectorOf(crew: seq<Json>, existing: Json): Json {
    if crew == [] then existing
    else if IsDirector(crew[0]) then NameOf(crew[0])
    else DirectorOf(crew[1..], existing)
  }

  /** DirectorOf picks the name of the first Director, and keeps the existing value when there is none. */
  lemma {:induction false} DirectorIsFirst(crew: seq<Json>, existing: Json, i: int)
    requires 0 <= i < |crew| && IsDirector(crew[i])
    requires forall j :: 0 <= j < i ==> !IsDirector(crew[j])
    ensures DirectorOf(crew, existing) == NameOf(crew[i])
  {
    if i > 0 {
      assert !IsDirector(crew[0]);
      DirectorIsFirst(crew[1..], existing, i - 1);
    }
  }

  /** Without a Director in the crew the stored director stays. */
  lemma {:induction false} DirectorKept(crew: seq<Json>, existing: Json)
    requires forall j :: 0 <= j < |crew| ==> !IsDirector(crew[j])
    ensures DirectorOf(crew, existing) == existing
  {
    if crew != [] {
      assert !IsDirector(crew[0]);
      DirectorKept(crew[1..], existing);
    }
  }

  /** Lines 63-70: the loop over the crew that stops at the first Director. */
  method Director(crew: seq<Json>, existing: Json) returns (d: Json)
    ensures d == DirectorOf(crew, existing)
  {
    d := existing;
    var i := 0;
    while i < |crew|
      invariant 0 <= i <= |crew|
      invariant d == existing
      invariant DirectorOf(crew[i..], existing) == DirectorOf(crew, existing)
    {
      assert crew[i..][0] == crew[i] && crew[i..][1..] == crew[i + 1..];
      if IsDirector(crew[i]) {
        d := NameOf(crew[i]);
        break;
      }
      i := i + 1;
    }
  }

  /** `array_column($cast, 'name')`: the `name` of every member that has one, in order (a null name included). */
  function Names(cast: seq<Json>): (r: seq<Json>)
    ensures |r| <= |cast|
  {
    if cast == [] then []
    else (if cast[0].JObject? && "name" in cast[0].fields then [cast[0].fields["name"]] else []) + Names(cast[1..])
  }

  /** When every member has a name, Names lists them position by position. */
  lemma {:induction false} NamesAllNamed(cast: seq<Json>)
    requires forall i :: 0 <= i < |cast| ==> cast[i].JObject? && "name" in cast[i].fields
    ensures |Names(cast)| == |cast|
    ensures forall i :: 0 <= i < |cast| ==> Names(cast)[i] == cast[i].fields["name"]
  {
    if cast != [] {
      NamesAllNamed(cast[1..]);
    }
  }

  const CastSize: int := 8

  /** Line 79: `array_slice(..., 0, 8)` of the names. */
  function CastOf(payload: Json): (cast: seq<Json>)
    ensures |cast| == Min(CastSize, |Names(Credits(payload, "cast"))|)
    ensures cast == Names(Credits(payload, "cast"))[..|cast|]
  {
    var names := Names(Credits(payload, "cast"));
    names[..Min(CastSize, |names|)]
  }

  /** Lines 72-80: each field from the payload when it is there and not null, else the stored value. */
  function Plan(row: Row, payload: Json, director: Json): (u: Update)
    ensures Field(payload, "overview").Some? ==> u.summary == Field(payload, "overview").value
    ensures Field(payload, "overview").None? ==> u.summary == row.summary
    ensures Field(payload, "runtime").Some? ==> u.duration == Field(payload, "runtime").value
    ensures Field(payload, "runtime").None? ==> u.duration == row.duration
    ensures Field(payload, "vote_average").Some? ==> u.rating == Field(payload, "vote_average").value
    ensures Field(payload, "vote_average").None? ==> u.rating == row.rating
    ensures Field(payload, "vote_count").Some? ==> u.ratingCount == Field(payload, "vote_count").value
    ensures Field(payload, "vote_count").None? ==> u.ratingCount == row.ratingCount
    ensures Field(payload, "poster_path").Some? ==> u.posterPathRemote == Field(payload, "poster_path").value
    ensures Field(payload, "poster_path").None? ==> u.posterPathRemote == row.posterPathRemote
    ensures u.director == director && u.cast == JList(CastOf(payload))
  {
    Update(Field(payload, "overview").GetOr(row.summary), director,
           Field(payload, "runtime").GetOr(row.duration),
           Field(payload, "vote_average").GetOr(row.rating),
           Field(payload, "vote_count").GetOr(row.ratingCount),
           Field(payload, "poster_path").GetOr(row.posterPathRemote),
           JList(CastOf(payload)))
  }

  /** A payload with nothing in it rewrites every column to its stored value and the cast to []. */
  lemma PlanOfBarePayload(row: Row, payload: Json)
    requires payload.JObject? && payload.fields.Keys <= {"id"}
    ensures Plan(row, payload, DirectorOf(Credits(payload, "crew"), row.director))
            == Update(row.summary, row.director, row.duration, row.rating, row.ratingCount, row.posterPathRemote, JList([]))
  {
    assert Field2(payload, "credits", "crew").None?;
  }

  /** The values the script binds for a movie whose payload arrived. */
  function PlanFor(row: Row, payload: Json): Update {
    Plan(row, payload, DirectorOf(Credits(payload, "crew"), row.director))
  }

  // ---------------------------------------------------------------------------
  // The loop over the movies (lines 51-96)

  datatype Status = Synced | FetchFailed | UpdateFailed

  /** Line 55: `(int) $movie['tmdb_id']`. */
  function TmdbIdOf(row: Row): int {
    ToInt(row.tmdbId)
  }

  /** What happens to one movie: no payload, a failed UPDATE, or a synced movie. */
  function StatusOf(row: Row, fetch: int -> Json, executes: (int, Update) -> bool): Status {
    var payload := fetch(TmdbIdOf(row));
    if PayloadFalsy(payload) then FetchFailed
    else if executes(row.id, PlanFor(row, payload)) then Synced
    else UpdateFailed
  }

  /** The status of each movie, in order. */
  function Statuses(rows: seq<Row>, fetch: int -> Json, executes: (int, Update) -> bool): (ss: seq<Status>)
    ensures |ss| == |rows|
    ensures forall i :: 0 <= i < |rows| ==> ss[i] == StatusOf(rows[i], fetch, executes)
  {
    seq(|rows|, i requires 0 <= i < |rows| => StatusOf(rows[i], fetch, executes))
  }

  /** How many entries of ss are st. */
  function Tally(ss: seq<Status>, st: Status): (n: nat)
    ensures n <= |ss|
  {
    if ss == [] then 0 else Tally(ss[..|ss| - 1], st) + (if ss[|ss| - 1] == st then 1 else 0)
  }

  lemma TallyAppend(ss: seq<Status>, s: Status, st: Status)
    ensures Tally(ss + [s], st) == Tally(ss, st) + (if s == st then 1 else 0)
  {
    assert (ss + [s])[..|ss|] == ss;
  }

  /** Every entry is in exactly one status. */
  lemma {:induction false} TallyPartition(ss: seq<Status>)
    ensures Tally(ss, Synced) + Tally(ss, FetchFailed) + Tally(ss, UpdateFailed) == |ss|
  {
    if ss != [] {
      TallyPartition(ss[..|ss| - 1]);
    }
  }

  /** No failure is tallied exactly when every entry is Synced. */
  lemma {:induction false} NoFailureTallied(ss: seq<Status>)
    ensures Tally(ss, FetchFailed) + Tally(ss, UpdateFailed) == 0 <==> forall i :: 0 <= i < |ss| ==> ss[i] == Synced
  {
    if ss != [] {
      var init := ss[..|ss| - 1];
      NoFailureTallied(init);
      assert forall i :: 0 <= i < |init| ==> init[i] == ss[i];
    }
  }

  /** How many of the movies end in status st. */
  function Count(rows: seq<Row>, st: Status, fetch: int -> Json, executes: (int, Update) -> bool): (n: nat)
    ensures n <= |rows|
  {
    Tally(Statuses(rows, fetch, executes), st)
  }

  /** The UPDATEs issued, in order: one per movie whose payload arrived. */
  function Issued(rows: seq<Row>, fetch: int -> Json): seq<(int, Update)> {
    if rows == [] then []
    else
      var row := rows[|rows| - 1];
      var payload := fetch(TmdbIdOf(row));
      Issued(rows[..|rows| - 1], fetch) + (if PayloadFalsy(payload) then [] else [(row.id, PlanFor(row, payload))])
  }

  lemma StatusesStep(rows: seq<Row>, i: int, fetch: int -> Json, executes: (int, Update) -> bool)
    requires 0 <= i < |rows|
    ensures Statuses(rows[..i + 1], fetch, executes) == Statuses(rows[..i], fetch, executes) + [StatusOf(rows[i], fetch, executes)]
  {
    PrefixStep(rows, i);
  }

  /** One movie more adds its status to the counts. */
  lemma CountStep(rows: seq<Row>, i: int, fetch: int -> Json, executes: (int, Update) -> bool, st: Status)
    requires 0 <= i < |rows|
    ensures Count(rows[..i + 1], st, fetch, executes)
            == Count(rows[..i], st, fetch, executes) + (if StatusOf(rows[i], fetch, executes) == st then 1 else 0)
  {
    StatusesStep(rows, i, fetch, executes);
    TallyAppend(Statuses(rows[..i], fetch, executes), StatusOf(rows[i], fetch, executes), st);
  }

  /** One movie more adds its UPDATE, if its payload arrived, to the issued ones. */
  lemma IssuedStep(rows: seq<Row>, i: int, fetch: int -> Json)
    requires 0 <= i < |rows|
    ensures var payload := fetch(TmdbIdOf(rows[i]));
            Issued(rows[..i + 1], fetch)
            == Issued(rows[..i], fetch) + (if PayloadFalsy(payload) then [] else [(rows[i].id, PlanFor(rows[i], payload))])
  {
    PrefixStep(rows, i);
  }

  /** Each movie is counted once, in exactly one status. */
  lemma CountsPartition(rows: seq<Row>, fetch: int -> Json, executes: (int, Update) -> bool)
    ensures Count(rows, Synced, fetch, executes) + Count(rows, FetchFailed, fetch, executes)
            + Count(rows, UpdateFailed, fetch, executes) == |rows|
  {
    TallyPartition(Statuses(rows, fetch, executes));
  }

  /** An UPDATE is issued for every movie whose payload arrived, and only for those. */
  lemma {:induction false} IssuedCount(rows: seq<Row>, fetch: int -> Json, executes: (int, Update) -> bool)
    ensures |Issued(rows, fetch)| == Count(rows, Synced, fetch, executes) + Count(rows, UpdateFailed, fetch, executes)
  {
    if rows != [] {
      var n := |rows| - 1;
      IssuedCount(rows[..n], fetch, executes);
      assert rows[..n + 1] == rows;
      CountStep(rows, n, fetch, executes, Synced);
      CountStep(rows, n, fetch, executes, UpdateFailed);
    }
  }

  /** No failure is counted exactly when every movie was synced. */
  lemma NoFailuresIffAllSynced(rows: seq<Row>, fetch: int -> Json, executes: (int, Update) -> bool)
    ensures Count(rows, FetchFailed, fetch, executes) + Count(rows, UpdateFailed, fetch, executes) == 0
            <==> forall i :: 0 <= i < |rows| ==> StatusOf(rows[i], fetch, executes) == Synced
  {
    NoFailureTallied(Statuses(rows, fetch, executes));
  }

  /** Lines 54-96: one TMDb request per movie; each movie adds one to success or to failures. */
  method Sync(rows: seq<Row>, fetch: int -> Json, executes: (int, Update) -> bool)
    returns (success: nat, failures: nat, updates: seq<(int, Update)>)
    ensures success == Count(rows, Synced, fetch, executes)
    ensures failures == Count(rows, FetchFailed, fetch, executes) + Count(rows, UpdateFailed, fetch, executes)
    ensures updates == Issued(rows, fetch)
  {
    success, failures, updates := 0, 0, [];
    var i := 0;
    while i < |rows|
      invariant 0 <= i <= |rows|
      invariant success == Count(rows[..i], Synced, fetch, executes)
      invariant failures == Count(rows[..i], FetchFailed, fetch, executes) + Count(rows[..i], UpdateFailed, fetch, executes)
      invariant updates == Issued(rows[..i], fetch)
    {
      var row := rows[i];
      CountStep(rows, i, fetch, executes, Synced);
      CountStep(rows, i, fetch, executes, FetchFailed);
      CountStep(rows, i, fetch, executes, UpdateFailed);
      IssuedStep(rows, i, fetch);
      var payload := fetch(TmdbIdOf(row));
      if PayloadFalsy(payload) {
        failures := failures + 1;
      } else {
        var director := Director(Credits(payload, "crew"), row.director);
        var data := Plan(row, payload, director);
        updates := updates + [(row.id, data)];
        if executes(row.id, data) {
          success := success + 1;
        } else {
          failures := failures + 1;
        }
      }
      i := i + 1;
    }
    assert rows[..i] == rows;
  }

  /** Line 99: 2 when anything failed, else 0. */
  function ExitCode(failures: nat): (code: int)
    ensures code == 0 || code == 2
    ensures code == 2 <==> failures > 0
  {
    if failures > 0 then 2 else 0
  }

  /**
   * Lines 13-46, before the loop: `--help` (with or without a value) prints
   * usage and exits 0; without a database it exits 1; otherwise the SELECT
   * is prepared and run, and with no movie selected the script exits 0.
   * `exit` is the early exit status, if any.
   */
  method Prepare(o: Options, connected: bool, select: Query -> seq<Row>)
    returns (exit: Option<int>, query: Option<Query>, rows: seq<Row>)
    ensures o.help != Absent ==> exit == Some(0) && query.None?
    ensures o.help == Absent && !connected ==> exit == Some(1) && query.None?
    ensures o.help == Absent && connected ==> query == Some(SelectQuery(o)) && rows == select(SelectQuery(o))
    ensures o.help == Absent && connected ==> (exit.Some? <==> rows == []) && (exit.Some? ==> exit == Some(0))
    ensures exit.None? ==> query.Some? && rows != []
  {
    query, rows := None, [];
    if o.help != Absent {
      return Some(0), query, rows;
    }
    if !connected {
      return Some(1), query, rows;
    }
    var q := SelectQuery(o);
    query := Some(q);
    rows := select(q);
    exit := if rows == [] then Some(0) else None;
  }

  /**
   * The whole script, with the `else` branch of lines 92-95 taking effect:
   * it syncs the selected movies and exits 0 exactly when all of them were
   * synced, else 2.
   */
  method Run(o: Options, connected: bool, select: Query -> seq<Row>, fetch: int -> Json, executes: (int, Update) -> bool)
    returns (code: int, query: Option<Query>, success: nat, failures: nat, updates: seq<(int, Update)>)
    ensures o.help != Absent ==> code == 0 && query.None? && updates == []
    ensures o.help == Absent && !connected ==> code == 1 && query.None? && updates == []
    ensures o.help == Absent && connected ==> query == Some(SelectQuery(o))
    ensures query.Some? && select(query.value) == [] ==> code == 0 && updates == []
    ensures query.Some? ==> var rows := select(query.value);
              && updates == Issued(rows, fetch)
              && success + failures == |rows|
              && success == Count(rows, Synced, fetch, executes)
              && (code == 0 <==> forall i :: 0 <= i < |rows| ==> StatusOf(rows[i], fetch, executes) == Synced)
              && (code == 0 || code == 2)
  {
    success, failures, updates := 0, 0, [];
    var exit, rows;
    exit, query, rows := Prepare(o, connected, select);
    if exit.Some? {
      return exit.value, query, success, failures, updates;
    }
    success, failures, updates := Sync(rows, fetch, executes);
    CountsPartition(rows, fetch, executes);
    NoFailuresIffAllSynced(rows, fetch, executes);
    code := ExitCode(failures);
  }

  // ---------------------------------------------------------------------------
  // The loop as written: a rejected UPDATE throws (lines 89-95 with lib/db.php:28)

  /** The position of the first movie whose UPDATE is rejected, or the number of movies when none is. */
  function FirstRejected(rows: seq<Row>, fetch: int -> Json, executes: (int, Update) -> bool): (k: nat)
    ensures k <= |rows|
    ensures k < |rows| ==> StatusOf(rows[k], fetch, executes) == UpdateFailed
  {
    if rows == [] then 0
    else if StatusOf(rows[0], fetch, executes) == UpdateFailed then 0
    else 1 + FirstRejected(rows[1..], fetch, executes)
  }

  /** No movie before the first rejected one is rejected. */
  lemma {:induction false} NoneRejectedBefore(rows: seq<Row>, j: nat, fetch: int -> Json, executes: (int, Update) -> bool)
    requires j < FirstRejected(rows, fetch, executes)
    ensures StatusOf(rows[j], fetch, executes) != UpdateFailed
  {
    assert StatusOf(rows[0], fetch, executes) != UpdateFailed;
    if j > 0 {
      assert FirstRejected(rows, fetch, executes) == 1 + FirstRejected(rows[1..], fetch, executes);
      NoneRejectedBefore(rows[1..], j - 1, fetch, executes);
      assert rows[1..][j - 1] == rows[j];
    }
  }

  /** PHP's exit status after an uncaught exception. */
  const UncaughtExit: int := 255

  /**
   * Lines 54-96 as they run: movies are synced in order until an UPDATE is
   * rejected, which throws a PDOException that nothing catches. `aborted`
   * says whether that happened; the counters are then never printed.
   */
  method SyncAsWritten(rows: seq<Row>, fetch: int -> Json, executes: (int, Update) -> bool)
    returns (success: nat, failures: nat, updates: seq<(int, Update)>, aborted: bool)
    ensures var k := FirstRejected(rows, fetch, executes);
            && (aborted <==> k < |rows|)
            && success == Count(rows[..k], Synced, fetch, executes)
            && failures == Count(rows[..k], FetchFailed, fetch, executes)
            // the rejected UPDATE was sent; none after it
            && updates == Issued(rows[..if aborted then k + 1 else k], fetch)
  {
    success, failures, updates, aborted := 0, 0, [], false;
    var i := 0;
    while i < |rows|
      invariant 0 <= i <= |rows|
      invariant i <= FirstRejected(rows, fetch, executes)
      invariant success == Count(rows[..i], Synced, fetch, executes)
      invariant failures == Count(rows[..i], FetchFailed, fetch, executes)
      invariant updates == Issued(rows[..i], fetch)
    {
      var row := rows[i];
      CountStep(rows, i, fetch, executes, Synced);
      CountStep(rows, i, fetch, executes, FetchFailed);
      IssuedStep(rows, i, fetch);
      var payload := fetch(TmdbIdOf(row));
      if PayloadFalsy(payload) {
        failures := failures + 1;
        assert StatusOf(row, fetch, executes) == FetchFailed;
      } else {
        var director := Director(Credits(payload, "crew"), row.director);
        var data := Plan(row, payload, director);
        assert data == PlanFor(row, payload);
        updates := updates + [(row.id, data)];
        if executes(row.id, data) {
          success := success + 1;
          assert StatusOf(row, fetch, executes) == Synced;
        } else {
          aborted := true;
          assert StatusOf(row, fetch, executes) == UpdateFailed;
          if i < FirstRejected(rows, fetch, executes) {
            NoneRejectedBefore(rows, i, fetch, executes);
          }
          return;
        }
      }
      i := i + 1;
    }
  }

  /**
   * The whole script as written: as Run, except that a rejected UPDATE ends
   * it with status 255 before the summary line.
   */
  method RunAsWritten(o: Options, connected: bool, select: Query -> seq<Row>, fetch: int -> Json, executes: (int, Update) -> bool)
    returns (code: int, query: Option<Query>, updates: seq<(int, Update)>)
    ensures o.help != Absent ==> code == 0 && query.None? && updates == []
    ensures o.help == Absent && !connected ==> code == 1 && query.None? && updates == []
    ensures o.help == Absent && connected ==> query == Some(SelectQuery(o))
    ensures query.Some? && select(query.value) == [] ==> code == 0 && updates == []
    ensures query.Some? && select(query.value) != [] ==> var rows := select(query.value);
              var k := FirstRejected(rows, fetch, executes);
              && (code == UncaughtExit <==> k < |rows|)
              && (k < |rows| ==> updates == Issued(rows[..k + 1], fetch))
              && (k == |rows| ==> updates == Issued(rows, fetch)
                                  && (code == 0 <==> forall i :: 0 <= i < |rows| ==> StatusOf(rows[i], fetch, executes) == Synced)
                                  && (code == 0 || code == 2))
  {
    updates := [];
    var exit, rows;
    exit, query, rows := Prepare(o, connected, select);
    if exit.Some? {
      return exit.value, query, updates;
    }
    var success, failures, aborted;
    success, failures, updates, aborted := SyncAsWritten(rows, fetch, executes);
    if aborted {
      return UncaughtExit, query, updates;
    }
    assert rows[..|rows|] == rows;
    NoFailuresIffAllSynced(rows, fetch, executes);
    assert Count(rows, UpdateFailed, fetch, executes) == 0 by {
      forall j | 0 <= j < |rows|
        ensures StatusOf(rows[j], fetch, executes) != UpdateFailed
      {
        NoneRejectedBefore(rows, j, fetch, executes);
      }
      UpdateFailedCount(rows, fetch, executes);
    }
    code := ExitCode(failures);
  }

  /** No movie is counted as rejected when none is rejected. */
  lemma {:induction false} UpdateFailedCount(rows: seq<Row>, fetch: int -> Json, executes: (int, Update) -> bool)
    requires forall i :: 0 <= i < |rows| ==> StatusOf(rows[i], fetch, executes) != UpdateFailed
    ensures Count(rows, UpdateFailed, fetch, executes) == 0
  {
    if rows != [] {
      var n := |rows| - 1;
      assert rows[..n + 1] == rows;
      UpdateFailedCount(rows[..n], fetch, executes);
      CountStep(rows, n, fetch, executes, UpdateFailed);
    }
  }

  /**
   * A rejected UPDATE on the first of two movies: the script as written sends
   * only that UPDATE and exits 255, while the intended run also updates the
   * second movie, counts one success and one failure, and exits 2.
   */
  lemma RejectedUpdateAborts(a: Row, b: Row, fetch: int -> Json, executes: (int, Update) -> bool)
    requires StatusOf(a, fetch, executes) == UpdateFailed && StatusOf(b, fetch, executes) == Synced
    ensures FirstRejected([a, b], fetch, executes) == 0
    ensures Issued([a, b][..1], fetch) == [(a.id, PlanFor(a, fetch(TmdbIdOf(a))))]
    ensures Issued([a, b], fetch) == [(a.id, PlanFor(a, fetch(TmdbIdOf(a)))), (b.id, PlanFor(b, fetch(TmdbIdOf(b))))]
    ensures Count([a, b], Synced, fetch, executes) == 1 && Count([a, b], UpdateFailed, fetch, executes) == 1
    ensures ExitCode(Count([a, b], FetchFailed, fetch, executes) + Count([a, b], UpdateFailed, fetch, executes)) == 2
  {
    var rows := [a, b];
    assert rows[0] == a;
    assert rows[..1] == [a] && rows[..|rows| - 1] == [a] && [a][..0] == [];
    assert Issued([a], fetch) == [(a.id, PlanFor(a, fetch(TmdbIdOf(a))))] by {
      assert [a][..|[a]| - 1] == [];
    }
    var ss := Statuses(rows, fetch, executes);
    assert ss == [UpdateFailed, Synced];
    assert ss[..|ss| - 1] == [UpdateFailed] && [UpdateFailed][..0] == [];
    assert Tally([UpdateFailed], Synced) == 0 && Tally([UpdateFailed], UpdateFailed) == 1 && Tally([UpdateFailed], FetchFailed) == 0;
  }
}
