/**
 * admin/import_csv.php: the bulk import of movies from an uploaded CSV file.
 * A POST is checked in order: the CSRF token, the upload, the file, the
 * header (which must name title, slug and year); then every data record is
 * normalised into a row (blank records skipped), and the rows are either
 * written to the database in one transaction or saved as a preview.
 *
 * `fgetcsv` is abstracted: the file is given as its records, each a sequence
 * of cells. The database is the `Catalog` class, whose statements may fail
 * (`failure` gives the exception message of a failing row).
 */
module ImportCsv {
  import opened Wrappers
  import opened Strings
  import Auth

  const Form: string := "admin_import"
  const CsrfError: string := "Token CSRF non valido. Riprova."
  const UploadError: string := "Caricamento CSV non riuscito."
  const ReadError: string := "Impossibile leggere il file CSV."
  const NoHeaderError: string := "CSV senza intestazione."
  const MissingPrefix: string := "Colonne obbligatorie assenti: "
  const NoRowsError: string := "Nessuna riga valida trovata."
  const ImportErrorPrefix: string := "Errore durante l'import: "

  /** Line 38. */
  const Required: seq<string> := ["title", "slug", "year"]

  /** Line 95: `sprintf('Importazione completata: %d record elaborati.', $inserted)`. */
  function CompletedMessage(n: nat): string {
    "Importazione completata: " + IntToString(n) + " record elaborati."
  }

  /** Line 103, for the preview file `import-preview-<stamp>.json`. */
  function PreviewMessage(stamp: string): string {
    "Anteprima salvata in import-preview-" + stamp + ".json. Abilita il database per importare definitivamente."
  }

  // ---------------------------------------------------------------------------
  // The header

  /** Line 39: `array_diff($required, $header)`, in the order of the required columns. */
  function Missing(header: seq<string>): (m: seq<string>)
    ensures forall c :: c in m <==> c in Required && c !in header
  {
    MissingFrom(Required, header)
  }

  /** The columns of `cols` that the header lacks, in order. */
  function MissingFrom(cols: seq<string>, header: seq<string>): (m: seq<string>)
    ensures forall c :: c in m <==> c in cols && c !in header
  {
    if cols == [] then []
    else (if cols[0] in header then [] else [cols[0]]) + MissingFrom(cols[1..], header)
  }

  // ---------------------------------------------------------------------------
  // One record

  /** Line 48: `array_combine($header, $cells)`; a repeated column keeps its last cell. */
  function Combine(header: seq<string>, cells: seq<string>): (m: map<string, string>)
    requires |header| == |cells|
    ensures forall h :: h in m <==> h in header
    decreases |header|
  {
    if header == [] then map[]
    else
      var n := |header| - 1;
      Combine(header[..n], cells[..n])[header[n] := cells[n]]
  }

  /** A column named once keeps its own cell; a repeated one keeps the cell of its last occurrence. */
  lemma {:induction false} CombineLastWins(header: seq<string>, cells: seq<string>, i: int)
    requires |header| == |cells| && 0 <= i < |header|
    requires forall j :: i < j < |header| ==> header[j] != header[i]
    ensures Combine(header, cells)[header[i]] == cells[i]
    decreases |header|
  {
    var n := |header| - 1;
    if i < n {
      CombineLastWins(header[..n], cells[..n], i);
      assert header[n] != header[i];
    }
  }

  /** Lines 57 and 63: the '|'-separated parts of a column, trimmed, without falsy ones. */
  function ListOf(column: string): (items: seq<string>)
    ensures forall x :: x in items ==> !Falsy(x) && x in TrimAll(Split(column, '|'))
  {
    FilterTruthy(TrimAll(Split(column, '|')))
  }

  /** Each item is a trimmed part of the column, so it has no '|' and no blank at either end. */
  lemma ListOfItems(column: string)
    ensures forall x :: x in ListOf(column) ==> '|' !in x && Trim(x) == x
  {
    var parts := Split(column, '|');
    forall x | x in ListOf(column)
      ensures '|' !in x && Trim(x) == x
    {
      var i :| 0 <= i < |parts| && x == TrimAll(parts)[i];
      TrimByWithin(parts[i], Whitespace);
      TrimByIdempotent(parts[i], Whitespace);
    }
  }


  /** Every item is kept by the filter exactly when all are truthy. */
  lemma {:induction false} FilterTruthyKeepsAll(xs: seq<string>)
    requires forall x :: x in xs ==> !Falsy(x)
    ensures FilterTruthy(xs) == xs
  {
    if xs != [] {
      FilterTruthyKeepsAll(xs[1..]);
    }
  }

  /** Items without '|', blanks at either end or falsy values, written with '|' between them, are read back. */
  lemma ListOfJoin(items: seq<string>)
    requires items != []
    requires forall x :: x in items ==> !Falsy(x) && '|' !in x && Trim(x) == x
    ensures ListOf(Join(items, "|")) == items
  {
    SplitJoin(items, '|');
    assert TrimAll(items) == items;
    FilterTruthyKeepsAll(items);
  }

  /**
   * As written, `array_filter` keeps the original positions of the items it
   * keeps; `json_encode` writes a JSON list only when those positions are
   * 0, 1, 2, ... and an object otherwise.
   */
  function KeptPositions(parts: seq<string>, from: nat): (ks: seq<nat>)
    ensures |ks| == |FilterTruthy(parts)|
  {
    if parts == [] then []
    else (if Falsy(parts[0]) then [] else [from]) + KeptPositions(parts[1..], from + 1)
  }

  /** Lines 57 and 63 as written: the positions the filtered parts keep. */
  function ListPositionsAsWritten(column: string): seq<nat> {
    KeptPositions(TrimAll(Split(column, '|')), 0)
  }

  /** Whether `json_encode` writes the filtered parts as a JSON list. */
  predicate EncodesAsList(positions: seq<nat>) {
    forall i :: 0 <= i < |positions| ==> positions[i] == i
  }

  /**
   * An empty part between two items ("Drama||Comedy") leaves a gap, so the
   * column is stored as a JSON object instead of a list.
   */
  lemma GapStoredAsObject(x: string, y: string)
    requires !Falsy(x) && !Falsy(y) && Trim(x) == x && Trim(y) == y && '|' !in x && '|' !in y
    ensures ListPositionsAsWritten(x + "||" + y) == [0, 2]
    ensures !EncodesAsList(ListPositionsAsWritten(x + "||" + y))
  {
    GapParts(x, y);
    GapKept(x, y);
    assert ListPositionsAsWritten(x + "||" + y)[1] == 2;
  }

  /** With the positions dropped (`array_values`), the same column is the list of its two items. */
  lemma GapDroppedInList(x: string, y: string)
    requires !Falsy(x) && !Falsy(y) && Trim(x) == x && Trim(y) == y && '|' !in x && '|' !in y
    ensures ListOf(x + "||" + y) == [x, y]
  {
    GapParts(x, y);
    GapKept(x, y);
  }

  /** "x||y" splits and trims into x, "" and y. */
  lemma GapParts(x: string, y: string)
    requires Trim(x) == x && Trim(y) == y && '|' !in x && '|' !in y
    ensures TrimAll(Split(x + "||" + y, '|')) == [x, "", y]
  {
    GapSplit(x, y);
    var t := TrimAll([x, "", y]);
    assert Trim("") == "";
    assert t[0] == x && t[1] == "" && t[2] == y;
  }

  /** "x||y" splits into x, "" and y. */
  lemma GapSplit(x: string, y: string)
    requires '|' !in x && '|' !in y
    ensures Split(x + "||" + y, '|') == [x, "", y]
  {
    var parts := [x, "", y];
    assert Join(parts, "|") == x + "||" + y by {
      assert Join(parts[2..], "|") == y;
      assert Join(parts[1..], "|") == "|" + y;
    }
    SplitJoin(parts, '|');
  }

  /** Of x, "" and y the filter keeps x at 0 and y at 2. */
  lemma GapKept(x: string, y: string)
    requires !Falsy(x) && !Falsy(y)
    ensures KeptPositions([x, "", y], 0) == [0, 2]
    ensures FilterTruthy([x, "", y]) == [x, y]
  {
    var parts := [x, "", y];
    assert parts[1..] == ["", y] && parts[2..] == [y];
    assert KeptPositions(parts[2..], 2) == [2];
    assert FilterTruthy(parts[2..]) == [y];
  }

  /** A row ready for the INSERT: the trimmed cells by column, and the typed and list columns. */
  datatype Row = Row(
    fields: map<string, string>, year: int, duration: Option<int>, rating: Option<string>,
    ratingCount: Option<int>, genres: seq<string>, cast: seq<string>)

  /** The column's cell when the column exists and its cell is not PHP-empty. */
  function NonEmpty(fields: map<string, string>, column: string): Option<string> {
    if column in fields && !Falsy(fields[column]) then Some(fields[column]) else None
  }

  /** Lines 52-63. */
  function Normalise(fields: map<string, string>): (r: Row)
    ensures r.fields == fields
    ensures r.year == ToInt(if "year" in fields then fields["year"] else "0")
    ensures r.duration.Some? <==> "duration" in fields
    ensures r.ratingCount.Some? <==> "rating_count" in fields
    ensures r.rating.Some? <==> "rating" in fields
    // genres: the list column, else the single genre, else none
    ensures NonEmpty(fields, "genres").Some? ==> r.genres == ListOf(fields["genres"])
    ensures NonEmpty(fields, "genres").None? && NonEmpty(fields, "genre").Some? ==> r.genres == [fields["genre"]]
    ensures NonEmpty(fields, "genres").None? && NonEmpty(fields, "genre").None? ==> r.genres == []
    ensures NonEmpty(fields, "cast").None? ==> r.cast == []
    ensures NonEmpty(fields, "cast").Some? ==> r.cast == ListOf(fields["cast"])
  {
    Row(
      fields,
      ToInt(if "year" in fields then fields["year"] else "0"),
      if "duration" in fields then Some(ToInt(fields["duration"])) else None,
      if "rating" in fields then Some(fields["rating"]) else None,
      if "rating_count" in fields then Some(ToInt(fields["rating_count"])) else None,
      if NonEmpty(fields, "genres").Some? then ListOf(fields["genres"])
      else if NonEmpty(fields, "genre").Some? then [fields["genre"]]
      else [],
      if NonEmpty(fields, "cast").Some? then ListOf(fields["cast"]) else [])
  }

  /** Line 45: a record of one blank cell (a blank line). */
  predicate Blank(cells: seq<string>) {
    |cells| == 1 && Trim(cells[0]) == ""
  }

  /**
   * Lines 45-64: the row a record gives, or None when it is skipped: a blank
   * record, a record whose cell count differs from the header's (which the
   * `if (!$row)` guard means to skip), and a record that combines to nothing.
   */
  function RowOf(header: seq<string>, cells: seq<string>): (r: Option<Row>)
    ensures r.Some? <==> !Blank(cells) && |cells| == |header| && header != []
    ensures r.Some? ==> forall h :: h in r.value.fields <==> h in header
  {
    if Blank(cells) then None
    else if |cells| != |header| then None
    else
      var fields := Combine(header, TrimAll(cells));
      assert header != [] ==> header[0] in fields;
      if fields == map[] then None else Some(Normalise(fields))
  }

  /** What a record does as written: under PHP 8 `array_combine` throws on a count mismatch. */
  datatype RecordAsWritten = Skip | Keep(row: Row) | Throws

  /** Lines 45-51 as written. */
  function RowOfAsWritten(header: seq<string>, cells: seq<string>): (r: RecordAsWritten)
    ensures r.Throws? <==> !Blank(cells) && |cells| != |header|
  {
    if Blank(cells) then Skip
    else if |cells| != |header| then Throws
    else
      var fields := Combine(header, TrimAll(cells));
      if fields == map[] then Skip else Keep(Normalise(fields))
  }

  /** Where the record as written does not throw, it agrees with RowOf. */
  lemma RowOfAsWrittenAgrees(header: seq<string>, cells: seq<string>)
    ensures var r := RowOfAsWritten(header, cells);
            (r.Keep? <==> RowOf(header, cells).Some?) && (r.Keep? ==> RowOf(header, cells) == Some(r.row))
  {
  }

  /** The rows as written, or None when a record throws and the request dies before importing anything. */
  function RowsAsWritten(header: seq<string>, records: seq<seq<string>>): Option<seq<Row>>
    decreases |records|
  {
    if records == [] then Some([])
    else
      var n := |records| - 1;
      var prev := RowsAsWritten(header, records[..n]);
      if prev.None? then None
      else match RowOfAsWritten(header, records[n])
        case Throws => None
        case Skip => prev
        case Keep(r) => Some(prev.value + [r])
  }

  /**
   * As written, one data record with too few or too many cells aborts the
   * whole request: nothing is imported, and no error message is shown.
   */
  lemma {:induction false} IllSizedRecordAborts(header: seq<string>, records: seq<seq<string>>, k: int)
    requires 0 <= k < |records| && !Blank(records[k]) && |records[k]| != |header|
    ensures RowsAsWritten(header, records).None?
    decreases |records|
  {
    var n := |records| - 1;
    if k < n {
      assert records[..n][k] == records[k];
      IllSizedRecordAborts(header, records[..n], k);
      AbortedStaysAborted(header, records);
    } else {
      assert k == n;
      LastThrowAborts(header, records);
    }
  }

  /** Once the records before the last have aborted, the whole file has. */
  lemma AbortedStaysAborted(header: seq<string>, records: seq<seq<string>>)
    requires records != [] && RowsAsWritten(header, records[..|records| - 1]).None?
    ensures RowsAsWritten(header, records).None?
  {
  }

  /** An ill-sized last record aborts the whole file. */
  lemma LastThrowAborts(header: seq<string>, records: seq<seq<string>>)
    requires records != [] && !Blank(records[|records| - 1]) && |records[|records| - 1]| != |header|
    ensures RowsAsWritten(header, records).None?
  {
    assert RowOfAsWritten(header, records[|records| - 1]).Throws?;
  }

  /** The rows of all data records, in file order. */
  function Rows(header: seq<string>, records: seq<seq<string>>): (rows: seq<Row>)
    ensures |rows| <= |records|
    decreases |records|
  {
    if records == [] then []
    else
      var n := |records| - 1;
      var prev := Rows(header, records[..n]);
      match RowOf(header, records[n])
      case None => prev
      case Some(r) => prev + [r]
  }

  /** Every row has a cell for every header column, so title, slug and year whenever the header passed. */
  lemma {:induction false} RowsHaveHeaderColumns(header: seq<string>, records: seq<seq<string>>)
    ensures forall r, h :: r in Rows(header, records) ==> (h in r.fields <==> h in header)
    decreases |records|
  {
    if records != [] {
      RowsHaveHeaderColumns(header, records[..|records| - 1]);
    }
  }

  /** Rows of consecutive parts of the file append. */
  lemma {:induction false} RowsAppend(header: seq<string>, a: seq<seq<string>>, b: seq<seq<string>>)
    ensures Rows(header, a + b) == Rows(header, a) + Rows(header, b)
    decreases |b|
  {
    if b == [] {
      assert a + b == a;
    } else {
      var n := |b| - 1;
      assert (a + b)[..|a + b| - 1] == a + b[..n];
      RowsAppend(header, a, b[..n]);
    }
  }

  /** A record that gives no row, between two parts of the file, leaves their rows as they are. */
  lemma NoRowBetween(header: seq<string>, a: seq<seq<string>>, cells: seq<string>, b: seq<seq<string>>)
    requires RowOf(header, cells).None?
    ensures Rows(header, a + [cells] + b) == Rows(header, a + b)
  {
    assert Rows(header, [cells]) == [] by {
      assert [cells][..0] == [];
    }
    RowsAppend(header, a, [cells]);
    RowsAppend(header, a + [cells], b);
    RowsAppend(header, a, b);
  }

  /** A sequence is the part before an index, the element there, and the part after. */
  lemma SplitAround<T>(xs: seq<T>, k: int)
    requires 0 <= k < |xs|
    ensures xs == xs[..k] + [xs[k]] + xs[k + 1..]
  {
  }

  /** A blank or ill-sized record leaves the other records' rows as they are. */
  lemma SkippedRecord(header: seq<string>, records: seq<seq<string>>, k: int)
    requires 0 <= k < |records|
    requires Blank(records[k]) || |records[k]| != |header|
    ensures Rows(header, records) == Rows(header, records[..k] + records[k + 1..])
    ensures |Rows(header, records)| <= |records| - 1
  {
    SplitAround(records, k);
    NoRowBetween(header, records[..k], records[k], records[k + 1..]);
  }

  /** One more record adds its row, if it gives one. */
  lemma RowsStep(header: seq<string>, records: seq<seq<string>>, i: int)
    requires 0 <= i < |records|
    ensures RowOf(header, records[i]).None? ==> Rows(header, records[..i + 1]) == Rows(header, records[..i])
    ensures RowOf(header, records[i]).Some? ==>
              Rows(header, records[..i + 1]) == Rows(header, records[..i]) + [RowOf(header, records[i]).value]
  {
    assert records[..i + 1][..i] == records[..i];
  }

  /** The `while (fgetcsv(...))` loop. */
  method CollectRows(header: seq<string>, records: seq<seq<string>>) returns (rows: seq<Row>)
    ensures rows == Rows(header, records)
  {
    rows := [];
    for i := 0 to |records|
      invariant rows == Rows(header, records[..i])
    {
      RowsStep(header, records, i);
      var cells := records[i];
      if |cells| == 1 && Trim(cells[0]) == "" {
        continue;
      }
      if |cells| != |header| {
        continue;
      }
      var fields := Combine(header, TrimAll(cells));
      if fields == map[] {
        continue;
      }
      rows := rows + [Normalise(fields)];
    }
    assert records[..|records|] == records;
  }

  // ---------------------------------------------------------------------------
  // The file

  /** What the file yields: an error message, or the rows to import. */
  datatype Parsed = Rejected(error: string) | Accepted(rows: seq<Row>)

  /** Lines 33-69. */
  function ParseFile(records: seq<seq<string>>): (p: Parsed)
    ensures records == [] ==> p == Rejected(NoHeaderError)
    ensures p.Accepted? ==> p.rows != [] && |p.rows| < |records|
  {
    if records == [] then Rejected(NoHeaderError)
    else
      var header := TrimAll(records[0]);
      var missing := Missing(header);
      if missing != [] then Rejected(MissingPrefix + Join(missing, ", "))
      else
        var rows := Rows(header, records[1..]);
        if rows == [] then Rejected(NoRowsError) else Accepted(rows)
  }

  /** A header that lacks a required column is refused, naming exactly the missing columns. */
  lemma HeaderChecked(records: seq<seq<string>>)
    requires records != []
    ensures var header := TrimAll(records[0]);
            && (ParseFile(records).Accepted? ==> forall c :: c in Required ==> c in header)
            && ((exists c :: c in Required && c !in header) ==>
                  ParseFile(records) == Rejected(MissingPrefix + Join(Missing(header), ", ")))
  {
  }

  /** An accepted file gives one row per non-blank, well-sized data record, each with title, slug and year. */
  lemma AcceptedRows(records: seq<seq<string>>)
    requires ParseFile(records).Accepted?
    ensures ParseFile(records).rows == Rows(TrimAll(records[0]), records[1..])
    ensures forall r :: r in ParseFile(records).rows ==> "title" in r.fields && "slug" in r.fields && "year" in r.fields
  {
    var header := TrimAll(records[0]);
    RowsHaveHeaderColumns(header, records[1..]);
    assert forall c :: c in Required ==> c in header;
    assert "title" in Required && "slug" in Required && "year" in Required;
  }

  // ---------------------------------------------------------------------------
  // The database

  /** What a POST ends with: one error message, or one success message. */
  datatype Outcome = Error(error: string) | Done(message: string)

  /**
   * What one import transaction does to the table (`before`, then `after`):
   * with no failing row every row is written and counted; otherwise nothing
   * is written and the first failure is reported.
   */
  ghost predicate Imported(o: Outcome, rows: seq<Row>, failure: Row -> Option<string>, before: seq<Row>, after: seq<Row>) {
    && ((forall k :: 0 <= k < |rows| ==> failure(rows[k]).None?) ==>
          after == before + rows && o == Done(CompletedMessage(|rows|)))
    && ((exists k :: 0 <= k < |rows| && failure(rows[k]).Some?) ==>
          after == before
          && exists k :: 0 <= k < |rows| && failure(rows[k]).Some?
                         && (forall j :: 0 <= j < k ==> failure(rows[j]).None?)
                         && o == Error(ImportErrorPrefix + failure(rows[k]).value))
  }

  class Catalog {
    /** The rows written by committed transactions, in order. */
    var written: seq<Row>

    constructor()
      ensures written == []
    {
      written := [];
    }

    /**
     * Lines 71-99: every row inside one transaction; the first failing
     * statement rolls it back, so the table changes only when all succeed.
     */
    method Import(rows: seq<Row>, failure: Row -> Option<string>) returns (o: Outcome)
      modifies this
      ensures Imported(o, rows, failure, old(written), written)
    {
      var pending: seq<Row> := [];
      var inserted := 0;
      for i := 0 to |rows|
        invariant pending == rows[..i] && inserted == i
        invariant forall j :: 0 <= j < i ==> failure(rows[j]).None?
      {
        var thrown := failure(rows[i]);
        if thrown.Some? {
          return Error(ImportErrorPrefix + thrown.value);
        }
        pending := pending + [rows[i]];
        inserted := inserted + 1;
      }
      assert rows[..|rows|] == rows;
      written := written + pending;
      o := Done(CompletedMessage(inserted));
    }
  }

  /** `$_FILES['csv']`: the upload error code, and the records when the file can be opened. */
  datatype Upload = Upload(error: int, records: Option<seq<seq<string>>>)

  const UploadOk: int := 0

  /**
   * Lines 33-104 for a file that could be opened. `catalog` is null when the
   * database is not configured; `stamp` is the preview file's date stamp.
   */
  method Process(records: seq<seq<string>>, catalog: Catalog?, failure: Row -> Option<string>, stamp: string)
    returns (o: Outcome)
    modifies catalog
    ensures ParseFile(records).Rejected? ==> o == Error(ParseFile(records).error)
    ensures ParseFile(records).Accepted? && catalog == null ==> o == Done(PreviewMessage(stamp))
    ensures ParseFile(records).Accepted? && catalog != null ==>
              Imported(o, ParseFile(records).rows, failure, old(catalog.written), catalog.written)
    // nothing is written unless the whole file was accepted
    ensures catalog != null && o.Error? ==> catalog.written == old(catalog.written)
  {
    if records == [] {
      return Error(NoHeaderError);
    }
    var header := TrimAll(records[0]);
    var missing := Missing(header);
    if missing != [] {
      return Error(MissingPrefix + Join(missing, ", "));
    }
    var rows := CollectRows(header, records[1..]);
    if rows == [] {
      return Error(NoRowsError);
    }
    if catalog != null {
      o := catalog.Import(rows, failure);
    } else {
      o := Done(PreviewMessage(stamp));
    }
  }

  /** Lines 21-104 for a POST: the CSRF token, then the upload, then the file. */
  method Post(session: Auth.Session, token: Option<string>, upload: Option<Upload>, catalog: Catalog?,
              failure: Row -> Option<string>, stamp: string) returns (o: Outcome)
    modifies session, catalog
    // the CSRF token is checked first, and spent when it is accepted
    ensures session.tokens == Auth.Consume(old(session.tokens), Form, token).1
    ensures !Auth.Consume(old(session.tokens), Form, token).0 ==> o == Error(CsrfError)
    // then the upload and the file
    ensures Auth.Consume(old(session.tokens), Form, token).0 && (upload.None? || upload.value.error != UploadOk)
            ==> o == Error(UploadError)
    ensures (Auth.Consume(old(session.tokens), Form, token).0 && upload.Some? && upload.value.error == UploadOk
             && upload.value.records.None?) ==> o == Error(ReadError)
    // then the contents
    ensures (Auth.Consume(old(session.tokens), Form, token).0 && upload.Some? && upload.value.error == UploadOk
             && upload.value.records.Some?) ==>
              var parsed := ParseFile(upload.value.records.value);
              && (parsed.Rejected? ==> o == Error(parsed.error))
              && (parsed.Accepted? && catalog == null ==> o == Done(PreviewMessage(stamp)))
              && (parsed.Accepted? && catalog != null ==>
                    Imported(o, parsed.rows, failure, old(catalog.written), catalog.written))
    // nothing is written unless the whole file was accepted
    ensures catalog != null && o.Error? ==> catalog.written == old(catalog.written)
  {
    var valid := session.Verify(Form, token);
    if !valid {
      return Error(CsrfError);
    }
    if upload.None? || upload.value.error != UploadOk {
      return Error(UploadError);
    }
    if upload.value.records.None? {
      return Error(ReadError);
    }
    o := Process(upload.value.records.value, catalog, failure, stamp);
  }
}
