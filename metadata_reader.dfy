/** The metadata reader: table listing, a table's column types, and the
    per-column statistics query with its de-interleaved result.

    The warehouse is abstracted as the answer to each request. */
module MetadataReading {
  import opened Common

  /** What `list_tables` and `table_columns` end with: a value, the implicit
      None after an HTTP error was caught and printed, or a KeyError from a
      reply lacking the key the code indexes. */
  datatype Reply<+T> = Returned(value: T) | ReturnedNone | RaisedKeyError

  // ---------------------------------------------------------------------
  // `list_tables`

  datatype TableEntry = TableEntry(id: string)

  /** The answer to `tables().list`: its 'tables' entry, possibly missing,
      or an HTTP failure. */
  datatype TablesAnswer = TablesListed(tables: Option<seq<TableEntry>>) | TablesFailed(status: int)

  /** `list_tables`: the listed ids in listing order, or None after an HTTP
      error. */
  function ListTables(answer: TablesAnswer): (r: Reply<seq<string>>)
    ensures r.ReturnedNone? <==> answer.TablesFailed?
    ensures r.RaisedKeyError? <==> answer.TablesListed? && answer.tables.None?
    ensures r.Returned? ==> |r.value| == |answer.tables.value|
    ensures r.Returned? ==> forall i :: 0 <= i < |r.value| ==> r.value[i] == answer.tables.value[i].id
  {
    match answer
    case TablesFailed(_) => ReturnedNone
    case TablesListed(tables) =>
      if tables.None? then RaisedKeyError
      else Returned(seq(|tables.value|, i requires 0 <= i < |tables.value| => tables.value[i].id))
  }

  // ---------------------------------------------------------------------
  // `table_columns`

  datatype SchemaField = SchemaField(name: string, fieldType: string)

  /** The answer to `tables().get`: its schema's 'fields', possibly missing,
      or an HTTP failure. */
  datatype TableAnswer = TableInfo(fields: Option<seq<SchemaField>>) | TableGetFailed(status: int)

  /** The dict comprehension `{field['name']: field['type'] ...}`: later
      fields overwrite earlier ones of the same name. */
  function ColumnMap(fields: seq<SchemaField>): map<string, string> {
    if fields == [] then map[]
    else ColumnMap(fields[..|fields| - 1])[fields[|fields| - 1].name := fields[|fields| - 1].fieldType]
  }

  /** The keys are exactly the names of the fields. */
  lemma {:induction false} ColumnMapKeys(fields: seq<SchemaField>)
    ensures forall n :: n in ColumnMap(fields) <==> exists i :: 0 <= i < |fields| && fields[i].name == n
  {
    if fields != [] {
      var init := fields[..|fields| - 1];
      ColumnMapKeys(init);
      assert forall i :: 0 <= i < |init| ==> init[i] == fields[i];
    }
  }

  /** Each name maps to the type of its last field. */
  lemma {:induction false} ColumnMapLast(fields: seq<SchemaField>, i: nat)
    requires i < |fields|
    requires forall j :: i < j < |fields| ==> fields[j].name != fields[i].name
    ensures fields[i].name in ColumnMap(fields)
    ensures ColumnMap(fields)[fields[i].name] == fields[i].fieldType
  {
    if i < |fields| - 1 {
      var init := fields[..|fields| - 1];
      assert init[i] == fields[i];
      ColumnMapLast(init, i);
    }
  }

  /** `table_columns`: each schema field's name mapped to its type, or None
      after an HTTP error. */
  function TableColumns(answer: TableAnswer): (r: Reply<map<string, string>>)
    ensures r.ReturnedNone? <==> answer.TableGetFailed?
    ensures r.RaisedKeyError? <==> answer.TableInfo? && answer.fields.None?
    ensures r.Returned? <==> answer.TableInfo? && answer.fields.Some?
    ensures r.Returned? ==> r.value == ColumnMap(answer.fields.value)
  {
    match answer
    case TableGetFailed(_) => ReturnedNone
    case TableInfo(fields) => if fields.None? then RaisedKeyError else Returned(ColumnMap(fields.value))
  }

  // ---------------------------------------------------------------------
  // `table_stats`: the query

  /** The pieces of the select-item template for one column, between its
      `{0}` placeholders. */
  const Quote := "'"
  const NullCount := "', sum(case when "
  const NonNullCount := " is null then 1 else 0 end), sum(case when "
  const DistinctCount := " is not null then 1 else 0 end), count(distinct "
  const Close := ")"

  const FragmentTemplate: seq<string> := [Quote, NullCount, NonNullCount, DistinctCount, Close]

  /** `.format(col, ...)` of the template: the column's name at every
      placeholder. */
  function Fragment(col: string): string {
    Join(FragmentTemplate, col)
  }

  /** The four items of a column: its name quoted, then its null count,
      non-null count and distinct count, each over the column's name. */
  lemma FragmentText(col: string)
    ensures Fragment(col) == Quote + col + NullCount + col + NonNullCount + col + DistinctCount + col + Close
  {
    JoinFive(Quote, NullCount, NonNullCount, DistinctCount, Close, col);
  }

  lemma JoinFive(a: string, b: string, c: string, d: string, e: string, sep: string)
    ensures Join([a, b, c, d, e], sep) == a + sep + b + sep + c + sep + d + sep + e
  {
    var t := [a, b, c, d, e];
    assert t[1..] == [b, c, d, e] && t[2..] == [c, d, e] && t[3..] == [d, e] && t[4..] == [e];
    assert Join([d, e], sep) == d + sep + e;
    assert Join([c, d, e], sep) == c + sep + d + sep + e;
    assert Join([b, c, d, e], sep) == b + sep + c + sep + d + sep + e;
  }

  function Fragments(cols: seq<string>): (fs: seq<string>)
    ensures |fs| == |cols| && forall i :: 0 <= i < |cols| ==> fs[i] == Fragment(cols[i])
  {
    seq(|cols|, i requires 0 <= i < |cols| => Fragment(cols[i]))
  }

  /** The intended statistics query: the fragments joined by ", " between
      "select " and " FROM [dataset.table]", without a trailing comma.  For no
      columns the two-character strip eats into the keyword, leaving
      "selec FROM [dataset.table]". */
  function StatsQueryText(datasetId: string, tableId: string, cols: seq<string>): string {
    (if cols == [] then "selec" else "select " + Join(Fragments(cols), ", "))
      + " FROM [" + datasetId + "." + tableId + "]"
  }

  /** The text accumulated by the query loop: each part followed by the
      separator. */
  function Terms(parts: seq<string>, sep: string): string {
    if parts == [] then "" else Terms(parts[..|parts| - 1], sep) + parts[|parts| - 1] + sep
  }

  lemma {:induction false} TermsJoin(parts: seq<string>, sep: string)
    requires parts != []
    ensures Terms(parts, sep) == Join(parts, sep) + sep
  {
    var init := parts[..|parts| - 1];
    var last := parts[|parts| - 1];
    if init == [] {
      assert parts == [last];
    } else {
      TermsJoin(init, sep);
      assert parts == init + [last];
      JoinSnoc(init, sep, last);
    }
  }

  /** Dropping the separator after the last part leaves the parts joined. */
  lemma StripTerms(prefix: string, parts: seq<string>, sep: string)
    requires parts != []
    ensures |prefix + Terms(parts, sep)| >= |sep|
    ensures (prefix + Terms(parts, sep))[..|prefix + Terms(parts, sep)| - |sep|] == prefix + Join(parts, sep)
  {
    TermsJoin(parts, sep);
    assert prefix + Terms(parts, sep) == (prefix + Join(parts, sep)) + sep;
  }

  lemma TermsStep(cols: seq<string>, i: nat)
    requires i < |cols|
    ensures Terms(Fragments(cols[..i + 1]), ", ") == Terms(Fragments(cols[..i]), ", ") + Fragment(cols[i]) + ", "
  {
    var fs := Fragments(cols[..i + 1]);
    assert fs[..|fs| - 1] == Fragments(cols[..i]);
  }

  /** The query building of `table_stats`: "select ", then each column's
      fragment and ", ", then the last two characters dropped and the
      FROM clause added. */
  method BuildStatsQuery(datasetId: string, tableId: string, cols: seq<string>) returns (query: string)
    ensures query == StatsQueryText(datasetId, tableId, cols)
  {
    var stats := "select ";
    for i := 0 to |cols|
      invariant stats == "select " + Terms(Fragments(cols[..i]), ", ")
    {
      TermsStep(cols, i);
      stats := stats + Fragment(cols[i]) + ", ";
    }
    assert cols[..|cols|] == cols;
    if cols != [] {
      StripTerms("select ", Fragments(cols), ", ");
    } else {
      assert "select "[..5] == "selec";
    }
    stats := stats[..|stats| - 2];
    query := stats + " FROM [" + datasetId + "." + tableId + "]";
  }

  // ---------------------------------------------------------------------
  // `table_stats`: the result

  type Cell = Option<string>

  /** `[field['v'] for field in row['f']]`. */
  function FieldValues(row: Row): (vs: seq<Cell>)
    ensures |vs| == |row.f| && forall i :: 0 <= i < |row.f| ==> vs[i] == row.f[i].v
  {
    seq(|row.f|, i requires 0 <= i < |row.f| => row.f[i].v)
  }

  /** The values of the last response row; none for no rows. */
  function LastValues(rows: seq<Row>): seq<Cell> {
    if rows == [] then [] else FieldValues(rows[|rows| - 1])
  }

  /** The row loop of `table_stats`, which overwrites `values` on every row,
      so that only the last row counts. */
  method LastRowValues(rows: seq<Row>) returns (values: seq<Cell>)
    ensures values == LastValues(rows)
  {
    values := [];
    for i := 0 to |rows|
      invariant values == LastValues(rows[..i])
    {
      values := FieldValues(rows[i]);
      assert rows[..i + 1][i] == rows[i];
    }
    assert rows[..|rows|] == rows;
  }

  /** `[values[i] for i in range(len(values)) if i % 4 == r]`. */
  function Residue(values: seq<Cell>, r: nat): seq<Cell> {
    if values == [] then []
    else Residue(values[..|values| - 1], r) + (if (|values| - 1) % 4 == r then [values[|values| - 1]] else [])
  }

  /** The residue-r list holds every fourth value starting at index r. */
  lemma {:induction false} ResidueMeaning(values: seq<Cell>, r: nat)
    requires r < 4
    ensures |Residue(values, r)| == (|values| + 3 - r) / 4
    ensures forall k :: 0 <= k < |Residue(values, r)| ==> Residue(values, r)[k] == values[4 * k + r]
  {
    if values != [] {
      var n := |values|;
      var init := values[..n - 1];
      ResidueMeaning(init, r);
      if (n - 1) % 4 == r {
        var m := (n - 1) / 4;
        assert n - 1 == 4 * m + r;
        assert (n - 1 + 3 - r) / 4 == m;
        assert (n + 3 - r) / 4 == m + 1;
      } else {
        assert (n + 3 - r) / 4 == (n - 1 + 3 - r) / 4;
      }
    }
  }

  const StatsHeader: seq<Cell> := [Some("Column name"), Some("Empty"), Some("Non-empty"), Some("Unique")]

  /** The written table: the header, then row k made of values 4k to 4k+3. */
  predicate IsStatsTable(values: seq<Cell>, records: seq<seq<Cell>>) {
    && |records| == |values| / 4 + 1
    && records[0] == StatsHeader
    && forall k :: 0 <= k < |values| / 4 ==> records[k + 1] == values[4 * k..4 * k + 4]
  }

  /** The de-interleaving and the writing loop of `table_stats`.  When the
      number of values is not a multiple of four the last column name has no
      counts and the loop fails with an IndexError (None). */
  method StatsRecords(values: seq<Cell>) returns (records: Option<seq<seq<Cell>>>)
    ensures records.Some? <==> |values| % 4 == 0
    ensures records.Some? ==> IsStatsTable(values, records.value)
  {
    var colnames := Residue(values, 0);
    var nullCounts := Residue(values, 1);
    var nonnullCounts := Residue(values, 2);
    var distinctCounts := Residue(values, 3);
    ResidueMeaning(values, 0);
    ResidueMeaning(values, 1);
    ResidueMeaning(values, 2);
    ResidueMeaning(values, 3);
    var out := [StatsHeader];
    for i := 0 to |colnames|
      invariant i <= |distinctCounts|
      invariant |out| == i + 1 && out[0] == StatsHeader
      invariant forall k :: 0 <= k < i ==> out[k + 1] == values[4 * k..4 * k + 4]
    {
      if i >= |nullCounts| || i >= |nonnullCounts| || i >= |distinctCounts| {
        return None;
      }
      var row := [colnames[i], nullCounts[i], nonnullCounts[i], distinctCounts[i]];
      assert row == values[4 * i..4 * i + 4];
      out := out + [row];
    }
    return Some(out);
  }

  /** The answer to the statistics query: its 'rows', possibly missing, or an
      HTTP failure. */
  datatype StatsAnswer = StatsRows(rows: Option<seq<Row>>) | StatsFailed(status: int)

  /** How `table_stats` ends: the table; an AttributeError because
      `table_columns` gave None; a KeyError from a reply lacking a key; the
      query's HTTP error re-raised; or the IndexError of misaligned values. */
  datatype StatsOutcome =
    | Stats(records: seq<seq<Cell>>)
    | ColumnsUnavailable
    | MissingKey
    | StatsRaised(status: int)
    | Misaligned

  /** The column names in the order `columns.keys()` lists them: each key
      once. */
  predicate IsKeyListing(cols: seq<string>, columns: map<string, string>) {
    && (forall i, j :: 0 <= i < j < |cols| ==> cols[i] != cols[j])
    && columns.Keys == set c | c in cols
  }

  /** `table_stats`: look up the columns, query the statistics of every
      column (the query is None when none was sent), and write the last
      result row as a table of four-value rows under a header. */
  method TableStats(datasetId: string, tableId: string, columnsAnswer: TableAnswer, cols: seq<string>, answer: StatsAnswer)
    returns (query: Option<string>, outcome: StatsOutcome)
    requires TableColumns(columnsAnswer).Returned? ==> IsKeyListing(cols, TableColumns(columnsAnswer).value)
    ensures columnsAnswer.TableGetFailed? <==> outcome.ColumnsUnavailable?
    ensures query.None? <==> !TableColumns(columnsAnswer).Returned?
    ensures query.Some? ==> query.value == StatsQueryText(datasetId, tableId, cols)
    ensures outcome.StatsRaised? <==> query.Some? && answer.StatsFailed?
    ensures outcome.StatsRaised? ==> outcome.status == answer.status
    ensures outcome.MissingKey? <==> (columnsAnswer.TableInfo? && columnsAnswer.fields.None?) || (query.Some? && answer == StatsRows(None))
    ensures outcome.Misaligned? <==> query.Some? && answer.StatsRows? && answer.rows.Some? && |LastValues(answer.rows.value)| % 4 != 0
    ensures outcome.Stats? ==> query.Some? && answer.StatsRows? && answer.rows.Some? && IsStatsTable(LastValues(answer.rows.value), outcome.records)
  {
    var columns := TableColumns(columnsAnswer);
    if columns.ReturnedNone? {
      return None, ColumnsUnavailable;
    } else if columns.RaisedKeyError? {
      return None, MissingKey;
    }
    var q := BuildStatsQuery(datasetId, tableId, cols);
    query := Some(q);
    match answer
    case StatsFailed(status) =>
      outcome := StatsRaised(status);
    case StatsRows(rows) =>
      if rows.None? {
        outcome := MissingKey;
      } else {
        var values := LastRowValues(rows.value);
        var records := StatsRecords(values);
        outcome := if records.None? then Misaligned else Stats(records.value);
      }
  }

  /** With zero columns the query loses the last letter of its keyword. */
  lemma NoColumnsQuery(datasetId: string, tableId: string)
    ensures StatsQueryText(datasetId, tableId, []) == "selec FROM [" + datasetId + "." + tableId + "]"
  {
  }

  /** Every fragment starts with the quoted column name, and consecutive
      fragments are separated by exactly ", " in the query. */
  lemma QueryListsColumns(datasetId: string, tableId: string, cols: seq<string>, c: string)
    requires cols != []
    ensures StatsQueryText(datasetId, tableId, cols + [c]) ==
      "select " + Join(Fragments(cols), ", ") + ", " + Fragment(c) + " FROM [" + datasetId + "." + tableId + "]"
  {
    assert Fragments(cols + [c]) == Fragments(cols) + [Fragment(c)];
    JoinSnoc(Fragments(cols), ", ", Fragment(c));
  }
}
