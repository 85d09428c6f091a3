/** The result handlers: sinks that receive the pages of rows a reader
    forwards and write them to one output file.

    The file is abstract: a handler's effect is the sequence of operations
    it performs on it (opening, which truncates, writes of text, of CSV
    records or of one JSON dump, and closing).  Byte-level CSV quoting and
    JSON encoding are not modelled; a CSV record is its list of cells. */
module OutputHandling {
  import opened Common

  datatype FileOp =
    | Opened                                  // open(name, 'wb'): creates or truncates
    | Wrote(data: string)                     // output_file.write(data)
    | WroteRecord(cells: seq<Option<string>>) // csv_file.writerow(cells); None is an empty cell
    | WroteJson(rows: seq<Row>)               // output_file.write(json.dumps(rows))
    | Closed

  /** Whether the file is open after the operations. */
  function OpenAfter(ops: seq<FileOp>): bool {
    if ops == [] then false
    else if ops[|ops| - 1].Opened? then true
    else if ops[|ops| - 1].Closed? then false
    else OpenAfter(ops[..|ops| - 1])
  }

  /** Writes and closing happen only while the file is open. */
  ghost predicate Proper(ops: seq<FileOp>) {
    forall k :: 0 <= k < |ops| && !ops[k].Opened? ==> OpenAfter(ops[..k])
  }

  /** The text on the file: what was written since it was last opened. */
  function FileText(ops: seq<FileOp>): string {
    if ops == [] then ""
    else
      var last := ops[|ops| - 1];
      if last.Opened? then ""
      else FileText(ops[..|ops| - 1]) + (if last.Wrote? then last.data else "")
  }

  /** The opening a lazy handler performs before its first write. */
  function Opening(open: bool): seq<FileOp> {
    if open then [] else [Opened]
  }

  /** All rows of a sequence of batches, in order. */
  function Flatten<T>(batches: seq<seq<T>>): seq<T> {
    if batches == [] then [] else Flatten(batches[..|batches| - 1]) + batches[|batches| - 1]
  }

  lemma AppendIsPrefix(ops: seq<FileOp>, more: seq<FileOp>)
    ensures forall k :: 0 <= k <= |ops| ==> (ops + more)[..k] == ops[..k]
  {
  }

  /** One more operation keeps the operations proper when it opens the file
      or finds it open; the file is then open unless the operation closed it. */
  lemma ProperAppendOne(ops: seq<FileOp>, op: FileOp)
    requires Proper(ops) && (op.Opened? || OpenAfter(ops))
    ensures Proper(ops + [op])
    ensures OpenAfter(ops + [op]) == !op.Closed?
  {
    AppendIsPrefix(ops, [op]);
    assert (ops + [op])[..|ops|] == ops;
  }

  /** Records written to an open file keep the operations proper and the file open. */
  lemma {:induction false} ProperAppendRecords(ops: seq<FileOp>, more: seq<FileOp>)
    requires Proper(ops) && OpenAfter(ops)
    requires forall k :: 0 <= k < |more| ==> more[k].WroteRecord?
    ensures Proper(ops + more) && OpenAfter(ops + more)
    decreases |more|
  {
    if more == [] {
      assert ops + more == ops;
    } else {
      var init := more[..|more| - 1];
      assert ops + more == (ops + init) + [more[|more| - 1]];
      ProperAppendRecords(ops, init);
      ProperAppendOne(ops + init, more[|more| - 1]);
    }
  }

  // ---------------------------------------------------------------------
  // `FileResultHandler`

  /** The fields of a FileResultHandler: whether `output_file` is set, and what was done to the file. */
  datatype FileState = FileState(open: bool, ops: seq<FileOp>)

  /** `FileResultHandler.handle_rows`: open the file if it is not open, then write the batch's text. */
  function FileHandleRows(s: FileState, rows: seq<string>): FileState {
    FileState(true, s.ops + Opening(s.open) + [Wrote(Concat(rows))])
  }

  /** `FileResultHandler.finish`: close the file if it is open. */
  function FileFinish(s: FileState): FileState {
    FileState(false, s.ops + (if s.open then [Closed] else []))
  }

  ghost predicate FileValid(s: FileState) {
    Proper(s.ops) && s.open == OpenAfter(s.ops)
  }

  /** Handling rows keeps the file operations proper and the `output_file`
      field in step with them; the batch lands at the end of the file's text,
      which starts afresh when the file had to be opened. */
  lemma FileHandleRowsValid(s: FileState, rows: seq<string>)
    requires FileValid(s)
    ensures FileValid(FileHandleRows(s, rows))
    ensures FileText(FileHandleRows(s, rows).ops) == (if s.open then FileText(s.ops) else "") + Concat(rows)
  {
    var t := s.ops + Opening(s.open);
    if !s.open {
      ProperAppendOne(s.ops, Opened);
      assert FileText(t) == "";
    } else {
      assert t == s.ops;
    }
    var w := Wrote(Concat(rows));
    ProperAppendOne(t, w);
    assert (t + [w])[..|t|] == t;
  }

  /** Finishing keeps the file operations proper and leaves the file closed. */
  lemma FileFinishValid(s: FileState)
    requires FileValid(s)
    ensures FileValid(FileFinish(s)) && !OpenAfter(FileFinish(s).ops)
  {
    if s.open {
      ProperAppendOne(s.ops, Closed);
    } else {
      assert s.ops + [] == s.ops;
    }
  }

  /** The handler after a sequence of `handle_rows` calls. */
  function FileReplay(s: FileState, batches: seq<seq<string>>): FileState {
    if batches == [] then s else FileHandleRows(FileReplay(s, batches[..|batches| - 1]), batches[|batches| - 1])
  }

  /** The text of every batch, in order. */
  function FileBatchesText(batches: seq<seq<string>>): string {
    if batches == [] then "" else FileBatchesText(batches[..|batches| - 1]) + Concat(batches[|batches| - 1])
  }

  /** From a fresh handler, the batches open the file exactly once, before
      the first write, and the file's text is every batch's joined rows in
      order; `finish` then closes it.  With no batch no file is opened. */
  lemma {:induction false} FileSession(batches: seq<seq<string>>)
    ensures var s := FileReplay(FileState(false, []), batches);
      && FileValid(s) && s.open == (batches != [])
      && FileText(s.ops) == FileBatchesText(batches)
      && (batches != [] ==> |s.ops| == |batches| + 1 && s.ops[0] == Opened)
      && (forall k :: 0 < k < |s.ops| ==> s.ops[k].Wrote?)
      && FileFinish(s).ops == (if batches == [] then [] else s.ops + [Closed])
  {
    if batches != [] {
      var init := batches[..|batches| - 1];
      FileSession(init);
      var s0 := FileReplay(FileState(false, []), init);
      FileHandleRowsValid(s0, batches[|batches| - 1]);
      var s := FileReplay(FileState(false, []), batches);
      assert s == FileHandleRows(s0, batches[|batches| - 1]);
      if init == [] {
        assert s.ops == [Opened, Wrote(Concat(batches[0]))];
      } else {
        assert s.ops == s0.ops + [Wrote(Concat(batches[|batches| - 1]))];
      }
    }
  }

  class FileResultHandler {
    const outputFileName: string
    var outputFileOpen: bool
    var ops: seq<FileOp>

    function State(): FileState
      reads this
    {
      FileState(outputFileOpen, ops)
    }

    /** A handler with no file open yet (the file is opened on the first rows). */
    constructor(outputFileName: string)
      ensures this.outputFileName == outputFileName && State() == FileState(false, []) && FileValid(State())
    {
      this.outputFileName := outputFileName;
      outputFileOpen := false;
      ops := [];
    }

    method HandleRows(rows: seq<string>)
      modifies this
      ensures State() == FileHandleRows(old(State()), rows)
    {
      if !outputFileOpen {
        ops := ops + [Opened];
        outputFileOpen := true;
      }
      ops := ops + [Wrote(Concat(rows))];
    }

    method Finish()
      modifies this
      ensures State() == FileFinish(old(State()))
    {
      if outputFileOpen {
        ops := ops + [Closed];
        outputFileOpen := false;
      }
    }
  }

  // ---------------------------------------------------------------------
  // `JSONResultHandler`

  /** The fields of a JSONResultHandler: the file's, and the rows gathered in memory. */
  datatype JsonState = JsonState(open: bool, ops: seq<FileOp>, output: seq<Row>)

  /** `JSONResultHandler.handle_rows`: extend the in-memory list only. */
  function JsonHandleRows(s: JsonState, rows: seq<Row>): JsonState {
    s.(output := s.output + rows)
  }

  /** `JSONResultHandler.finish`: open the file if needed, write one dump of
      the gathered rows, and close it; the list is kept. */
  function JsonFinish(s: JsonState): JsonState {
    JsonState(false, s.ops + Opening(s.open) + [WroteJson(s.output), Closed], s.output)
  }

  ghost predicate JsonValid(s: JsonState) {
    Proper(s.ops) && s.open == OpenAfter(s.ops)
  }

  /** Handling rows never touches the file; finishing keeps the file operations proper. */
  lemma JsonStepsValid(s: JsonState, rows: seq<Row>)
    requires JsonValid(s)
    ensures JsonHandleRows(s, rows).ops == s.ops && JsonHandleRows(s, rows).open == s.open
    ensures JsonValid(JsonHandleRows(s, rows)) && JsonValid(JsonFinish(s))
  {
    var t := s.ops + Opening(s.open);
    if !s.open {
      ProperAppendOne(s.ops, Opened);
    } else {
      assert t == s.ops;
    }
    ProperAppendOne(t, WroteJson(s.output));
    ProperAppendOne(t + [WroteJson(s.output)], Closed);
    assert s.ops + Opening(s.open) + [WroteJson(s.output), Closed] == t + [WroteJson(s.output)] + [Closed];
  }

  function JsonReplay(s: JsonState, batches: seq<seq<Row>>): JsonState {
    if batches == [] then s else JsonHandleRows(JsonReplay(s, batches[..|batches| - 1]), batches[|batches| - 1])
  }

  /** From a fresh handler, any batches followed by `finish` open, dump all
      rows in arrival order once, and close: also when there were no rows. */
  lemma {:induction false} JsonSession(batches: seq<seq<Row>>)
    ensures var s := JsonReplay(JsonState(false, [], []), batches);
      && s == JsonState(false, [], Flatten(batches))
      && JsonFinish(s).ops == [Opened, WroteJson(Flatten(batches)), Closed]
  {
    if batches != [] {
      JsonSession(batches[..|batches| - 1]);
    }
  }

  class JsonResultHandler {
    const outputFileName: string
    var outputFileOpen: bool
    var ops: seq<FileOp>
    var output: seq<Row>

    function State(): JsonState
      reads this
    {
      JsonState(outputFileOpen, ops, output)
    }

    constructor(outputFileName: string)
      ensures this.outputFileName == outputFileName && State() == JsonState(false, [], []) && JsonValid(State())
    {
      this.outputFileName := outputFileName;
      outputFileOpen := false;
      ops := [];
      output := [];
    }

    method HandleRows(rows: seq<Row>)
      modifies this
      ensures State() == JsonHandleRows(old(State()), rows)
    {
      output := output + rows;
    }

    method Finish()
      modifies this
      ensures State() == JsonFinish(old(State()))
    {
      if !outputFileOpen {
        ops := ops + [Opened];
        outputFileOpen := true;
      }
      ops := ops + [WroteJson(output)];
      ops := ops + [Closed];
      outputFileOpen := false;
    }
  }

  // ---------------------------------------------------------------------
  // `CSVResultHandler`

  /** `s.encode('ascii', 'ignore')`: the string without its non-ASCII characters. */
  function AsciiOnly(s: string): (r: string)
    ensures |r| <= |s|
    ensures forall i :: 0 <= i < |r| ==> (r[i] as int) < 128
    ensures (forall i :: 0 <= i < |s| ==> (s[i] as int) < 128) ==> r == s
  {
    if s == [] then ""
    else (if (s[0] as int) < 128 then [s[0]] else []) + AsciiOnly(s[1..])
  }

  /** A single character is kept exactly when it is ASCII. */
  lemma AsciiOnlyChar(c: char)
    ensures AsciiOnly([c]) == if (c as int) < 128 then [c] else []
  {
    assert [c][1..] == [];
  }

  /** Dropping the non-ASCII characters works piecewise, so the ASCII
      characters are kept in their order. */
  lemma {:induction false} AsciiOnlyAppend(a: string, b: string)
    ensures AsciiOnly(a + b) == AsciiOnly(a) + AsciiOnly(b)
    decreases |a|
  {
    if a == [] {
      assert a + b == b;
    } else {
      assert (a + b)[0] == a[0] && (a + b)[1..] == a[1..] + b;
      AsciiOnlyAppend(a[1..], b);
    }
  }

  /** The cells a data row is written as: each field's value in order, ASCII only, None kept. */
  function Cells(row: Row): (cells: seq<Option<string>>)
    decreases |row.f|
    ensures |cells| == |row.f|
    ensures forall i :: 0 <= i < |cells| ==>
      (cells[i].None? <==> row.f[i].v.None?) &&
      (cells[i].Some? ==> cells[i].value == AsciiOnly(row.f[i].v.value))
  {
    if row.f == [] then []
    else [if row.f[0].v.Some? then Some(AsciiOnly(row.f[0].v.value)) else None] + Cells(Row(row.f[1..]))
  }

  /** The records of a batch of rows, one per row in order. */
  function Records(rows: seq<Row>): seq<FileOp> {
    if rows == [] then [] else Records(rows[..|rows| - 1]) + [WroteRecord(Cells(rows[|rows| - 1]))]
  }

  /** The column names as the cells of a record. */
  function NameCells(names: seq<string>): (cells: seq<Option<string>>)
    ensures |cells| == |names| && forall i :: 0 <= i < |names| ==> cells[i] == Some(names[i])
  {
    if names == [] then [] else [Some(names[0])] + NameCells(names[1..])
  }

  /** The header a newly opened CSV file gets: the column names, when there are any. */
  function Header(columns: Option<seq<string>>): seq<FileOp> {
    if columns.Some? && columns.value != [] then [WroteRecord(NameCells(columns.value))] else []
  }

  /** The fields of a CSVResultHandler: the file's, and the columns. */
  datatype CsvState = CsvState(open: bool, ops: seq<FileOp>, columns: Option<seq<string>>)

  /** `CSVResultHandler.__enter__`: open the file and write the header. */
  function CsvEnter(s: CsvState): CsvState {
    s.(open := true, ops := s.ops + [Opened] + Header(s.columns))
  }

  /** `CSVResultHandler.handle_rows`: open the file if it is not open, then one record per row. */
  function CsvHandleRows(s: CsvState, rows: seq<Row>): CsvState {
    var s' := if s.open then s else CsvEnter(s);
    s'.(ops := s'.ops + Records(rows))
  }

  /** `finish`, inherited from FileResultHandler: close the file if it is open. */
  function CsvFinish(s: CsvState): CsvState {
    s.(open := false, ops := s.ops + (if s.open then [Closed] else []))
  }

  ghost predicate CsvValid(s: CsvState) {
    Proper(s.ops) && s.open == OpenAfter(s.ops)
  }

  /** Opening, handling rows and finishing keep the file operations proper. */
  lemma CsvStepsValid(s: CsvState, rows: seq<Row>)
    requires CsvValid(s)
    ensures CsvValid(CsvEnter(s)) && CsvValid(CsvHandleRows(s, rows)) && CsvValid(CsvFinish(s))
  {
    var e := CsvEnter(s);
    ProperAppendOne(s.ops, Opened);
    ProperAppendRecords(s.ops + [Opened], Header(s.columns));
    var s' := if s.open then s else e;
    RecordsMeaning(rows);
    ProperAppendRecords(s'.ops, Records(rows));
    if s.open {
      ProperAppendOne(s.ops, Closed);
    } else {
      assert s.ops + [] == s.ops;
    }
  }

  function CsvReplay(s: CsvState, batches: seq<seq<Row>>): CsvState {
    if batches == [] then s else CsvHandleRows(CsvReplay(s, batches[..|batches| - 1]), batches[|batches| - 1])
  }

  /** The CSV operations of a session: nothing without a batch; otherwise
      the opening, the header, and one record per row of every batch in order. */
  function CsvSessionOps(columns: Option<seq<string>>, batches: seq<seq<Row>>): seq<FileOp> {
    if batches == [] then [] else [Opened] + Header(columns) + Records(Flatten(batches))
  }

  /** From a fresh handler, the batches open the file once and write the
      header (when there are columns) before any data record, then one
      record per row of every batch in order; `finish` closes the file.
      With no batch no file is opened. */
  lemma {:induction false} CsvSession(columns: Option<seq<string>>, batches: seq<seq<Row>>)
    ensures var s := CsvReplay(CsvState(false, [], columns), batches);
      && s.open == (batches != []) && s.columns == columns
      && s.ops == CsvSessionOps(columns, batches)
      && CsvFinish(s).ops == (if batches == [] then [] else s.ops + [Closed])
  {
    if batches != [] {
      var init := batches[..|batches| - 1];
      var last := batches[|batches| - 1];
      CsvSession(columns, init);
      var s0 := CsvReplay(CsvState(false, [], columns), init);
      assert CsvReplay(CsvState(false, [], columns), batches) == CsvHandleRows(s0, last);
      assert Flatten(batches) == Flatten(init) + last;
      if init == [] {
        CsvSessionFirst(columns, s0, last);
      } else {
        CsvSessionMore(columns, init, s0, last);
      }
    }
  }

  lemma CsvSessionFirst(columns: Option<seq<string>>, s0: CsvState, last: seq<Row>)
    requires s0 == CsvState(false, [], columns)
    ensures CsvHandleRows(s0, last).ops == [Opened] + Header(columns) + Records(Flatten<Row>([]) + last)
    ensures CsvHandleRows(s0, last).open && CsvHandleRows(s0, last).columns == columns
  {
    assert Flatten<Row>([]) + last == last;
  }

  lemma CsvSessionMore(columns: Option<seq<string>>, init: seq<seq<Row>>, s0: CsvState, last: seq<Row>)
    requires init != [] && s0.open && s0.columns == columns
    requires s0.ops == [Opened] + Header(columns) + Records(Flatten(init))
    ensures CsvHandleRows(s0, last).ops == [Opened] + Header(columns) + Records(Flatten(init) + last)
    ensures CsvHandleRows(s0, last).open && CsvHandleRows(s0, last).columns == columns
  {
    var h := [Opened] + Header(columns);
    assert CsvHandleRows(s0, last).ops == (h + Records(Flatten(init))) + Records(last);
    RecordsAppend(Flatten(init), last);
    assert (h + Records(Flatten(init))) + Records(last) == h + (Records(Flatten(init)) + Records(last));
  }

  lemma {:induction false} RecordsAppend(a: seq<Row>, b: seq<Row>)
    ensures Records(a + b) == Records(a) + Records(b)
    decreases |b|
  {
    if b == [] {
      assert a + b == a;
    } else {
      var init := b[..|b| - 1];
      assert (a + b)[..|a + b| - 1] == a + init;
      assert (a + b)[|a + b| - 1] == b[|b| - 1];
      RecordsAppend(a, init);
    }
  }

  /** A batch is written as one record per row, in order, each the row's cells. */
  lemma {:induction false} RecordsMeaning(rows: seq<Row>)
    ensures |Records(rows)| == |rows|
    ensures forall i :: 0 <= i < |rows| ==> Records(rows)[i] == WroteRecord(Cells(rows[i]))
  {
    if rows != [] {
      RecordsMeaning(rows[..|rows| - 1]);
    }
  }

  class CsvResultHandler {
    const outputFileName: string
    const sep: string
    var outputFileOpen: bool
    var ops: seq<FileOp>
    var columns: Option<seq<string>>

    function State(): CsvState
      reads this
    {
      CsvState(outputFileOpen, ops, columns)
    }

    constructor(outputFileName: string, columns: Option<seq<string>>, sep: string)
      ensures this.outputFileName == outputFileName && this.sep == sep
      ensures State() == CsvState(false, [], columns) && CsvValid(State())
    {
      this.outputFileName := outputFileName;
      this.sep := sep;
      outputFileOpen := false;
      ops := [];
      this.columns := columns;
    }

    /** `ColumnarResultHandler.set_columns`: keep a copy of the names. */
    method SetColumns(names: seq<string>)
      modifies this
      ensures columns == Some(names) && ops == old(ops) && outputFileOpen == old(outputFileOpen)
    {
      columns := Some(names);
    }

    method Enter()
      modifies this
      ensures State() == CsvEnter(old(State()))
    {
      ops := ops + [Opened];
      outputFileOpen := true;
      if columns.Some? && columns.value != [] {
        ops := ops + Header(columns);
      }
    }

    method HandleRows(rows: seq<Row>)
      modifies this
      ensures State() == CsvHandleRows(old(State()), rows)
    {
      if !outputFileOpen {
        Enter();
      }
      ghost var before := ops;
      for i := 0 to |rows|
        invariant ops == before + Records(rows[..i])
        invariant outputFileOpen && columns == old(columns)
      {
        assert rows[..i + 1][..i] == rows[..i];
        ops := ops + [WroteRecord(Cells(rows[i]))];
      }
      assert rows[..|rows|] == rows;
    }

    method Finish()
      modifies this
      ensures State() == CsvFinish(old(State()))
    {
      if outputFileOpen {
        ops := ops + [Closed];
        outputFileOpen := false;
      }
    }
  }
}
