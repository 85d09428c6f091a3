# bigquery-tools in Dafny

A Dafny model of the core of bigquery-tools, a set of Python 2 tools that read
BigQuery tables and query results into local files and export tables to Cloud
Storage. The model covers:

- **TableReading** (`table_reader.dfy`): the paged table scanner `TableReader`.
  - Its cursor (`next_index`, `next_page_token`, `rows_left`) is a set of class
    fields that `Advance` updates in place.
  - `ReadOnePage` and `Read` are the retry loop and the page loop.
  - It also holds the partition plans of `parallel_indexed_read` and
    `parallel_partitioned_read`.
- **GcsReading** (`gcs_reader.dfy`): storage object URIs, the "size or None"
  presence check, the read-and-maybe-download decision, and the paged bucket
  listing.
- **ExtractRead** (`gcs_extract_read.dfy`): the extract job configuration and
  shard name resolution.
  - The `PartitionReader` poll loop: look for shard 0, 1, 2, …; ask for the
    job state after a miss; sleep while the job runs; stop after a miss seen
    once the job is done.
  - The single and partitioned extract launchers.
- **OutputHandling** (`output_handler.dfy`): the file, JSON and CSV result
  handlers as classes over an abstract log of file operations.
  - Lazy open, in-memory accumulation, the header written once, close on
    finish.
- **QueryReading** (`query_reader.dfy`): the token loop of `QueryReader.read`
  and its error branch.
- **MetadataReading** (`metadata_reader.dfy`):
  - `list_tables` and `table_columns`;
  - the statistics query of `table_stats`, built in a loop;
  - the de-interleaving of its last result row by index mod 4.
- **TableManagement** (`table_manager.dfy`): the `create_table` request body,
  `dataset_exists` / `table_exists`, and `process_http_error`.
- **Common** (`common.dfy`): option and result types, and rows as BigQuery
  returns them.
  - String helpers: Python's `%d` and `%012d`, `''.join` / `sep.join`, and
    `posixpath.join` for two parts.
  - The retryable-status test (403, 500, 503).

### How the remote services appear

Every remote call is abstracted as its answer. A call that the source repeats
is abstracted as a finite *script* of answers, consumed in order: the attempts
of a page fetch, the pages of a listing, the presence checks and job states of
a poll. When a script runs out, the model stops with a `ScriptEnded` outcome.
The source has no such outcome: it would keep calling the service. So
`ScriptEnded` marks only "the answers were all used". Every property is proved
for every script, including scripts that end early. Clocks
(`time.time()`) become parameters, and `time.sleep` becomes a `Slept` event
or nothing.

### Where the model follows the code rather than its comments

- The comment at `bigquery_tools/query_reader.py:39` says a rate limit or
  connection error means "wait and try again". The `except` clause encloses
  the whole loop, though, so a retryable status ends the read after the
  wait; nothing is tried again. (As written, the branch would first fail on
  the missing `thread_id`.) The model reports `RetryableError`.
- `TableReader.__init__` (`bigquery_tools/table_reader.py:24-33`) checks
  nothing: the constructor accepts a start index and a page token together.
  Index mode then takes precedence in `advance` and in the status line.
- The comment at `bigquery_tools/table_reader.py:114-116` says `read` uses the
  current time as the snapshot time. Line 119 does take the current time when
  none is given, but line 120 overwrites it with the argument. The snapshot time therefore ends equal to the
  argument, possibly None, and `TableReader.Read` ensures exactly that.
- The query loop stops on a missing or empty token (a truth test,
  `bigquery_tools/query_reader.py:35`). The table scanner stops only on a
  missing token (`is None`). `EmptyTokenContrast` states the difference.

## Model

| member | source | states |
|---|---|---|
| TableReading.TableReader.constructor | bigquery_tools/table_reader.py:24-33 | the ids and the three cursor fields are stored as given, with no check that excludes a start index together with a page token; no snapshot time yet |
| TableReading.TableIdFor | bigquery_tools/table_reader.py:63-69 | the table id unchanged without a snapshot time; with one, an error exactly when the id already holds '@' |
| TableReading.SnapshotIdSplits | bigquery_tools/table_reader.py:69 | `id@time` holds one '@', with the id before it and the time's decimal numeral after it, which reads back as the time |
| TableReading.TableReader.ReadLocation | bigquery_tools/table_reader.py:73-79 | the location is “ from start” exactly when neither an index nor a token is set; otherwise it is “ at ” followed by the index (which takes precedence), whose digits read back as the index, or else by the token |
| TableReading.TableReader.MakeReadMessage | bigquery_tools/table_reader.py:71-82 | “Read <n> rows” followed by the location; when the maximum differs from the row count, exactly “ [max m]” follows, and nothing else |
| TableReading.TableReader.Advance | bigquery_tools/table_reader.py:48-61 | the budget shrinks by the page's rows; the index grows by them in index mode, otherwise the token becomes the page's token; done exactly when the token is None or the budget reaches 0 or below |
| TableReading.AdvanceAllEffect | bigquery_tools/table_reader.py:51-60 | over a whole scan, the budget and the index move by exactly the rows read; in index mode the token never changes, otherwise it is the last page's token |
| TableReading.StopsAtBudget | bigquery_tools/table_reader.py:50-54 | with a budget, `advance` stops on page k exactly when that page has no token or the rows read so far, page k included, reach the budget |
| TableReading.PageSize | bigquery_tools/table_reader.py:88-89 | the requested page size is the maximum clamped to the remaining budget |
| TableReading.BudgetNeverOverrun | bigquery_tools/table_reader.py:51-54 | with clamped page sizes and a service that honours them, a scan never reads more rows than its budget, so the budget never goes negative |
| TableReading.FirstAnswer | bigquery_tools/table_reader.py:86-110 | the retry loop ends at the first attempt that is a page or a status other than 403/500/503; every attempt before it is retried |
| TableReading.FetchPageMeaning | bigquery_tools/table_reader.py:84-110 | an unusable table id raises before any request; otherwise every attempt but the last was retried, and the last is the page returned with `advance`'s verdict, or the failure re-raised |
| TableReading.FetchedPages | bigquery_tools/table_reader.py:97-101 | the attempts consumed by one fetch hold exactly the page returned and no other page |
| TableReading.TableReader.ReadOnePage | bigquery_tools/table_reader.py:84-110 | result and attempt count are given by `FetchPage`; each retry re-sends the identical request (same id, index, token and clamped size); the cursor moves only when a page arrives |
| TableReading.Batch | bigquery_tools/table_reader.py:124-125 | a page is forwarded to `handle_rows` exactly when it has rows |
| TableReading.ForwardedKeepsAllRows | bigquery_tools/table_reader.py:122-126 | skipping empty pages loses no row: the forwarded batches carry every row of every page, in order |
| TableReading.EmptyTableForwardsNothing | bigquery_tools/table_reader.py:124-125 | a table without rows gets no `handle_rows` call |
| TableReading.ForwardedHasNoFinish | bigquery_tools/table_reader.py:122-126 | the pages of a read give only non-empty `handle_rows` batches, never `finish` |
| TableReading.FinishExactlyOnce | bigquery_tools/table_reader.py:127-130 | every forwarded event is a non-empty batch, so a completed read calls `finish` exactly once |
| TableReading.TableReader.Read | bigquery_tools/table_reader.py:112-130 | the outcome, events, attempts used and final cursor are those of the specification `ScanFrom`; the snapshot time ends equal to the argument |
| TableReading.ScanReadsPages | bigquery_tools/table_reader.py:122-130 | the pages read are the successful answers among the attempts used; the cursor is advanced over exactly them; `advance` stopped on none but the last, and on the last exactly when the read completed; the handler got the non-empty pages in order, then `finish` on completion |
| TableReading.ScanDelivers | bigquery_tools/table_reader.py:122-130 | `finish` is called once when the read completes and never otherwise, and the batches carry every row of the pages read |
| TableReading.ScanEnds | bigquery_tools/table_reader.py:102-110 | a non-retried failure ends the read at that attempt and is re-raised; every other failure among the used attempts was retried; only an unusable table id stops before any request |
| TableReading.IndexedPlanCoverage | bigquery_tools/table_reader.py:136-146 | worker ranges `[stride*i, stride*(i+1))` are contiguous and disjoint, and exactly the rows below `stride*n` are assigned |
| TableReading.StrideRemainder | bigquery_tools/table_reader.py:136 | with `stride = row_count / n`, fewer than n rows are left to no worker |
| TableReading.TableReader.ParallelIndexedPlan | bigquery_tools/table_reader.py:132-153 | zero partitions fail (ZeroDivisionError); otherwise one worker per partition, worker i with file `<dir>/<table>.<i>`, table `<table>@<snapshot>`, start `stride*i`, budget `stride` and name `[start-end)` |
| TableReading.TableReader.ParallelPartitionedPlan | bigquery_tools/table_reader.py:155-170 | one worker per partition, worker i with thread id `<i>-of-<n>`, table `<table>@<snapshot><i>-of-<n>` and file `<dir>/<table>.<i>` |
| TableReading.NumberedNamesDistinct | bigquery_tools/table_reader.py:141 | the numbered output file names of distinct workers differ |
| GcsReading.MakeUri | bigquery_tools/gcs_reader.py:42-44 | the URI is `gs://` followed by the bucket, '/', and the object |
| GcsReading.MakeUriRoundTrip | bigquery_tools/gcs_reader.py:42-44 | for a bucket without '/', the URI parses back into its bucket and object |
| GcsReading.CheckGcsFile | bigquery_tools/gcs_reader.py:46-57 | on metadata: the URI and the size, 0 when the metadata has none; on any HTTP failure: (None, None); the URI is None exactly when the size is |
| GcsReading.FailureLooksAbsent | bigquery_tools/gcs_reader.py:53-57 | a failure other than 404 gives the same result as "not found" |
| GcsReading.ReadMeaning | bigquery_tools/gcs_reader.py:86-94 | the size is None exactly when the object is reported absent, and the checked size otherwise; a download to `<download_dir>/<object>` happens exactly when the object was found and a download directory is set |
| GcsReading.ListBucket | bigquery_tools/gcs_reader.py:96-109 | the listing is every page's items in page order, a missing 'items' counting as none; it ends at the first page without a next token; a failure is raised at once |
| GcsReading.AllItemsAppend | bigquery_tools/gcs_reader.py:105-108 | the items of two runs of pages are the first run's items followed by the second's |
| GcsReading.EmptyPagesListNothing | bigquery_tools/gcs_reader.py:107 | pages without items add nothing to the listing |
| ExtractRead.MakeExtractConfig | bigquery_tools/gcs_extract_read.py:124-135 | the configuration names the given source table, the format `NEWLINE_DELIMITED_JSON` and the given URIs |
| ExtractRead.ResolveShardPathMeaning | bigquery_tools/gcs_extract_read.py:74-77 | a glob resolves exactly when it has one '*' and no '%'; the name is the glob with the '*' replaced by the index padded to 12 digits; without '%', the failure is "no wildcard" exactly when there is no '*' |
| ExtractRead.ResolveShardPathIndexFree | bigquery_tools/gcs_extract_read.py:76-77 | whether resolution fails, and how, depends on the glob only, not on the index |
| ExtractRead.ShardIndexReadsBack | bigquery_tools/gcs_extract_read.py:76-77 | the 12 characters at the wildcard's place in a resolved name read back as the index |
| ExtractRead.ShardNamesDistinct | bigquery_tools/gcs_extract_read.py:74-77 | distinct shards of one glob resolve to distinct objects |
| ExtractRead.ObjectGlobResolves | bigquery_tools/gcs_extract_read.py:146 | for ids without '*' or '%', a partition glob resolves for every shard |
| ExtractRead.ObjectGlobsDistinct | bigquery_tools/gcs_extract_read.py:146 | distinct partitions of one extract get distinct globs |
| ExtractRead.PartitionReader.constructor | bigquery_tools/gcs_extract_read.py:67-72 | a partition reader keeps its id and storage reader, with no glob set |
| ExtractRead.PartitionReader.Start | bigquery_tools/gcs_extract_read.py:85-88 | `start` sets the glob and changes nothing else |
| ExtractRead.PartitionReader.Run | bigquery_tools/gcs_extract_read.py:94-121 | raises before any event exactly when the glob is unset or empty; otherwise the poll loop's guarantees (`PollEnds`) hold for the glob |
| ExtractRead.PollShards | bigquery_tools/gcs_extract_read.py:103-121 | a glob that does not resolve raises before any event; every trace satisfies the poll transition rule; a finish comes only after a miss seen once the job was done, with the shard count equal to the shards found |
| ExtractRead.PollTraceMeans | bigquery_tools/gcs_extract_read.py:105-120 | on every poll trace: shards are dense from 0, each check reads the next storage answer for the resolved name, queries follow misses and stop once done, sleeps follow exactly the non-DONE queries, and a miss after DONE is the last event |
| ExtractRead.RunExtractJob | bigquery_tools/gcs_extract_read.py:50-61 | one destination `gs://<bucket>/output/<ds>.<tbl>_<ts>.json` in the configuration; the object is read exactly when the job started |
| ExtractRead.RunPartitionedExtractJob | bigquery_tools/gcs_extract_read.py:138-164 | per storage reader i: the glob `output/<ds>.<tbl>_<ts>.<i>.*.json`, its URI in the configuration in the same order, and a fresh partition reader with id i; the readers get their globs exactly when the job started |
| OutputHandling.FileResultHandler.constructor | bigquery_tools/output_handler.py:27-30 | a file handler starts with no file open and no file operation |
| OutputHandling.FileResultHandler.HandleRows | bigquery_tools/output_handler.py:50-53 | the handler state becomes `FileHandleRows` of the old state: open the file when it is not open, then write the batch's joined rows |
| OutputHandling.FileResultHandler.Finish | bigquery_tools/output_handler.py:37-41 | the handler state becomes `FileFinish` of the old state: close the file when it is open, otherwise nothing |
| OutputHandling.FileHandleRowsValid | bigquery_tools/output_handler.py:50-53 | handling rows keeps the file operations proper; the file's text gains the batch's joined rows, on an empty file when it was just opened |
| OutputHandling.FileFinishValid | bigquery_tools/output_handler.py:37-41 | finishing keeps the file operations proper and leaves the file closed |
| OutputHandling.FileSession | bigquery_tools/output_handler.py:27-53 | from a fresh handler: the file is opened once before the first write and only written afterwards; its text is every batch's joined rows in order; `finish` then closes it; with no batch, no file is opened |
| OutputHandling.JsonResultHandler.constructor | bigquery_tools/output_handler.py:58-60 | a JSON handler starts with no file open, no file operation and no gathered row |
| OutputHandling.JsonResultHandler.HandleRows | bigquery_tools/output_handler.py:68-69 | the state becomes `JsonHandleRows` of the old state: only the in-memory list is extended |
| OutputHandling.JsonResultHandler.Finish | bigquery_tools/output_handler.py:62-66 | the state becomes `JsonFinish` of the old state: open if needed, write one dump of the gathered rows, close |
| OutputHandling.JsonStepsValid | bigquery_tools/output_handler.py:62-69 | handling rows never touches the file; finishing keeps the file operations proper |
| OutputHandling.JsonSession | bigquery_tools/output_handler.py:56-69 | from a fresh handler, any batches and then `finish` give exactly: open, one dump of all rows in arrival order, close; also with no rows |
| OutputHandling.AsciiOnly | bigquery_tools/output_handler.py:92 | the result has only ASCII characters, is no longer than the input, and equals an all-ASCII input |
| OutputHandling.AsciiOnlyChar | bigquery_tools/output_handler.py:92 | one character is kept exactly when it is ASCII |
| OutputHandling.AsciiOnlyAppend | bigquery_tools/output_handler.py:92 | dropping non-ASCII characters works piece by piece, so the ASCII characters are kept in their order |
| OutputHandling.Cells | bigquery_tools/output_handler.py:92-93 | one cell per field in order: None for a null value, the ASCII-only value otherwise |
| OutputHandling.RecordsMeaning | bigquery_tools/output_handler.py:91-93 | a batch is written as one record per row, in order, each the row's cells |
| OutputHandling.NameCells | bigquery_tools/output_handler.py:84-85 | the header record holds the column names, in order |
| OutputHandling.CsvResultHandler.constructor | bigquery_tools/output_handler.py:74-78 | a CSV handler with no file open, the given columns and the given separator |
| OutputHandling.CsvResultHandler.SetColumns | bigquery_tools/output_handler.py:20-21 | `set_columns` stores the given names and touches nothing else |
| OutputHandling.CsvResultHandler.Enter | bigquery_tools/output_handler.py:80-86 | the state becomes `CsvEnter` of the old state: open the file, then the header when there are columns |
| OutputHandling.CsvResultHandler.HandleRows | bigquery_tools/output_handler.py:88-93 | the state becomes `CsvHandleRows` of the old state: open when not open, then one record per row |
| OutputHandling.CsvResultHandler.Finish | bigquery_tools/output_handler.py:37-41 | the state becomes `CsvFinish` of the old state: the inherited close |
| OutputHandling.CsvStepsValid | bigquery_tools/output_handler.py:80-93 | opening, handling rows and finishing keep the file operations proper |
| OutputHandling.CsvSession | bigquery_tools/output_handler.py:72-93 | from a fresh handler: the file is opened once; the header (when there are columns) comes before any record; then one record per row of every batch in order; `finish` closes; with no batch, no file is opened |
| OutputHandling.RecordsAppend | bigquery_tools/output_handler.py:91-93 | the records of two batches are the first's followed by the second's |
| QueryReading.QueryReader.constructor | bigquery_tools/query_reader.py:13-16 | the project id is stored and the columns are None |
| QueryReading.QueryReader.Read | bigquery_tools/query_reader.py:18-44 | the first page is requested without a token, and each later one with the previous page's token; the loop stops at the first page whose token is missing or empty; each page, also one without rows, gives one `handle_rows`; `finish` is never called; an error ends the read with no further request; statuses other than 403/500/503 are raised |
| QueryReading.HandledHasNoFinish | bigquery_tools/query_reader.py:32-37 | the handler receives only `handle_rows`, one per page in page order, with [] for a page without rows |
| QueryReading.ErrorOutcome | bigquery_tools/query_reader.py:40-44 | a 403, 500 or 503 is caught; every other status is re-raised |
| QueryReading.EmptyTokenContrast | bigquery_tools/query_reader.py:35 | an empty token ends a query read, but not a table read without a budget |
| MetadataReading.ListTables | bigquery_tools/metadata_reader.py:25-31 | the listed ids in order; None exactly after an HTTP error; a KeyError when the reply lacks 'tables' |
| MetadataReading.TableColumns | bigquery_tools/metadata_reader.py:34-42 | None exactly after an HTTP error; a KeyError exactly when the reply lacks its fields; otherwise the column map of the schema fields (keys and values by `ColumnMapKeys` and `ColumnMapLast`) |
| MetadataReading.ColumnMapKeys | bigquery_tools/metadata_reader.py:40 | the column map's keys are exactly the schema field names |
| MetadataReading.ColumnMapLast | bigquery_tools/metadata_reader.py:40 | each name maps to the type of its last field |
| MetadataReading.FragmentText | bigquery_tools/metadata_reader.py:53-56 | a column's fragment is its quoted name, then its null count, non-null count and distinct count over that name |
| MetadataReading.BuildStatsQuery | bigquery_tools/metadata_reader.py:51-58 | the query is 'select ' + the fragments joined by ', ' + ' FROM [ds.tbl]', with no trailing comma; for no columns it is 'selec FROM [ds.tbl]' |
| MetadataReading.TermsJoin | bigquery_tools/metadata_reader.py:52-57 | the loop's fragments, each followed by ', ', are the fragments joined by ', ' followed by one ', ' |
| MetadataReading.QueryListsColumns | bigquery_tools/metadata_reader.py:52-58 | one more column appends ', ' and its fragment before the FROM clause |
| MetadataReading.NoColumnsQuery | bigquery_tools/metadata_reader.py:57-58 | with no columns, the two-character strip leaves 'selec FROM [ds.tbl]' |
| MetadataReading.LastRowValues | bigquery_tools/metadata_reader.py:66-68 | only the last response row's values count; none for no rows |
| MetadataReading.ResidueMeaning | bigquery_tools/metadata_reader.py:69-72 | the list for residue r holds index r and every fourth value after it, in order |
| MetadataReading.StatsRecords | bigquery_tools/metadata_reader.py:69-79 | with a multiple of four values, the header and then output row k = values 4k to 4k+3; otherwise an IndexError |
| MetadataReading.TableStats | bigquery_tools/metadata_reader.py:45-83 | no query is sent when the columns are unavailable (AttributeError) or their reply lacks a key; otherwise the query is `StatsQueryText`; an HTTP error is re-raised; the table is built from the last row |
| TableManagement.CreateTable | bigquery_tools/table_manager.py:15-26 | the body's table reference holds the given table, dataset and project; the schema is passed unchanged |
| TableManagement.CreateTableTargetsItsReference | bigquery_tools/table_manager.py:16-25 | the insert is sent to the dataset and project that the body's reference names |
| TableManagement.Describe | bigquery_tools/table_manager.py:75-76 | the message is exactly 'Reason: ', the reason, ', Message: ' and the message, each at its fixed place |
| TableManagement.ProcessHttpError | bigquery_tools/table_manager.py:65-77 | always raises: a message from the first entry of a non-empty errors list, or else the errors value itself |
| TableManagement.OnlyFirstErrorReported | bigquery_tools/table_manager.py:72-76 | entries after the first do not change the exception |
| TableManagement.NoErrorsCarried | bigquery_tools/table_manager.py:77 | a missing or empty errors list is carried as it is |
| TableManagement.DescribeInjectiveOnReason | bigquery_tools/table_manager.py:75-76 | different reasons (of one length) give different messages |
| TableManagement.ExistsFrom | bigquery_tools/table_manager.py:39-48 | True exactly on success, False exactly for 404, and the exception of `process_http_error` for every other status |
| TableManagement.DatasetExists | bigquery_tools/table_manager.py:36-48 | that classification, applied to the answer to the `get` of exactly that dataset |
| TableManagement.TableExists | bigquery_tools/table_manager.py:50-63 | that classification, applied to the answer to the `get` of exactly that table |
| TableManagement.ExistsOnlyAsksForItself | bigquery_tools/table_manager.py:53-58 | the result depends only on the answer to the check's own request |

## Left out

- Credentials, authentication and client building (`auth.py`) are not part of this model, and neither are the `main` functions and their argument parsing.
- Threads are not modelled. Thread start, `join`, `wait_for_complete` and the `TableReadThread` / `QueryReadThread` wrappers are absent. The planners return one configuration per worker, and each worker's loop is modelled on its own.
- Printing, the progress bar and `get_table_info` are left out; the row count it supplies is a parameter.
- Reads whose answers run out end with `ScriptEnded`. The source would keep polling or retrying, and the model proves no liveness (no "retries forever", no bound on retries).
- The AttributeError raised by printing the undefined `thread_id` in the retry branches is not modelled. `TableReading.TableReader.ReadOnePage` retries. `QueryReading.QueryReader.Read` ends with `RetryableError`. Only properties that hold either way are stated: the cursor does not move on an error, and no further page is requested after one.
- `QueryReading.QueryReader.Read`: the client library's own retries (`execute(num_retries=...)`) are not modelled, and neither are the query body, its timeout, or a reply that lacks 'jobReference'. Each results answer is the outcome after the library gave up or succeeded.
- `time.sleep` is an event at most, and `time.time()` is a parameter.
- `GcsReading.Read`: the download itself is not modelled, only its target path: `download_file`, `make_output_dir`, `complete_download` and media chunking.
- `GcsReading.ListBucket` assumes the client library's `list_next` yields a further request exactly when the page has a next page token.
- `ExtractRead.ResolveShardPathMeaning`: a '%' in a glob is modelled as an error. Python's `%` formatting would interpret it, unless it is part of the `%012d` that replaced the '*'.
- `ExtractRead.RunExtractJob`: `JobRunner` is abstracted to whether `start_job` succeeded. The job dump print and `wait_for_complete` are left out.
- The JSON and CSV byte encodings are abstracted to records: `json.dumps`, `csv.writer` quoting, the separator and the Python 2 `str`/`unicode` details.
- `OutputHandling.FileResultHandler.HandleRows` is given rows as strings, since the plain file handler joins them as text.
- `MetadataReading.TableStats`: `columns.keys()` has no defined order in Python 2. The order is a parameter listing each key once.
- `MetadataReading.TableStats`: a `row['f']` or `field['v']` that is missing from the reply is not modelled, because rows are typed.
- `TableManagement.ProcessHttpError`: JSON parsing of the error content is not modelled, and neither is a missing 'error' key. The parsed body is the input.
- `drop_table` and `get_job_state` are not modelled.
- `TableManagement.CreateTable`: the request's answer is not modelled.
