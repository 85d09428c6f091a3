/** The paged table scanner (`TableReader`) and its two partition planners.

    The warehouse is abstracted as a finite script of answers to
    `tabledata().list`: each attempt yields either a page (its rows and the
    optional next page token) or an HTTP failure status.  The scanner's
    cursor is the triple of fields `next_index`, `next_page_token` and
    `rows_left`, updated in place after every successful page. */
module TableReading {
  import opened Common

  /** Default page size of `read_one_page`. */
  const READ_CHUNK_SIZE: int := 64 * 1024

  /** The scanner's cursor fields; `None` stands for Python's `None`. */
  datatype Cursor = Cursor(nextIndex: Option<int>, nextPageToken: Option<string>, rowsLeft: Option<int>)

  /** A successful page: `data.get('rows', [])` and `data.get('pageToken', None)`. */
  datatype Page = Page(rows: seq<Row>, pageToken: Option<string>)

  /** The answer to one attempt at fetching a page. */
  datatype Response = Listed(page: Page) | HttpFailure(status: int)

  /** The arguments of one `tabledata().list` call. */
  datatype Request = Request(tableId: string, startIndex: Option<int>, pageToken: Option<string>, maxResults: int)

  /** `get_table_id` raises "Table already has a snapshot time". */
  datatype TableIdError = SnapshotAlreadyInId

  datatype PageOutcome =
    | PageRead(isDone: bool, page: Page)
    | PageRaised(status: int)
    | PageBadTableId
    | PageScriptEnded

  datatype ReadOutcome = Completed | Raised(status: int) | BadTableId | ScriptEnded

  datatype PlanError = ZeroPartitions

  /** One worker of `parallel_indexed_read`: its reader's settings and its output file. */
  datatype IndexedWorker = IndexedWorker(fileName: string, tableId: string, startIndex: int, readCount: int, threadId: string)

  /** Worker i of an indexed plan: rows from `stride * i`, `stride` of them, of
      the pinned table id, into the file `<base>.<i>`, named `[start-end)`. */
  predicate IsIndexedWorker(w: IndexedWorker, stride: int, i: nat, pinnedTableId: string, fileBase: string) {
    && w.startIndex == stride * i
    && w.readCount == stride
    && w.tableId == pinnedTableId
    && w.fileName == fileBase + "." + NatToString(i)
    && w.threadId == "[" + IntToString(stride * i) + "-" + IntToString(stride * i + stride) + ")"
  }

  /** One worker of `parallel_partitioned_read`.  It has no start index and no
      row budget: each partition reader reads its partition table from the
      start to its end, following page tokens. */
  datatype PartitionedWorker = PartitionedWorker(fileName: string, tableId: string, threadId: string)

  // ---------------------------------------------------------------------
  // Table identifiers

  /** `get_table_id` over the reader's table id and snapshot time. */
  function TableIdFor(tableId: string, snapshotTime: Option<nat>): (r: Result<string, TableIdError>)
    ensures snapshotTime.None? ==> r == Ok(tableId)
    ensures snapshotTime.Some? ==> (r.Err? <==> '@' in tableId)
  {
    if '@' in tableId && snapshotTime.Some? then Err(SnapshotAlreadyInId)
    else if snapshotTime.None? then Ok(tableId)
    else Ok(tableId + "@" + NatToString(snapshotTime.value))
  }

  /** A snapshot-qualified id has exactly one '@', the table id before it and
      the snapshot time's numeral after it, so both can be read back. */
  lemma SnapshotIdSplits(tableId: string, t: nat)
    requires '@' !in tableId
    ensures TableIdFor(tableId, Some(t)).Ok?
    ensures var r := TableIdFor(tableId, Some(t)).value;
      && CountChar(r, '@') == 1
      && |tableId| < |r| && r[..|tableId|] == tableId && r[|tableId|] == '@'
      && AllDigits(r[|tableId| + 1..]) && DecimalValue(r[|tableId| + 1..]) == t
  {
    var r := tableId + "@" + NatToString(t);
    assert TableIdFor(tableId, Some(t)).value == r;
    NatToStringRoundTrip(t);
    CountCharZero(tableId, '@');
    CountCharZero(NatToString(t), '@');
    CountCharAppend(tableId + "@", NatToString(t), '@');
    CountCharAppend(tableId, "@", '@');
    assert r[|tableId| + 1..] == NatToString(t);
  }

  // ---------------------------------------------------------------------
  // The cursor update rule of `advance`

  /** The cursor after a page of `count` rows that came with `token`. */
  function Advanced(c: Cursor, count: nat, token: Option<string>): Cursor {
    Cursor(
      if c.nextIndex.Some? then Some(c.nextIndex.value + count) else None,
      if c.nextIndex.Some? then c.nextPageToken else token,
      if c.rowsLeft.Some? then Some(c.rowsLeft.value - count) else None)
  }

  /** What `advance` returns: no further token, or a row budget used up. */
  predicate AdvanceDone(c: Cursor, count: nat, token: Option<string>) {
    token.None? || (c.rowsLeft.Some? && c.rowsLeft.value - count <= 0)
  }

  /** The page size `read_one_page` asks for: the default, clamped to the budget. */
  function PageSize(maxResults: int, rowsLeft: Option<int>): (m: int)
    ensures m <= maxResults
    ensures rowsLeft.Some? ==> m <= rowsLeft.value && (m == maxResults || m == rowsLeft.value)
    ensures rowsLeft.None? ==> m == maxResults
  {
    if rowsLeft.Some? && rowsLeft.value < maxResults then rowsLeft.value else maxResults
  }

  function TotalRows(pages: seq<Page>): nat {
    if pages == [] then 0 else |pages[0].rows| + TotalRows(pages[1..])
  }

  lemma {:induction false} TotalRowsAppend(a: seq<Page>, b: seq<Page>)
    ensures TotalRows(a + b) == TotalRows(a) + TotalRows(b)
  {
    if a == [] {
      assert a + b == b;
    } else {
      assert (a + b)[1..] == a[1..] + b;
      TotalRowsAppend(a[1..], b);
    }
  }

  /** The cursor after advancing over `pages`, in order. */
  function AdvanceAll(c: Cursor, pages: seq<Page>): Cursor
    decreases |pages|
  {
    if pages == [] then c
    else AdvanceAll(Advanced(c, |pages[0].rows|, pages[0].pageToken), pages[1..])
  }

  /** Whether `advance` reports done on page `k` of a scan that started at `c`. */
  predicate StopsAt(c: Cursor, pages: seq<Page>, k: nat)
    requires k < |pages|
  {
    AdvanceDone(AdvanceAll(c, pages[..k]), |pages[k].rows|, pages[k].pageToken)
  }

  /** A scan that begins with page p makes p's decision at the start cursor and
      every later decision at the cursor p leaves behind. */
  lemma StopsAtCons(c: Cursor, p: Page, pages: seq<Page>)
    ensures StopsAt(c, [p] + pages, 0) == AdvanceDone(c, |p.rows|, p.pageToken)
    ensures forall k :: 0 <= k < |pages| ==>
      StopsAt(c, [p] + pages, k + 1) == StopsAt(Advanced(c, |p.rows|, p.pageToken), pages, k)
  {
    assert ([p] + pages)[..0] == [];
    forall k | 0 <= k < |pages|
      ensures StopsAt(c, [p] + pages, k + 1) == StopsAt(Advanced(c, |p.rows|, p.pageToken), pages, k)
    {
      assert ([p] + pages)[..k + 1] == [p] + pages[..k];
      assert ([p] + pages[..k])[1..] == pages[..k];
    }
  }

  /** Over a whole scan, the budget shrinks and the index grows by exactly the
      number of rows read, the token stays put in index mode, and otherwise the
      cursor holds the last page's token. */
  lemma {:induction false} AdvanceAllEffect(c: Cursor, pages: seq<Page>)
    ensures AdvanceAll(c, pages).rowsLeft ==
      (if c.rowsLeft.Some? then Some(c.rowsLeft.value - TotalRows(pages)) else None)
    ensures AdvanceAll(c, pages).nextIndex ==
      (if c.nextIndex.Some? then Some(c.nextIndex.value + TotalRows(pages)) else None)
    ensures c.nextIndex.Some? ==> AdvanceAll(c, pages).nextPageToken == c.nextPageToken
    ensures c.nextIndex.None? && pages != [] ==>
      AdvanceAll(c, pages).nextPageToken == pages[|pages| - 1].pageToken
    decreases |pages|
  {
    if pages != [] {
      AdvanceAllEffect(Advanced(c, |pages[0].rows|, pages[0].pageToken), pages[1..]);
      if |pages| > 1 {
        assert pages[1..][|pages| - 2] == pages[|pages| - 1];
      }
    }
  }

  /** In budget mode, `advance` stops on page k exactly when the page came
      without a token or the rows read so far, this page included, reach the budget. */
  lemma StopsAtBudget(c: Cursor, pages: seq<Page>, k: nat)
    requires k < |pages| && c.rowsLeft.Some?
    ensures StopsAt(c, pages, k) <==>
      pages[k].pageToken.None? || TotalRows(pages[..k + 1]) >= c.rowsLeft.value
  {
    AdvanceAllEffect(c, pages[..k]);
    assert pages[..k + 1] == pages[..k] + [pages[k]];
    TotalRowsAppend(pages[..k], [pages[k]]);
  }

  /** A remote that never returns more rows than were asked for. */
  ghost predicate RespectsPageSize(c: Cursor, pages: seq<Page>, maxResults: int) {
    forall k :: 0 <= k < |pages| ==>
      |pages[k].rows| <= PageSize(maxResults, AdvanceAll(c, pages[..k]).rowsLeft)
  }

  /** With the page size clamped to the budget and a remote that honours it,
      a scan never reads more rows than its budget, so the "Read too many
      rows!" report cannot happen. */
  lemma {:induction false} BudgetNeverOverrun(c: Cursor, pages: seq<Page>, maxResults: int)
    requires c.rowsLeft.Some? && c.rowsLeft.value >= 0
    requires RespectsPageSize(c, pages, maxResults)
    ensures TotalRows(pages) <= c.rowsLeft.value
    ensures AdvanceAll(c, pages).rowsLeft.Some? && AdvanceAll(c, pages).rowsLeft.value >= 0
    decreases |pages|
  {
    AdvanceAllEffect(c, pages);
    if pages != [] {
      var c1 := Advanced(c, |pages[0].rows|, pages[0].pageToken);
      var tail := pages[1..];
      assert pages[..0] == [];
      assert RespectsPageSize(c1, tail, maxResults) by {
        forall k | 0 <= k < |tail|
          ensures |tail[k].rows| <= PageSize(maxResults, AdvanceAll(c1, tail[..k]).rowsLeft)
        {
          assert pages[..k + 1] == [pages[0]] + tail[..k];
          assert ([pages[0]] + tail[..k])[1..] == tail[..k];
          assert pages[k + 1] == tail[k];
        }
      }
      BudgetNeverOverrun(c1, tail, maxResults);
    }
  }

  // ---------------------------------------------------------------------
  // What `read` hands to the result handler

  /** An attempt that `read_one_page` answers by sending the same request again. */
  predicate Retried(r: Response) {
    r.HttpFailure? && IsRetryable(r.status)
  }

  /** The successful pages among a run of attempts, in order. */
  function OkPages(attempts: seq<Response>): seq<Page> {
    if attempts == [] then []
    else (if attempts[0].Listed? then [attempts[0].page] else []) + OkPages(attempts[1..])
  }

  lemma {:induction false} OkPagesAppend(a: seq<Response>, b: seq<Response>)
    ensures OkPages(a + b) == OkPages(a) + OkPages(b)
  {
    if a == [] {
      assert a + b == b;
    } else {
      var head := if a[0].Listed? then [a[0].page] else [];
      assert (a + b)[0] == a[0] && (a + b)[1..] == a[1..] + b;
      assert OkPages(a + b) == head + OkPages(a[1..] + b);
      OkPagesAppend(a[1..], b);
      assert head + (OkPages(a[1..]) + OkPages(b)) == (head + OkPages(a[1..])) + OkPages(b);
    }
  }

  lemma {:induction false} OkPagesOfFailures(a: seq<Response>)
    requires forall k :: 0 <= k < |a| ==> a[k].HttpFailure?
    ensures OkPages(a) == []
  {
    if a != [] {
      OkPagesOfFailures(a[1..]);
    }
  }

  /** `handle_rows` is called for a page only when it has rows. */
  function Batch(p: Page): (events: seq<SinkEvent>)
    ensures p.rows != [] <==> events == [HandleRows(p.rows)]
    ensures p.rows == [] <==> events == []
  {
    if p.rows != [] then [HandleRows(p.rows)] else []
  }

  /** The batches of a run of pages, in order. */
  function Forwarded(pages: seq<Page>): seq<SinkEvent> {
    if pages == [] then [] else Batch(pages[0]) + Forwarded(pages[1..])
  }

  function CountFinish(events: seq<SinkEvent>): nat {
    if events == [] then 0 else (if events[0].Finish? then 1 else 0) + CountFinish(events[1..])
  }

  lemma {:induction false} CountFinishAppend(a: seq<SinkEvent>, b: seq<SinkEvent>)
    ensures CountFinish(a + b) == CountFinish(a) + CountFinish(b)
  {
    if a == [] {
      assert a + b == b;
    } else {
      assert (a + b)[1..] == a[1..] + b;
      CountFinishAppend(a[1..], b);
    }
  }

  lemma {:induction false} ForwardedHasNoFinish(pages: seq<Page>)
    ensures forall e :: e in Forwarded(pages) ==> e.HandleRows? && e.rows != []
    ensures CountFinish(Forwarded(pages)) == 0
  {
    if pages != [] {
      ForwardedHasNoFinish(pages[1..]);
      CountFinishAppend(Batch(pages[0]), Forwarded(pages[1..]));
    }
  }

  /** Every forwarded event is a non-empty batch; so a completed read calls
      `finish` exactly once, as its last event, and an interrupted one never. */
  lemma FinishExactlyOnce(pages: seq<Page>, completed: bool)
    ensures forall e :: e in Forwarded(pages) ==> e.HandleRows? && e.rows != []
    ensures CountFinish(Forwarded(pages) + (if completed then [Finish] else [])) == (if completed then 1 else 0)
  {
    ForwardedHasNoFinish(pages);
    CountFinishAppend(Forwarded(pages), if completed then [Finish] else []);
  }

  /** All rows of all pages, in page order. */
  function AllRows(pages: seq<Page>): seq<Row> {
    if pages == [] then [] else pages[0].rows + AllRows(pages[1..])
  }

  /** The rows carried by the batches of an event log, in order. */
  function BatchRows(events: seq<SinkEvent>): seq<Row> {
    if events == [] then []
    else (if events[0].HandleRows? then events[0].rows else []) + BatchRows(events[1..])
  }

  lemma {:induction false} BatchRowsAppend(a: seq<SinkEvent>, b: seq<SinkEvent>)
    ensures BatchRows(a + b) == BatchRows(a) + BatchRows(b)
  {
    if a == [] {
      assert a + b == b;
    } else {
      assert (a + b)[1..] == a[1..] + b;
      BatchRowsAppend(a[1..], b);
    }
  }

  /** Skipping empty pages loses nothing: the batches handed to the handler
      hold every row of every page, in order, each once. */
  lemma {:induction false} ForwardedKeepsAllRows(pages: seq<Page>)
    ensures BatchRows(Forwarded(pages)) == AllRows(pages)
  {
    if pages != [] {
      var p := pages[0];
      ForwardedKeepsAllRows(pages[1..]);
      BatchRowsAppend(Batch(p), Forwarded(pages[1..]));
      if p.rows != [] {
        assert BatchRows([HandleRows(p.rows)]) == p.rows + BatchRows([]);
      }
    }
  }

  /** A table without rows yields no `handle_rows` call at all. */
  lemma {:induction false} EmptyTableForwardsNothing(pages: seq<Page>)
    requires forall k :: 0 <= k < |pages| ==> pages[k].rows == []
    ensures Forwarded(pages) == []
  {
    if pages != [] {
      EmptyTableForwardsNothing(pages[1..]);
    }
  }

  // ---------------------------------------------------------------------
  // `read_one_page` and `read` as functions of the answers

  /** The attempt that ends the retry loop of `read_one_page`: the first one
      answered by a page or by a status that is not retried. */
  function FirstAnswer(attempts: seq<Response>): (n: nat)
    ensures n <= |attempts|
    ensures forall k :: 0 <= k < n ==> Retried(attempts[k])
    ensures n < |attempts| ==> !Retried(attempts[n])
  {
    if attempts == [] || !Retried(attempts[0]) then 0 else 1 + FirstAnswer(attempts[1..])
  }

  /** What one call of `read_one_page` yields and how many attempts it took. */
  datatype Fetch = Fetch(outcome: PageOutcome, used: nat)

  /** `read_one_page` from cursor c with table id `id`: the table id is built
      before the first request, retried failures are skipped, and the first
      page or other failure decides the outcome. */
  function FetchPage(c: Cursor, id: Result<string, TableIdError>, attempts: seq<Response>): (f: Fetch)
    ensures f.used <= |attempts|
    ensures f.outcome.PageRead? || f.outcome.PageRaised? ==> f.used > 0
  {
    if id.Err? then Fetch(PageBadTableId, 0)
    else
      var n := FirstAnswer(attempts);
      if n == |attempts| then Fetch(PageScriptEnded, n)
      else match attempts[n]
        case Listed(page) => Fetch(PageRead(AdvanceDone(c, |page.rows|, page.pageToken), page), n + 1)
        case HttpFailure(status) => Fetch(PageRaised(status), n + 1)
  }

  /** An unusable table id stops `read_one_page` before any request; running
      out of answers means every one was a retried failure; otherwise every
      attempt but the last was retried, and the last is the page returned (with
      `advance`'s verdict on it) or the failure re-raised. */
  lemma FetchPageMeaning(c: Cursor, id: Result<string, TableIdError>, attempts: seq<Response>)
    ensures var f := FetchPage(c, id, attempts);
      && (f.outcome.PageBadTableId? <==> id.Err?)
      && (f.outcome.PageBadTableId? ==> f.used == 0)
      && (f.outcome.PageScriptEnded? ==> f.used == |attempts| && forall k :: 0 <= k < |attempts| ==> Retried(attempts[k]))
      && (f.outcome.PageRead? || f.outcome.PageRaised? ==>
            && (forall k :: 0 <= k < f.used - 1 ==> Retried(attempts[k]))
            && !Retried(attempts[f.used - 1]))
      && (f.outcome.PageRead? ==>
            && attempts[f.used - 1] == Listed(f.outcome.page)
            && f.outcome.isDone == AdvanceDone(c, |f.outcome.page.rows|, f.outcome.page.pageToken))
      && (f.outcome.PageRaised? ==>
            attempts[f.used - 1] == HttpFailure(f.outcome.status) && !IsRetryable(f.outcome.status))
  {
  }

  /** The attempts one fetch consumes hold at most the page it returns. */
  lemma FetchedPages(c: Cursor, id: Result<string, TableIdError>, attempts: seq<Response>)
    ensures var f := FetchPage(c, id, attempts);
      OkPages(attempts[..f.used]) == if f.outcome.PageRead? then [f.outcome.page] else []
  {
    var f := FetchPage(c, id, attempts);
    FetchPageMeaning(c, id, attempts);
    if f.used > 0 {
      var failures := attempts[..f.used - 1];
      assert attempts[..f.used] == failures + [attempts[f.used - 1]];
      OkPagesAppend(failures, [attempts[f.used - 1]]);
      OkPagesOfFailures(failures);
    } else {
      assert attempts[..0] == [];
    }
  }

  /** The result of `read`: how it ended, what the handler received, how many
      attempts it took and where the cursor was left. */
  datatype Scan = Scan(outcome: ReadOutcome, events: seq<SinkEvent>, used: nat, cursor: Cursor)

  /** A scan preceded by events already delivered and attempts already used. */
  function After(events: seq<SinkEvent>, used: nat, s: Scan): Scan {
    Scan(s.outcome, events + s.events, used + s.used, s.cursor)
  }

  lemma AfterAfter(e1: seq<SinkEvent>, u1: nat, e2: seq<SinkEvent>, u2: nat, s: Scan)
    ensures After(e1, u1, After(e2, u2, s)) == After(e1 + e2, u1 + u2, s)
  {
    assert e1 + (e2 + s.events) == (e1 + e2) + s.events;
  }

  /** The loop of `read`: fetch a page, forward it when it has rows, and
      either call `finish` when `advance` reports done or fetch again. */
  function ScanFrom(c: Cursor, id: Result<string, TableIdError>, attempts: seq<Response>): (s: Scan)
    ensures s.used <= |attempts|
    decreases |attempts|
  {
    var f := FetchPage(c, id, attempts);
    match f.outcome
    case PageBadTableId => Scan(BadTableId, [], 0, c)
    case PageScriptEnded => Scan(ScriptEnded, [], f.used, c)
    case PageRaised(status) => Scan(Raised(status), [], f.used, c)
    case PageRead(done, page) =>
      var next := Advanced(c, |page.rows|, page.pageToken);
      if done then Scan(Completed, Batch(page) + [Finish], f.used, next)
      else After(Batch(page), f.used, ScanFrom(next, id, attempts[f.used..]))
  }

  /** One round of the loop of `read`, by the outcome of its fetch. */
  lemma ScanStep(c: Cursor, id: Result<string, TableIdError>, attempts: seq<Response>, f: Fetch)
    requires f == FetchPage(c, id, attempts)
    ensures f.outcome.PageBadTableId? ==> ScanFrom(c, id, attempts) == Scan(BadTableId, [], 0, c)
    ensures f.outcome.PageScriptEnded? ==> ScanFrom(c, id, attempts) == Scan(ScriptEnded, [], f.used, c)
    ensures f.outcome.PageRaised? ==> ScanFrom(c, id, attempts) == Scan(Raised(f.outcome.status), [], f.used, c)
    ensures f.outcome.PageRead? ==>
      var next := Advanced(c, |f.outcome.page.rows|, f.outcome.page.pageToken);
      ScanFrom(c, id, attempts) ==
        if f.outcome.isDone then Scan(Completed, Batch(f.outcome.page) + [Finish], f.used, next)
        else After(Batch(f.outcome.page), f.used, ScanFrom(next, id, attempts[f.used..]))
  {
  }

  /** A round of `read` that fetched a page on which `advance` did not stop:
      the rest of the scan goes on from the advanced cursor after the page's batch. */
  lemma ReadRound(whole: Scan, before: seq<SinkEvent>, events: seq<SinkEvent>, used: nat, used': nat,
                  c: Cursor, next: Cursor, id: Result<string, TableIdError>, attempts: seq<Response>,
                  r: PageOutcome, n: nat)
    requires used <= |attempts| && Fetch(r, n) == FetchPage(c, id, attempts[used..])
    requires r.PageRead? && !r.isDone
    requires used' == used + n
    requires next == Advanced(c, |r.page.rows|, r.page.pageToken)
    requires events == before + Batch(r.page)
    requires whole == After(before, used, ScanFrom(c, id, attempts[used..]))
    ensures used' <= |attempts|
    ensures whole == After(events, used', ScanFrom(next, id, attempts[used'..]))
  {
    var rest := attempts[used..];
    assert rest[n..] == attempts[used'..];
    ScanStep(c, id, rest, Fetch(r, n));
    AfterAfter(before, used, Batch(r.page), n, ScanFrom(next, id, attempts[used'..]));
  }

  /** The pages a scan reads are the successful answers among the attempts it
      used.  The cursor ends advanced over exactly those pages; `advance`
      reported done on none of them but the last, and on the last exactly when
      the read completed; the handler received the non-empty ones, in order,
      followed by `finish` when the read completed. */
  lemma {:induction false} ScanReadsPages(c: Cursor, id: Result<string, TableIdError>, attempts: seq<Response>)
    ensures ReadsPages(c, ScanFrom(c, id, attempts), OkPages(attempts[..ScanFrom(c, id, attempts).used]))
    decreases |attempts|
  {
    var f := FetchPage(c, id, attempts);
    if f.outcome.PageRead? && !f.outcome.isDone {
      var page := f.outcome.page;
      ScanReadsPages(Advanced(c, |page.rows|, page.pageToken), id, attempts[f.used..]);
      ScanReadsMore(c, id, attempts);
    } else {
      ScanReadsLast(c, id, attempts);
    }
  }

  /** What ScanReadsPages states about a scan result s that read `pages` from cursor c. */
  ghost predicate ReadsPages(c: Cursor, s: Scan, pages: seq<Page>) {
    && s.cursor == AdvanceAll(c, pages)
    && (forall k :: 0 <= k < |pages| - 1 ==> !StopsAt(c, pages, k))
    && (s.outcome.Completed? <==> |pages| > 0 && StopsAt(c, pages, |pages| - 1))
    && s.events == Forwarded(pages) + (if s.outcome.Completed? then [Finish] else [])
  }

  /** The scan ends with its first fetch. */
  lemma ScanReadsLast(c: Cursor, id: Result<string, TableIdError>, attempts: seq<Response>)
    requires var f := FetchPage(c, id, attempts); !(f.outcome.PageRead? && !f.outcome.isDone)
    ensures ReadsPages(c, ScanFrom(c, id, attempts), OkPages(attempts[..ScanFrom(c, id, attempts).used]))
  {
    var f := FetchPage(c, id, attempts);
    FetchedPages(c, id, attempts);
    if f.outcome.PageRead? {
      var page := f.outcome.page;
      StopsAtCons(c, page, []);
      assert [page][1..] == [];
    }
  }

  /** The scan goes on after its first fetch. */
  lemma ScanReadsMore(c: Cursor, id: Result<string, TableIdError>, attempts: seq<Response>)
    requires var f := FetchPage(c, id, attempts); f.outcome.PageRead? && !f.outcome.isDone
    requires var f := FetchPage(c, id, attempts);
      var next := Advanced(c, |f.outcome.page.rows|, f.outcome.page.pageToken);
      var rest := attempts[f.used..];
      ReadsPages(next, ScanFrom(next, id, rest), OkPages(rest[..ScanFrom(next, id, rest).used]))
    ensures ReadsPages(c, ScanFrom(c, id, attempts), OkPages(attempts[..ScanFrom(c, id, attempts).used]))
  {
    var f := FetchPage(c, id, attempts);
    var page := f.outcome.page;
    var next := Advanced(c, |page.rows|, page.pageToken);
    var rest := attempts[f.used..];
    var s' := ScanFrom(next, id, rest);
    var s := ScanFrom(c, id, attempts);
    ScanStep(c, id, attempts, f);
    FetchPageMeaning(c, id, attempts);
    FetchedPages(c, id, attempts);
    OkPagesSplit(attempts, f.used, s'.used, s.used);
    ReadsPagesCons(c, page, f.used, s', OkPages(rest[..s'.used]));
  }

  lemma OkPagesSplit(attempts: seq<Response>, n: nat, m: nat, total: nat)
    requires total == n + m && total <= |attempts|
    ensures OkPages(attempts[..total]) == OkPages(attempts[..n]) + OkPages(attempts[n..][..m])
  {
    assert attempts[..total] == attempts[..n] + attempts[n..][..m];
    OkPagesAppend(attempts[..n], attempts[n..][..m]);
  }

  /** A page on which `advance` did not stop, followed by a scan from the cursor it leaves. */
  lemma ReadsPagesCons(c: Cursor, page: Page, used: nat, s': Scan, tail: seq<Page>)
    requires !AdvanceDone(c, |page.rows|, page.pageToken)
    requires ReadsPages(Advanced(c, |page.rows|, page.pageToken), s', tail)
    ensures ReadsPages(c, After(Batch(page), used, s'), [page] + tail)
  {
    var next := Advanced(c, |page.rows|, page.pageToken);
    var pages := [page] + tail;
    assert pages[1..] == tail;
    assert AdvanceAll(c, pages) == AdvanceAll(next, tail);
    assert Forwarded(pages) == Batch(page) + Forwarded(tail);
    StopsAtCons(c, page, tail);
    forall k | 0 <= k < |pages| - 1
      ensures !StopsAt(c, pages, k)
    {
      if k > 0 {
        assert StopsAt(c, pages, k) == StopsAt(next, tail, k - 1);
      }
    }
  }

  /** A scan calls `finish` once when it completes and never otherwise, and its
      batches carry every row of the pages it read, in order. */
  lemma ScanDelivers(c: Cursor, id: Result<string, TableIdError>, attempts: seq<Response>)
    ensures var s := ScanFrom(c, id, attempts);
      var pages := OkPages(attempts[..s.used]);
      && CountFinish(s.events) == (if s.outcome.Completed? then 1 else 0)
      && BatchRows(s.events) == AllRows(pages)
  {
    var s := ScanFrom(c, id, attempts);
    var pages := OkPages(attempts[..s.used]);
    var fin: seq<SinkEvent> := if s.outcome.Completed? then [Finish] else [];
    ScanReadsPages(c, id, attempts);
    FinishExactlyOnce(pages, s.outcome.Completed?);
    ForwardedKeepsAllRows(pages);
    BatchRowsAppend(Forwarded(pages), fin);
    assert BatchRows(fin) == [];
  }

  /** How a scan of `attempts` with table id `id` may end. */
  ghost predicate EndsProperly(id: Result<string, TableIdError>, attempts: seq<Response>, s: Scan) {
    && s.used <= |attempts|
    && (s.outcome.BadTableId? <==> id.Err?)
    && (s.outcome.BadTableId? ==> s.used == 0)
    && (s.outcome.ScriptEnded? ==> s.used == |attempts|)
    && (s.outcome.Raised? ==>
          s.used > 0 && attempts[s.used - 1] == HttpFailure(s.outcome.status) && !IsRetryable(s.outcome.status))
    && (forall k :: 0 <= k < s.used && attempts[k].HttpFailure? && !Retried(attempts[k]) ==>
          s.outcome.Raised? && k == s.used - 1)
  }

  /** How a scan ends: only an unusable table id stops it before any request;
      running out of answers uses them all; a failure that is not retried ends
      it at that very attempt; every other failure among the used attempts was retried. */
  lemma {:induction false} ScanEnds(c: Cursor, id: Result<string, TableIdError>, attempts: seq<Response>)
    ensures EndsProperly(id, attempts, ScanFrom(c, id, attempts))
    decreases |attempts|
  {
    var f := FetchPage(c, id, attempts);
    FetchPageMeaning(c, id, attempts);
    if f.outcome.PageRead? && !f.outcome.isDone {
      var page := f.outcome.page;
      var next := Advanced(c, |page.rows|, page.pageToken);
      ScanEnds(next, id, attempts[f.used..]);
      ScanEndsMore(c, id, attempts);
    }
  }

  lemma ScanEndsMore(c: Cursor, id: Result<string, TableIdError>, attempts: seq<Response>)
    requires var f := FetchPage(c, id, attempts); f.outcome.PageRead? && !f.outcome.isDone
    requires var f := FetchPage(c, id, attempts);
      var next := Advanced(c, |f.outcome.page.rows|, f.outcome.page.pageToken);
      EndsProperly(id, attempts[f.used..], ScanFrom(next, id, attempts[f.used..]))
    ensures EndsProperly(id, attempts, ScanFrom(c, id, attempts))
  {
    var f := FetchPage(c, id, attempts);
    FetchPageMeaning(c, id, attempts);
    ScanStep(c, id, attempts, f);
    var rest := attempts[f.used..];
    var s' := ScanFrom(Advanced(c, |f.outcome.page.rows|, f.outcome.page.pageToken), id, rest);
    forall k | f.used <= k < f.used + s'.used
      ensures attempts[k] == rest[k - f.used]
    {
    }
  }

  // ---------------------------------------------------------------------
  // Partition plans

  /** Python 2's `/` on integers rounds toward negative infinity. */
  function FloorDiv(a: int, b: int): int
    requires b != 0
  {
    if b > 0 then a / b else (-a) / (-b)
  }

  /** Worker w is assigned row `row`. */
  predicate Covers(w: IndexedWorker, row: int) {
    w.startIndex <= row < w.startIndex + w.readCount
  }

  /** Some worker of the plan is assigned row `row`. */
  predicate Assigned(ws: seq<IndexedWorker>, row: int) {
    exists i :: 0 <= i < |ws| && Covers(ws[i], row)
  }

  /** Integer division leaves fewer than n rows over. */
  lemma StrideRemainder(rowCount: nat, n: nat)
    requires n > 0
    ensures 0 <= rowCount - (rowCount / n) * n < n
  {
  }

  /** The row ranges of a plan with starts `stride * i` and length `stride` are
      contiguous and disjoint, and exactly the rows below `stride * n` are assigned.
      With `stride = row_count / n` the rows from `stride * n` up to `row_count`,
      fewer than n of them (StrideRemainder), go to no worker. */
  lemma IndexedPlanCoverage(stride: nat, ws: seq<IndexedWorker>)
    requires forall i :: 0 <= i < |ws| ==> ws[i].startIndex == stride * i && ws[i].readCount == stride
    ensures forall i :: 0 <= i < |ws| - 1 ==> ws[i].startIndex + ws[i].readCount == ws[i + 1].startIndex
    ensures forall i, j, row :: 0 <= i < |ws| && 0 <= j < |ws| && Covers(ws[i], row) && Covers(ws[j], row) ==> i == j
    ensures forall row :: Assigned(ws, row) <==> 0 <= row < stride * |ws|
  {
    var n := |ws|;
    forall i | 0 <= i < n - 1
      ensures ws[i].startIndex + ws[i].readCount == ws[i + 1].startIndex
    {
      MulSucc(stride, i);
    }
    forall i, j, row | 0 <= i < n && 0 <= j < n && Covers(ws[i], row) && Covers(ws[j], row)
      ensures i == j
    {
      if i < j { MulSucc(stride, i); MulMonotone(stride, i + 1, j); }
      if j < i { MulSucc(stride, j); MulMonotone(stride, j + 1, i); }
    }
    forall row
      ensures Assigned(ws, row) <==> 0 <= row < stride * n
    {
      if 0 <= row < stride * n {
        AssignedBelow(stride, ws, row);
      }
      if Assigned(ws, row) {
        var i :| 0 <= i < n && Covers(ws[i], row);
        MulSucc(stride, i);
        MulMonotone(stride, i + 1, n);
        MulMonotone(stride, 0, i);
      }
    }
  }

  lemma AssignedBelow(stride: nat, ws: seq<IndexedWorker>, row: int)
    requires forall i :: 0 <= i < |ws| ==> ws[i].startIndex == stride * i && ws[i].readCount == stride
    requires 0 <= row < stride * |ws|
    ensures Assigned(ws, row)
  {
    assert stride > 0;
    var i := row / stride;
    DivBounds(row, stride);
    if i >= |ws| {
      MulMonotone(stride, |ws|, i);
    }
    MulSucc(stride, i);
    assert Covers(ws[i], row);
  }

  lemma DivBounds(row: nat, stride: nat)
    requires stride > 0
    ensures stride * (row / stride) <= row < stride * (row / stride) + stride
  {
  }

  lemma MulSucc(s: nat, i: int)
    ensures s * i + s == s * (i + 1)
  {
  }

  lemma MulMonotone(s: nat, a: int, b: int)
    requires a <= b
    ensures s * a <= s * b
  {
  }

  /** Numbering a common prefix with distinct numbers before a common suffix
      gives distinct names: no two workers share an output file or a partition. */
  lemma NumberedNamesDistinct(prefix: string, i: nat, j: nat, suffix: string)
    requires prefix + NatToString(i) + suffix == prefix + NatToString(j) + suffix
    ensures i == j
  {
    var a := prefix + NatToString(i) + suffix;
    assert a[|prefix|..|a| - |suffix|] == NatToString(i);
    assert a[|prefix|..|a| - |suffix|] == NatToString(j);
    NatToStringInjective(i, j);
  }

  /** The location " at <x>", which is never the location " from start". */
  function AtNotFromStart(x: string): (where: string)
    ensures where == " at " + x && where != " from start"
  {
    var where := " at " + x;
    assert where[1] == 'a';
    where
  }

  // ---------------------------------------------------------------------
  // The reader

  class TableReader {
    const projectId: string
    const datasetId: string
    const tableId: string
    var nextIndex: Option<int>
    var nextPageToken: Option<string>
    var rowsLeft: Option<int>
    var snapshotTime: Option<nat>

    /** The constructor stores the three cursor settings as given; nothing
        rejects a start index together with a page token. */
    constructor (projectId: string, datasetId: string, tableId: string,
                 startIndex: Option<int>, readCount: Option<int>, nextPageToken: Option<string>)
      ensures this.projectId == projectId && this.datasetId == datasetId && this.tableId == tableId
      ensures Position() == Cursor(startIndex, nextPageToken, readCount)
      ensures snapshotTime.None?
    {
      this.projectId := projectId;
      this.datasetId := datasetId;
      this.tableId := tableId;
      this.nextPageToken := nextPageToken;
      this.nextIndex := startIndex;
      this.rowsLeft := readCount;
      this.snapshotTime := None;
    }

    function Position(): Cursor
      reads this
    {
      Cursor(nextIndex, nextPageToken, rowsLeft)
    }

    function GetTableId(): Result<string, TableIdError>
      reads this
    {
      TableIdFor(tableId, snapshotTime)
    }

    /** Where the status line says a page was read: the index takes
        precedence over the token, and with neither it says "from start". */
    function ReadLocation(): (where: string)
      reads this
      ensures where == " from start" <==> nextIndex.None? && nextPageToken.None?
      ensures where != " from start" ==> |where| >= 4 && where[..4] == " at "
      ensures nextIndex.Some? ==> where[4..] == IntToString(nextIndex.value)
      ensures nextIndex.Some? && nextIndex.value >= 0 ==>
        AllDigits(where[4..]) && DecimalValue(where[4..]) == nextIndex.value
      ensures nextIndex.None? && nextPageToken.Some? ==> where[4..] == nextPageToken.value
    {
      if nextIndex.Some? then
        var digits := IntToString(nextIndex.value);
        if nextIndex.value >= 0 then NatToStringRoundTrip(nextIndex.value); AtNotFromStart(digits)
        else AtNotFromStart(digits)
      else if nextPageToken.Some? then AtNotFromStart(nextPageToken.value)
      else " from start"
    }

    /** The status line printed after each page: the row count, where the
        page was read, and the requested maximum when it differs from the row count. */
    function MakeReadMessage(rowCount: nat, maxResults: int): (msg: string)
      reads this
      ensures "Read " + NatToString(rowCount) + " rows" + ReadLocation() <= msg
      ensures maxResults == rowCount ==> msg == "Read " + NatToString(rowCount) + " rows" + ReadLocation()
      ensures maxResults != rowCount ==> EndsWith(msg, " [max " + IntToString(maxResults) + "]")
      ensures maxResults != rowCount ==>
        |msg| == |"Read " + NatToString(rowCount) + " rows" + ReadLocation()| + |" [max " + IntToString(maxResults) + "]"|
    {
      var located := "Read " + NatToString(rowCount) + " rows" + ReadLocation();
      var tail := if maxResults != rowCount then " [max " + IntToString(maxResults) + "]" else "";
      assert located <= located + tail;
      located + tail
    }

    /** `advance`: called after a page was read. */
    method Advance(rows: seq<Row>, pageToken: Option<string>) returns (done: bool)
      modifies this
      ensures Position() == Advanced(old(Position()), |rows|, pageToken)
      ensures done == AdvanceDone(old(Position()), |rows|, pageToken)
      ensures snapshotTime == old(snapshotTime)
    {
      done := pageToken.None?;
      if rowsLeft.Some? {
        rowsLeft := Some(rowsLeft.value - |rows|);
        // Going below zero is only reported ("Read too many rows!").
        if rowsLeft.value <= 0 {
          done := true;
        }
      }
      if nextIndex.Some? {
        nextIndex := Some(nextIndex.value + |rows|);
      } else {
        // Page tokens are only used without index-based pagination.
        nextPageToken := pageToken;
      }
    }

    /** `read_one_page`: request one page, retrying the identical request
        after a retryable status and re-raising any other status.  The cursor
        moves only when a page arrives. */
    method ReadOnePage(attempts: seq<Response>, maxResults: int)
      returns (outcome: PageOutcome, used: nat, requests: seq<Request>)
      modifies this
      ensures Fetch(outcome, used) == FetchPage(old(Position()), old(GetTableId()), attempts)
      ensures Position() ==
        if outcome.PageRead? then Advanced(old(Position()), |outcome.page.rows|, outcome.page.pageToken)
        else old(Position())
      ensures snapshotTime == old(snapshotTime)
      ensures |requests| == used
      ensures used > 0 ==> old(GetTableId()).Ok? && forall k :: 0 <= k < used ==>
        (requests[k] == Request(old(GetTableId()).value, old(nextIndex), old(nextPageToken), PageSize(maxResults, old(rowsLeft))))
    {
      var max := maxResults;
      used, requests := 0, [];
      while true
        invariant used <= |attempts| && |requests| == used
        invariant Position() == old(Position()) && snapshotTime == old(snapshotTime)
        invariant max == maxResults || max == PageSize(maxResults, rowsLeft)
        invariant used > 0 ==> old(GetTableId()).Ok? && forall k :: 0 <= k < used ==>
          (requests[k] == Request(old(GetTableId()).value, nextIndex, nextPageToken, PageSize(maxResults, rowsLeft)))
        invariant forall k :: 0 <= k < used ==> Retried(attempts[k])
        decreases |attempts| - used
      {
        if rowsLeft.Some? && rowsLeft.value < max {
          max := rowsLeft.value;
        }
        var id := GetTableId();
        if id.Err? {
          return PageBadTableId, used, requests;
        }
        if used == |attempts| {
          return PageScriptEnded, used, requests;
        }
        requests := requests + [Request(id.value, nextIndex, nextPageToken, max)];
        var answer := attempts[used];
        used := used + 1;
        match answer
        case Listed(page) =>
          var done := Advance(page.rows, page.pageToken);
          return PageRead(done, page), used, requests;
        case HttpFailure(status) =>
          if !IsRetryable(status) {
            return PageRaised(status), used, requests;
          }
          // A rate limit or server error: wait, then send the same request again.
      }
    }

    /** `read`: fetch pages until `advance` reports done, hand every non-empty
        page to the result handler and call `finish` once at the end.  The
        snapshot time ends up equal to the argument: the clock value taken
        when the argument is None is overwritten on the next line. */
    method Read(attempts: seq<Response>, snapshot: Option<nat>)
      returns (outcome: ReadOutcome, events: seq<SinkEvent>, used: nat)
      modifies this
      ensures snapshotTime == snapshot
      ensures Scan(outcome, events, used, Position()) ==
        ScanFrom(old(Position()), TableIdFor(tableId, snapshot), attempts)
    {
      snapshotTime := snapshot;
      ghost var id := TableIdFor(tableId, snapshot);
      ghost var whole := ScanFrom(Position(), id, attempts);
      ghost var cur := Position();
      used, events := 0, [];
      while true
        invariant used <= |attempts| && snapshotTime == snapshot && cur == Position()
        invariant whole == After(events, used, ScanFrom(cur, id, attempts[used..]))
        decreases |attempts| - used
      {
        var rest := attempts[used..];
        var r, n, _ := ReadOnePage(rest, READ_CHUNK_SIZE);
        if r.PageBadTableId? {
          ScanStep(cur, id, rest, Fetch(r, n));
          return BadTableId, events, used;
        }
        if r.PageScriptEnded? {
          ScanStep(cur, id, rest, Fetch(r, n));
          return ScriptEnded, events, used + n;
        }
        if r.PageRaised? {
          ScanStep(cur, id, rest, Fetch(r, n));
          return Raised(r.status), events, used + n;
        }
        ghost var before := events;
        if r.page.rows != [] {
          events := events + [HandleRows(r.page.rows)];
        }
        if r.isDone {
          ScanStep(cur, id, rest, Fetch(r, n));
          events := events + [Finish];
          return Completed, events, used + n;
        }
        ghost var c, u := cur, used;
        used, cur := used + n, Position();
        ReadRound(whole, before, events, u, used, c, cur, id, attempts, r, n);
      }
    }

    /** The plan of `parallel_indexed_read`: `stride = row_count / partition_count`,
        worker i reads `stride` rows from `stride * i` of the table pinned at the
        snapshot time, into `<dir>/<table>.<i>`. */
    method ParallelIndexedPlan(outputDir: string, rowCount: nat, partitionCount: int, snapshot: nat)
      returns (plan: Result<seq<IndexedWorker>, PlanError>)
      ensures plan.Err? <==> partitionCount == 0
      ensures plan.Ok? ==>
        && |plan.value| == (if partitionCount > 0 then partitionCount else 0)
        && forall i :: 0 <= i < |plan.value| ==>
          IsIndexedWorker(plan.value[i], FloorDiv(rowCount, partitionCount), i,
                          tableId + "@" + NatToString(snapshot), PathJoin(outputDir, tableId))
    {
      if partitionCount == 0 {
        return Err(ZeroPartitions);
      }
      var stride := FloorDiv(rowCount, partitionCount);
      var pinned := tableId + "@" + NatToString(snapshot);
      var base := PathJoin(outputDir, tableId);
      var threads: seq<IndexedWorker> := [];
      var index := 0;
      while index < partitionCount
        invariant 0 <= index && (partitionCount > 0 ==> index <= partitionCount)
        invariant partitionCount < 0 ==> index == 0
        invariant |threads| == index
        invariant forall i :: 0 <= i < index ==> IsIndexedWorker(threads[i], stride, i, pinned, base)
      {
        var fileName := base + "." + NatToString(index);
        var startIndex := stride * index;
        var worker := IndexedWorker(fileName, pinned, startIndex, stride,
                                    "[" + IntToString(startIndex) + "-" + IntToString(startIndex + stride) + ")");
        assert IsIndexedWorker(worker, stride, index, pinned, base);
        threads := threads + [worker];
        index := index + 1;
      }
      return Ok(threads);
    }

    /** The plan of `parallel_partitioned_read`: worker i reads the table id
        followed by '@', the shared snapshot time and "<i>-of-<n>" with no
        separator, into `<dir>/<table>.<i>`. */
    method ParallelPartitionedPlan(outputDir: string, partitionCount: int, snapshot: nat)
      returns (ws: seq<PartitionedWorker>)
      ensures |ws| == if partitionCount > 0 then partitionCount else 0
      ensures forall i :: 0 <= i < |ws| ==>
        && ws[i].threadId == NatToString(i) + "-of-" + IntToString(partitionCount)
        && ws[i].tableId == tableId + "@" + NatToString(snapshot) + ws[i].threadId
        && ws[i].fileName == PathJoin(outputDir, tableId) + "." + NatToString(i)
    {
      ws := [];
      var index := 0;
      while index < partitionCount
        invariant 0 <= index && (partitionCount > 0 ==> index <= partitionCount)
        invariant partitionCount <= 0 ==> index == 0
        invariant |ws| == index
        invariant forall i :: 0 <= i < index ==>
          && ws[i].threadId == NatToString(i) + "-of-" + IntToString(partitionCount)
          && ws[i].tableId == tableId + "@" + NatToString(snapshot) + ws[i].threadId
          && ws[i].fileName == PathJoin(outputDir, tableId) + "." + NatToString(i)
      {
        var fileName := PathJoin(outputDir, tableId) + "." + NatToString(index);
        var suffix := NatToString(index) + "-of-" + IntToString(partitionCount);
        ws := ws + [PartitionedWorker(fileName, tableId + "@" + NatToString(snapshot) + suffix, suffix)];
        index := index + 1;
      }
    }
  }
}
