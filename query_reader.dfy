/** The query reader: run a query job, then fetch its result pages by page
    token and hand every page's rows to a result handler.

    The warehouse is abstracted as the answer to the `jobs().query` call and
    a finite script of answers to `getQueryResults`. */
module QueryReading {
  import opened Common
  import TableReading

  /** The answer to `jobs().query(...).execute()`. */
  datatype QueryAnswer = JobStarted(jobId: string) | QueryFailed(status: int)

  /** The answer to one `getQueryResults(...).execute()`: a page, whose 'rows'
      and 'pageToken' may be missing, or an HTTP failure. */
  datatype ResultsAnswer = ResultsPage(rows: Option<seq<Row>>, pageToken: Option<string>) | ResultsFailed(status: int)

  /** How `read` ends: the loop broke on the last page; an HTTP error with a
      retryable status was caught (the five-second wait and the return that
      follow it); any other HTTP error propagated; or, in the model only, the
      script of answers ran out. */
  datatype QueryOutcome = Done | RetryableError(status: int) | Raised(status: int) | ScriptEnded

  /** `page.get('rows', [])`. */
  function RowsOf(a: ResultsAnswer): seq<Row> {
    if a.ResultsPage? && a.rows.Some? then a.rows.value else []
  }

  /** A page after which the loop asks for another: `pageToken` present and
      non-empty, the truth test `if not page_token`. */
  predicate Continues(a: ResultsAnswer) {
    a.ResultsPage? && a.pageToken.Some? && a.pageToken.value != ""
  }

  /** What the handler receives for a run of pages: one `handle_rows` per
      page, in page order, also for pages without rows. */
  function Handled(pages: seq<ResultsAnswer>): (events: seq<SinkEvent>)
    ensures |events| == |pages|
  {
    if pages == [] then [] else Handled(pages[..|pages| - 1]) + [HandleRows(RowsOf(pages[|pages| - 1]))]
  }

  /** The outcome an HTTP error status leads to. */
  function ErrorOutcome(status: int): (o: QueryOutcome)
    ensures o.RetryableError? <==> IsRetryable(status)
    ensures o.Raised? <==> !IsRetryable(status)
    ensures o.RetryableError? || o.Raised?
  {
    if IsRetryable(status) then RetryableError(status) else Raised(status)
  }

  class QueryReader {
    const projectId: string
    var columns: Option<seq<string>>

    constructor(projectId: string)
      ensures this.projectId == projectId && columns == None
    {
      this.projectId := projectId;
      columns := None;
    }

    /** `read`: start the query, then request result pages, starting without
        a token and continuing with each page's token, handing each page's
        rows to the handler, until a page has no non-empty token.  An HTTP
        error anywhere ends the read: no further page is requested.  The
        handler's `finish` is never called.  `events` is what the handler
        receives and `tokens` the page token of each results request. */
    method Read(job: QueryAnswer, answers: seq<ResultsAnswer>)
      returns (outcome: QueryOutcome, events: seq<SinkEvent>, tokens: seq<Option<string>>, used: nat)
      ensures used <= |answers| && |tokens| == used
      ensures job.QueryFailed? ==> used == 0 && events == [] && outcome == ErrorOutcome(job.status)
      ensures used > 0 ==> tokens[0] == None
      ensures forall k :: 0 < k < used ==> Continues(answers[k - 1]) && tokens[k] == answers[k - 1].pageToken
      ensures Finish !in events
      ensures outcome.Done? ==>
        && job.JobStarted? && used > 0 && answers[used - 1].ResultsPage? && !Continues(answers[used - 1])
        && events == Handled(answers[..used])
      ensures job.JobStarted? && (outcome.RetryableError? || outcome.Raised?) ==>
        && used > 0 && answers[used - 1].ResultsFailed?
        && outcome == ErrorOutcome(answers[used - 1].status)
        && events == Handled(answers[..used - 1])
      ensures outcome.ScriptEnded? ==>
        && job.JobStarted? && used == |answers| && events == Handled(answers)
        && forall k :: 0 <= k < used ==> Continues(answers[k])
    {
      if job.QueryFailed? {
        return ErrorOutcome(job.status), [], [], 0;
      }
      var pageToken: Option<string> := None;
      events, tokens, used := [], [], 0;
      while true
        invariant used <= |answers| && |tokens| == used
        invariant forall k :: 0 <= k < used ==> Continues(answers[k])
        invariant pageToken == (if used == 0 then None else answers[used - 1].pageToken)
        invariant used > 0 ==> tokens[0] == None
        invariant forall k :: 0 < k < used ==> tokens[k] == answers[k - 1].pageToken
        invariant events == Handled(answers[..used])
        decreases |answers| - used
      {
        if used == |answers| {
          assert answers[..used] == answers;
          HandledHasNoFinish(answers);
          return ScriptEnded, events, tokens, used;
        }
        var page := answers[used];
        tokens := tokens + [pageToken];
        if page.ResultsFailed? {
          HandledHasNoFinish(answers[..used]);
          assert answers[..used + 1][..used] == answers[..used];
          return ErrorOutcome(page.status), events, tokens, used + 1;
        }
        assert answers[..used + 1][..used] == answers[..used];
        events := events + [HandleRows(RowsOf(page))];
        pageToken := page.pageToken;
        used := used + 1;
        if pageToken.None? || pageToken.value == "" {
          HandledHasNoFinish(answers[..used]);
          return Done, events, tokens, used;
        }
      }
    }
  }

  /** The handler only ever gets `handle_rows`. */
  lemma {:induction false} HandledHasNoFinish(pages: seq<ResultsAnswer>)
    ensures Finish !in Handled(pages)
    ensures forall k :: 0 <= k < |pages| ==> Handled(pages)[k] == HandleRows(RowsOf(pages[k]))
  {
    if pages != [] {
      HandledHasNoFinish(pages[..|pages| - 1]);
    }
  }

  /** An empty page token ends a query read, but not a table read: the table
      reader's `advance` stops only on a missing token (or a spent budget). */
  lemma EmptyTokenContrast(c: TableReading.Cursor, rows: seq<Row>)
    requires c.rowsLeft.None?
    ensures !Continues(ResultsPage(Some(rows), Some("")))
    ensures !TableReading.AdvanceDone(c, |rows|, Some(""))
  {
  }
}
