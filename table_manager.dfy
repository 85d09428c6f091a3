/** The table manager: the request body of a table creation, the
    existence checks for datasets and tables, and the translation of an
    HTTP error into the module's own exception.

    The warehouse is abstracted as a function from a `get` request to its
    answer. */
module TableManagement {
  import opened Common

  /** The `tableReference` of a request body; the project may be None, the
      default of `create_table`. */
  datatype Reference = Reference(tableId: string, datasetId: string, projectId: Option<string>)

  /** The body of `tables().insert` and its path arguments (`dataset_ref`). */
  datatype InsertRequest<S> = InsertRequest(datasetId: string, projectId: Option<string>, tableReference: Reference, schema: S)

  /** `create_table`: the insert request for a table `tableName` of the given
      dataset holding the given schema unchanged. */
  function CreateTable<S>(datasetId: string, tableName: string, schema: S, projectId: Option<string>): (req: InsertRequest<S>)
    ensures req.tableReference.tableId == tableName
    ensures req.tableReference.datasetId == datasetId && req.tableReference.projectId == projectId
    ensures req.schema == schema
  {
    InsertRequest(datasetId, projectId, Reference(tableName, datasetId, projectId), schema)
  }

  /** The request is sent to the same dataset and project that the new
      table's reference names. */
  lemma CreateTableTargetsItsReference<S>(datasetId: string, tableName: string, schema: S, projectId: Option<string>)
    ensures CreateTable(datasetId, tableName, schema, projectId).datasetId == CreateTable(datasetId, tableName, schema, projectId).tableReference.datasetId
    ensures CreateTable(datasetId, tableName, schema, projectId).projectId == CreateTable(datasetId, tableName, schema, projectId).tableReference.projectId
  {
  }

  // ---------------------------------------------------------------------
  // Errors

  /** One entry of the error body's 'errors' list. */
  datatype ErrorItem = ErrorItem(reason: string, message: string)

  /** The parsed 'error' object of an HTTP error's content: its 'errors'
      entry, possibly missing. */
  datatype ErrorBody = ErrorBody(errors: Option<seq<ErrorItem>>)

  /** `GenericGBQException`: with a formatted message, or carrying the
      falsy 'errors' value itself (None or empty). */
  datatype GbqException = WithMessage(text: string) | WithErrors(errors: Option<seq<ErrorItem>>)

  /** The message for one error entry. */
  function Describe(e: ErrorItem): (text: string)
    ensures "Reason: " <= text && |text| == 19 + |e.reason| + |e.message|
    ensures text[8..8 + |e.reason|] == e.reason
    ensures text[8 + |e.reason|..19 + |e.reason|] == ", Message: "
    ensures EndsWith(text, e.message)
  {
    "Reason: " + e.reason + ", Message: " + e.message
  }

  predicate HasErrors(body: ErrorBody) {
    body.errors.Some? && body.errors.value != []
  }

  /** `process_http_error`: always raises.  It describes the first entry of a
      non-empty 'errors' list; it raises the value itself otherwise. */
  function ProcessHttpError(body: ErrorBody): (ex: GbqException)
    ensures ex.WithMessage? <==> HasErrors(body)
    ensures ex.WithMessage? ==> ex.text == Describe(body.errors.value[0])
    ensures ex.WithErrors? ==> ex.errors == body.errors
  {
    if HasErrors(body) then WithMessage(Describe(body.errors.value[0])) else WithErrors(body.errors)
  }

  /** Only the first error entry shapes the message. */
  lemma OnlyFirstErrorReported(first: ErrorItem, rest: seq<ErrorItem>, others: seq<ErrorItem>)
    ensures ProcessHttpError(ErrorBody(Some([first] + rest))) == ProcessHttpError(ErrorBody(Some([first] + others)))
  {
  }

  /** A missing and an empty 'errors' list both fall through to the final
      raise, which carries the value rather than a message. */
  lemma NoErrorsCarried()
    ensures ProcessHttpError(ErrorBody(None)) == WithErrors(None)
    ensures ProcessHttpError(ErrorBody(Some([]))) == WithErrors(Some([]))
  {
  }

  /** The message names the reason and the message of the entry, so
      entries with different reasons give different messages. */
  lemma DescribeInjectiveOnReason(a: ErrorItem, b: ErrorItem)
    requires |a.reason| == |b.reason| && a.reason != b.reason
    ensures Describe(a) != Describe(b)
  {
    assert Describe(a)[8..8 + |a.reason|] != Describe(b)[8..8 + |b.reason|];
  }

  // ---------------------------------------------------------------------
  // Existence checks

  datatype GetRequest =
    | DatasetGet(projectId: string, datasetId: string)
    | TableGet(projectId: string, datasetId: string, tableId: string)

  /** The answer to a `get`: success, or an HTTP error with its status and
      parsed content. */
  datatype GetAnswer = Found | GetFailed(status: int, body: ErrorBody)

  /** What an existence check ends with: a boolean, or the exception raised
      through `process_http_error`. */
  datatype ExistsResult = Answer(present: bool) | Raised(ex: GbqException)

  /** True exactly on success, False exactly for status 404, and the
      exception of `process_http_error` for every other status. */
  predicate Classifies(answer: GetAnswer, r: ExistsResult) {
    && (r == Answer(true) <==> answer.Found?)
    && (r == Answer(false) <==> answer.GetFailed? && answer.status == 404)
    && (r.Raised? <==> answer.GetFailed? && answer.status != 404)
    && (r.Raised? ==> r.ex == ProcessHttpError(answer.body))
  }

  /** The shared classification of `dataset_exists` and `table_exists`. */
  function ExistsFrom(answer: GetAnswer): (r: ExistsResult)
    ensures Classifies(answer, r)
  {
    match answer
    case Found => Answer(true)
    case GetFailed(status, body) => if status == 404 then Answer(false) else Raised(ProcessHttpError(body))
  }

  /** `dataset_exists`: the classification of the answer to the `get` of
      exactly that dataset. */
  function DatasetExists(projectId: string, datasetId: string, service: GetRequest -> GetAnswer): (r: ExistsResult)
    ensures Classifies(service(DatasetGet(projectId, datasetId)), r)
  {
    ExistsFrom(service(DatasetGet(projectId, datasetId)))
  }

  /** `table_exists`: the classification of the answer to the `get` of
      exactly that table. */
  function TableExists(projectId: string, datasetId: string, tableId: string, service: GetRequest -> GetAnswer): (r: ExistsResult)
    ensures Classifies(service(TableGet(projectId, datasetId, tableId)), r)
  {
    ExistsFrom(service(TableGet(projectId, datasetId, tableId)))
  }

  /** The result of a check is determined by the answer to its own request:
      services that agree on it give the same result. */
  lemma ExistsOnlyAsksForItself(projectId: string, datasetId: string, tableId: string, s1: GetRequest -> GetAnswer, s2: GetRequest -> GetAnswer)
    requires s1(TableGet(projectId, datasetId, tableId)) == s2(TableGet(projectId, datasetId, tableId))
    requires s1(DatasetGet(projectId, datasetId)) == s2(DatasetGet(projectId, datasetId))
    ensures TableExists(projectId, datasetId, tableId, s1) == TableExists(projectId, datasetId, tableId, s2)
    ensures DatasetExists(projectId, datasetId, s1) == DatasetExists(projectId, datasetId, s2)
  {
  }
}
