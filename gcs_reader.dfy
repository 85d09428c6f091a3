/** The storage reader (`GcsReader`): object URIs, the "size or None"
    presence check, the read-and-maybe-download decision, and the paged
    bucket listing.

    The storage service is abstracted as answers: one answer to
    `objects().get` per presence check, and a finite script of answers to
    `objects().list` / `list_next` for a listing. */
module GcsReading {
  import opened Common

  /** The reader's settings; neither changes after construction. */
  datatype GcsReader = GcsReader(bucket: string, downloadDir: Option<string>)

  /** The answer to one `objects().get`: the object's metadata, whose
      'size' may be missing, or an HTTP failure status. */
  datatype GetAnswer = Metadata(size: Option<int>) | GetFailed(status: int)

  /** What `check_gcs_file` returns: `(uri, size)` or `(None, None)`. */
  datatype Presence = Presence(uri: Option<string>, size: Option<int>)

  /** What `read` returns, and the local file it downloads to, if any. */
  datatype FileRead = FileRead(size: Option<int>, download: Option<string>)

  /** `make_uri`: the storage path of an object of the reader's bucket. */
  function MakeUri(r: GcsReader, obj: string): (uri: string)
    ensures "gs://" <= uri && EndsWith(uri, obj)
    ensures |uri| == 6 + |r.bucket| + |obj|
    ensures uri[5..5 + |r.bucket|] == r.bucket && uri[5 + |r.bucket|] == '/'
  {
    "gs://" + r.bucket + "/" + obj
  }

  /** Splits a storage path into its bucket and object name at the first '/'
      after the scheme. */
  function ParseUri(uri: string): Option<(string, string)> {
    if !("gs://" <= uri) then None
    else
      var rest := uri[5..];
      var k := IndexOf(rest, '/');
      if k.None? then None else Some((rest[..k.value], rest[k.value + 1..]))
  }

  /** For a bucket name without '/', the path names the bucket and the object
      back, so distinct objects get distinct paths. */
  lemma MakeUriRoundTrip(r: GcsReader, obj: string)
    requires '/' !in r.bucket
    ensures ParseUri(MakeUri(r, obj)) == Some((r.bucket, obj))
  {
    var uri := MakeUri(r, obj);
    var rest := uri[5..];
    assert rest == r.bucket + "/" + obj;
    var k := IndexOf(rest, '/');
    assert rest[|r.bucket|] == '/';
    assert forall j :: 0 <= j < |r.bucket| ==> rest[j] == r.bucket[j];
    assert rest[..k.value] == r.bucket;
    assert rest[k.value + 1..] == obj;
  }

  /** `check_gcs_file`: the path and the size (0 when the metadata has none)
      when the object's metadata comes back; `(None, None)` after any HTTP
      failure, whether 404 or not. */
  function CheckGcsFile(r: GcsReader, obj: string, answer: GetAnswer): (p: Presence)
    ensures answer.Metadata? ==> p.uri == Some(MakeUri(r, obj))
    ensures answer.Metadata? && answer.size.Some? ==> p.size == answer.size
    ensures answer.Metadata? && answer.size.None? ==> p.size == Some(0)
    ensures answer.GetFailed? ==> p == Presence(None, None)
    ensures p.uri.None? <==> p.size.None?
  {
    match answer
    case Metadata(size) => Presence(Some(MakeUri(r, obj)), Some(if size.Some? then size.value else 0))
    case GetFailed(_) => Presence(None, None)
  }

  /** `read`: the presence check, then the download when the object is
      there and a download directory is set. */
  function Read(r: GcsReader, obj: string, answer: GetAnswer): FileRead {
    var p := CheckGcsFile(r, obj, answer);
    if p.uri.None? then FileRead(None, None)
    else if r.downloadDir.Some? then FileRead(p.size, Some(PathJoin(r.downloadDir.value, obj)))
    else FileRead(p.size, None)
  }

  /** `read` gives None exactly when the object is reported absent and its
      size otherwise; it downloads to `<download_dir>/<object>` exactly when
      the object was found and a download directory is set. */
  lemma ReadMeaning(r: GcsReader, obj: string, answer: GetAnswer)
    ensures Read(r, obj, answer).size.None? <==> answer.GetFailed?
    ensures Read(r, obj, answer).size == CheckGcsFile(r, obj, answer).size
    ensures Read(r, obj, answer).download.Some? <==> answer.Metadata? && r.downloadDir.Some?
    ensures Read(r, obj, answer).download.Some? ==> Read(r, obj, answer).download.value == PathJoin(r.downloadDir.value, obj)
  {
  }

  /** A failure other than "not found" reads exactly like an absent object. */
  lemma FailureLooksAbsent(r: GcsReader, obj: string, status: int)
    ensures Read(r, obj, GetFailed(status)) == Read(r, obj, GetFailed(404))
    ensures CheckGcsFile(r, obj, GetFailed(status)) == CheckGcsFile(r, obj, GetFailed(404))
  {
  }

  // ---------------------------------------------------------------------
  // `list_bucket`

  /** The answer to one listing request: a page, whose 'items' may be
      missing, with the token `list_next` continues from, or an HTTP failure. */
  datatype ListAnswer<T> = ListPage(items: Option<seq<T>>, nextPageToken: Option<string>) | ListFailed(status: int)

  datatype ListOutcome<T> = Listed(objects: seq<T>) | ListRaised(status: int) | ListScriptEnded

  /** `resp.get('items', [])`. */
  function ItemsOf<T>(a: ListAnswer<T>): seq<T> {
    if a.ListPage? && a.items.Some? then a.items.value else []
  }

  /** The items of a run of pages, in page order. */
  function AllItems<T>(pages: seq<ListAnswer<T>>): seq<T> {
    if pages == [] then [] else AllItems(pages[..|pages| - 1]) + ItemsOf(pages[|pages| - 1])
  }

  /** A page after which `list_next` builds another request. */
  predicate Continues<T>(a: ListAnswer<T>) {
    a.ListPage? && a.nextPageToken.Some?
  }

  /** `list_bucket`: execute requests while `list_next` yields one, collecting
      the items.  The listing is every page's items in order, with a missing
      'items' read as none; it ends at the first page without a next page token,
      and a failure is raised at once with nothing returned. */
  method ListBucket<T>(answers: seq<ListAnswer<T>>) returns (outcome: ListOutcome<T>, used: nat)
    ensures used <= |answers|
    ensures forall k :: 0 <= k < used - 1 ==> Continues(answers[k])
    ensures outcome.Listed? ==>
      && used > 0 && answers[used - 1].ListPage? && answers[used - 1].nextPageToken.None?
      && outcome.objects == AllItems(answers[..used])
    ensures outcome.ListRaised? ==> used > 0 && answers[used - 1] == ListFailed(outcome.status)
    ensures outcome.ListScriptEnded? ==> used == |answers| && forall k :: 0 <= k < used ==> Continues(answers[k])
  {
    var allObjects: seq<T> := [];
    var pending := true;
    used := 0;
    while pending
      invariant used <= |answers|
      invariant forall k :: 0 <= k < used - 1 ==> Continues(answers[k])
      invariant pending ==> (forall k :: 0 <= k < used ==> Continues(answers[k])) && allObjects == AllItems(answers[..used])
      invariant !pending ==>
        && used > 0 && answers[used - 1].ListPage? && answers[used - 1].nextPageToken.None?
        && allObjects == AllItems(answers[..used])
      decreases |answers| - used, pending
    {
      if used == |answers| {
        return ListScriptEnded, used;
      }
      var resp := answers[used];
      if resp.ListFailed? {
        return ListRaised(resp.status), used + 1;
      }
      assert answers[..used + 1][..used] == answers[..used];
      allObjects := allObjects + ItemsOf(resp);
      used := used + 1;
      pending := resp.nextPageToken.Some?;
    }
    return Listed(allObjects), used;
  }

  lemma {:induction false} AllItemsAppend<T>(a: seq<ListAnswer<T>>, b: seq<ListAnswer<T>>)
    ensures AllItems(a + b) == AllItems(a) + AllItems(b)
    decreases |b|
  {
    if b == [] {
      assert a + b == a;
    } else {
      assert (a + b)[..|a + b| - 1] == a + b[..|b| - 1];
      AllItemsAppend(a, b[..|b| - 1]);
    }
  }

  /** Pages without items add nothing to a listing. */
  lemma {:induction false} EmptyPagesListNothing<T>(pages: seq<ListAnswer<T>>)
    requires forall k :: 0 <= k < |pages| ==> ItemsOf(pages[k]) == []
    ensures AllItems(pages) == []
  {
    if pages != [] {
      EmptyPagesListNothing(pages[..|pages| - 1]);
    }
  }
}
