/** The extract-and-read workflow: the extract job configuration, the
    shard file names a partition reader looks for, the partition reader's
    poll loop, and the launch plan of a partitioned extract.

    The job runner is abstracted as an answer to `start_job` and a script of
    answers to `get_job_state`; the storage as one `objects().get` answer per
    presence check. */
module ExtractRead {
  import opened Common
  import opened GcsReading

  // ---------------------------------------------------------------------
  // Job configuration and object names

  datatype ExtractConfig = ExtractConfig(sourceTable: TableRef, destinationFormat: string, destinationUris: seq<string>)

  /** `{'extract': extract_config}`. */
  datatype JobConfig = JobConfig(extract: ExtractConfig)

  /** `make_extract_config`: newline-delimited JSON, the given source table
      and destination paths, the paths kept as given. */
  function MakeExtractConfig(projectId: string, datasetId: string, tableId: string, uris: seq<string>): (c: JobConfig)
    ensures c.extract.sourceTable == TableRef(projectId, datasetId, tableId)
    ensures c.extract.destinationFormat == "NEWLINE_DELIMITED_JSON"
    ensures c.extract.destinationUris == uris
  {
    JobConfig(ExtractConfig(TableRef(projectId, datasetId, tableId), "NEWLINE_DELIMITED_JSON", uris))
  }

  /** The object of a single-file extract: `output/<ds>.<tbl>_<ts>.json`. */
  function ExtractObject(datasetId: string, tableId: string, timestamp: nat): string {
    "output/" + datasetId + "." + tableId + "_" + NatToString(timestamp) + ".json"
  }

  /** The object glob of partition i: `output/<ds>.<tbl>_<ts>.<i>.*.json`. */
  function ObjectGlob(datasetId: string, tableId: string, timestamp: nat, index: nat): string {
    "output/" + datasetId + "." + tableId + "_" + NatToString(timestamp) + "." + NatToString(index) + ".*.json"
  }

  // ---------------------------------------------------------------------
  // `resolve_shard_path`

  /** What `path.replace('*', '%012d') % (index,)` raises: no wildcard leaves
      an argument unconverted, several want more arguments; a path holding
      '%' of its own is outside the model. */
  datatype ShardPathError = NoWildcard | SeveralWildcards | PercentInPath

  /** `resolve_shard_path`: the glob with its '*' replaced by the index
      written with at least twelve digits. */
  function ResolveShardPath(path: string, index: nat): Result<string, ShardPathError> {
    if '%' in path then Err(PercentInPath)
    else
      CountCharZero(path, '*');
      var n := CountChar(path, '*');
      if n == 0 then Err(NoWildcard)
      else if n > 1 then Err(SeveralWildcards)
      else
        var k := IndexOf(path, '*').value;
        Ok(path[..k] + Pad12(index) + path[k + 1..])
  }

  /** A glob resolves exactly when it has one '*' and no '%'; the name is
      the glob with that '*' replaced by the twelve-digit index; a glob
      without '*' fails by leaving the index unconverted. */
  lemma ResolveShardPathMeaning(path: string, index: nat)
    ensures ResolveShardPath(path, index).Ok? <==> '%' !in path && CountChar(path, '*') == 1
    ensures ResolveShardPath(path, index).Err? && '%' !in path ==>
      (ResolveShardPath(path, index).error == NoWildcard <==> '*' !in path)
    ensures ResolveShardPath(path, index).Ok? ==> IndexOf(path, '*').Some?
    ensures ResolveShardPath(path, index).Ok? ==>
      ResolveShardPath(path, index).value == path[..IndexOf(path, '*').value] + Pad12(index) + path[IndexOf(path, '*').value + 1..]
  {
    CountCharZero(path, '*');
  }

  /** Whether and how resolution fails depends on the glob alone, not on the index. */
  lemma ResolveShardPathIndexFree(path: string, i: nat, j: nat)
    ensures ResolveShardPath(path, i).Ok? <==> ResolveShardPath(path, j).Ok?
    ensures ResolveShardPath(path, i).Err? ==> ResolveShardPath(path, i).error == ResolveShardPath(path, j).error
  {
  }

  /** The shard index can be read back from its resolved name: the digits
      between the glob's prefix and suffix are the index. */
  lemma ShardIndexReadsBack(path: string, index: nat)
    requires ResolveShardPath(path, index).Ok?
    ensures IndexOf(path, '*').Some?
    ensures var name := ResolveShardPath(path, index).value;
      var k := IndexOf(path, '*').value;
      var tail := |path| - k - 1;
      |name| >= k + 12 + tail &&
      AllDigits(name[k..|name| - tail]) && DecimalValue(name[k..|name| - tail]) == index
  {
    ResolveShardPathMeaning(path, index);
    var k := IndexOf(path, '*').value;
    var pre, d, suf := path[..k], Pad12(index), path[k + 1..];
    Pad12RoundTrip(index);
    MiddleOf(pre, d, suf);
  }

  lemma MiddleOf(a: string, b: string, c: string)
    ensures (a + b + c)[|a|..|a + b + c| - |c|] == b
  {
    assert (a + b + c)[|a|..|a + b + c| - |c|] == (a + b + c)[|a|..|a| + |b|];
  }

  /** Distinct shards of one glob resolve to distinct objects. */
  lemma ShardNamesDistinct(path: string, i: nat, j: nat)
    requires ResolveShardPath(path, i).Ok? && i != j
    ensures ResolveShardPath(path, j).Ok? && ResolveShardPath(path, i).value != ResolveShardPath(path, j).value
  {
    ResolveShardPathIndexFree(path, i, j);
    ShardIndexReadsBack(path, i);
    ShardIndexReadsBack(path, j);
  }

  /** A partition glob has the one wildcard that shard resolution needs, as
      long as the dataset and table ids hold neither '*' nor '%'. */
  lemma ObjectGlobResolves(datasetId: string, tableId: string, timestamp: nat, index: nat, shard: nat)
    requires '*' !in datasetId && '*' !in tableId && '%' !in datasetId && '%' !in tableId
    ensures ResolveShardPath(ObjectGlob(datasetId, tableId, timestamp, index), shard).Ok?
  {
    var ts := NatToString(timestamp);
    var ix := NatToString(index);
    NatToStringRoundTrip(timestamp);
    NatToStringRoundTrip(index);
    DigitsHoldNo(ts, '*');
    DigitsHoldNo(ix, '*');
    DigitsHoldNo(ts, '%');
    DigitsHoldNo(ix, '%');
    var p := "output/" + datasetId + "." + tableId + "_" + ts + "." + ix;
    assert ObjectGlob(datasetId, tableId, timestamp, index) == p + ".*.json";
    assert '*' !in p;
    CountCharZero(p, '*');
    CountCharAppend(p, ".*.json", '*');
    assert CountChar(".*.json", '*') == 1;
    ResolveShardPathMeaning(p + ".*.json", shard);
  }

  /** A numeral holds no character other than digits. */
  lemma DigitsHoldNo(s: string, c: char)
    requires AllDigits(s) && !IsDigit(c)
    ensures c !in s
  {
    forall i | 0 <= i < |s|
      ensures s[i] != c
    {
      assert IsDigit(s[i]);
    }
  }

  /** Distinct partitions of one extract get distinct object globs. */
  lemma ObjectGlobsDistinct(datasetId: string, tableId: string, timestamp: nat, i: nat, j: nat)
    requires i != j
    ensures ObjectGlob(datasetId, tableId, timestamp, i) != ObjectGlob(datasetId, tableId, timestamp, j)
  {
    var p := "output/" + datasetId + "." + tableId + "_" + NatToString(timestamp) + ".";
    var a := NatToString(i) + ".*.json";
    var b := NatToString(j) + ".*.json";
    assert ObjectGlob(datasetId, tableId, timestamp, i) == p + a;
    assert ObjectGlob(datasetId, tableId, timestamp, j) == p + b;
    if p + a == p + b {
      assert a == (p + a)[|p|..];
      assert b == (p + b)[|p|..];
      assert NatToString(i) == a[..|a| - 7];
      assert NatToString(j) == b[..|b| - 7];
      NatToStringInjective(i, j);
    }
  }

  // ---------------------------------------------------------------------
  // The poll loop of `PartitionReader.run`

  /** What one round of the poll loop does, in order: a presence check of a
      shard, a query of the job state, a five-second sleep. */
  datatype PollEvent = Checked(shard: nat, file: FileRead) | QueriedJob(state: string) | Slept

  /** How `run` ends: after reading the given number of shards, by raising
      because no glob was set or the glob does not resolve, or, in the model
      only, because a script of answers ran out. */
  datatype RunOutcome = Finished(shards: nat) | GlobNotSet | BadGlob(error: ShardPathError) | ScriptEnded

  predicate IsHit(e: PollEvent) {
    e.Checked? && e.file.size.Some?
  }

  predicate IsMiss(e: PollEvent) {
    e.Checked? && e.file.size.None?
  }

  /** The number of shards found. */
  function Found(t: seq<PollEvent>): nat {
    if t == [] then 0 else Found(t[..|t| - 1]) + (if IsHit(t[|t| - 1]) then 1 else 0)
  }

  /** The number of presence checks. */
  function Checks(t: seq<PollEvent>): nat {
    if t == [] then 0 else Checks(t[..|t| - 1]) + (if t[|t| - 1].Checked? then 1 else 0)
  }

  /** The number of job-state queries. */
  function Queries(t: seq<PollEvent>): nat {
    if t == [] then 0 else Queries(t[..|t| - 1]) + (if t[|t| - 1].QueriedJob? then 1 else 0)
  }

  /** Whether a query has reported the job done. */
  predicate SawDone(t: seq<PollEvent>) {
    QueriedJob("DONE") in t
  }

  /** Shards are checked in order from 0, moving on exactly when one is found. */
  predicate DenseShards(t: seq<PollEvent>) {
    forall i :: 0 <= i < |t| && t[i].Checked? ==> t[i].shard == Found(t[..i])
  }

  /** The k-th presence check reads the k-th storage answer for the shard's resolved name. */
  predicate ChecksFollow(r: GcsReader, glob: string, answers: seq<GetAnswer>, t: seq<PollEvent>) {
    forall i :: 0 <= i < |t| && t[i].Checked? ==>
      && Checks(t[..i]) < |answers|
      && ResolveShardPath(glob, t[i].shard).Ok?
      && t[i].file == Read(r, ResolveShardPath(glob, t[i].shard).value, answers[Checks(t[..i])])
  }

  /** The k-th job query reports the k-th job state. */
  predicate QueriesFollow(states: seq<string>, t: seq<PollEvent>) {
    forall i :: 0 <= i < |t| && t[i].QueriedJob? ==>
      Queries(t[..i]) < |states| && t[i].state == states[Queries(t[..i])]
  }

  /** The job is queried only right after a missing shard, and never again once it was done. */
  predicate QueriesOnlyAfterMiss(t: seq<PollEvent>) {
    forall i :: 0 <= i < |t| && t[i].QueriedJob? ==> 0 < i && IsMiss(t[i - 1]) && !SawDone(t[..i])
  }

  /** Every missing shard seen before the job was done is followed by a job query
      (unless it is the last event). */
  predicate MissBeforeDoneQueries(t: seq<PollEvent>) {
    forall i :: 0 <= i < |t| - 1 && IsMiss(t[i]) && !SawDone(t[..i]) ==> t[i + 1].QueriedJob?
  }

  /** A query whose state is not 'DONE'. */
  predicate IsPending(e: PollEvent) {
    e.QueriedJob? && e.state != "DONE"
  }

  /** The poller sleeps only right after a query that did not see 'DONE'. */
  predicate SleepsOnlyWhenPending(t: seq<PollEvent>) {
    forall i :: 0 <= i < |t| && t[i].Slept? ==> 0 < i && IsPending(t[i - 1])
  }

  /** Every query that did not see 'DONE' is followed by a sleep (unless it is
      the last event). */
  predicate PendingQueriesSleep(t: seq<PollEvent>) {
    forall i :: 0 <= i < |t| - 1 && IsPending(t[i]) ==> t[i + 1].Slept?
  }

  /** A missing shard after the job was done is the last thing the loop does. */
  predicate MissAfterDoneEnds(t: seq<PollEvent>) {
    forall i :: 0 <= i < |t| && IsMiss(t[i]) && SawDone(t[..i]) ==> i == |t| - 1
  }

  /** All the trace properties of the poll loop together. */
  ghost predicate Polled(r: GcsReader, glob: string, answers: seq<GetAnswer>, states: seq<string>, t: seq<PollEvent>) {
    && DenseShards(t) && ChecksFollow(r, glob, answers, t) && QueriesFollow(states, t)
    && QueriesOnlyAfterMiss(t) && MissBeforeDoneQueries(t) && SleepsOnlyWhenPending(t)
    && PendingQueriesSleep(t) && MissAfterDoneEnds(t)
  }

  /** Between rounds the last event is a found shard, a sleep or the query that saw 'DONE'. */
  ghost predicate BetweenRounds(t: seq<PollEvent>) {
    t != [] ==> IsHit(t[|t| - 1]) || t[|t| - 1].Slept? || t[|t| - 1] == QueriedJob("DONE")
  }

  /** How the poll loop ends: it raises at once, before any event, exactly
      when the glob does not resolve; it finishes with the number of shards
      found, after the job was seen done and a last shard was missing; in
      the model only, it stops when a script ran out: either every storage
      answer was used and the next check has none, or a shard was missing
      before the job was done and no job state is left; and its trace has every
      property of `Polled` (by `PollTraceMeans`) and does not end in a query that saw the job
      still running. */
  ghost predicate PollEnds(r: GcsReader, glob: string, answers: seq<GetAnswer>, states: seq<string>,
                           outcome: RunOutcome, trace: seq<PollEvent>) {
    && !outcome.GlobNotSet?
    && (outcome.BadGlob? <==> ResolveShardPath(glob, 0).Err?)
    && (outcome.BadGlob? ==> trace == [] && outcome.error == ResolveShardPath(glob, 0).error)
    && PollTrace(r, glob, answers, states, trace)
    && (trace != [] ==> !IsPending(trace[|trace| - 1]))
    && (outcome.Finished? ==>
      && outcome.shards == Found(trace) && SawDone(trace)
      && trace != [] && IsMiss(trace[|trace| - 1]))
    && (outcome.ScriptEnded? ==>
      || (Checks(trace) == |answers| && (trace == [] || !IsMiss(trace[|trace| - 1])))
      || (Queries(trace) == |states| && trace != [] && IsMiss(trace[|trace| - 1]) && !SawDone(trace)))
  }

  lemma PrefixesOfAppend(t: seq<PollEvent>, e: PollEvent)
    ensures forall i :: 0 <= i <= |t| ==> (t + [e])[..i] == t[..i]
    ensures (t + [e])[..|t|] == t
  {
  }

  lemma CountsAppend(t: seq<PollEvent>, e: PollEvent)
    ensures Found(t + [e]) == Found(t) + (if IsHit(e) then 1 else 0)
    ensures Checks(t + [e]) == Checks(t) + (if e.Checked? then 1 else 0)
    ensures Queries(t + [e]) == Queries(t) + (if e.QueriedJob? then 1 else 0)
    ensures SawDone(t + [e]) <==> SawDone(t) || e == QueriedJob("DONE")
  {
    assert (t + [e])[..|t|] == t;
  }

  lemma DenseAppend(t: seq<PollEvent>, e: PollEvent)
    requires DenseShards(t) && (e.Checked? ==> e.shard == Found(t))
    ensures DenseShards(t + [e])
  {
    PrefixesOfAppend(t, e);
  }

  lemma ChecksAppend(r: GcsReader, glob: string, answers: seq<GetAnswer>, t: seq<PollEvent>, e: PollEvent)
    requires ChecksFollow(r, glob, answers, t)
    requires e.Checked? ==>
      && Checks(t) < |answers| && ResolveShardPath(glob, e.shard).Ok?
      && e.file == Read(r, ResolveShardPath(glob, e.shard).value, answers[Checks(t)])
    ensures ChecksFollow(r, glob, answers, t + [e])
  {
    PrefixesOfAppend(t, e);
  }

  lemma QueriesAppend(states: seq<string>, t: seq<PollEvent>, e: PollEvent)
    requires QueriesFollow(states, t)
    requires e.QueriedJob? ==> Queries(t) < |states| && e.state == states[Queries(t)]
    ensures QueriesFollow(states, t + [e])
  {
    PrefixesOfAppend(t, e);
  }

  lemma QueriesOnlyAfterMissAppend(t: seq<PollEvent>, e: PollEvent)
    requires QueriesOnlyAfterMiss(t)
    requires e.QueriedJob? ==> t != [] && IsMiss(t[|t| - 1]) && !SawDone(t)
    ensures QueriesOnlyAfterMiss(t + [e])
  {
    PrefixesOfAppend(t, e);
  }

  lemma MissBeforeDoneAppend(t: seq<PollEvent>, e: PollEvent)
    requires MissBeforeDoneQueries(t)
    requires t != [] && IsMiss(t[|t| - 1]) && !SawDone(t[..|t| - 1]) ==> e.QueriedJob?
    ensures MissBeforeDoneQueries(t + [e])
  {
    PrefixesOfAppend(t, e);
  }

  lemma SleepsAppend(t: seq<PollEvent>, e: PollEvent)
    requires SleepsOnlyWhenPending(t) && PendingQueriesSleep(t)
    requires e.Slept? ==> t != [] && IsPending(t[|t| - 1])
    requires t != [] && IsPending(t[|t| - 1]) ==> e.Slept?
    ensures SleepsOnlyWhenPending(t + [e]) && PendingQueriesSleep(t + [e])
  {
  }

  lemma MissAfterDoneAppend(t: seq<PollEvent>, e: PollEvent)
    requires MissAfterDoneEnds(t)
    requires !(t != [] && IsMiss(t[|t| - 1]) && SawDone(t[..|t| - 1]))
    ensures MissAfterDoneEnds(t + [e])
  {
    PrefixesOfAppend(t, e);
  }

  /** The event the poll loop may record next after the trace t: the check
      of the next unfound shard with the next storage answer; a query with
      the next job state, right after a missing shard while the job was not
      seen done; a sleep right after a query that saw the job running.  A
      missing shard must be followed by a query and a running job by a sleep. */
  ghost predicate NextEvent(r: GcsReader, glob: string, answers: seq<GetAnswer>, states: seq<string>,
                            t: seq<PollEvent>, e: PollEvent) {
    && (e.Checked? ==>
      && e.shard == Found(t) && Checks(t) < |answers| && ResolveShardPath(glob, e.shard).Ok?
      && e.file == Read(r, ResolveShardPath(glob, e.shard).value, answers[Checks(t)]))
    && (e.QueriedJob? ==>
      && Queries(t) < |states| && e.state == states[Queries(t)]
      && t != [] && IsMiss(t[|t| - 1]) && !SawDone(t))
    && (e.Slept? ==> t != [] && IsPending(t[|t| - 1]))
    && (t != [] && IsMiss(t[|t| - 1]) ==> e.QueriedJob?)
    && (t != [] && IsPending(t[|t| - 1]) ==> e.Slept?)
  }

  /** The traces the poll loop can produce, event by event. */
  ghost predicate PollTrace(r: GcsReader, glob: string, answers: seq<GetAnswer>, states: seq<string>, t: seq<PollEvent>)
    decreases |t|
  {
    t == [] ||
    (PollTrace(r, glob, answers, states, t[..|t| - 1]) && NextEvent(r, glob, answers, states, t[..|t| - 1], t[|t| - 1]))
  }

  lemma ExtendPollTrace(r: GcsReader, glob: string, answers: seq<GetAnswer>, states: seq<string>, t: seq<PollEvent>, e: PollEvent)
    requires PollTrace(r, glob, answers, states, t) && NextEvent(r, glob, answers, states, t, e)
    ensures PollTrace(r, glob, answers, states, t + [e])
    ensures Found(t + [e]) == Found(t) + (if IsHit(e) then 1 else 0)
    ensures Checks(t + [e]) == Checks(t) + (if e.Checked? then 1 else 0)
    ensures Queries(t + [e]) == Queries(t) + (if e.QueriedJob? then 1 else 0)
    ensures SawDone(t + [e]) <==> SawDone(t) || e == QueriedJob("DONE")
  {
    CountsAppend(t, e);
  }

  /** A presence check as the loop records it. */
  lemma ExtendByCheck(r: GcsReader, glob: string, answers: seq<GetAnswer>, states: seq<string>,
                      t: seq<PollEvent>, shard: nat, f: FileRead)
    requires PollTrace(r, glob, answers, states, t) && BetweenRounds(t)
    requires shard == Found(t) && Checks(t) < |answers| && ResolveShardPath(glob, shard).Ok?
    requires f == Read(r, ResolveShardPath(glob, shard).value, answers[Checks(t)])
    ensures PollTrace(r, glob, answers, states, t + [Checked(shard, f)])
    ensures Found(t + [Checked(shard, f)]) == Found(t) + (if f.size.Some? then 1 else 0)
    ensures Checks(t + [Checked(shard, f)]) == Checks(t) + 1
    ensures Queries(t + [Checked(shard, f)]) == Queries(t)
    ensures SawDone(t + [Checked(shard, f)]) == SawDone(t)
    ensures f.size.Some? ==> BetweenRounds(t + [Checked(shard, f)])
  {
    ExtendPollTrace(r, glob, answers, states, t, Checked(shard, f));
  }

  /** The job query after a missing shard, and the sleep when the job is still running. */
  lemma ExtendByQuery(r: GcsReader, glob: string, answers: seq<GetAnswer>, states: seq<string>,
                      t: seq<PollEvent>, state: string)
    requires PollTrace(r, glob, answers, states, t)
    requires t != [] && IsMiss(t[|t| - 1]) && !SawDone(t)
    requires Queries(t) < |states| && state == states[Queries(t)]
    ensures var t' := t + [QueriedJob(state)];
      && PollTrace(r, glob, answers, states, t')
      && Found(t') == Found(t) && Checks(t') == Checks(t) && Queries(t') == Queries(t) + 1
      && (SawDone(t') <==> state == "DONE")
      && (state == "DONE" ==> BetweenRounds(t'))
    ensures var t' := t + [QueriedJob(state)] + [Slept];
      state != "DONE" ==>
      && PollTrace(r, glob, answers, states, t')
      && Found(t') == Found(t) && Checks(t') == Checks(t) && Queries(t') == Queries(t) + 1
      && !SawDone(t') && BetweenRounds(t')
  {
    var q := QueriedJob(state);
    ExtendPollTrace(r, glob, answers, states, t, q);
    if state != "DONE" {
      ExtendPollTrace(r, glob, answers, states, t + [q], Slept);
    }
  }

  /** One more allowed event keeps the trace properties. */
  lemma PolledStep(r: GcsReader, glob: string, answers: seq<GetAnswer>, states: seq<string>, t: seq<PollEvent>, e: PollEvent)
    requires Polled(r, glob, answers, states, t) && NextEvent(r, glob, answers, states, t, e)
    ensures Polled(r, glob, answers, states, t + [e])
  {
    CountsAppend(t, e);
    DenseAppend(t, e);
    ChecksAppend(r, glob, answers, t, e);
    QueriesAppend(states, t, e);
    QueriesOnlyAfterMissAppend(t, e);
    MissBeforeDoneAppend(t, e);
    SleepsAppend(t, e);
    MissAfterDoneAppend(t, e);
  }

  /** Every trace of the poll loop has all the trace properties: shards are
      checked densely in order against successive storage answers, the job is
      queried with successive states only after a miss and never once done,
      the poller sleeps exactly after a query that saw the job running, and
      a miss after the job was done is the last event. */
  lemma {:induction false} PollTraceMeans(r: GcsReader, glob: string, answers: seq<GetAnswer>, states: seq<string>, t: seq<PollEvent>)
    requires PollTrace(r, glob, answers, states, t)
    ensures Polled(r, glob, answers, states, t)
    decreases |t|
  {
    if t != [] {
      var t0, e := t[..|t| - 1], t[|t| - 1];
      PollTraceMeans(r, glob, answers, states, t0);
      assert t == t0 + [e];
      PolledStep(r, glob, answers, states, t0, e);
    }
  }

  class PartitionReader {
    const partitionId: nat
    const gcsReader: GcsReader
    var gcsObjectGlob: Option<string>

    /** A reader whose glob is not set until `start`. */
    constructor(gcsReader: GcsReader, partitionId: nat)
      ensures this.gcsReader == gcsReader && this.partitionId == partitionId
      ensures gcsObjectGlob == None
    {
      this.gcsReader := gcsReader;
      this.partitionId := partitionId;
      gcsObjectGlob := None;
    }

    /** `start`: records the glob the poll loop reads (the thread start is not modelled). */
    method Start(glob: string)
      modifies this
      ensures gcsObjectGlob == Some(glob)
    {
      gcsObjectGlob := Some(glob);
    }

    /** `run`: raise unless `start` set a non-empty glob, then poll for the
        glob's shards.  `answers` and `states` are the storage's and the job
        runner's successive answers. */
    method Run(answers: seq<GetAnswer>, states: seq<string>) returns (outcome: RunOutcome, trace: seq<PollEvent>)
      ensures outcome.GlobNotSet? <==> gcsObjectGlob.None? || gcsObjectGlob == Some("")
      ensures outcome.GlobNotSet? ==> trace == []
      ensures !outcome.GlobNotSet? ==> PollEnds(gcsReader, gcsObjectGlob.value, answers, states, outcome, trace)
    {
      if gcsObjectGlob.None? || gcsObjectGlob.value == "" {
        return GlobNotSet, [];
      }
      outcome, trace := PollShards(gcsReader, gcsObjectGlob.value, answers, states);
    }
  }

  /** The poll loop of `run` for a set glob: look for shard 0, 1, 2, ... in
      turn; on a missing shard query the job once, sleeping if it is not
      'DONE', and stop at the first missing shard after the job was seen done. */
  method PollShards(r: GcsReader, glob: string, answers: seq<GetAnswer>, states: seq<string>)
    returns (outcome: RunOutcome, trace: seq<PollEvent>)
    ensures PollEnds(r, glob, answers, states, outcome, trace)
  {
    var jobDone := false;
    var shardIndex := 0;
    var checks, queries := 0, 0;
    trace := [];
    while true
      invariant checks == Checks(trace) <= |answers| && queries == Queries(trace) <= |states|
      invariant shardIndex == Found(trace) && jobDone == SawDone(trace)
      invariant trace != [] ==> ResolveShardPath(glob, 0).Ok?
      invariant PollTrace(r, glob, answers, states, trace) && BetweenRounds(trace)
      decreases |answers| - checks
    {
      var path := ResolveShardPath(glob, shardIndex);
      ResolveShardPathIndexFree(glob, shardIndex, 0);
      if path.Err? {
        return BadGlob(path.error), trace;
      }
      if checks == |answers| {
        return ScriptEnded, trace;
      }
      var fileSize := Read(r, path.value, answers[checks]);
      ExtendByCheck(r, glob, answers, states, trace, shardIndex, fileSize);
      trace, checks := trace + [Checked(shardIndex, fileSize)], checks + 1;
      if fileSize.size.Some? {
        shardIndex := shardIndex + 1;
      } else if jobDone {
        return Finished(shardIndex), trace;
      } else {
        if queries == |states| {
          return ScriptEnded, trace;
        }
        var state := states[queries];
        ExtendByQuery(r, glob, answers, states, trace, state);
        trace, queries := trace + [QueriedJob(state)], queries + 1;
        jobDone := state == "DONE";
        if !jobDone {
          trace := trace + [Slept];
        }
      }
    }
  }

  // ---------------------------------------------------------------------
  // Launching extracts

  /** The outcome of `SimpleReader.run_extract_job`: the job configuration
      and, when the job was started, what reading its one object gave. */
  datatype SimpleRun = SimpleRun(config: JobConfig, read: Option<FileRead>)

  /** `SimpleReader.run_extract_job`: one destination object named after the
      dataset, table and timestamp; it is read, once the job completes, only
      when the job was started. */
  function RunExtractJob(r: GcsReader, projectId: string, datasetId: string, tableId: string,
                         timestamp: nat, started: bool, answer: GetAnswer): (run: SimpleRun)
    ensures run.config.extract.sourceTable == TableRef(projectId, datasetId, tableId)
    ensures run.config.extract.destinationFormat == "NEWLINE_DELIMITED_JSON"
    ensures run.config.extract.destinationUris == [MakeUri(r, ExtractObject(datasetId, tableId, timestamp))]
    ensures run.read.Some? <==> started
    ensures started ==> run.read.value == Read(r, ExtractObject(datasetId, tableId, timestamp), answer)
  {
    var obj := ExtractObject(datasetId, tableId, timestamp);
    var config := MakeExtractConfig(projectId, datasetId, tableId, [MakeUri(r, obj)]);
    if !started then SimpleRun(config, None) else SimpleRun(config, Some(Read(r, obj, answer)))
  }

  /** `run_partitioned_extract_job`: one partition reader per storage reader,
      with the partition's index as its id and the partition's glob as its
      object; the job writes to the globs' paths in the same order; the
      readers are started with their globs only when the job was started. */
  method RunPartitionedExtractJob(readers: seq<GcsReader>, projectId: string, datasetId: string,
                                  tableId: string, timestamp: nat, started: bool)
    returns (config: JobConfig, objects: seq<string>, partitionReaders: seq<PartitionReader>)
    ensures |objects| == |readers| && |partitionReaders| == |readers|
    ensures config == MakeExtractConfig(projectId, datasetId, tableId, config.extract.destinationUris)
    ensures |config.extract.destinationUris| == |readers|
    ensures forall i :: 0 <= i < |readers| ==>
      && objects[i] == ObjectGlob(datasetId, tableId, timestamp, i)
      && config.extract.destinationUris[i] == MakeUri(readers[i], objects[i])
    ensures forall i :: 0 <= i < |readers| ==>
      && fresh(partitionReaders[i])
      && partitionReaders[i].partitionId == i && partitionReaders[i].gcsReader == readers[i]
      && partitionReaders[i].gcsObjectGlob == (if started then Some(objects[i]) else None)
    ensures forall i, j :: 0 <= i < j < |readers| ==> partitionReaders[i] != partitionReaders[j]
  {
    var uris: seq<string> := [];
    objects := [];
    partitionReaders := [];
    for index := 0 to |readers|
      invariant |objects| == index && |uris| == index && |partitionReaders| == index
      invariant forall i :: 0 <= i < index ==>
        && objects[i] == ObjectGlob(datasetId, tableId, timestamp, i)
        && uris[i] == MakeUri(readers[i], objects[i])
      invariant forall i :: 0 <= i < index ==>
        && fresh(partitionReaders[i])
        && partitionReaders[i].partitionId == i && partitionReaders[i].gcsReader == readers[i]
        && partitionReaders[i].gcsObjectGlob == None
      invariant forall i, j :: 0 <= i < j < index ==> partitionReaders[i] != partitionReaders[j]
    {
      var obj := ObjectGlob(datasetId, tableId, timestamp, index);
      objects := objects + [obj];
      uris := uris + [MakeUri(readers[index], obj)];
      var pr := new PartitionReader(readers[index], index);
      partitionReaders := partitionReaders + [pr];
    }
    config := MakeExtractConfig(projectId, datasetId, tableId, uris);
    if !started {
      return;
    }
    for index := 0 to |partitionReaders|
      invariant forall i :: 0 <= i < |readers| ==>
        && fresh(partitionReaders[i])
        && partitionReaders[i].partitionId == i && partitionReaders[i].gcsReader == readers[i]
        && partitionReaders[i].gcsObjectGlob == (if i < index then Some(objects[i]) else None)
    {
      partitionReaders[index].Start(objects[index]);
    }
  }
}
