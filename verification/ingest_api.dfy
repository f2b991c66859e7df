/** The background ingestion behind the upload route: chunk every page,
    then encode and write the chunks ten at a time. One failed encode ends
    the run: the batch it is in and every later batch are not written, the
    batches before it stay written, and nothing is raised to the caller. */
module IngestApi {
  import opened Wrappers
  import opened Scrapbox
  import opened EncoderService
  import opened ElasticsearchService
  import opened Batching
  import opened Pipeline

  const BatchSize: nat := 10

  /** How `process_ingestion` ends: normally, or with the exception it logs. */
  datatype IngestEnd = Completed | Failed(error: string)

  /** `asyncio.gather` over the encodes of `all[lo..hi]`, the `k`-th chunk
      as call `k`: every chunk with its vector when all calls succeed, else
      the error of a failing call. Of several failures the first in list
      order is the one reported. */
  function Gather(call: Encoding, all: seq<Chunk>, lo: nat, hi: nat): (r: Result<seq<Chunk>>)
    requires lo <= hi <= |all|
    ensures r.Success? <==> forall k :: lo <= k < hi ==> call(k, all[k].text).Success?
    ensures r.Success? ==> r.value == Encoded(call, all[lo..hi], lo)
    ensures r.Failure? ==>
      (var f := FirstFailure(call, ChunkTexts(all), lo);
       f.Some? && f.value < hi && r.error == call(f.value, all[f.value].text).error)
    decreases hi - lo
  {
    if lo == hi then Success([])
    else
      match call(lo, all[lo].text)
      case Failure(e) => Failure(e)
      case Success(v) =>
        var rest :- Gather(call, all, lo + 1, hi);
        Success([all[lo].(sparseVector := Some(v))] + rest)
  }

  /** Calls that all succeed move the first failure no earlier. */
  lemma {:induction false} FirstFailureSkips(call: Encoding, texts: seq<string>, i: nat, j: nat)
    requires i <= j <= |texts|
    requires forall k :: i <= k < j ==> call(k, texts[k]).Success?
    ensures FirstFailure(call, texts, i) == FirstFailure(call, texts, j)
    decreases j - i
  {
    if i < j {
      FirstFailureSkips(call, texts, i + 1, j);
    }
  }

  /** Where the chunks written before a failure at position `f` end: the
      start of the batch holding `f`. */
  function WrittenBefore(f: nat): nat {
    f - f % BatchSize
  }

  /** A failure at `f` inside the batch that starts at `i` leaves exactly
      the batches before it written. */
  lemma FailureInBatch(i: nat, f: nat, n: nat)
    requires i == n * BatchSize && i <= f < i + BatchSize
    ensures WrittenBefore(f) == i && f / BatchSize == n
  {
  }

  /** The state of the loop before the batch at `i`: the batches so far
      written, and every call so far successful. */
  predicate Running(start: Store, call: Encoding, all: seq<Chunk>, i: nat, store: Store, progress: seq<int>) {
    && WrittenUpTo(start, call, all, BatchSize, i, store, progress)
    && forall k :: 0 <= k < i ==> call(k, all[k].text).Success?
  }

  /** What the run leaves when the batch at `i` fails. */
  predicate FailedAt(start: Store, call: Encoding, all: seq<Chunk>, store: Store, progress: seq<int>, outcome: IngestEnd) {
    var f := FirstFailure(call, ChunkTexts(all), 0);
    && f.Some?
    && outcome == Failed(call(f.value, all[f.value].text).error)
    && store == BulkIndex(start, Encoded(call, all[..WrittenBefore(f.value)], 0)).0
    && |progress| == f.value / BatchSize
    && forall b :: 0 <= b < |progress| ==> progress[b] == (b + 1) * BatchSize
  }

  /** A failed gather of the batch at `i` ends the run as `FailedAt` says. */
  lemma GatherFails(start: Store, call: Encoding, all: seq<Chunk>, i: nat, store: Store, progress: seq<int>)
    requires i < |all| && Running(start, call, all, i, store, progress)
    requires Gather(call, all, i, Min(i + BatchSize, |all|)).Failure?
    ensures FailedAt(start, call, all, store, progress, Failed(Gather(call, all, i, Min(i + BatchSize, |all|)).error))
  {
    FirstFailureSkips(call, ChunkTexts(all), 0, i);
    var f := FirstFailure(call, ChunkTexts(all), 0).value;
    FailureInBatch(i, f, |progress|);
    forall b | 0 <= b < |progress|
      ensures progress[b] == (b + 1) * BatchSize
    {
      assert (b + 1) * BatchSize <= i;
    }
  }

  /** Writing and reporting a batch whose encodes all succeeded keeps the
      loop running. */
  lemma GatherSucceeds(start: Store, call: Encoding, all: seq<Chunk>, i: nat, store: Store, progress: seq<int>)
    requires i < |all| && Running(start, call, all, i, store, progress)
    requires Gather(call, all, i, Min(i + BatchSize, |all|)).Success?
    ensures var end := Min(i + BatchSize, |all|);
      Running(start, call, all, end, BulkIndex(store, Gather(call, all, i, end).value).0, progress + [end])
  {
    WriteBatch(start, call, all, BatchSize, i, store, progress);
  }

  /** One pass of the batch loop: the slice of ten at `i` is gathered; if
      every encode succeeded it is written and the count reported, else the
      run ends with the failure. */
  method IngestBatch(start: Store, call: Encoding, all: seq<Chunk>, i: nat, store: Store, progress: seq<int>)
    returns (end: nat, store': Store, progress': seq<int>, failure: Option<IngestEnd>)
    requires i < |all| && Running(start, call, all, i, store, progress)
    ensures failure.None? ==> i < end && Running(start, call, all, end, store', progress')
    ensures failure.Some? ==> FailedAt(start, call, all, store, progress, failure.value)
    ensures i < end <= |all| && |progress| < |Batches(all, BatchSize)| && all[i..end] == Batches(all, BatchSize)[|progress|]
  {
    end := Min(i + BatchSize, |all|);
    LoopBatch(all, BatchSize, |progress|, i, end);
    var batch := all[i..end];
    var gathered := Gather(call, all, i, end);
    if gathered.Failure? {
      GatherFails(start, call, all, i, store, progress);
      return end, store, progress, Some(Failed(gathered.error));
    }
    GatherSucceeds(start, call, all, i, store, progress);
    store' := BulkIndex(store, gathered.value).0;
    progress' := progress + [i + |batch|];
    failure := None;
  }

  /** The batch loop of `process_ingestion` over the chunk list `all`: a
      batch is written only once every encode in it has succeeded, and the
      first failed batch ends the run. */
  method IndexUntilFailure(start: Store, all: seq<Chunk>, call: Encoding)
    returns (store: Store, progress: seq<int>, outcome: IngestEnd)
    ensures FirstFailure(call, ChunkTexts(all), 0).None? ==>
      && outcome == Completed
      && store == BulkIndex(start, Encoded(call, all, 0)).0
      && IsProgressOf(progress, BatchSize, |all|)
    ensures FirstFailure(call, ChunkTexts(all), 0).Some? ==> FailedAt(start, call, all, store, progress, outcome)
  {
    store, progress := start, [];
    var i := 0;
    while i < |all|
      invariant Running(start, call, all, i, store, progress)
      decreases |all| - i
    {
      var failure;
      var store', progress';
      i, store', progress', failure := IngestBatch(start, call, all, i, store, progress);
      if failure.Some? {
        return store, progress, failure.value;
      }
      store, progress := store', progress';
    }
    WrittenAll(start, call, all, BatchSize, store, progress);
    FirstFailureSkips(call, ChunkTexts(all), 0, |all|);
    return store, progress, Completed;
  }

  /** Python's `process_ingestion`: a payload that is not a project fails
      before the store is touched; otherwise the index is ensured, the pages
      are chunked and the chunks are written batch by batch until the end or
      the first failed encode. */
  method ProcessIngestion(projectData: Result<Project>, s: Store, enc: EncoderOracle)
    returns (store: Store, progress: seq<int>, outcome: IngestEnd)
    ensures projectData.Failure? ==> store == s && progress == [] && outcome == Failed(projectData.error)
    ensures projectData.Success? ==>
      var all := ProjectChunks(projectData.value);
      && IndexName in store.indices
      && (FirstFailure(Calls(enc), ChunkTexts(all), 0).None? ==>
            outcome == Completed && store == BulkIndex(EnsureIndex(s).0, Encoded(Calls(enc), all, 0)).0)
      && (FirstFailure(Calls(enc), ChunkTexts(all), 0).Some? ==>
            var f := FirstFailure(Calls(enc), ChunkTexts(all), 0).value;
            && outcome == Failed(EncodeCall(enc, f, all[f].text).error)
            && store == BulkIndex(EnsureIndex(s).0, Encoded(Calls(enc), all[..WrittenBefore(f)], 0)).0)
  {
    match projectData
    case Failure(e) =>
      return s, [], Failed(e);
    case Success(project) =>
      store, progress, outcome := IndexUntilFailure(EnsureIndex(s).0, ProjectChunks(project), Calls(enc));
  }
}
