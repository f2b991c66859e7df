/** The command-line import of an exported project: chunk every page, then
    encode and write the chunks twenty at a time. A chunk the encoder fails
    on is written without a vector, which means it is not written at all. */
module ImportScript {
  import opened Wrappers
  import opened Json
  import opened Scrapbox
  import opened ScrapboxService
  import opened EncoderService
  import opened ElasticsearchService
  import opened Batching
  import opened Pipeline

  const BatchSize: nat := 20

  /** The export file named on the command line: absent, present but not a
      project (`json.load` or the model validation raises), or a project. */
  datatype ExportFile = Missing | Invalid(error: string) | Valid(project: Project)

  /** How a run ends: the early return for a missing file, an exception that
      escapes the script, or the end of the loop. */
  datatype ImportEnd = FileNotFound | Raised(error: string) | Completed

  /** The inner loop: each chunk of the batch is encoded in turn, the
      `k`-th as call `from + k`; a failure is logged and the loop goes on. */
  method EncodeEach(call: Encoding, batch: seq<Chunk>, from: nat) returns (r: seq<Chunk>)
    ensures r == Encoded(call, batch, from)
  {
    r := [];
    for k := 0 to |batch|
      invariant r == Encoded(call, batch[..k], from)
    {
      r := r + [WithVector(call, from + k, batch[k])];
    }
    assert batch[..|batch|] == batch;
  }

  /** The store a run should leave behind: the index ensured, then every
      chunk of the project written once with whatever vector it got. */
  function Imported(s: Store, enc: EncoderOracle, project: Project): Store {
    BulkIndex(EnsureIndex(s).0, Encoded(Calls(enc), ProjectChunks(project), 0)).0
  }

  /** One pass of the batch loop: the slice of twenty that starts at `i`,
      which is the next of the list's batches, is encoded, written, and the
      count so far reported. */
  method ImportBatch(start: Store, call: Encoding, all: seq<Chunk>, i: nat,
                     store: Store, progress: seq<int>)
    returns (end: nat, store': Store, progress': seq<int>)
    requires i < |all| && WrittenUpTo(start, call, all, BatchSize, i, store, progress)
    ensures i < end && WrittenUpTo(start, call, all, BatchSize, end, store', progress')
    ensures i < end <= |all| && |progress| < |Batches(all, BatchSize)| && all[i..end] == Batches(all, BatchSize)[|progress|]
  {
    end := Min(i + BatchSize, |all|);
    LoopBatch(all, BatchSize, |progress|, i, end);
    var batch := all[i..end];
    var encoded := EncodeEach(call, batch, i);
    WriteBatch(start, call, all, BatchSize, i, store, progress);
    store' := BulkIndex(store, encoded).0;
    progress' := progress + [i + |batch|];
  }

  /** The batch loop of `run_import` over the chunk list `all`: slices of
      twenty are encoded and written one after another, and the count so
      far is reported after each. Writing batch after batch leaves the
      store that a single write of all encoded chunks would. */
  method IndexInBatches(start: Store, all: seq<Chunk>, call: Encoding)
    returns (store: Store, progress: seq<int>)
    ensures store == BulkIndex(start, Encoded(call, all, 0)).0
    ensures IsProgressOf(progress, BatchSize, |all|)
    ensures |progress| == |Batches(all, BatchSize)|
    ensures forall b :: 0 <= b < |progress| ==> progress[b] == b * BatchSize + |Batches(all, BatchSize)[b]|
  {
    store, progress := start, [];
    var i := 0;
    while i < |all|
      invariant WrittenUpTo(start, call, all, BatchSize, i, store, progress)
      decreases |all| - i
    {
      i, store, progress := ImportBatch(start, call, all, i, store, progress);
    }
    WrittenAll(start, call, all, BatchSize, store, progress);
    ProgressPerBatch(all, BatchSize, progress);
  }

  /** Python's `run_import`: a missing or unreadable file leaves the store
      untouched; otherwise the index is ensured, the pages are chunked and
      the chunks are written in batches. */
  method RunImport(file: ExportFile, s: Store, enc: EncoderOracle)
    returns (store: Store, progress: seq<int>, outcome: ImportEnd)
    ensures file.Missing? ==> store == s && progress == [] && outcome == FileNotFound
    ensures file.Invalid? ==> store == s && progress == [] && outcome == Raised(file.error)
    ensures file.Valid? ==> outcome == Completed && store == Imported(s, enc, file.project)
    ensures file.Valid? ==> IsProgressOf(progress, BatchSize, |ProjectChunks(file.project)|)
  {
    match file
    case Missing =>
      return s, [], FileNotFound;
    case Invalid(e) =>
      return s, [], Raised(e);
    case Valid(project) =>
      store, progress := IndexInBatches(EnsureIndex(s).0, ProjectChunks(project), Calls(enc));
      outcome := Completed;
  }

  /** A chunk the encoder fails on is not written by the run: it keeps no
      vector, so it does not qualify for the bulk write. */
  lemma ImportSkipsFailed(enc: EncoderOracle, project: Project, k: nat)
    requires k < |ProjectChunks(project)|
    requires EncodeCall(enc, k, ProjectChunks(project)[k].text).Failure?
    ensures !Eligible(Encoded(Calls(enc), ProjectChunks(project), 0)[k])
  {
    ProjectChunksUnencoded(project);
  }

  /** A chunk the encoder gives a non-empty vector is stored under its id
      with that vector, unless a later chunk with the same id is written
      over it. */
  lemma ImportWritesEncoded(s: Store, enc: EncoderOracle, project: Project, k: nat)
    requires var all := ProjectChunks(project);
      && k < |all|
      && EncodeCall(enc, k, all[k].text).Success?
      && Truthy(EncodeCall(enc, k, all[k].text).value)
      && forall j :: k < j < |all| ==> all[j].id != all[k].id
    ensures var c := ProjectChunks(project)[k];
      Get(Imported(s, enc, project).docs, c.id) ==
        Some(Doc(c.pageId, c.title, c.text, c.url, c.updated, EncodeCall(enc, k, c.text).value))
  {
    var all := ProjectChunks(project);
    var encoded := Encoded(Calls(enc), all, 0);
    LastEligibleAt(encoded, k);
    BulkIndexWrites(EnsureIndex(s).0, encoded, all[k].id);
  }

  /** Nothing is written that the encoder did not produce: a document the
      run adds or changes is the document of some chunk of the project,
      carrying exactly the non-empty vector `encode` returned for that
      chunk's call. */
  lemma ImportStoresOnlyEncoded(s: Store, enc: EncoderOracle, project: Project, id: string)
    requires Get(Imported(s, enc, project).docs, id) != Get(s.docs, id)
    ensures var all := ProjectChunks(project);
      exists k :: 0 <= k < |all| && all[k].id == id && StoredFromCall(s, enc, project, k)
  {
    var all := ProjectChunks(project);
    ProjectChunksUnencoded(project);
    var k := WrittenFromCall(EnsureIndex(s).0, enc, all, id);
    assert StoredFromCall(s, enc, project, k);
  }

  /** The same for any list of unencoded chunks written after encoding:
      the call whose chunk was kept under `id`. */
  lemma WrittenFromCall(s: Store, enc: EncoderOracle, all: seq<Chunk>, id: string) returns (k: nat)
    requires forall j :: 0 <= j < |all| ==> all[j].sparseVector.None?
    requires Get(BulkIndex(s, Encoded(Calls(enc), all, 0)).0.docs, id) != Get(s.docs, id)
    ensures k < |all| && all[k].id == id
    ensures var v := Encode(enc(k, EncodeRequest(all[k].text)));
      && v.Success? && Truthy(v.value)
      && Get(BulkIndex(s, Encoded(Calls(enc), all, 0)).0.docs, id)
         == Some(Doc(all[k].pageId, all[k].title, all[k].text, all[k].url, all[k].updated, v.value))
  {
    var encoded := Encoded(Calls(enc), all, 0);
    BulkIndexWrites(s, encoded, id);
    var c := LastEligible(encoded, id).value;
    k :| 0 <= k < |encoded| && encoded[k] == c;
    EncodedVector(enc, all[k], k, c);
  }

  /** An unencoded chunk that qualifies once call `k` is made got its
      vector from that call's decoded reply. */
  lemma EncodedVector(enc: EncoderOracle, c0: Chunk, k: nat, c: Chunk)
    requires c0.sparseVector.None? && c == WithVector(Calls(enc), k, c0) && Eligible(c)
    ensures var v := Encode(enc(k, EncodeRequest(c0.text)));
      && v.Success? && Truthy(v.value)
      && DocOf(c) == Doc(c0.pageId, c0.title, c0.text, c0.url, c0.updated, v.value)
  {
  }

  /** Call `k`'s reply decoded by `encode` to a non-empty vector, and the
      run stored chunk `k` with it. */
  ghost predicate StoredFromCall(s: Store, enc: EncoderOracle, project: Project, k: nat)
    requires k < |ProjectChunks(project)|
  {
    var c := ProjectChunks(project)[k];
    var v := Encode(enc(k, EncodeRequest(c.text)));
    && v.Success? && Truthy(v.value)
    && Get(Imported(s, enc, project).docs, c.id) == Some(Doc(c.pageId, c.title, c.text, c.url, c.updated, v.value))
  }
}
