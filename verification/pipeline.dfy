/** What the import script and the ingest endpoint share: the chunk list of
    a project and the chunks with the vectors the encoder assigned them. */
module Pipeline {
  import opened Wrappers
  import opened Json
  import opened Seqs
  import opened Scrapbox
  import opened ScrapboxService
  import opened EncoderService
  import opened ElasticsearchService
  import opened Batching

  /** The chunks of every page, page after page: `all_chunks.extend(...)`
      over `project.pages`. */
  function ProjectChunks(project: Project): seq<Chunk> {
    FlatMap(project.pages, (p: Page) => ChunkPage(p, project.name))
  }

  /** Splitting the pages in two splits the chunk list the same way: the
      chunks of the front pages come first, in page order. */
  lemma ProjectChunksOrder(project: Project, n: nat)
    requires n <= |project.pages|
    ensures var pages := project.pages;
      ProjectChunks(project) ==
        ProjectChunks(project.(pages := pages[..n])) + ProjectChunks(project.(pages := pages[n..]))
  {
    var pages := project.pages;
    assert pages == pages[..n] + pages[n..];
    FlatMapAppend(pages[..n], pages[n..], (p: Page) => ChunkPage(p, project.name));
  }

  /** A project of one page has exactly that page's chunks. */
  lemma ProjectChunksSingle(project: Project)
    requires |project.pages| == 1
    ensures ProjectChunks(project) == ChunkPage(project.pages[0], project.name)
  {
    assert project.pages == [project.pages[0]];
    FlatMapSingle(project.pages[0], (p: Page) => ChunkPage(p, project.name));
  }

  /** Chunking assigns no vector: every chunk of a project starts without
      one. */
  lemma ProjectChunksUnencoded(project: Project)
    ensures forall k :: 0 <= k < |ProjectChunks(project)| ==> ProjectChunks(project)[k].sparseVector.None?
  {
    var f := (p: Page) => ChunkPage(p, project.name);
    FlatMapEvery(project.pages, f, (c: Chunk) => c.sparseVector.None?);
  }

  /** `chunk.sparse_vector = await EncoderService.encode(chunk.text)` as
      call `n`: the vector on success; on failure the assignment does
      not happen and the chunk keeps what it had. */
  function WithVector(call: Encoding, n: nat, c: Chunk): (r: Chunk)
    ensures r.id == c.id && r.pageId == c.pageId && r.title == c.title && r.text == c.text
    ensures r.url == c.url && r.updated == c.updated
  {
    match call(n, c.text)
    case Success(v) => c.(sparseVector := Some(v))
    case Failure(_) => c
  }

  /** Every chunk of `chunks` sent through the encoder, the `k`-th one as
      call `from + k`. */
  function Encoded(call: Encoding, chunks: seq<Chunk>, from: nat): (r: seq<Chunk>)
    ensures |r| == |chunks|
  {
    seq(|chunks|, k requires 0 <= k < |chunks| => WithVector(call, from + k, chunks[k]))
  }

  /** Encoding a list in two parts numbers the calls of the second part on
      from the first. */
  lemma EncodedSlices(call: Encoding, chunks: seq<Chunk>, i: nat, j: nat)
    requires i <= j <= |chunks|
    ensures Encoded(call, chunks[..j], 0) == Encoded(call, chunks[..i], 0) + Encoded(call, chunks[i..j], i)
  {
    var lhs := Encoded(call, chunks[..j], 0);
    var rhs := Encoded(call, chunks[..i], 0) + Encoded(call, chunks[i..j], i);
    forall k | 0 <= k < j
      ensures lhs[k] == rhs[k]
    {
      if k >= i {
        assert rhs[k] == Encoded(call, chunks[i..j], i)[k - i];
      }
    }
  }

  /** Writing the next slice, encoded with the calls numbered on, extends
      the prefix written so far. */
  lemma WriteNextSlice(start: Store, call: Encoding, all: seq<Chunk>, i: nat, j: nat)
    requires i <= j <= |all|
    ensures BulkIndex(BulkIndex(start, Encoded(call, all[..i], 0)).0, Encoded(call, all[i..j], i)).0
      == BulkIndex(start, Encoded(call, all[..j], 0)).0
  {
    BulkIndexConcat(start, Encoded(call, all[..i], 0), Encoded(call, all[i..j], i));
    EncodedSlices(call, all, i, j);
  }

  /** The state of a batch loop over `all` after the batches ending at
      `i`: those chunks written, encoded with calls numbered by position,
      and one report per batch. */
  predicate WrittenUpTo(start: Store, call: Encoding, all: seq<Chunk>, size: nat,
                        i: nat, store: Store, progress: seq<int>) {
    && i <= |all|
    && (i < |all| ==> i == |progress| * size)
    && ReportsSoFar(progress, size, |all|)
    && (|progress| > 0 ==> progress[|progress| - 1] == i)
    && (|progress| == 0 ==> i == 0)
    && store == BulkIndex(start, Encoded(call, all[..i], 0)).0
  }

  /** Encoding and writing the batch that starts at `i`, then reporting,
      keeps that state. */
  lemma WriteBatch(start: Store, call: Encoding, all: seq<Chunk>, size: nat,
                   i: nat, store: Store, progress: seq<int>)
    requires size > 0 && i < |all|
    requires WrittenUpTo(start, call, all, size, i, store, progress)
    ensures var end := Min(i + size, |all|);
      WrittenUpTo(start, call, all, size, end,
                  BulkIndex(store, Encoded(call, all[i..end], i)).0, progress + [end])
  {
    var end := Min(i + size, |all|);
    WriteNextSlice(start, call, all, i, end);
    ReportNext(progress, size, |all|, i);
    MulSucc(|progress|, size);
  }

  /** Once the loop has reached the end, everything is written and the
      reports are complete. */
  lemma WrittenAll(start: Store, call: Encoding, all: seq<Chunk>, size: nat,
                   store: Store, progress: seq<int>)
    requires WrittenUpTo(start, call, all, size, |all|, store, progress)
    ensures store == BulkIndex(start, Encoded(call, all, 0)).0
    ensures IsProgressOf(progress, size, |all|)
  {
    assert all[..|all|] == all;
  }

  /** The texts the encoder is asked for, in order. */
  function ChunkTexts(chunks: seq<Chunk>): (r: seq<string>)
    ensures |r| == |chunks|
    ensures forall k :: 0 <= k < |chunks| ==> r[k] == chunks[k].text
  {
    seq(|chunks|, k requires 0 <= k < |chunks| => chunks[k].text)
  }
}
