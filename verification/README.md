# Scrapbox RAG backend, modelled in Dafny

This project models the backend of a retrieval-augmented question
answering service over a Scrapbox wiki export. It covers four paths:

- **Chunking.** Pages are cleaned of link brackets and cut into chunks of
  about 500 characters.
- **Indexing.** Each chunk is sent to a sparse (SPLADE) encoder and written
  to an Elasticsearch index. Two callers do this: a command-line import
  script and a background ingestion endpoint.
- **Search.** A question is encoded, the index is searched with its vector,
  and the hits are handed to a local language model as context.
- **Answering.** The answer comes back either in one response or as a
  stream of server-sent events.

Every remote collaborator is an oracle: a Dafny function value that returns
`Success(v)` or `Failure(message)`. The encoder is called as `enc(n,
request)` for the `n`-th call of a run. The search store is a function from
the request to the hits. The language model is a function from the generate
request to the reply, or to the lines of a streamed reply. The
Elasticsearch index is a small abstract state, `Store`: a map of index
definitions and a map from document id to stored document.

The modules follow the repository:

| module | models |
|---|---|
| `Scrapbox` | the export records `ScrapboxPage`, `ScrapboxProject`, `ScrapboxChunk` |
| `ScrapboxService` | `clean_scrapbox_text` and `chunk_page` |
| `EncoderService` | `encode` and `encode_batch` |
| `ElasticsearchService` | `create_index_if_not_exists`, `bulk_index_chunks` and `search` |
| `LlmService` | the prompt, `generate_answer` and `generate_answer_stream` |
| `Pipeline`, `Batching` | what the two ingestion loops share: the chunk list, the slices, the progress counts |
| `ImportScript` | `run_import` |
| `IngestApi` | `process_ingestion` |
| `SearchApi` | `search_rag` and the event generator of `search_rag_stream` |
| `Wrappers`, `Text`, `Json`, `Seqs` | results, Python string operations, decoded JSON values and sequence helpers |

The model follows the code where the code and its documented intent differ:

- The search query keeps the first 1024 terms of the vector, not the
  highest-weighted ones.
- Every clause of the search query names the field `sparse_vector` itself,
  so the query drops the terms and keeps only their weights. `Search` and
  everything built on it send this query. The request that names each
  term's own feature is modelled beside it as `SearchCorrected` (see
  "## Findings").
- `encode` returns whatever object the encoder sent when it has no
  `"vector"` key. It does not reject other shapes.
- On the live ingestion path, one failed encode makes `asyncio.gather`
  raise. That ends the whole run; the failed chunk is not merely skipped.
- The streamed relay never checks the HTTP status. An error body is read
  line by line like any other.

## Model

| member | source | states |
|---|---|---|
| ScrapboxService.StripLinks | backend/app/services/scrapbox_service.py:10 | the regular-expression substitution never makes the text longer |
| ScrapboxService.StripLinksCount | backend/app/services/scrapbox_service.py:10 | the substitution only deletes brackets, one `[` and one `]` per replaced link; every other character occurs as often as before |
| ScrapboxService.StripLinksNoOpen | backend/app/services/scrapbox_service.py:10 | text without `[` is left unchanged by the substitution |
| ScrapboxService.StripLinksLink | backend/app/services/scrapbox_service.py:10 | a link `[x]` with non-empty `x` free of `]` is replaced by `x` |
| ScrapboxService.StripLinksEmptyBrackets | backend/app/services/scrapbox_service.py:10 | an empty pair `[]` does not match and is kept |
| Text.Strip | backend/app/services/scrapbox_service.py:11 | `strip()` removes an all-whitespace prefix and suffix and nothing else; the result is empty exactly when the line is all whitespace, else it starts and ends on a non-space |
| ScrapboxService.Clean | backend/app/services/scrapbox_service.py:7-11 | cleaning never lengthens a line and leaves no leading or trailing whitespace |
| ScrapboxService.CleanPlain | backend/app/services/scrapbox_service.py:7-11 | a line without `[` is only stripped |
| ScrapboxService.CleanTwoLinks | backend/app/services/scrapbox_service.py:7-11 | text shaped like the unit test's `"This is a [link] and [image.jpg]"` loses the brackets and keeps the words |
| ScrapboxService.CleanKeepsNoNewline | backend/app/services/scrapbox_service.py:7-11 | cleaning never introduces a line break |
| ScrapboxService.Annotate | backend/app/services/scrapbox_service.py:26-29 | each raw line is seen as its blankness and its cleaned text, in order |
| ScrapboxService.StepPreservesInvariant | backend/app/services/scrapbox_service.py:24-43 | one loop iteration keeps the invariant: closed chunks, dropped blank lines and the buffer give back the lines read so far; the dropped lines are blank and come before the buffer, which starts on a non-blank line and stays within 500; a closed chunk went past 500 with its last line and not before |
| ScrapboxService.ScanKeepsInvariant | backend/app/services/scrapbox_service.py:24-43 | the loop keeps that invariant over every page |
| ScrapboxService.PageLayoutFollowsRule | backend/app/services/scrapbox_service.py:24-55 | the loop plus the final flush split the page as the chunking rule says: lines in order, only blank lines dropped, every chunk but the last past 500, the last one within 500 and reaching the end unless it too went past |
| ScrapboxService.ChunkPage | backend/app/services/scrapbox_service.py:14-57 | one chunk per segment of the layout; chunk `k` has id `page.id + "_" + k`, the text of its segment's cleaned lines joined by newlines, the page's id, title and update time, the URL `https://scrapbox.io/{project}/{title with ' ' replaced by '_'}`, and no vector |
| ScrapboxService.ChunkIdInjective | backend/app/services/scrapbox_service.py:36 | an id `p + "_" + k` determines both the page id and the position |
| ScrapboxService.ChunkIdsDistinct | backend/app/services/scrapbox_service.py:36-49 | the chunks of a page have pairwise distinct ids |
| ScrapboxService.ChunkPageEmptyIff | backend/app/services/scrapbox_service.py:24-55 | a page yields no chunk exactly when all its lines are blank, including a page with no lines |
| ScrapboxService.LayoutSegmentShape | backend/app/services/scrapbox_service.py:24-46 | every chunk starts on a non-blank line after dropped blank ones; all its lines but the last add up to at most 500; every chunk but the last is past 500 |
| ScrapboxService.ChunkTextLength | backend/app/services/scrapbox_service.py:47 | a chunk's text is its cleaned lines' lengths plus one newline between each two |
| ScrapboxService.ChunkTextLines | backend/app/services/scrapbox_service.py:47 | splitting a chunk's text at newlines gives back its cleaned lines, when no raw line holds a newline |
| ScrapboxService.ChunkSingleLine | backend/app/services/scrapbox_service.py:14-57 | a page of one non-blank line within 500 gives one chunk with id `_0` and the cleaned line as text |
| ScrapboxService.TestPageUrl | backend/app/services/scrapbox_service.py:18 | the unit test's page `"Test Page"` in `test-project` gets the URL with an underscore |
| EncoderService.CheckStatus | backend/app/services/encoder_service.py:19-20 | a reply counts only with a 2xx status and a decodable body; transport errors and other statuses are passed on as failures |
| EncoderService.Encode | backend/app/services/encoder_service.py:8-27 | success exactly for a 2xx reply that decodes to an object; the result is the value under `"vector"` or else the whole object; every failure is passed on and never becomes a vector |
| Json.Lookup | backend/app/services/encoder_service.py:20-23 | a key is missing exactly when no member has it; otherwise the value is that of its last member, as a decoded object keeps it |
| Json.LookupLastWins | backend/app/services/encoder_service.py:20-23 | of two members with the same key, the later one's value is found |
| EncoderService.EncodeUnwrapsVector | backend/app/services/encoder_service.py:23 | `{"vector": v}` encodes to `v` |
| EncoderService.EncodeKeepsBareObject | backend/app/services/encoder_service.py:23 | an object without `"vector"` is returned as it is |
| EncoderService.EncodeRejectsStatus | backend/app/services/encoder_service.py:19-27 | a status outside 2xx is an error, whatever the body |
| EncoderService.FirstFailure | backend/app/services/encoder_service.py:35-38 | the first text whose call fails: every earlier call succeeded; none means every call succeeded |
| EncoderService.EncodeBatch | backend/app/services/encoder_service.py:30-38 | success exactly when every call succeeds, then one vector per text in order; otherwise the first failure's error, with no call after it |
| ElasticsearchService.EnsureIndex | backend/app/services/elasticsearch_service.py:14-48 | the index is created exactly when absent, with the fixed mapping; afterwards it exists; documents are untouched |
| ElasticsearchService.EnsureIndexIdempotent | backend/app/services/elasticsearch_service.py:14-17 | a second call creates nothing and changes nothing |
| ElasticsearchService.BulkActions | backend/app/services/elasticsearch_service.py:52-66 | at most one action per chunk, none exactly when no chunk has a non-empty vector, all into the configured index |
| ElasticsearchService.BulkActionsAppend | backend/app/services/elasticsearch_service.py:52-66 | actions are built chunk by chunk in input order |
| ElasticsearchService.BulkIndexSends | backend/app/services/elasticsearch_service.py:67-68 | a bulk request is sent exactly when some chunk qualifies; otherwise the store is unchanged; indices never change |
| ElasticsearchService.BulkIndexWrites | backend/app/services/elasticsearch_service.py:51-68 | afterwards each id holds the document of the last qualifying chunk with that id, with every field copied, and ids without one keep what they had |
| ElasticsearchService.LastEligibleAt | backend/app/services/elasticsearch_service.py:65 | a qualifying chunk with no later qualifying chunk of the same id is the one written for that id |
| ElasticsearchService.BulkIndexConcat | backend/app/services/elasticsearch_service.py:51-68 | writing two lists one after the other leaves the store that writing them together would |
| ElasticsearchService.QueryOf | backend/app/services/elasticsearch_service.py:87-96 | the request keeps the first `min(n, 1024)` clauses in order, with `size = top_k` and `_source` limited to title, text, url and updated |
| ElasticsearchService.BuildSearchAsWritten | backend/app/services/elasticsearch_service.py:78-96 | as written: one clause per vector entry in order, field `"sparse_vector"`, boost the weight; a non-object vector is an error |
| ElasticsearchService.AsWrittenIgnoresTokens | backend/app/services/elasticsearch_service.py:78-81 | as written, two vectors with the same weights in the same order give the same query, whatever their terms |
| ElasticsearchService.AsWrittenDuplicateClauses | backend/app/services/elasticsearch_service.py:78-81 | as written, two different terms of equal weight give identical clauses |
| ElasticsearchService.BuildSearch | backend/app/services/elasticsearch_service.py:78-96 | corrected: each clause is aimed at the field `sparse_vector.<term>` of its own term, otherwise as written |
| ElasticsearchService.TermClausesKeepTokens | backend/app/services/elasticsearch_service.py:78-81 | corrected: clauses of different terms are different |
| ElasticsearchService.MapHits | backend/app/services/elasticsearch_service.py:98-107 | hits map one to one, in order, to score, title, text, url and updated, with no vector |
| ElasticsearchService.Search | backend/app/services/elasticsearch_service.py:71-107 | the query sent is the one as written, every clause naming the field `sparse_vector`; a non-object vector is an error and nothing is sent; otherwise success exactly when the store answers, with the contexts the mapped hits |
| ElasticsearchService.SearchSeesOnlyWeights | backend/app/services/elasticsearch_service.py:71-107 | as written, two query vectors with the same weights in the same order find the same contexts, whatever their terms |
| ElasticsearchService.SearchCorrected | backend/app/services/elasticsearch_service.py:71-107 | corrected: a non-object vector is an error and nothing is sent; otherwise the query with each clause aimed at its own term's feature is sent and the hits mapped |
| ElasticsearchService.CorrectedAgreesWhenFieldsIgnored | backend/app/services/elasticsearch_service.py:78-96 | a store that ranks without looking at the clauses' field names returns the same outcome for the corrected search as for the one as written |
| ElasticsearchService.CorrectedQueryOnlyRenamesFields | backend/app/services/elasticsearch_service.py:78-96 | the corrected query differs from the one as written only in the field each clause names: both build or fail together, with the same number of clauses, boosts, size and source fields |
| ElasticsearchService.WrittenChunkReadBack | backend/app/services/elasticsearch_service.py:51-107 | a chunk written by the bulk write, when the store returns it as a hit, maps to a context with its own title, text, url and update time |
| LlmService.ContextEntries | backend/app/services/llm_service.py:12-15 | one `Source: {title} ({url})\nContent: {text}` entry per context, in order |
| LlmService.ContextBlockShape | backend/app/services/llm_service.py:12-15 | no contexts give an empty block, one gives its entry, each further one adds `"\n\n"` and its entry |
| LlmService.PromptReadBack | backend/app/services/llm_service.py:17-26 | the prompt is the fixed head, the context block, the question lead, the query and the fixed tail, each recoverable at its position |
| LlmService.PromptInjective | backend/app/services/llm_service.py:17-26 | for the same contexts, the prompt determines the query |
| LlmService.BuildRequest | backend/app/services/llm_service.py:31-43 | the request carries the prompt, the model name, the stream flag, temperature 0.1 and top_p 0.9 |
| LlmService.BothPathsSamePrompt | backend/app/services/llm_service.py:60-85 | the streaming call sends the one-shot request with only the stream flag changed |
| LlmService.AnswerOf | backend/app/services/llm_service.py:29-48 | the answer is the reply's `"response"`, the fixed text when that key is missing, and the error prefix plus the error for every failure; it never fails |
| LlmService.AnswerOfResponse | backend/app/services/llm_service.py:45 | a 200 reply `{"response": s}` answers `s` |
| LlmService.AnswerOfServerError | backend/app/services/llm_service.py:44-48 | a 500 reply answers with the error prefix |
| LlmService.AnswerOfMissingResponse | backend/app/services/llm_service.py:45 | a reply without `"response"` answers the fixed text |
| LlmService.GenerateAnswerErrors | backend/app/services/llm_service.py:29-48 | for every model, query and contexts, the answer starts with the error prefix exactly when the request fails, the reply is not an object, or its `"response"` itself starts with the prefix |
| LlmService.RelayPrefix | backend/app/services/llm_service.py:86-92 | lines the loop passes over (empty lines, records without a true `done`) yield their responses in order and the rest is relayed after them |
| LlmService.RelayStopsAtDone | backend/app/services/llm_service.py:91-94 | a record with a true `done` yields its response and nothing after it is read |
| LlmService.RelayStopsAtGarbage | backend/app/services/llm_service.py:90-97 | a line that does not decode to an object ends the stream with one error token |
| LlmService.RelayBroken | backend/app/services/llm_service.py:86-97 | a broken line iteration adds one error token after everything already yielded |
| LlmService.RelayErrorLast | backend/app/services/llm_service.py:86-97 | an error token can only be the last token, so there is at most one |
| LlmService.GenerateAnswerStreamErrorLast | backend/app/services/llm_service.py:51-97 | whatever the server does, the generator yields at most one error token, as its last |
| LlmService.StreamIgnoresStatus | backend/app/services/llm_service.py:72-86 | the status code of a streamed reply plays no part |
| LlmService.TwoRecords | backend/app/services/llm_service.py:86-94 | records `"Hi"` (not done) then `"!"` (done) yield exactly those two pieces |
| Batching.FlattenBatches | backend/scripts/import_scrapbox.py:36-37 | the slices put back together give the chunk list: every chunk in exactly one batch, in order |
| Batching.BatchesAreSlices | backend/scripts/import_scrapbox.py:36-37 | batch `b` is the slice from `b * size` to `(b + 1) * size`, clipped at the end |
| Batching.BatchSizes | backend/scripts/import_scrapbox.py:36-37 | every batch has between one and `size` chunks, all but the last exactly `size` |
| Batching.ReportNext | backend/scripts/import_scrapbox.py:48 | the report `i + len(batch)` for the batch at `i` extends the reports so far |
| Batching.ProgressClimbs | backend/scripts/import_scrapbox.py:48 | the reports climb strictly, the last equals the chunk count, and there is one per batch |
| Batching.LoopBatch | backend/scripts/import_scrapbox.py:36-37 | the slice the loop takes after `n` batches, `xs[i:i + size]` with `i = n * size`, is batch `n` of the list |
| Batching.BatchLength | backend/scripts/import_scrapbox.py:36-37 | batch `b` holds the elements from `b * size` up to `(b + 1) * size` or the end |
| Batching.ProgressPerBatch | backend/scripts/import_scrapbox.py:36-48 | a finished loop's reports are one per batch, report `b` being the batch's start plus its length |
| Pipeline.ProjectChunksOrder | backend/scripts/import_scrapbox.py:28-31 | the chunk list is the pages' chunks in page order |
| Pipeline.ProjectChunksSingle | backend/scripts/import_scrapbox.py:28-31 | a one-page project has exactly that page's chunks |
| Pipeline.ProjectChunksUnencoded | backend/app/models/scrapbox.py:23 | every chunk starts without a vector |
| Pipeline.WithVector | backend/scripts/import_scrapbox.py:40-44 | assigning the encoder's reply changes only the vector |
| Pipeline.EncodedSlices | backend/scripts/import_scrapbox.py:36-42 | encoding a list in two parts, with calls numbered on, is encoding it at once |
| Pipeline.WriteBatch | backend/scripts/import_scrapbox.py:36-48 | writing and reporting the batch at `i` keeps the loop state: everything before it written, one report per batch |
| Pipeline.WrittenAll | backend/scripts/import_scrapbox.py:36-48 | at the end every chunk is written and the reports are complete |
| ImportScript.EncodeEach | backend/scripts/import_scrapbox.py:40-44 | each chunk of the batch gets its own call's vector, and a failed one keeps none |
| ImportScript.ImportBatch | backend/scripts/import_scrapbox.py:37-48 | one pass takes the next of the list's 20-chunk batches, encodes, writes and reports it, and keeps the loop state |
| ImportScript.IndexInBatches | backend/scripts/import_scrapbox.py:35-48 | writing batch after batch leaves the store one write of all encoded chunks would, and there is one report per 20-chunk batch: its start plus its length |
| ImportScript.RunImport | backend/scripts/import_scrapbox.py:16-50 | a missing file returns before touching the store; an unreadable one raises before it; otherwise the index is ensured and every chunk encoded and written |
| ImportScript.ImportSkipsFailed | backend/scripts/import_scrapbox.py:40-47 | a chunk whose encode fails is not written, and the run goes on |
| ImportScript.ImportWritesEncoded | backend/scripts/import_scrapbox.py:40-47 | a chunk given a non-empty vector is stored under its id with that vector, unless a later chunk with the same id overwrites it |
| ImportScript.ImportStoresOnlyEncoded | backend/scripts/import_scrapbox.py:40-47 | conversely, every document the import changes is some chunk with that id whose own encode call succeeded with a non-empty vector, stored with every field copied and that vector |
| ImportScript.WrittenFromCall | backend/scripts/import_scrapbox.py:40-47 | the same for any list of unencoded chunks: a changed id names the call whose decoded vector was stored with the chunk |
| IngestApi.Gather | backend/app/api/v1/ingest.py:29-37 | the gathered batch succeeds exactly when every encode succeeds, and then holds the chunks in order with their vectors; else it carries the first failure's error |
| IngestApi.FirstFailureSkips | backend/app/api/v1/ingest.py:34-37 | batches whose calls all succeed do not move the first failure |
| IngestApi.FailureInBatch | backend/app/api/v1/ingest.py:34-37 | a failure inside the batch at `i` leaves exactly the batches before it written |
| IngestApi.GatherFails | backend/app/api/v1/ingest.py:37-42 | a failed gather ends the run with its error; the failing batch and later ones are not written; earlier ones stay |
| IngestApi.GatherSucceeds | backend/app/api/v1/ingest.py:37-39 | a successful gather writes its batch, reports `i + len(batch)` and keeps the loop running |
| IngestApi.IngestBatch | backend/app/api/v1/ingest.py:35-39 | one pass takes the next of the list's 10-chunk batches; it is written only if all its encodes succeed, else the run ends with the failure |
| IngestApi.IndexUntilFailure | backend/app/api/v1/ingest.py:26-42 | with no failing encode, every chunk is written and the reports are those of 10-chunk batches; else only the batches before the first failure are written and the error is kept |
| IngestApi.ProcessIngestion | backend/app/api/v1/ingest.py:13-42 | an invalid payload fails before the store is touched; otherwise the index exists afterwards and the store holds all chunks, or only the batches before the first failure; nothing is raised |
| SearchApi.Retrieve | backend/app/api/v1/search.py:25-34 | the query is encoded, then searched; an encoder failure gives `Encoder error: ...` and no search; a search failure gives `Search error: ...`; the model is never called here |
| SearchApi.SearchRag | backend/app/api/v1/search.py:22-45 | a retrieval failure is a 500 with its text; no contexts give the fixed answer with no sources and no model call; otherwise `generate_answer`'s answer with the contexts as sources |
| SearchApi.SearchRagEncoderError | backend/app/api/v1/search.py:25-28 | an encoder failure is a 500 `Encoder error: ...` and only the encoder is called |
| SearchApi.SearchRagSearchError | backend/app/api/v1/search.py:31-34 | a search failure is a 500 `Search error: ...` and the model is not called |
| SearchApi.TokenEvent | backend/app/api/v1/search.py:72-74 | every token becomes an answer event, an error token with its `\n[Error: ...]` text |
| SearchApi.StreamFailsOnce | backend/app/api/v1/search.py:51-76 | a failed retrieval is exactly one error event, and only a failed retrieval produces one |
| SearchApi.StreamSourcesFirst | backend/app/api/v1/search.py:65 | after a successful retrieval the first event carries the contexts, even when empty, and all later events are answers |
| SearchApi.StreamEmptyContexts | backend/app/api/v1/search.py:65-69 | no contexts give exactly the empty sources event and the fixed answer, with no model call |
| SearchApi.StreamAnswers | backend/app/api/v1/search.py:72-74 | with contexts, one answer event per token in order, and only the last can carry an error text |
| SearchApi.EndpointsAgree | backend/app/api/v1/search.py:22-76 | the two endpoints agree on the error text, on the sources and on the fixed answer |
| SearchApi.WireReadBack | backend/app/api/v1/search.py:54-74 | splitting the body of `data: {payload}\n\n` frames into lines and keeping the data lines gives back the payloads, in order |
| SearchApi.BodyReadBack | backend/app/api/v1/search.py:54-74 | a reader gets back exactly the serialised events of the stream |

## Left out

- Network I/O, timeouts, the HTTP clients and the Elasticsearch client are left out. Each remote call is an oracle, and a failure carries only its message.
- The text of library errors (`raise_for_status`, `AttributeError`) is replaced by fixed placeholder strings.
- Elasticsearch's scoring is left out. The search oracle decides which hits come back, and what an empty `should` list matches is not modelled.
- Store writes never fail in the model. A failing bulk request is not modelled.
- JSON encoding and decoding are left out. Replies arrive already decoded as `Json` values, each streamed line carries its decoding outcome, and the event payloads are whatever a `dumps` function gives.
- Floating point is not modelled. Weights and scores are copied as opaque values; temperature and top_p are constants.
- `asyncio.Semaphore(5)` and the concurrency of `asyncio.gather` are concurrency, so they are left out. A batch's encodes are a sequence of oracle results.
- IngestApi.Gather: when several encodes of a batch fail, `gather` raises whichever fails first in time. The model reports the first in list order.
- Logging is left out. The live path's swallowed exception is returned as the `Failed` outcome instead of being logged.
- The upload route of `ingest.py` is plumbing and is left out, as are `main.py`, `config.py`, the encoder application and the frontend.
- The script's command-line handling is left out. The file is given as missing, invalid or a valid project.
- `pydantic` validation is left out. The payload and export file are given already validated or as an error. A non-string answer that `SearchResponse(answer: str)` would reject is passed through as a `Json` value.
- The `Generation error` event of the stream is left out. `generate_answer_stream` catches every exception itself, so that branch cannot be reached in the model.
- SearchApi.EventStream: chunk boundaries of the byte stream are not modelled. The body is read as one string.
- Json.Lookup: a decoded object is its list of members. An object with a repeated key, which `json.loads` collapses to the last binding, keeps every member here, so the query builders iterate over all of them.
- ScrapboxService.StripLinks: the regular-expression engine is modelled only for this one pattern, as a left-to-right scan.

## Findings

| source | as written | input that shows it | evidently intended | confidence | as-written member | corrected member |
|---|---|---|---|---|---|---|
| backend/app/services/elasticsearch_service.py:79 | every `rank_feature` clause names the field `"sparse_vector"`, and the term of the query vector is dropped | vectors `{"a": w}` and `{"b": w}` build the same query, so the query no longer depends on which terms were asked for | each clause names `"sparse_vector." + token`, the feature of its own term in a `rank_features` field | not executed | ElasticsearchService.AsWrittenIgnoresTokens | ElasticsearchService.TermClausesKeepTokens |
