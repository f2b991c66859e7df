/** The search-store client: index creation, bulk writing of encoded chunks,
    and building the retrieval query. The store is a small abstract state —
    the defined indices and the documents of the one configured index — and
    the store's ranking is an oracle. */
module ElasticsearchService {
  import opened Wrappers
  import opened Json
  import opened Scrapbox

  /** The configured index name. */
  const IndexName: string := "scrapbox-rag"

  /** The field types the index definition uses. */
  datatype FieldType =
    | Keyword(indexed: bool)
    | AnalyzedText(analyzer: string, keywordSubfield: bool)
    | Date(format: string)
    | RankFeatures

  /** Settings (one custom analyzer, as name and tokenizer) and field mappings. */
  datatype IndexDefinition = IndexDefinition(analyzers: seq<(string, string)>, fields: seq<(string, FieldType)>)

  /** The definition a missing index is created with. */
  const IndexMapping: IndexDefinition := IndexDefinition(
    [("kuromoji_analyzer", "kuromoji_tokenizer")],
    [ ("page_id", Keyword(true)),
      ("title", AnalyzedText("kuromoji_analyzer", true)),
      ("text", AnalyzedText("kuromoji_analyzer", false)),
      ("url", Keyword(false)),
      ("updated", Date("epoch_second")),
      ("sparse_vector", RankFeatures) ])

  /** A stored document: a chunk's fields without its id, which is the key. */
  datatype Doc = Doc(pageId: string, title: string, text: string, url: string, updated: int, sparseVector: Json)

  datatype Store = Store(indices: map<string, IndexDefinition>, docs: map<string, Doc>)

  /** Python's `create_index_if_not_exists`; the flag says whether a create
      request was sent. An existing index is left as it is, whatever its
      definition. */
  function EnsureIndex(s: Store): (r: (Store, bool))
    ensures r.1 <==> IndexName !in s.indices
    ensures IndexName in r.0.indices
    ensures r.1 ==> r.0.indices == s.indices[IndexName := IndexMapping]
    ensures !r.1 ==> r.0 == s
    ensures r.0.docs == s.docs
  {
    if IndexName in s.indices then (s, false)
    else (s.(indices := s.indices[IndexName := IndexMapping]), true)
  }

  /** A second call creates nothing and changes nothing. */
  lemma EnsureIndexIdempotent(s: Store)
    ensures EnsureIndex(EnsureIndex(s).0) == (EnsureIndex(s).0, false)
  {
  }

  // ---------------------------------------------------------------------
  // Bulk writing
  // ---------------------------------------------------------------------

  /** `if chunk.sparse_vector`: a vector is present and not empty (nor any
      other falsy value). */
  predicate Eligible(c: Chunk) {
    c.sparseVector.Some? && Truthy(c.sparseVector.value)
  }

  /** One bulk action: index `source` under `id` in `index`. */
  datatype Action = Action(index: string, id: string, source: Doc)

  function ToAction(c: Chunk): Action
    requires Eligible(c)
  {
    Action(IndexName, c.id, Doc(c.pageId, c.title, c.text, c.url, c.updated, c.sparseVector.value))
  }

  /** The list comprehension of `bulk_index_chunks`. */
  function BulkActions(chunks: seq<Chunk>): (r: seq<Action>)
    ensures |r| <= |chunks|
    ensures |r| == 0 <==> forall i :: 0 <= i < |chunks| ==> !Eligible(chunks[i])
    ensures forall k :: 0 <= k < |r| ==> r[k].index == IndexName
  {
    if |chunks| == 0 then []
    else
      var last := chunks[|chunks| - 1];
      BulkActions(chunks[..|chunks| - 1]) + (if Eligible(last) then [ToAction(last)] else [])
  }

  lemma {:induction false} BulkActionsAppend(a: seq<Chunk>, b: seq<Chunk>)
    ensures BulkActions(a + b) == BulkActions(a) + BulkActions(b)
    decreases |b|
  {
    if |b| == 0 {
      assert a + b == a;
    } else {
      assert (a + b)[..|a + b| - 1] == a + b[..|b| - 1];
      BulkActionsAppend(a, b[..|b| - 1]);
    }
  }

  /** The store's documents after the actions, in order: each `index` action
      replaces whatever was stored under its id. */
  function ApplyActions(docs: map<string, Doc>, actions: seq<Action>): map<string, Doc> {
    if |actions| == 0 then docs
    else
      var last := actions[|actions| - 1];
      ApplyActions(docs, actions[..|actions| - 1])[last.id := last.source]
  }

  lemma {:induction false} ApplyActionsAppend(docs: map<string, Doc>, a: seq<Action>, b: seq<Action>)
    ensures ApplyActions(docs, a + b) == ApplyActions(ApplyActions(docs, a), b)
    decreases |b|
  {
    if |b| == 0 {
      assert a + b == a;
    } else {
      assert (a + b)[..|a + b| - 1] == a + b[..|b| - 1];
      ApplyActionsAppend(docs, a, b[..|b| - 1]);
    }
  }

  /** Python's `bulk_index_chunks`; the flag says whether a bulk request was
      sent. */
  function BulkIndex(s: Store, chunks: seq<Chunk>): (Store, bool) {
    var actions := BulkActions(chunks);
    if |actions| == 0 then (s, false)
    else (s.(docs := ApplyActions(s.docs, actions)), true)
  }

  /** A bulk request is sent exactly when at least one chunk qualifies;
      without one the store is unchanged, and the index definitions never
      change. */
  lemma BulkIndexSends(s: Store, chunks: seq<Chunk>)
    ensures BulkIndex(s, chunks).1 <==> exists i :: 0 <= i < |chunks| && Eligible(chunks[i])
    ensures !BulkIndex(s, chunks).1 ==> BulkIndex(s, chunks).0 == s
    ensures BulkIndex(s, chunks).0.indices == s.indices
  {
  }

  /** The last qualifying chunk with the given id, which is the one whose
      document the store keeps. */
  function LastEligible(chunks: seq<Chunk>, id: string): (r: Option<Chunk>)
    ensures r.Some? ==> r.value in chunks && Eligible(r.value) && r.value.id == id
    ensures r.None? <==> forall i :: 0 <= i < |chunks| ==> !(Eligible(chunks[i]) && chunks[i].id == id)
  {
    if |chunks| == 0 then None
    else
      var last := chunks[|chunks| - 1];
      if Eligible(last) && last.id == id then Some(last)
      else LastEligible(chunks[..|chunks| - 1], id)
  }

  /** The stored document a qualifying chunk becomes. */
  function DocOf(c: Chunk): Doc
    requires Eligible(c)
  {
    ToAction(c).source
  }

  /** `m.get(k)`. */
  function Get(m: map<string, Doc>, k: string): Option<Doc> {
    if k in m then Some(m[k]) else None
  }

  /** What a store holding `docs` should hold under `id` once `chunks` are
      written: the last qualifying chunk with that id wins, and an id no
      qualifying chunk has keeps what it had. */
  function StoredAfter(docs: map<string, Doc>, chunks: seq<Chunk>, id: string): Option<Doc> {
    match LastEligible(chunks, id)
    case Some(c) => Some(DocOf(c))
    case None => Get(docs, id)
  }

  lemma ApplyActionsLast(docs: map<string, Doc>, actions: seq<Action>, a: Action)
    ensures ApplyActions(docs, actions + [a]) == ApplyActions(docs, actions)[a.id := a.source]
  {
    assert (actions + [a])[..|actions|] == actions;
  }

  /** One more chunk at the end: a qualifying one overwrites its id, and
      nothing else changes. */
  lemma ApplyBulkActionsStep(docs: map<string, Doc>, chunks: seq<Chunk>, id: string)
    requires |chunks| > 0
    requires var front := chunks[..|chunks| - 1];
      Get(ApplyActions(docs, BulkActions(front)), id) == StoredAfter(docs, front, id)
    ensures Get(ApplyActions(docs, BulkActions(chunks)), id) == StoredAfter(docs, chunks, id)
  {
    var front, last := chunks[..|chunks| - 1], chunks[|chunks| - 1];
    LastChunkStep(chunks, id);
    if Eligible(last) {
      ApplyActionsLast(docs, BulkActions(front), ToAction(last));
    }
  }

  /** The actions and the last qualifying chunk, one chunk at a time. */
  lemma LastChunkStep(chunks: seq<Chunk>, id: string)
    requires |chunks| > 0
    ensures var front, last := chunks[..|chunks| - 1], chunks[|chunks| - 1];
      && (Eligible(last) ==> BulkActions(chunks) == BulkActions(front) + [ToAction(last)])
      && (!Eligible(last) ==> BulkActions(chunks) == BulkActions(front))
      && LastEligible(chunks, id) == (if Eligible(last) && last.id == id then Some(last) else LastEligible(front, id))
  {
  }

  lemma {:induction false} ApplyBulkActions(docs: map<string, Doc>, chunks: seq<Chunk>, id: string)
    ensures Get(ApplyActions(docs, BulkActions(chunks)), id) == StoredAfter(docs, chunks, id)
    decreases |chunks|
  {
    if |chunks| > 0 {
      ApplyBulkActions(docs, chunks[..|chunks| - 1], id);
      ApplyBulkActionsStep(docs, chunks, id);
    }
  }

  /** What a bulk write leaves under every id: the document of the last
      qualifying chunk with that id, or what was there before when no
      qualifying chunk has it. Chunks without a vector, or with an empty
      one, are never written. */
  lemma BulkIndexWrites(s: Store, chunks: seq<Chunk>, id: string)
    ensures Get(BulkIndex(s, chunks).0.docs, id) == StoredAfter(s.docs, chunks, id)
  {
    ApplyBulkActions(s.docs, chunks, id);
  }

  /** The chunk the store keeps under an id is a qualifying chunk with that
      id that no later qualifying chunk shares it with. */
  lemma {:induction false} LastEligibleAt(chunks: seq<Chunk>, k: nat)
    requires k < |chunks| && Eligible(chunks[k])
    requires forall j :: k < j < |chunks| ==> !(Eligible(chunks[j]) && chunks[j].id == chunks[k].id)
    ensures LastEligible(chunks, chunks[k].id) == Some(chunks[k])
    decreases |chunks|
  {
    if k < |chunks| - 1 {
      var front := chunks[..|chunks| - 1];
      LastEligibleAt(front, k);
    }
  }

  /** Writing two lists one after the other stores what writing their
      concatenation once does. */
  lemma BulkIndexConcat(s: Store, a: seq<Chunk>, b: seq<Chunk>)
    ensures BulkIndex(BulkIndex(s, a).0, b).0 == BulkIndex(s, a + b).0
  {
    BulkActionsAppend(a, b);
    ApplyActionsAppend(s.docs, BulkActions(a), BulkActions(b));
  }

  // ---------------------------------------------------------------------
  // Retrieval query
  // ---------------------------------------------------------------------

  /** The most `should` clauses a query carries. */
  const MaxClauses: nat := 1024

  /** The stored fields a hit returns. */
  const SourceFields: seq<string> := ["title", "text", "url", "updated"]

  /** A `rank_feature` clause with the `log` function. */
  datatype Clause = RankFeature(field: string, boost: Json, scalingFactor: real)

  datatype SearchRequest = SearchRequest(index: string, should: seq<Clause>, size: int, source: seq<string>)

  /** The clause the code builds for one query term: the whole feature field,
      the token left out. */
  function ClauseAsWritten(token: string, weight: Json): (r: Clause)
    ensures r.field == "sparse_vector" && r.boost == weight && r.scalingFactor == 1.0
  {
    RankFeature("sparse_vector", weight, 1.0)
  }

  /** The clause for one query term aimed at that term's feature,
      `sparse_vector.<token>`. */
  function TermClause(token: string, weight: Json): (r: Clause)
    ensures |r.field| == |"sparse_vector."| + |token|
    ensures r.field[..|"sparse_vector."|] == "sparse_vector."
    ensures r.field[|"sparse_vector."|..] == token
    ensures r.boost == weight && r.scalingFactor == 1.0
  {
    RankFeature("sparse_vector." + token, weight, 1.0)
  }

  /** The request around a list of clauses, keeping the first `MaxClauses`. */
  function QueryOf(clauses: seq<Clause>, topK: int): (r: SearchRequest)
    ensures |r.should| == if |clauses| <= MaxClauses then |clauses| else MaxClauses
    ensures r.should == clauses[..|r.should|]
    ensures r.index == IndexName && r.size == topK && r.source == SourceFields
  {
    SearchRequest(IndexName, if |clauses| <= MaxClauses then clauses else clauses[..MaxClauses], topK, SourceFields)
  }

  /** The query `search` sends, as the code writes it: one clause per entry of
      the vector in its order, each boosted by the entry's weight on the
      literal field `sparse_vector`; a vector that is not an object fails on
      `.items()`. */
  function BuildSearchAsWritten(vector: Json, topK: int): (r: Result<SearchRequest>)
    ensures r.Success? <==> vector.JObject?
    ensures r.Success? ==>
      && |r.value.should| == (if |vector.members| <= MaxClauses then |vector.members| else MaxClauses)
      && (forall i :: 0 <= i < |r.value.should| ==>
            r.value.should[i] == RankFeature("sparse_vector", vector.members[i].1, 1.0))
      && r.value.size == topK && r.value.source == SourceFields
  {
    match vector
    case JObject(members) =>
      Success(QueryOf(seq(|members|, i requires 0 <= i < |members| => ClauseAsWritten(members[i].0, members[i].1)), topK))
    case _ => Failure(NotAnObjectText)
  }

  /** The text of the `AttributeError` for `.items()` on a non-object. */
  const NotAnObjectText: string := "query vector is not an object"

  /** The query with each clause aimed at its term's feature. */
  function BuildSearch(vector: Json, topK: int): (r: Result<SearchRequest>)
    ensures r.Success? <==> vector.JObject?
    ensures r.Success? ==>
      && |r.value.should| == (if |vector.members| <= MaxClauses then |vector.members| else MaxClauses)
      && (forall i :: 0 <= i < |r.value.should| ==>
            r.value.should[i] == TermClause(vector.members[i].0, vector.members[i].1))
      && r.value.size == topK && r.value.source == SourceFields
  {
    match vector
    case JObject(members) =>
      Success(QueryOf(seq(|members|, i requires 0 <= i < |members| => TermClause(members[i].0, members[i].1)), topK))
    case _ => Failure(NotAnObjectText)
  }

  /** As written, the query forgets which terms were asked for: two vectors
      with the same weights in the same order give the same request, and
      `{"a": w, "b": w}` gives two identical clauses. */
  lemma AsWrittenIgnoresTokens(m1: seq<(string, Json)>, m2: seq<(string, Json)>, topK: int)
    requires |m1| == |m2|
    requires forall i :: 0 <= i < |m1| ==> m1[i].1 == m2[i].1
    ensures BuildSearchAsWritten(JObject(m1), topK) == BuildSearchAsWritten(JObject(m2), topK)
  {
    var r1, r2 := BuildSearchAsWritten(JObject(m1), topK).value, BuildSearchAsWritten(JObject(m2), topK).value;
    assert r1.should == r2.should;
  }

  lemma AsWrittenDuplicateClauses(a: string, b: string, w: Json)
    requires a != b
    ensures var r := BuildSearchAsWritten(JObject([(a, w), (b, w)]), 5).value;
      |r.should| == 2 && r.should[0] == r.should[1]
  {
  }

  /** With the term in the field name, distinct terms give distinct clauses,
      so the request keeps every term it was given (up to the cap). */
  lemma TermClausesKeepTokens(vector: Json, topK: int, i: nat, j: nat)
    requires BuildSearch(vector, topK).Success?
    requires i < |BuildSearch(vector, topK).value.should| && j < |BuildSearch(vector, topK).value.should|
    requires vector.members[i].0 != vector.members[j].0
    ensures BuildSearch(vector, topK).value.should[i] != BuildSearch(vector, topK).value.should[j]
  {
    var c1 := TermClause(vector.members[i].0, vector.members[i].1);
    var c2 := TermClause(vector.members[j].0, vector.members[j].1);
    assert c1.field[|"sparse_vector."|..] != c2.field[|"sparse_vector."|..];
  }

  // ---------------------------------------------------------------------
  // Hits
  // ---------------------------------------------------------------------

  /** A hit as the store returns it: the score and the stored document. */
  datatype Hit = Hit(score: real, source: Doc)

  /** A retrieved context: the score and the four requested fields; the
      vector is not among them. */
  datatype Context = Context(score: real, title: string, text: string, url: string, updated: int)

  /** The list comprehension at the end of `search`. */
  function MapHits(hits: seq<Hit>): (r: seq<Context>)
    ensures |r| == |hits|
    ensures forall i :: 0 <= i < |hits| ==>
      && r[i].score == hits[i].score
      && r[i].title == hits[i].source.title
      && r[i].text == hits[i].source.text
      && r[i].url == hits[i].source.url
      && r[i].updated == hits[i].source.updated
  {
    seq(|hits|, i requires 0 <= i < |hits| =>
      var d := hits[i].source;
      Context(hits[i].score, d.title, d.text, d.url, d.updated))
  }

  /** The store's ranking: the hits for a request, or the client's error. */
  type SearchOracle = SearchRequest -> Result<seq<Hit>>

  /** Python's `search`: build the request as the code writes it, send it,
      map the hits. */
  function Search(es: SearchOracle, vector: Json, topK: int): (r: Result<seq<Context>>)
    ensures vector.JObject? ==> r == (match es(BuildSearchAsWritten(vector, topK).value)
      case Success(hits) => Success(MapHits(hits))
      case Failure(e) => Failure(e))
    ensures !vector.JObject? ==> r == Failure(NotAnObjectText)
  {
    var request :- BuildSearchAsWritten(vector, topK);
    var hits :- es(request);
    Success(MapHits(hits))
  }

  /** The search with the corrected query of `BuildSearch`; otherwise the
      same steps. */
  function SearchCorrected(es: SearchOracle, vector: Json, topK: int): (r: Result<seq<Context>>)
    ensures vector.JObject? ==> r == (match es(BuildSearch(vector, topK).value)
      case Success(hits) => Success(MapHits(hits))
      case Failure(e) => Failure(e))
    ensures !vector.JObject? ==> r == Failure(NotAnObjectText)
  {
    var request :- BuildSearch(vector, topK);
    var hits :- es(request);
    Success(MapHits(hits))
  }

  /** Whatever the store does, the search as written sees only the weights
      of the query vector: two vectors with the same weights in the same
      order get the same outcome, whichever terms they name. */
  lemma SearchSeesOnlyWeights(es: SearchOracle, m1: seq<(string, Json)>, m2: seq<(string, Json)>, topK: int)
    requires |m1| == |m2|
    requires forall i :: 0 <= i < |m1| ==> m1[i].1 == m2[i].1
    ensures Search(es, JObject(m1), topK) == Search(es, JObject(m2), topK)
  {
    AsWrittenIgnoresTokens(m1, m2, topK);
  }

  /** Two requests that differ at most in the fields their clauses name:
      the same number of clauses with the same boosts, the same index, size
      and returned fields. */
  predicate SameButFields(a: SearchRequest, b: SearchRequest) {
    && a.(should := b.should) == b
    && |a.should| == |b.should|
    && forall i :: 0 <= i < |a.should| ==> a.should[i].(field := b.should[i].field) == b.should[i]
  }

  /** The corrected query differs from the one as written only in the
      fields its clauses name. */
  lemma CorrectedQueryOnlyRenamesFields(vector: Json, topK: int)
    ensures BuildSearch(vector, topK).Success? <==> BuildSearchAsWritten(vector, topK).Success?
    ensures BuildSearch(vector, topK).Success? ==>
      SameButFields(BuildSearch(vector, topK).value, BuildSearchAsWritten(vector, topK).value)
  {
    if vector.JObject? {
      var fixed, written := BuildSearch(vector, topK).value, BuildSearchAsWritten(vector, topK).value;
      assert fixed.index == written.index == IndexName;
    }
  }

  /** A store that ranks without looking at the fields the clauses name
      cannot tell the corrected search from the one as written. */
  lemma CorrectedAgreesWhenFieldsIgnored(es: SearchOracle, vector: Json, topK: int)
    requires forall a, b :: SameButFields(a, b) ==> es(a) == es(b)
    ensures SearchCorrected(es, vector, topK) == Search(es, vector, topK)
  {
    CorrectedQueryOnlyRenamesFields(vector, topK);
  }

  /** A chunk written by a bulk write and later returned as a hit comes
      back as a context with the chunk's own title, text, url and update
      time, provided no later chunk in the same write shares its id. */
  lemma WrittenChunkReadBack(s: Store, chunks: seq<Chunk>, k: nat, score: real)
    requires k < |chunks| && Eligible(chunks[k])
    requires forall j :: k < j < |chunks| ==> !(Eligible(chunks[j]) && chunks[j].id == chunks[k].id)
    ensures var c := chunks[k];
      var stored := Get(BulkIndex(s, chunks).0.docs, c.id);
      && stored.Some?
      && MapHits([Hit(score, stored.value)]) == [Context(score, c.title, c.text, c.url, c.updated)]
  {
    LastEligibleAt(chunks, k);
    BulkIndexWrites(s, chunks, chunks[k].id);
  }
}
