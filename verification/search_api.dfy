/** The two search endpoints: `search_rag` answers in one response, and
    `search_rag_stream` sends the same outcome as a sequence of events.
    Both encode the query, search the store with its vector, and ask the
    language model only when the search found something. */
module SearchApi {
  import opened Wrappers
  import opened Json
  import opened Text
  import opened EncoderService
  import opened ElasticsearchService
  import opened LlmService

  /** The answer when the search finds nothing. */
  const NothingFound: string := "関連する情報が見つかりませんでした。"

  const EncoderErrorPrefix: string := "Encoder error: "
  const SearchErrorPrefix: string := "Search error: "

  /** The collaborators an endpoint calls, in the order it calls them. */
  datatype Service = Encoder | SearchStore | Llm

  /** The HTTP outcome of `search_rag`: the answer with its sources, or the
      `HTTPException` it raises. */
  datatype Response = Answered(answer: Json, sources: seq<Context>) | HttpError(status: nat, detail: string)

  /** One server-sent event of the stream: `{"error": …}`, `{"sources": …}`
      or `{"answer": …}`. */
  datatype Event = ErrorEvent(message: string) | SourcesEvent(contexts: seq<Context>) | AnswerEvent(answer: Json)

  // ---------------------------------------------------------------------
  // Retrieval, shared by both endpoints
  // ---------------------------------------------------------------------

  /** Steps 1 and 2 of both endpoints: the query is encoded (the only
      encoder call, so call 0) and the vector searched for the `topK` best
      contexts; a failure carries the text of the step it happened in. The
      second component lists the collaborators called. */
  function Retrieve(enc: EncoderOracle, es: SearchOracle, query: string, topK: int): (r: (Result<seq<Context>>, seq<Service>))
    ensures |r.1| > 0 && r.1[0] == Encoder && Llm !in r.1
    ensures SearchStore in r.1 <==> EncodeCall(enc, 0, query).Success?
    ensures EncodeCall(enc, 0, query).Failure? ==>
      r.0 == Failure(EncoderErrorPrefix + EncodeCall(enc, 0, query).error)
    ensures EncodeCall(enc, 0, query).Success? ==>
      var found := Search(es, EncodeCall(enc, 0, query).value, topK);
      && (found.Failure? ==> r.0 == Failure(SearchErrorPrefix + found.error))
      && (found.Success? ==> r.0 == Success(found.value))
  {
    match EncodeCall(enc, 0, query)
    case Failure(e) => (Failure(EncoderErrorPrefix + e), [Encoder])
    case Success(vector) =>
      match Search(es, vector, topK)
      case Failure(e) => (Failure(SearchErrorPrefix + e), [Encoder, SearchStore])
      case Success(contexts) => (Success(contexts), [Encoder, SearchStore])
  }

  // ---------------------------------------------------------------------
  // search_rag
  // ---------------------------------------------------------------------

  /** Python's `search_rag`: a retrieval failure is a 500 with the step's
      error text; no contexts is the fixed answer without sources;
      otherwise `generate_answer`'s reply with the contexts as sources. */
  function SearchRag(enc: EncoderOracle, es: SearchOracle, llm: LlmOracle, query: string, topK: int): (r: (Response, seq<Service>))
    ensures r.0.HttpError? <==> Retrieve(enc, es, query, topK).0.Failure?
    ensures r.0.HttpError? ==> r.0.status == 500 && r.0.detail == Retrieve(enc, es, query, topK).0.error
    ensures r.0.Answered? ==> r.0.sources == Retrieve(enc, es, query, topK).0.value
    ensures r.0.Answered? && r.0.sources == [] ==> r.0.answer == JString(NothingFound)
    ensures r.0.Answered? && r.0.sources != [] ==> r.0.answer == GenerateAnswer(llm, query, r.0.sources)
    ensures Llm in r.1 <==> r.0.Answered? && r.0.sources != []
    ensures SearchStore in r.1 <==> EncodeCall(enc, 0, query).Success?
  {
    var (found, called) := Retrieve(enc, es, query, topK);
    match found
    case Failure(m) => (HttpError(500, m), called)
    case Success(contexts) =>
      if |contexts| == 0 then (Answered(JString(NothingFound), []), called)
      else (Answered(GenerateAnswer(llm, query, contexts), contexts), called + [Llm])
  }

  /** An encoder failure is reported as such and the store is never
      searched. */
  lemma SearchRagEncoderError(enc: EncoderOracle, es: SearchOracle, llm: LlmOracle, query: string, topK: int)
    requires EncodeCall(enc, 0, query).Failure?
    ensures SearchRag(enc, es, llm, query, topK) ==
      (HttpError(500, EncoderErrorPrefix + EncodeCall(enc, 0, query).error), [Encoder])
  {
  }

  /** A store failure is reported as such and the model is never asked. */
  lemma SearchRagSearchError(enc: EncoderOracle, es: SearchOracle, llm: LlmOracle, query: string, topK: int)
    requires EncodeCall(enc, 0, query).Success?
    requires Search(es, EncodeCall(enc, 0, query).value, topK).Failure?
    ensures SearchRag(enc, es, llm, query, topK) ==
      (HttpError(500, SearchErrorPrefix + Search(es, EncodeCall(enc, 0, query).value, topK).error), [Encoder, SearchStore])
  {
  }

  // ---------------------------------------------------------------------
  // search_rag_stream
  // ---------------------------------------------------------------------

  /** The event for one token of `generate_answer_stream`: the token goes
      out as an answer, an error token included. */
  function TokenEvent(t: Token): (e: Event)
    ensures e.AnswerEvent?
    ensures t.Piece? ==> e.answer == t.value
    ensures t.ErrorToken? ==> e.answer == JString(ErrorText(t.message))
  {
    match t
    case Piece(v) => AnswerEvent(v)
    case ErrorToken(m) => AnswerEvent(JString(ErrorText(m)))
  }

  function TokenEvents(ts: seq<Token>): seq<Event> {
    seq(|ts|, i requires 0 <= i < |ts| => TokenEvent(ts[i]))
  }

  /** Python's `event_generator`: one error event if retrieval fails;
      otherwise the sources first, then the fixed answer when there are no
      contexts, else one answer event per streamed token. The second
      component lists the collaborators called. */
  function EventStream(enc: EncoderOracle, es: SearchOracle, llm: StreamOracle, query: string, topK: int): (r: (seq<Event>, seq<Service>))
    ensures |r.0| > 0
  {
    var (found, called) := Retrieve(enc, es, query, topK);
    match found
    case Failure(m) => ([ErrorEvent(m)], called)
    case Success(contexts) =>
      if |contexts| == 0 then ([SourcesEvent([]), AnswerEvent(JString(NothingFound))], called)
      else ([SourcesEvent(contexts)] + TokenEvents(GenerateAnswerStream(llm, query, contexts)), called + [Llm])
  }

  /** Whether a stream carries an error event. */
  predicate HasErrorEvent(events: seq<Event>) {
    exists i :: 0 <= i < |events| && events[i].ErrorEvent?
  }

  /** A failed retrieval is exactly one error event, and a stream carries
      an error event only then: errors of the model arrive as answers. */
  lemma StreamFailsOnce(enc: EncoderOracle, es: SearchOracle, llm: StreamOracle, query: string, topK: int)
    ensures var events := EventStream(enc, es, llm, query, topK).0;
      var found := Retrieve(enc, es, query, topK).0;
      && (found.Failure? ==> events == [ErrorEvent(found.error)])
      && (HasErrorEvent(events) <==> found.Failure?)
  {
    var events := EventStream(enc, es, llm, query, topK).0;
    var found := Retrieve(enc, es, query, topK).0;
    if found.Success? {
      StreamSourcesFirst(enc, es, llm, query, topK);
      forall i | 0 <= i < |events|
        ensures !events[i].ErrorEvent?
      {
        if i > 0 {
          assert events[i].AnswerEvent?;
        }
      }
    } else {
      assert events[0].ErrorEvent?;
    }
  }

  /** A successful retrieval sends the contexts first, and only once. */
  lemma StreamSourcesFirst(enc: EncoderOracle, es: SearchOracle, llm: StreamOracle, query: string, topK: int)
    requires Retrieve(enc, es, query, topK).0.Success?
    ensures var events := EventStream(enc, es, llm, query, topK).0;
      && events[0] == SourcesEvent(Retrieve(enc, es, query, topK).0.value)
      && forall i :: 0 < i < |events| ==> events[i].AnswerEvent?
  {
    var contexts := Retrieve(enc, es, query, topK).0.value;
    if contexts != [] {
      SourcesThenAnswers(contexts, GenerateAnswerStream(llm, query, contexts));
    }
  }

  /** The sources event followed by one answer event per token. */
  lemma SourcesThenAnswers(contexts: seq<Context>, ts: seq<Token>)
    ensures var events := [SourcesEvent(contexts)] + TokenEvents(ts);
      && events[0] == SourcesEvent(contexts)
      && forall i :: 0 < i < |events| ==> events[i].AnswerEvent?
  {
    var events := [SourcesEvent(contexts)] + TokenEvents(ts);
    forall i | 0 < i < |events|
      ensures events[i].AnswerEvent?
    {
      assert events[i] == TokenEvent(ts[i - 1]);
    }
  }

  /** No contexts: the sources event with none, then the fixed answer, and
      the model is never asked. */
  lemma StreamEmptyContexts(enc: EncoderOracle, es: SearchOracle, llm: StreamOracle, query: string, topK: int)
    requires Retrieve(enc, es, query, topK).0 == Success([])
    ensures EventStream(enc, es, llm, query, topK) ==
      ([SourcesEvent([]), AnswerEvent(JString(NothingFound))], [Encoder, SearchStore])
  {
  }

  /** With contexts, every streamed token becomes one answer event, in
      order, and only the last of them can carry the model's error text. */
  lemma StreamAnswers(enc: EncoderOracle, es: SearchOracle, llm: StreamOracle, query: string, topK: int)
    requires Retrieve(enc, es, query, topK).0.Success?
    requires Retrieve(enc, es, query, topK).0.value != []
    ensures var contexts := Retrieve(enc, es, query, topK).0.value;
      var ts := GenerateAnswerStream(llm, query, contexts);
      && EventStream(enc, es, llm, query, topK) ==
           ([SourcesEvent(contexts)] + TokenEvents(ts), Retrieve(enc, es, query, topK).1 + [Llm])
      && |TokenEvents(ts)| == |ts|
      && (forall i :: 0 <= i < |ts| - 1 ==> ts[i].Piece? && TokenEvents(ts)[i] == AnswerEvent(ts[i].value))
  {
    var contexts := Retrieve(enc, es, query, topK).0.value;
    GenerateAnswerStreamErrorLast(llm, query, contexts);
  }

  /** The two endpoints agree on what they share: the same error text, the
      same sources, and the fixed answer when nothing is found. */
  lemma EndpointsAgree(enc: EncoderOracle, es: SearchOracle, llm: LlmOracle, stream: StreamOracle, query: string, topK: int)
    ensures var response := SearchRag(enc, es, llm, query, topK).0;
      var events := EventStream(enc, es, stream, query, topK).0;
      && (response.HttpError? <==> events[0].ErrorEvent?)
      && (response.HttpError? ==> events == [ErrorEvent(response.detail)])
      && (response.Answered? ==> events[0] == SourcesEvent(response.sources))
      && (response.Answered? && response.sources == [] ==> events[1..] == [AnswerEvent(response.answer)])
  {
  }

  // ---------------------------------------------------------------------
  // Framing
  // ---------------------------------------------------------------------

  const DataField: string := "data: "

  /** One event on the wire: `f"data: {payload}\n\n"`. */
  function Frame(payload: string): string {
    DataField + payload + "\n\n"
  }

  /** The response body: the frames one after another. */
  function Wire(payloads: seq<string>): string {
    if |payloads| == 0 then [] else Frame(payloads[0]) + Wire(payloads[1..])
  }

  /** The body of the stream, each event serialised by `dumps`. */
  function Body(events: seq<Event>, dumps: Event -> string): string {
    Wire(seq(|events|, i requires 0 <= i < |events| => dumps(events[i])))
  }

  /** How a reader of the event stream gets the payloads back: of the
      lines, those that begin with the data field, without that field. */
  function DataPayloads(lines: seq<string>): seq<string> {
    if |lines| == 0 then []
    else
      var l := lines[0];
      (if |l| >= |DataField| && l[..|DataField|] == DataField then [l[|DataField|..]] else [])
        + DataPayloads(lines[1..])
  }

  /** Splitting the body into lines and keeping the data lines gives back
      the payloads, in order, when no payload holds a line break (as with
      `json.dumps`, which escapes them). */
  lemma {:induction false} WireReadBack(payloads: seq<string>)
    requires forall i :: 0 <= i < |payloads| ==> '\n' !in payloads[i]
    ensures DataPayloads(Split(Wire(payloads), '\n')) == payloads
    decreases |payloads|
  {
    if |payloads| > 0 {
      var p := payloads[0];
      var rest := Wire(payloads[1..]);
      var line := DataField + p;
      assert '\n' !in line by {
        assert forall k :: 0 <= k < |line| ==> line[k] == (if k < |DataField| then DataField[k] else p[k - |DataField|]);
      }
      assert Wire(payloads) == line + ['\n'] + ([] + ['\n'] + rest);
      SplitAtSeparator(line, [] + ['\n'] + rest, '\n');
      SplitAtSeparator([], rest, '\n');
      var lines := [line] + ([[]] + Split(rest, '\n'));
      assert lines[1..] == [[]] + Split(rest, '\n');
      assert lines[1..][1..] == Split(rest, '\n');
      assert line[|DataField|..] == p;
      WireReadBack(payloads[1..]);
    }
  }

  /** The reader gets back exactly the serialised events of the stream. */
  lemma BodyReadBack(events: seq<Event>, dumps: Event -> string)
    requires forall e :: '\n' !in dumps(e)
    ensures DataPayloads(Split(Body(events, dumps), '\n')) ==
      seq(|events|, i requires 0 <= i < |events| => dumps(events[i]))
  {
    WireReadBack(seq(|events|, i requires 0 <= i < |events| => dumps(events[i])));
  }
}
