/** The client of the language model: the prompt built from the retrieved
    contexts, the one-shot answer and the streamed answer. The model's replies
    are oracles; a call that raises in Python is a `Failure` here. */
module LlmService {
  import opened Wrappers
  import opened Text
  import opened Seqs
  import opened Json
  import opened EncoderService
  import opened ElasticsearchService

  const ModelName: string := "gemma3:4b"
  const Temperature: real := 0.1
  const TopP: real := 0.9

  /** The answer when the reply has no `"response"`. */
  const NoAnswer: string := "回答を生成できませんでした。"

  /** What an error answer starts with. */
  const ErrorPrefix: string := "エラーが発生しました: "

  // ---------------------------------------------------------------------
  // Prompt
  // ---------------------------------------------------------------------

  /** One context as the prompt shows it. */
  function ContextEntry(c: Context): string {
    "Source: " + c.title + " (" + c.url + ")\nContent: " + c.text
  }

  function ContextEntries(cs: seq<Context>): (r: seq<string>)
    ensures |r| == |cs|
    ensures forall i :: 0 <= i < |cs| ==> r[i] == ContextEntry(cs[i])
  {
    seq(|cs|, i requires 0 <= i < |cs| => ContextEntry(cs[i]))
  }

  /** The contexts' entries in order, separated by blank lines. */
  function ContextBlock(cs: seq<Context>): string {
    Join(ContextEntries(cs), "\n\n")
  }

  /** No contexts give an empty block, one context gives its entry, and each
      further context adds a blank line and its entry. */
  lemma ContextBlockShape(cs: seq<Context>, c: Context)
    ensures ContextBlock([]) == []
    ensures ContextBlock([c]) == ContextEntry(c)
    ensures |cs| > 0 ==> ContextBlock(cs + [c]) == ContextBlock(cs) + "\n\n" + ContextEntry(c)
  {
    assert ContextEntries([c]) == [ContextEntry(c)];
    if |cs| > 0 {
      JoinAppend(ContextEntries(cs), ContextEntry(c), "\n\n");
      assert ContextEntries(cs + [c]) == ContextEntries(cs) + [ContextEntry(c)];
    }
  }

  /** Joining one more piece adds the separator and the piece. */
  lemma {:induction false} JoinAppend(xs: seq<string>, x: string, sep: string)
    requires |xs| > 0
    ensures Join(xs + [x], sep) == Join(xs, sep) + sep + x
    decreases |xs|
  {
    if |xs| == 1 {
      assert (xs + [x])[1..] == [x];
    } else {
      assert (xs + [x])[1..] == xs[1..] + [x];
      JoinAppend(xs[1..], x, sep);
    }
  }

  /** The prompt's fixed text before the contexts. */
  const PromptHead: string :=
    "<start_of_turn>user\n提供されたScrapboxの情報のみに基づいて、質問に答えてください。\n回答は日本語で、根拠となった情報のタイトルとURLを含めてください。\n\n情報:\n"

  /** The fixed text between the contexts and the question. */
  const QueryLead: string := "\n\n質問: "

  /** The fixed text after the question. */
  const PromptTail: string := "<end_of_turn>\n<start_of_turn>model\n"

  /** The prompt both the one-shot and the streaming call send. */
  function Prompt(query: string, cs: seq<Context>): string {
    PromptHead + ContextBlock(cs) + QueryLead + query + PromptTail
  }

  /** The prompt can be read back: the context block sits right after the
      head and the question right before the tail. */
  lemma PromptReadBack(query: string, cs: seq<Context>)
    ensures var p := Prompt(query, cs);
      var b := |PromptHead| + |ContextBlock(cs)|;
      && |p| == b + |QueryLead| + |query| + |PromptTail|
      && p[..|PromptHead|] == PromptHead
      && p[|PromptHead|..b] == ContextBlock(cs)
      && p[b..b + |QueryLead|] == QueryLead
      && p[b + |QueryLead|..|p| - |PromptTail|] == query
      && p[|p| - |PromptTail|..] == PromptTail
  {
    FiveParts(PromptHead, ContextBlock(cs), QueryLead, query, PromptTail);
  }

  /** The prompt determines the question. */
  lemma PromptInjective(q1: string, q2: string, cs: seq<Context>)
    requires Prompt(q1, cs) == Prompt(q2, cs)
    ensures q1 == q2
  {
    PromptReadBack(q1, cs);
    PromptReadBack(q2, cs);
  }

  /** The body posted to `/api/generate`. */
  datatype GenerateRequest = GenerateRequest(model: string, prompt: string, stream: bool, temperature: real, topP: real)

  function BuildRequest(query: string, cs: seq<Context>, stream: bool): (r: GenerateRequest)
    ensures r.prompt == Prompt(query, cs) && r.stream == stream
    ensures r.model == ModelName && r.temperature == Temperature && r.topP == TopP
  {
    GenerateRequest(ModelName, Prompt(query, cs), stream, Temperature, TopP)
  }

  /** The streaming and the one-shot call send the same request but for the
      `stream` flag. */
  lemma BothPathsSamePrompt(query: string, cs: seq<Context>)
    ensures BuildRequest(query, cs, true) == BuildRequest(query, cs, false).(stream := true)
  {
  }

  // ---------------------------------------------------------------------
  // One-shot answer
  // ---------------------------------------------------------------------

  /** The model server, called once with the request. */
  type LlmOracle = GenerateRequest -> Result<HttpReply<Json>>

  /** Python's `generate_answer` applied to the reply of its one call: the
      value under `"response"`, the fixed text when that key is missing, and
      the error text after the fixed prefix for any failure, which never
      escapes. */
  function AnswerOf(reply: Result<HttpReply<Json>>): (r: Json)
    ensures CheckStatus(reply).Failure? ==> r == JString(ErrorPrefix + CheckStatus(reply).error)
    ensures CheckStatus(reply).Success? && CheckStatus(reply).value.JObject? ==>
      r == Lookup(CheckStatus(reply).value.members, "response").GetOr(JString(NoAnswer))
    ensures CheckStatus(reply).Success? && !CheckStatus(reply).value.JObject? ==>
      r == JString(ErrorPrefix + NotAnObject)
  {
    match CheckStatus(reply)
    case Failure(e) => JString(ErrorPrefix + e)
    case Success(data) =>
      match data
      case JObject(members) => Lookup(members, "response").GetOr(JString(NoAnswer))
      case _ => JString(ErrorPrefix + NotAnObject)
  }

  function GenerateAnswer(llm: LlmOracle, query: string, cs: seq<Context>): Json {
    AnswerOf(llm(BuildRequest(query, cs, false)))
  }

  /** An answer that reads as the error text: a string after the prefix. */
  predicate IsErrorAnswer(a: Json) {
    a.JString? && |a.s| >= |ErrorPrefix| && a.s[..|ErrorPrefix|] == ErrorPrefix
  }

  /** For every server, the answer reads as an error exactly when the one
      request `BuildRequest(query, cs, false)` failed, its body was not an
      object, or the model's own `"response"` already began with the error
      prefix; the fixed fallback text never reads as an error. */
  lemma GenerateAnswerErrors(llm: LlmOracle, query: string, cs: seq<Context>)
    ensures var reply := CheckStatus(llm(BuildRequest(query, cs, false)));
      IsErrorAnswer(GenerateAnswer(llm, query, cs)) <==>
        || reply.Failure?
        || !reply.value.JObject?
        || (var v := Lookup(reply.value.members, "response"); v.Some? && IsErrorAnswer(v.value))
  {
    assert NoAnswer[0] != ErrorPrefix[0];
    assert !IsErrorAnswer(JString(NoAnswer));
  }

  /** A 200 reply `{"response": s}` answers `s`. */
  lemma AnswerOfResponse(s: string)
    ensures AnswerOf(Success(HttpReply(200, Success(JObject([("response", JString(s))]))))) == JString(s)
  {
  }

  /** A 500 reply answers with the error prefix. */
  lemma AnswerOfServerError(body: Result<Json>)
    ensures var r := AnswerOf(Success(HttpReply(500, body)));
      r.JString? && |r.s| >= |ErrorPrefix| && r.s[..|ErrorPrefix|] == ErrorPrefix
  {
  }

  /** A reply without `"response"` answers with the fixed text. */
  lemma AnswerOfMissingResponse(members: seq<(string, Json)>)
    requires forall i :: 0 <= i < |members| ==> members[i].0 != "response"
    ensures AnswerOf(Success(HttpReply(200, Success(JObject(members))))) == JString(NoAnswer)
  {
  }

  // ---------------------------------------------------------------------
  // Streamed answer
  // ---------------------------------------------------------------------

  /** One line of the streamed body and what `json.loads` makes of it (a
      decoding error is a `Failure`). */
  datatype StreamLine = StreamLine(raw: string, decoded: Result<Json>)

  /** An opened stream: its status (never checked on this path), its lines,
      and the error that broke the line iteration, if one did. */
  datatype StreamReply = StreamReply(status: nat, lines: seq<StreamLine>, broken: Option<string>)

  /** The model server in streaming mode; a `Failure` is an error raised
      before any line arrives. */
  type StreamOracle = GenerateRequest -> Result<StreamReply>

  /** What the generator yields: a record's `"response"` value, or the final
      error token. */
  datatype Token = Piece(value: Json) | ErrorToken(message: string)

  /** The text an error token carries. */
  function ErrorText(message: string): string {
    "\n[Error: " + message + "]"
  }

  /** `data.get("done")` is truthy. */
  predicate Stops(members: seq<(string, Json)>) {
    match Lookup(members, "done")
    case Some(d) => Truthy(d)
    case None => false
  }

  /** The `"response"` of a record, if it has one. */
  function ResponsePiece(members: seq<(string, Json)>): seq<Token> {
    match Lookup(members, "response")
    case Some(v) => [Piece(v)]
    case None => []
  }

  /** The loop over `aiter_lines()`: empty lines are skipped, each record's
      `"response"` is yielded, a record with a truthy `"done"` ends the loop,
      and a line that fails to decode or does not decode to an object (the
      `in` test or the indexing raises) ends it with an error token, as does
      a broken iteration. */
  function Relay(lines: seq<StreamLine>, broken: Option<string>): seq<Token> {
    if |lines| == 0 then
      (match broken case Some(e) => [ErrorToken(e)] case None => [])
    else
      var l := lines[0];
      if l.raw == [] then Relay(lines[1..], broken)
      else match l.decoded
        case Failure(e) => [ErrorToken(e)]
        case Success(data) =>
          match data
          case JObject(members) =>
            if Stops(members) then ResponsePiece(members)
            else ResponsePiece(members) + Relay(lines[1..], broken)
          case _ => [ErrorToken(NotAnObject)]
  }

  /** Python's `generate_answer_stream` applied to the reply of its call. */
  function StreamTokens(reply: Result<StreamReply>): seq<Token> {
    match reply
    case Failure(e) => [ErrorToken(e)]
    case Success(r) => Relay(r.lines, r.broken)
  }

  function GenerateAnswerStream(llm: StreamOracle, query: string, cs: seq<Context>): seq<Token> {
    StreamTokens(llm(BuildRequest(query, cs, true)))
  }

  /** A line the loop passes over without stopping: empty, or a record
      without a truthy `"done"`. */
  predicate Continues(l: StreamLine) {
    l.raw == [] || (l.decoded.Success? && l.decoded.value.JObject? && !Stops(l.decoded.value.members))
  }

  /** The tokens one line the loop passes over yields. */
  function LinePieces(l: StreamLine): seq<Token> {
    if l.raw == [] || !l.decoded.Success? || !l.decoded.value.JObject? then []
    else ResponsePiece(l.decoded.value.members)
  }

  /** The tokens of lines the loop passes over. */
  function Pieces(lines: seq<StreamLine>): seq<Token> {
    if |lines| == 0 then [] else LinePieces(lines[0]) + Pieces(lines[1..])
  }

  /** A line the loop passes over yields its tokens and the loop goes on. */
  lemma RelayStep(l: StreamLine, rest: seq<StreamLine>, broken: Option<string>)
    requires Continues(l)
    ensures Relay([l] + rest, broken) == LinePieces(l) + Relay(rest, broken)
  {
    assert ([l] + rest)[0] == l;
    assert ([l] + rest)[1..] == rest;
  }

  /** Lines the loop passes over yield their responses in order, and the rest
      of the stream carries on after them. */
  lemma {:induction false} RelayPrefix(a: seq<StreamLine>, b: seq<StreamLine>, broken: Option<string>)
    requires forall i :: 0 <= i < |a| ==> Continues(a[i])
    ensures Relay(a + b, broken) == Pieces(a) + Relay(b, broken)
    decreases |a|
  {
    if |a| == 0 {
      assert a + b == b;
    } else {
      var l := a[0];
      assert a + b == [l] + (a[1..] + b);
      RelayStep(l, a[1..] + b, broken);
      RelayPrefix(a[1..], b, broken);
      assert LinePieces(l) + (Pieces(a[1..]) + Relay(b, broken)) == (LinePieces(l) + Pieces(a[1..])) + Relay(b, broken);
    }
  }

  /** A record with a truthy `"done"` yields its response and ends the
      stream: nothing after it is read. */
  lemma RelayStopsAtDone(a: seq<StreamLine>, d: StreamLine, b: seq<StreamLine>, broken: Option<string>)
    requires forall i :: 0 <= i < |a| ==> Continues(a[i])
    requires d.raw != [] && d.decoded.Success? && d.decoded.value.JObject? && Stops(d.decoded.value.members)
    ensures Relay(a + [d] + b, broken) == Pieces(a) + ResponsePiece(d.decoded.value.members)
  {
    assert a + [d] + b == a + ([d] + b);
    RelayPrefix(a, [d] + b, broken);
  }

  /** A line that does not decode, or decodes to something other than an
      object, ends the stream with one error token. */
  lemma RelayStopsAtGarbage(a: seq<StreamLine>, g: StreamLine, b: seq<StreamLine>, broken: Option<string>)
    requires forall i :: 0 <= i < |a| ==> Continues(a[i])
    requires g.raw != [] && !(g.decoded.Success? && g.decoded.value.JObject?)
    ensures Relay(a + [g] + b, broken)
      == Pieces(a) + [ErrorToken(if g.decoded.Failure? then g.decoded.error else NotAnObject)]
  {
    assert a + [g] + b == a + ([g] + b);
    RelayPrefix(a, [g] + b, broken);
  }

  /** A broken iteration adds one error token after everything yielded. */
  lemma {:induction false} RelayBroken(a: seq<StreamLine>, e: string)
    requires forall i :: 0 <= i < |a| ==> Continues(a[i])
    ensures Relay(a, Some(e)) == Pieces(a) + [ErrorToken(e)]
    decreases |a|
  {
    if |a| > 0 {
      RelayBroken(a[1..], e);
    }
  }

  /** Only the last token may be an error token. */
  predicate ErrorOnlyLast(ts: seq<Token>) {
    forall i :: 0 <= i < |ts| - 1 ==> ts[i].Piece?
  }

  lemma PiecesThenErrorOnlyLast(head: seq<Token>, tail: seq<Token>)
    requires forall i :: 0 <= i < |head| ==> head[i].Piece?
    requires ErrorOnlyLast(tail)
    ensures ErrorOnlyLast(head + tail)
  {
    forall i | 0 <= i < |head + tail| - 1
      ensures (head + tail)[i].Piece?
    {
      if i >= |head| {
        assert (head + tail)[i] == tail[i - |head|];
      }
    }
  }

  /** An error token, if any, is the last token, so there is at most one. */
  lemma {:induction false} RelayErrorLast(lines: seq<StreamLine>, broken: Option<string>)
    ensures ErrorOnlyLast(Relay(lines, broken))
    decreases |lines|
  {
    if |lines| > 0 {
      var l := lines[0];
      RelayErrorLast(lines[1..], broken);
      if l.raw == [] {
        assert Relay(lines, broken) == Relay(lines[1..], broken);
      } else if l.decoded.Success? && l.decoded.value.JObject? {
        var members := l.decoded.value.members;
        if !Stops(members) {
          PiecesThenErrorOnlyLast(ResponsePiece(members), Relay(lines[1..], broken));
        }
      }
    }
  }

  /** Whatever the server does, the generator yields at most one error
      token, as its last token. */
  lemma GenerateAnswerStreamErrorLast(llm: StreamOracle, query: string, cs: seq<Context>)
    ensures ErrorOnlyLast(GenerateAnswerStream(llm, query, cs))
  {
    var reply := llm(BuildRequest(query, cs, true));
    if reply.Success? {
      RelayErrorLast(reply.value.lines, reply.value.broken);
    }
  }

  /** The status code plays no part: an error status streams its body like
      any other. */
  lemma StreamIgnoresStatus(s1: nat, s2: nat, lines: seq<StreamLine>, broken: Option<string>)
    ensures StreamTokens(Success(StreamReply(s1, lines, broken))) == StreamTokens(Success(StreamReply(s2, lines, broken)))
  {
  }

  /** Two records `{"response": "Hi", "done": false}` and
      `{"response": "!", "done": true}` yield `"Hi"` then `"!"`, and the
      stream ends there. */
  lemma TwoRecords(raw1: string, raw2: string, rest: seq<StreamLine>, broken: Option<string>)
    requires raw1 != [] && raw2 != []
    ensures var l1 := StreamLine(raw1, Success(JObject([("response", JString("Hi")), ("done", JBool(false))])));
      var l2 := StreamLine(raw2, Success(JObject([("response", JString("!")), ("done", JBool(true))])));
      Relay([l1, l2] + rest, broken) == [Piece(JString("Hi")), Piece(JString("!"))]
  {
  }
}
