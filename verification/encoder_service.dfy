/** The client of the sparse encoder: one HTTP call per text, whose reply is
    an oracle. A call that raises in Python is a `Failure` here, carrying the
    exception's text. */
module EncoderService {
  import opened Wrappers
  import opened Text
  import opened Json

  /** What the HTTP client hands back for one request that reached the
      server: the status code and the body as `response.json()` would decode
      it (a decoding error is a `Failure`). */
  datatype HttpReply<B> = HttpReply(status: nat, body: Result<B>)

  /** httpx's `is_success`: `raise_for_status()` raises for every other code,
      informational and redirect codes included. */
  predicate IsSuccessStatus(status: nat) {
    200 <= status < 300
  }

  /** The text `raise_for_status()` raises with; the client library's exact
      wording is not reproduced, only that it names the status. */
  function StatusError(status: nat): string {
    "HTTP status " + NatToString(status)
  }

  /** The text of the `AttributeError` raised when a decoded reply that is
      not an object is asked for `.get` (or `.items`). */
  const NotAnObject: string := "decoded value is not an object"

  /** The outcome of one call as seen by the caller: the transport's own
      failure, or the reply after `raise_for_status()`. */
  function CheckStatus<B>(reply: Result<HttpReply<B>>): (r: Result<B>)
    ensures r.Success? <==> reply.Success? && IsSuccessStatus(reply.value.status) && reply.value.body.Success?
    ensures r.Success? ==> r.value == reply.value.body.value
    ensures reply.Failure? ==> r == Failure(reply.error)
    ensures reply.Success? && !IsSuccessStatus(reply.value.status) ==> r == Failure(StatusError(reply.value.status))
  {
    match reply
    case Failure(e) => Failure(e)
    case Success(HttpReply(status, body)) =>
      if !IsSuccessStatus(status) then Failure(StatusError(status)) else body
  }

  /** The request body `{"text": text}`. */
  function EncodeRequest(text: string): Json {
    JObject([("text", JString(text))])
  }

  /** The encoder, called as `enc(n, request)` for the `n`-th call of a run
      (numbering calls lets the oracle fail on some calls and not others). */
  type EncoderOracle = (nat, Json) -> Result<HttpReply<Json>>

  /** Python's `EncoderService.encode` applied to the reply of its one call:
      the value under `"vector"` if the decoded object has that key, else the
      whole object; every failure is passed on, never turned into a vector. */
  function Encode(reply: Result<HttpReply<Json>>): (r: Result<Json>)
    ensures r.Success? <==>
      && reply.Success?
      && IsSuccessStatus(reply.value.status)
      && reply.value.body.Success?
      && reply.value.body.value.JObject?
    ensures r.Success? ==>
      var members := reply.value.body.value.members;
      match Lookup(members, "vector")
      case Some(v) => r.value == v
      case None => r.value == JObject(members)
    ensures reply.Failure? ==> r == Failure(reply.error)
  {
    match CheckStatus(reply)
    case Failure(e) => Failure(e)
    case Success(data) =>
      match data
      case JObject(members) => Success(Lookup(members, "vector").GetOr(data))
      case _ => Failure(NotAnObject)
  }

  /** A reply of `{"vector": v}` with status 200 encodes to `v`, the shape the
      service's unit test uses. */
  lemma EncodeUnwrapsVector(v: Json)
    ensures Encode(Success(HttpReply(200, Success(JObject([("vector", v)]))))) == Success(v)
  {
  }

  /** A reply without a `"vector"` key is taken as the vector itself. */
  lemma EncodeKeepsBareObject(members: seq<(string, Json)>)
    requires forall i :: 0 <= i < |members| ==> members[i].0 != "vector"
    ensures Encode(Success(HttpReply(200, Success(JObject(members))))) == Success(JObject(members))
  {
  }

  /** A status outside 2xx is an error whatever the body holds. */
  lemma EncodeRejectsStatus(status: nat, body: Result<Json>)
    requires !IsSuccessStatus(status)
    ensures Encode(Success(HttpReply(status, body))) == Failure(StatusError(status))
  {
  }

  /** The `n`-th call of a run for `text`. */
  function EncodeCall(enc: EncoderOracle, n: nat, text: string): Result<Json> {
    Encode(enc(n, EncodeRequest(text)))
  }

  /** The encoder as a caller of `encode` sees it: the outcome of call `n`
      for a text. */
  type Encoding = (nat, string) -> Result<Json>

  function Calls(enc: EncoderOracle): Encoding {
    (n: nat, text: string) => EncodeCall(enc, n, text)
  }

  /** The index of the first text whose call fails, if any. */
  function FirstFailure(call: Encoding, texts: seq<string>, from: nat): (r: Option<nat>)
    requires from <= |texts|
    ensures r.Some? ==> from <= r.value < |texts| && call(r.value, texts[r.value]).Failure?
    ensures r.Some? ==> forall i :: from <= i < r.value ==> call(i, texts[i]).Success?
    ensures r.None? ==> forall i :: from <= i < |texts| ==> call(i, texts[i]).Success?
    decreases |texts| - from
  {
    if from == |texts| then None
    else if call(from, texts[from]).Failure? then Some(from)
    else FirstFailure(call, texts, from + 1)
  }

  /** Python's `encode_batch`: the texts are encoded one after another, call
      `i` for text `i`; the first failure is raised and no partial list is
      returned. `calls` counts the calls made: none after the failing one. */
  method EncodeBatch(enc: EncoderOracle, texts: seq<string>) returns (r: Result<seq<Json>>, calls: nat)
    ensures r.Success? <==> forall i :: 0 <= i < |texts| ==> EncodeCall(enc, i, texts[i]).Success?
    ensures r.Success? ==> |r.value| == |texts| && calls == |texts|
    ensures r.Success? ==> forall i :: 0 <= i < |texts| ==> r.value[i] == EncodeCall(enc, i, texts[i]).value
    ensures r.Failure? ==>
      var k := FirstFailure(Calls(enc), texts, 0).value;
      && calls == k + 1
      && r.error == EncodeCall(enc, k, texts[k]).error
  {
    var results: seq<Json> := [];
    var i := 0;
    while i < |texts|
      invariant 0 <= i <= |texts| && |results| == i
      invariant forall j :: 0 <= j < i ==> EncodeCall(enc, j, texts[j]).Success?
      invariant forall j :: 0 <= j < i ==> results[j] == EncodeCall(enc, j, texts[j]).value
      invariant FirstFailure(Calls(enc), texts, 0) == FirstFailure(Calls(enc), texts, i)
    {
      var out := EncodeCall(enc, i, texts[i]);
      if out.Failure? {
        return Failure(out.error), i + 1;
      }
      results := results + [out.value];
      i := i + 1;
    }
    return Success(results), |texts|;
  }
}
