/**
 * The serverless request-forwarding function: it answers CORS preflights, reads a JSON
 * envelope `{ endpoint, method, body, headers }` from the request body, forwards the
 * described request to the database service with the service key injected, and relays
 * the reply. The handler is a pure function of the inbound event, the configured base URL
 * and key, what `JSON.parse` makes of the body, and what the upstream call returns.
 */
module Proxy {
  import opened Optional
  import opened Json
  import JsString

  /** The inbound invocation: its HTTP method and its raw body (`null` when there is none). */
  datatype Event = Event(httpMethod: string, body: Option<string>)

  /** The deployment's base URL and anonymous key (`SUPABASE_URL`, `SUPABASE_ANON_KEY`). */
  datatype Env = Env(baseUrl: string, anonKey: string)

  /** What `JSON.parse(event.body)` yields: a value, or a thrown `SyntaxError` with its message. */
  datatype ParseOutcome = Parsed(value: Json) | ParseFailed(message: string)

  /** What the upstream `fetch` followed by `response.text()` yields, or the message of what they threw. */
  datatype UpstreamReply = Replied(status: int, text: string) | FetchFailed(message: string)

  /** The outbound request handed to `fetch`: URL, verb, header object and optional body. */
  datatype FetchRequest = FetchRequest(url: string, verb: Json, headers: map<string, Json>, body: Option<string>)

  /** The function's response: status code, header list and body text. */
  datatype Response = Response(statusCode: int, headers: seq<(string, string)>, body: string)

  /** A handler run: the response and the upstream request it issued, if any. */
  datatype Outcome = Outcome(response: Response, request: Option<FetchRequest>)

  const PreflightHeaders: seq<(string, string)> := [
    ("Access-Control-Allow-Origin", "*"),
    ("Access-Control-Allow-Headers", "Content-Type, Authorization, apikey"),
    ("Access-Control-Allow-Methods", "GET, POST, PUT, DELETE, PATCH, OPTIONS")]

  const ErrorHeaders: seq<(string, string)> := [
    ("Access-Control-Allow-Origin", "*"),
    ("Access-Control-Allow-Headers", "Content-Type")]

  const RelayHeaders: seq<(string, string)> := [
    ("Content-Type", "application/json"),
    ("Access-Control-Allow-Origin", "*"),
    ("Access-Control-Allow-Headers", "Content-Type, Authorization, apikey")]

  const MissingEndpointMessage := "Missing endpoint parameter"

  /** The message Node's engine gives the `TypeError` of destructuring a `null` envelope. */
  const NullEnvelopeMessage := "Cannot destructure property 'endpoint' of 'requestBody' as it is null."

  /** The 500 response for a caught exception: `{ error: err.message }`. */
  function Failure(message: string): Response {
    Response(500, ErrorHeaders, Stringify(JObj([("error", JStr(message))])))
  }

  /** The envelope `event.body ? JSON.parse(event.body) : {}` yields, or the message of what it threw. */
  function RequestBody(event: Event, parse: ParseOutcome): Result {
    if event.body.Some? && JsString.Truthy(event.body.value) then
      match parse
      case Parsed(v) => Envelope(v)
      case ParseFailed(m) => Thrown(m)
    else Envelope(JObj([]))
  }

  datatype Result = Envelope(value: Json) | Thrown(message: string)

  /** The own enumerable properties object spread (`...v`) copies, in order. */
  function SpreadEntries(v: Json): seq<(string, Json)> {
    match v
    case JObj(members) => members
    case JStr(s) => seq(|s|, i requires 0 <= i < |s| => (JsString.NatToString(i), JStr([s[i]])))
    case JArr(items) => seq(|items|, i requires 0 <= i < |items| => (JsString.NatToString(i), items[i]))
    case _ => []
  }

  /** Lays `entries` over `m` from first to last, so a later entry wins on a repeated key. */
  function Overlay(m: map<string, Json>, entries: seq<(string, Json)>): (r: map<string, Json>)
    ensures r.Keys == m.Keys + set e | e in entries :: e.0
  {
    if entries == [] then m
    else
      var r := Overlay(m, entries[..|entries| - 1]);
      var e := entries[|entries| - 1];
      assert entries == entries[..|entries| - 1] + [e];
      r[e.0 := e.1]
  }

  /** The headers the function always sends upstream. */
  function DefaultHeaders(env: Env): map<string, Json> {
    map["Content-Type" := JStr("application/json"),
        "apikey" := JStr(env.anonKey),
        "Authorization" := JStr("Bearer " + env.anonKey)]
  }

  /** `{ 'Content-Type': …, apikey: …, Authorization: …, ...supabaseHeaders }`. */
  function FetchHeaders(env: Env, callerHeaders: Json): map<string, Json> {
    Overlay(DefaultHeaders(env), SpreadEntries(callerHeaders))
  }

  predicate SendsBody(verb: Json) {
    verb == JStr("POST") || verb == JStr("PUT") || verb == JStr("PATCH")
  }

  /** The outbound body: the caller's body, serialised unless already a string, for POST, PUT and PATCH only. */
  function FetchBody(verb: Json, body: Option<Json>): Option<string> {
    if Truthy(body) && SendsBody(verb) then
      Some(if body.value.JStr? then body.value.s else Stringify(body.value))
    else None
  }

  /** The upstream request an envelope with a truthy `endpoint` describes. */
  function Request(env: Env, envelope: Json): FetchRequest
    requires Truthy(Property(envelope, "endpoint"))
  {
    var verb := Property(envelope, "method").GetOr(JStr("GET"));
    var headers := Property(envelope, "headers").GetOr(JObj([]));
    FetchRequest(
      env.baseUrl + TemplateString(Property(envelope, "endpoint").value),
      verb,
      FetchHeaders(env, headers),
      FetchBody(verb, Property(envelope, "body")))
  }

  /** The whole handler. `reply` is what the upstream call returns; it is read only if a call is made. */
  function Handle(event: Event, env: Env, parse: ParseOutcome, reply: UpstreamReply): Outcome {
    if event.httpMethod == "OPTIONS" then
      Outcome(Response(204, PreflightHeaders, ""), None)
    else
      match RequestBody(event, parse)
      case Thrown(m) => Outcome(Failure(m), None)
      case Envelope(JNull) => Outcome(Failure(NullEnvelopeMessage), None)
      case Envelope(envelope) =>
        if !Truthy(Property(envelope, "endpoint")) then
          Outcome(Response(400, ErrorHeaders, Stringify(JObj([("error", JStr(MissingEndpointMessage))]))), None)
        else
          var request := Request(env, envelope);
          match reply
          case Replied(status, text) => Outcome(Response(status, RelayHeaders, text), Some(request))
          case FetchFailed(m) => Outcome(Failure(m), Some(request))
  }

  // ---------------------------------------------------------------------------------------
  // Properties of the handler
  // ---------------------------------------------------------------------------------------

  /** A preflight gets 204, an empty body and the permissive CORS headers, whatever else the event holds, and nothing is forwarded. */
  lemma PreflightShortCircuit(event: Event, env: Env, parse: ParseOutcome, reply: UpstreamReply)
    requires event.httpMethod == "OPTIONS"
    ensures Handle(event, env, parse, reply).response == Response(204, PreflightHeaders, "")
    ensures Handle(event, env, parse, reply).request == None
  {
  }

  /** The message has no character `JSON.stringify` escapes. */
  lemma MissingEndpointMessagePlain()
    ensures forall k :: 0 <= k < |MissingEndpointMessage| ==> Plain(MissingEndpointMessage[k])
  {
    var m := MissingEndpointMessage;
    forall k | 0 <= k < |m| ensures Plain(m[k]) {
      assert m[k] in "Misng dpoitaamer";
    }
  }

  lemma MissingEndpointBodyShape()
    ensures Stringify(JObj([("error", JStr(MissingEndpointMessage))])) == "{\"error\":\"" + MissingEndpointMessage + "\"}"
  {
    MissingEndpointMessagePlain();
    ErrorObjectPlainText(MissingEndpointMessage);
  }

  lemma MissingEndpointLiteral()
    ensures "{\"error\":\"" + MissingEndpointMessage + "\"}" == "{\"error\":\"Missing endpoint parameter\"}"
  {
  }

  /** The 400 body is the JSON text `{"error":"Missing endpoint parameter"}`. */
  lemma MissingEndpointBody()
    ensures Stringify(JObj([("error", JStr(MissingEndpointMessage))])) == "{\"error\":\"Missing endpoint parameter\"}"
  {
    MissingEndpointBodyShape();
    MissingEndpointLiteral();
  }

  /** An envelope whose `endpoint` is missing or empty gets 400 with `{"error":"Missing endpoint parameter"}` and no upstream call. */
  lemma MissingEndpointRejected(event: Event, env: Env, parse: ParseOutcome, reply: UpstreamReply)
    requires event.httpMethod != "OPTIONS"
    requires RequestBody(event, parse).Envelope? && RequestBody(event, parse).value != JNull
    requires !Truthy(Property(RequestBody(event, parse).value, "endpoint"))
    ensures Handle(event, env, parse, reply).response.statusCode == 400
    ensures Handle(event, env, parse, reply).response.body == "{\"error\":\"Missing endpoint parameter\"}"
    ensures Handle(event, env, parse, reply).request == None
  {
    MissingEndpointBody();
  }

  /** An absent or empty event body reads as `{}`, so it is rejected for its missing endpoint. */
  lemma AbsentBodyIsEmptyEnvelope(event: Event, env: Env, parse: ParseOutcome, reply: UpstreamReply)
    requires event.httpMethod != "OPTIONS"
    requires event.body == None || event.body == Some("")
    ensures RequestBody(event, parse) == Envelope(JObj([]))
    ensures Handle(event, env, parse, reply).response.statusCode == 400
  {
  }

  /**
   * For any envelope with a truthy endpoint: without `method` the request is a GET and
   * carries no body, and without `headers` it carries exactly the three default headers.
   */
  lemma EnvelopeDefaults(env: Env, envelope: Json)
    requires Truthy(Property(envelope, "endpoint"))
    ensures Property(envelope, "method") == None ==> Request(env, envelope).verb == JStr("GET")
    ensures Property(envelope, "method") == None ==> Request(env, envelope).body == None
    ensures Property(envelope, "headers") == None ==> Request(env, envelope).headers == DefaultHeaders(env)
  {
  }

  /** The outbound URL is the base URL followed by the endpoint string, unmodified. */
  lemma UrlIsConcatenation(event: Event, env: Env, parse: ParseOutcome, reply: UpstreamReply, endpoint: string)
    requires event.httpMethod != "OPTIONS"
    requires RequestBody(event, parse).Envelope?
    requires Property(RequestBody(event, parse).value, "endpoint") == Some(JStr(endpoint)) && endpoint != ""
    ensures Handle(event, env, parse, reply).request.Some?
    ensures Handle(event, env, parse, reply).request.value.url == env.baseUrl + endpoint
  {
  }

  /** The last entry naming a key decides its value, whatever comes before it and whatever other keys follow. */
  lemma {:induction false} OverlayWins(m: map<string, Json>, entries: seq<(string, Json)>, key: string, i: int)
    requires LastNamed(entries, key, i)
    ensures key in Overlay(m, entries) && Overlay(m, entries)[key] == entries[i].1
  {
    var n := |entries| - 1;
    if i < n {
      var init := entries[..n];
      assert LastNamed(init, key, i) by {
        assert forall j :: i < j < n ==> init[j] == entries[j];
      }
      OverlayWins(m, init, key, i);
    }
  }

  /** A key no entry names keeps its value. */
  lemma {:induction false} OverlayKeeps(m: map<string, Json>, entries: seq<(string, Json)>, key: string)
    requires key in m && forall e :: e in entries ==> e.0 != key
    ensures key in Overlay(m, entries) && Overlay(m, entries)[key] == m[key]
  {
    if entries != [] {
      var init := entries[..|entries| - 1];
      assert forall e :: e in init ==> e in entries;
      OverlayKeeps(m, init, key);
      assert entries[|entries| - 1] in entries;
    }
  }

  /** For an object of caller headers with distinct keys, each caller value replaces the default and the other defaults stay. */
  lemma CallerHeadersWin(env: Env, members: seq<(string, Json)>, key: string)
    requires forall i, j :: 0 <= i < j < |members| ==> members[i].0 != members[j].0
    ensures forall i :: 0 <= i < |members| && members[i].0 == key ==> FetchHeaders(env, JObj(members))[key] == members[i].1
    ensures (forall i :: 0 <= i < |members| ==> members[i].0 != key) && key in DefaultHeaders(env)
      ==> FetchHeaders(env, JObj(members))[key] == DefaultHeaders(env)[key]
  {
    forall i | 0 <= i < |members| && members[i].0 == key
      ensures FetchHeaders(env, JObj(members))[key] == members[i].1
    {
      OverlayWins(DefaultHeaders(env), members, key, i);
    }
    if (forall i :: 0 <= i < |members| ==> members[i].0 != key) && key in DefaultHeaders(env) {
      assert forall e :: e in members ==> e.0 != key;
      OverlayKeeps(DefaultHeaders(env), members, key);
    }
  }

  /** A body goes upstream exactly when it is truthy and the method is POST, PUT or PATCH; a string body as it is, any other value as its JSON text. */
  lemma BodyForwardingRule(verb: Json, body: Option<Json>)
    ensures FetchBody(verb, body).Some? <==> Truthy(body) && SendsBody(verb)
    ensures FetchBody(verb, body).Some? && body.value.JStr? ==> FetchBody(verb, body).value == body.value.s
    ensures FetchBody(verb, body).Some? && !body.value.JStr? ==> FetchBody(verb, body).value == Stringify(body.value)
    ensures verb == JStr("GET") || verb == JStr("DELETE") ==> FetchBody(verb, body) == None
  {
  }

  /** An upstream reply is relayed with its own status (201 stays 201) and its raw text, as JSON. */
  lemma ReplyRelayed(event: Event, env: Env, parse: ParseOutcome, status: int, text: string)
    requires event.httpMethod != "OPTIONS"
    requires RequestBody(event, parse).Envelope?
    requires Truthy(Property(RequestBody(event, parse).value, "endpoint"))
    ensures Handle(event, env, parse, Replied(status, text)).response == Response(status, RelayHeaders, text)
    ensures Handle(event, env, parse, Replied(status, text)).request == Some(Request(env, RequestBody(event, parse).value))
  {
  }

  /** Malformed JSON in the event body and a failing upstream call both give 500 with the thrown message, readable back from the body. */
  lemma ExceptionsBecome500(event: Event, env: Env, parse: ParseOutcome, reply: UpstreamReply)
    requires event.httpMethod != "OPTIONS"
    requires (RequestBody(event, parse).Thrown?) ||
      (RequestBody(event, parse).Envelope? && Truthy(Property(RequestBody(event, parse).value, "endpoint")) && reply.FetchFailed?)
    ensures var m := if RequestBody(event, parse).Thrown? then RequestBody(event, parse).message else reply.message;
      Handle(event, env, parse, reply).response == Failure(m) &&
      Failure(m).statusCode == 500 &&
      Failure(m).body == "{\"error\":" + Quote(m) + "}" &&
      Unquote(Quote(m)) == Some(m)
  {
    var m := if RequestBody(event, parse).Thrown? then RequestBody(event, parse).message else reply.message;
    ErrorObjectText(m);
    UnquoteQuote(m);
  }
}
