/** One RPC request, from the payload to the reply, as functions of the message and the registered services. */
module RpcSpec {
  import opened Messages
  import opened RpcTopics

  // ---------------------------------------------------------------- JSON

  /**
   A decoded JSON text.  Numbers stand for the float64 they decode to; `JHuge` is a literal
   that is beyond the range of float64.
   */
  datatype Json =
    | JNull
    | JBool(flag: bool)
    | JNumber(number: real)
    | JHuge
    | JString(text: string)
    | JArray(items: seq<Json>)
    | JObject(members: seq<Member>)

  datatype Member = Member(key: string, value: Json)

  /** The payload of a request. */
  datatype Payload = Malformed | Text(json: Json)

  /** The last member of that name decides, as it does for the decoder. */
  function Get(members: seq<Member>, key: string): Option<Json> {
    if members == [] then None
    else
      var last := members[|members| - 1];
      if last.key == key then Some(last.value) else Get(members[..|members| - 1], key)
  }

  /** A member decoded into a pointer: a JSON null leaves it nil, as a missing member does. */
  function Present(members: seq<Member>, key: string): Option<Json> {
    match Get(members, key)
    case Some(j) => if j == JNull then None else Some(j)
    case None => None
  }

  /** Every number in it can be decoded. */
  predicate Fits(j: Json) {
    match j
    case JHuge => false
    case JArray(items) => forall i :: 0 <= i < |items| ==> Fits(items[i])
    case JObject(members) => forall i :: 0 <= i < |members| ==> Fits(members[i].value)
    case _ => true
  }

  /** What decoding leaves behind: a number out of range is reported, and a null stands in its place. */
  function Salvaged(j: Json): Json {
    match j
    case JHuge => JNull
    case JArray(items) => JArray(seq(|items|, i requires 0 <= i < |items| => Salvaged(items[i])))
    case JObject(members) =>
      JObject(seq(|members|, i requires 0 <= i < |members| => Member(members[i].key, Salvaged(members[i].value))))
    case _ => j
  }

  // ---------------------------------------------------------------- errors

  /** Internal errors are the package's own; coded ones carry a code of the application's. */
  datatype Error =
    | Internal(code: int, message: string)
    | Coded(code: int, kind: string, message: string)
    | Plain(message: string)

  const PARSE_ERROR := Internal(-32700, "Parse error")
  const INVALID_REQUEST := Internal(-32600, "Invalid request")
  const METHOD_NOT_FOUND := Internal(-32601, "Method not found")
  const INVALID_PARAMS := Internal(-32602, "Invalid params")

  predicate IsReserved(code: int) {
    -32700 <= code <= -32000
  }

  // ---------------------------------------------------------------- requests

  datatype ArgResult = Args(args: Json) | ArgSyntax | ArgMismatch

  /** `Answer(None)` is a result that does not marshal. */
  datatype CallResult = Answer(result: Option<Json>) | Fails(error: Error)

  /** How a method decodes its params, and what its n-th call returns. */
  datatype Method = Method(decode: Json -> ArgResult, call: (nat, Json) -> CallResult)

  type Services = map<string, map<string, Method>>

  datatype Request = Request(topic: string, payload: Payload)

  /** `error` is None when the request is in order. */
  datatype Parsed = Parsed(id: Json, error: Option<Error>, args: Json)

  predicate IsIntegral(x: real) {
    x.Floor as real == x
  }

  /** Strings and integral numbers; null passes too, but never gets as far. */
  predicate ValidId(id: Json) {
    match id
    case JNull => true
    case JString(_) => true
    case JNumber(x) => IsIntegral(x)
    case _ => false
  }

  function Refused(id: Json, e: Error): Parsed {
    Parsed(id, Some(e), JNull)
  }

  function ParseParams(id: Json, params: Option<Json>, decode: Json -> ArgResult): Parsed {
    match params
    case None => Refused(id, INVALID_PARAMS)
    case Some(p) =>
      match decode(p)
      case Args(args) => Parsed(id, None, args)
      case ArgSyntax => Refused(JNull, PARSE_ERROR)
      case ArgMismatch => Refused(id, INVALID_PARAMS)
  }

  /** A JSON null decodes into a request without members; any other value that is no object does not decode. */
  function RequestMembers(payload: Payload): Option<seq<Member>> {
    match payload
    case Text(JObject(members)) => Some(members)
    case Text(JNull) => Some([])
    case _ => None
  }

  function ParseRequest(payload: Payload, target: Option<Json -> ArgResult>): Parsed {
    match RequestMembers(payload)
    case None => Refused(JNull, PARSE_ERROR)
    case Some(members) =>
      match Present(members, "id")
      case None => Refused(JNull, INVALID_REQUEST)
      case Some(id) =>
        if !Fits(id) then Refused(Salvaged(id), PARSE_ERROR)
        else if !ValidId(id) then Refused(JNull, INVALID_REQUEST)
        else
          match target
          case None => Parsed(id, None, JNull)
          case Some(decode) => ParseParams(id, Present(members, "params"), decode)
  }

  function Lookup(services: Services, r: Route): Option<Method> {
    if r.service in services && r.name in services[r.service] then Some(services[r.service][r.name]) else None
  }

  /** When there is no such method, the request is still parsed for its id. */
  function ParseMessage(found: Option<Method>, payload: Payload): (p: Parsed)
    ensures p.error == None ==> found.Some?
  {
    match found
    case Some(m) => ParseRequest(payload, Some(m.decode))
    case None =>
      var p := ParseRequest(payload, None);
      match p.error
      case Some(e) => Refused(JNull, e)
      case None => Refused(p.id, METHOD_NOT_FOUND)
  }

  // ---------------------------------------------------------------- replies

  datatype Built = Body(json: Json) | Unmarshallable | Panic

  function FailureBody(id: Json, error: seq<Member>): Built {
    Body(JObject([Member("error", JObject(error)), Member("id", id)]))
  }

  function BuildResponse(id: Json, outcome: CallResult): Built {
    match outcome
    case Answer(None) => Unmarshallable
    case Answer(Some(result)) => Body(JObject([Member("id", id), Member("result", result)]))
    case Fails(Internal(code, message)) =>
      if !IsReserved(code) then Panic
      else FailureBody(id, [Member("code", JNumber(code as real)), Member("message", JString(message))])
    case Fails(Coded(code, kind, message)) =>
      if IsReserved(code) then Panic
      else FailureBody(id, [Member("code", JNumber(code as real)), Member("data", JString(kind)),
          Member("message", JString(message))])
    case Fails(Plain(message)) =>
      FailureBody(id, [Member("code", JNumber(-1.0)), Member("message", JString(message))])
  }

  datatype Posted = Posted(topic: string, body: Json, qos: nat, retained: bool)

  datatype Invocation = Invocation(route: Route, args: Json)

  /** What the server has done: the methods it ran, and what it published. */
  datatype Log = Log(calls: seq<Invocation>, posts: seq<Posted>)

  datatype Handled = Handled(log: Log, crashed: bool)

  function NumCalls(calls: seq<Invocation>, r: Route): nat {
    if calls == [] then 0
    else NumCalls(calls[..|calls| - 1], r) + if calls[|calls| - 1].route == r then 1 else 0
  }

  function Post(log: Log, topic: string, built: Built): Handled {
    match built
    case Body(json) => Handled(log.(posts := log.posts + [Posted(ReplyTopic(topic), json, 1, false)]), false)
    case Unmarshallable => Handled(log, false)
    case Panic => Handled(log, true)
  }

  function HandleMessage(services: Services, log: Log, m: Request): Handled {
    match RouteOf(m.topic)
    case None => Handled(log, true)
    case Some(route) =>
      var found := Lookup(services, route);
      var p := ParseMessage(found, m.payload);
      match p.error
      case Some(e) => Post(log, m.topic, BuildResponse(p.id, Fails(e)))
      case None =>
        var outcome := found.value.call(NumCalls(log.calls, route), p.args);
        Post(log.(calls := log.calls + [Invocation(route, p.args)]), m.topic, BuildResponse(p.id, outcome))
  }
}
