/** What a client can rely on: which error it gets, under which id, and one reply for each request. */
module RpcReplies {
  import opened Messages
  import opened Topics
  import opened RpcTopics
  import opened RpcSpec

  // ---------------------------------------------------------------- which error

  /** The payload is a JSON object, or the null that counts as an empty one. */
  predicate IsRequest(payload: Payload) {
    payload.Text? && (payload.json.JObject? || payload.json.JNull?)
  }

  /** The last member of that name, unless it is null. */
  function FieldIn(payload: Payload, key: string): Option<Json> {
    if payload.Text? && payload.json.JObject? && Get(payload.json.members, key) != Some(JNull)
    then Get(payload.json.members, key)
    else None
  }

  function IdIn(payload: Payload): Option<Json> {
    FieldIn(payload, "id")
  }

  function ParamsIn(payload: Payload): Option<Json> {
    FieldIn(payload, "params")
  }

  predicate IsLast(ms: seq<Member>, i: nat, key: string)
    requires i < |ms|
  {
    ms[i].key == key && forall j :: i < j < |ms| ==> ms[j].key != key
  }

  lemma LastOfMore(front: seq<Member>, last: Member, i: nat, key: string)
    requires i <= |front|
    ensures IsLast(front + [last], i, key)
            <==> if last.key == key then i == |front| else i < |front| && IsLast(front, i, key)
  {
    var ms := front + [last];
    assert ms[|front|] == last;
    if i < |front| && IsLast(ms, i, key) {
      assert forall j :: i < j < |front| ==> front[j] == ms[j];
    }
  }

  /** Decoding finds the last member of a name, and nothing where there is none. */
  lemma {:induction false} GetIsLast(ms: seq<Member>, key: string, v: Json)
    ensures Get(ms, key) == Some(v) <==> exists i :: 0 <= i < |ms| && IsLast(ms, i, key) && ms[i].value == v
  {
    if ms != [] {
      var front, last := ms[..|ms| - 1], ms[|ms| - 1];
      GetIsLast(front, key, v);
      forall i | 0 <= i < |ms|
        ensures IsLast(ms, i, key) <==> if last.key == key then i == |front| else i < |front| && IsLast(front, i, key)
      {
        LastOfMore(front, last, i, key);
        assert ms == front + [last];
      }
      hide IsLast;
    }
  }

  /** A string or an integral number as its id. */
  predicate HasGoodId(payload: Payload) {
    var id := IdIn(payload);
    id.Some? && (id.value.JString? || (id.value.JNumber? && IsIntegral(id.value.number)))
  }

  function DecodedParams(found: Option<Method>, payload: Payload): Option<ArgResult> {
    match found
    case Some(m) =>
      (match ParamsIn(payload)
       case Some(params) => Some(m.decode(params))
       case None => None)
    case None => None
  }

  /** Lookup, request, id and params are all in order. */
  predicate Runs(found: Option<Method>, payload: Payload) {
    HasGoodId(payload) && DecodedParams(found, payload).Some? && DecodedParams(found, payload).value.Args?
  }

  /** Each of the four errors is given in its own cases, and the method runs in all others. */
  lemma ErrorTable(found: Option<Method>, payload: Payload)
    ensures var error, id := ParseMessage(found, payload).error, IdIn(payload);
            && (error == Some(PARSE_ERROR) <==>
                || !IsRequest(payload)
                || (id.Some? && !Fits(id.value))
                || (HasGoodId(payload) && DecodedParams(found, payload) == Some(ArgSyntax)))
            && (error == Some(INVALID_REQUEST) <==>
                IsRequest(payload) && (id == None || (Fits(id.value) && !HasGoodId(payload))))
            && (error == Some(METHOD_NOT_FOUND) <==> HasGoodId(payload) && found == None)
            && (error == Some(INVALID_PARAMS) <==>
                && HasGoodId(payload) && found.Some?
                && (ParamsIn(payload) == None || DecodedParams(found, payload) == Some(ArgMismatch)))
            && (error == None <==> Runs(found, payload))
  {
    ErrorsDiffer();
    PresentIsNotNull(payload);
  }

  lemma ErrorsDiffer()
    ensures PARSE_ERROR.code != INVALID_REQUEST.code && PARSE_ERROR.code != METHOD_NOT_FOUND.code
    ensures PARSE_ERROR.code != INVALID_PARAMS.code && INVALID_REQUEST.code != METHOD_NOT_FOUND.code
    ensures INVALID_REQUEST.code != INVALID_PARAMS.code && METHOD_NOT_FOUND.code != INVALID_PARAMS.code
  {
  }

  lemma PresentIsNotNull(payload: Payload)
    ensures IdIn(payload) != Some(JNull)
  {
  }

  // ---------------------------------------------------------------- under which id

  /** An id that is an array or an object with a number out of range somewhere in it. */
  predicate HasSpoiledId(payload: Payload) {
    var id := IdIn(payload);
    id.Some? && id.value != JHuge && !Fits(id.value)
  }

  lemma SalvagedIsNullIff(j: Json)
    ensures Salvaged(j) == JNull <==> j in {JNull, JHuge}
  {
  }

  /** Decoding leaves a value as it is exactly when every number in it is in range. */
  lemma {:induction false} SalvagedWhenFits(j: Json)
    ensures Salvaged(j) == j <==> Fits(j)
  {
    match j
    case JArray(items) =>
      forall i | 0 <= i < |items|
        ensures Salvaged(items[i]) == items[i] <==> Fits(items[i])
      {
        SalvagedWhenFits(items[i]);
      }
      assert forall i :: 0 <= i < |items| ==> Salvaged(j).items[i] == Salvaged(items[i]);
    case JObject(members) =>
      forall i | 0 <= i < |members|
        ensures Salvaged(members[i].value) == members[i].value <==> Fits(members[i].value)
      {
        SalvagedWhenFits(members[i].value);
      }
      assert forall i :: 0 <= i < |members| ==> Salvaged(j).members[i].value == Salvaged(members[i].value);
    case _ =>
  }

  predicate IsParseOrRequestError(e: Error) {
    e == PARSE_ERROR || e == INVALID_REQUEST
  }

  /**
   An error raised before the call carries a null id exactly when the message was no valid
   request, unless the method exists and the id is spoiled; in every other case the reply
   echoes the request's id.
   */
  lemma IdDiscipline(found: Option<Method>, payload: Payload)
    ensures var p := ParseMessage(found, payload);
            && (p.error.Some? ==>
                  ((p.id == JNull <==> IsParseOrRequestError(p.error.value))
                      <==> !(found.Some? && HasSpoiledId(payload))))
            && (p.error.None? || !IsParseOrRequestError(p.error.value) ==> Some(p.id) == IdIn(payload))
  {
    ErrorsDiffer();
    PresentIsNotNull(payload);
    if IdIn(payload).Some? {
      SalvagedIsNullIff(IdIn(payload).value);
    }
  }

  /** The exception occurs: the id [1e999] of a parse error comes back as [null]. */
  lemma SpoiledIdComesBack(m: Method)
    ensures var payload := Text(JObject([Member("id", JArray([JHuge]))]));
            var p := ParseMessage(Some(m), payload);
            p.error == Some(PARSE_ERROR) && p.id == JArray([JNull])
  {
    var members := [Member("id", JArray([JHuge]))];
    assert members[|members| - 1] == Member("id", JArray([JHuge]));
    var id := JArray([JHuge]);
    assert !Fits(id.items[0]);
    assert !Fits(id);
    assert Salvaged(id).items == [JNull];
  }

  // ---------------------------------------------------------------- what the reply holds

  function CodeNumber(e: Error): int {
    match e
    case Internal(code, _) => code
    case Coded(code, _, _) => code
    case Plain(_) => -1
  }

  /** An error object: the error's own code and text, and its kind exactly if it has one. */
  predicate IsError(error: Json, e: Error) {
    && error.JObject?
    && Get(error.members, "code") == Some(JNumber(CodeNumber(e) as real))
    && Get(error.members, "message") == Some(JString(e.message))
    && Get(error.members, "data") == (match e case Coded(_, kind, _) => Some(JString(kind)) case _ => None)
  }

  /** A reply to an outcome: the id, the method's own result or the error, never both, and nothing else. */
  predicate IsReply(body: Json, id: Json, outcome: CallResult) {
    && body.JObject?
    && (forall i :: 0 <= i < |body.members| ==> body.members[i].key in {"id", "result", "error"})
    && Get(body.members, "id") == Some(id)
    && Get(body.members, "result") == (match outcome case Answer(result) => result case Fails(_) => None)
    && (match outcome
        case Answer(_) => Get(body.members, "error") == None
        case Fails(e) => Get(body.members, "error").Some? && IsError(Get(body.members, "error").value, e))
  }

  /** A method result the server can reply with: it marshals, and an error keeps to its own range of codes. */
  predicate Replies(outcome: CallResult) {
    match outcome
    case Answer(result) => result.Some?
    case Fails(Internal(code, _)) => -32700 <= code <= -32000
    case Fails(Coded(code, _, _)) => code < -32700 || -32000 < code
    case Fails(Plain(_)) => true
  }

  /** A method result that makes the server panic; one that merely does not marshal does not. */
  predicate Panics(outcome: CallResult) {
    !Replies(outcome) && outcome.Fails?
  }

  lemma GetPair(k1: string, v1: Json, k2: string, v2: Json, key: string)
    ensures Get([Member(k1, v1), Member(k2, v2)], key)
            == if key == k2 then Some(v2) else if key == k1 then Some(v1) else None
  {
    var ms, first := [Member(k1, v1), Member(k2, v2)], [Member(k1, v1)];
    assert first[..|first| - 1] == [];
    assert Get(first, key) == if key == k1 then Some(v1) else None;
    assert ms[..|ms| - 1] == first;
  }

  lemma GetTriple(k1: string, v1: Json, k2: string, v2: Json, k3: string, v3: Json, key: string)
    ensures Get([Member(k1, v1), Member(k2, v2), Member(k3, v3)], key)
            == if key == k3 then Some(v3) else if key == k2 then Some(v2) else if key == k1 then Some(v1) else None
  {
    var ms := [Member(k1, v1), Member(k2, v2), Member(k3, v3)];
    GetPair(k1, v1, k2, v2, key);
    assert ms[..|ms| - 1] == [Member(k1, v1), Member(k2, v2)];
  }

  lemma ErrorIsTold(id: Json, e: Error)
    requires Replies(Fails(e))
    ensures BuildResponse(id, Fails(e)).Body?
    ensures exists error ::
              && BuildResponse(id, Fails(e)).json == JObject([Member("error", error), Member("id", id)])
              && IsError(error, e)
  {
    hide Get;
    var code, text := JNumber(CodeNumber(e) as real), JString(e.message);
    match e
    case Coded(_, kind, _) =>
      var error := [Member("code", code), Member("data", JString(kind)), Member("message", text)];
      GetTriple("code", code, "data", JString(kind), "message", text, "code");
      GetTriple("code", code, "data", JString(kind), "message", text, "data");
      GetTriple("code", code, "data", JString(kind), "message", text, "message");
      assert BuildResponse(id, Fails(e)).json == JObject([Member("error", JObject(error)), Member("id", id)]);
    case _ =>
      var error := [Member("code", code), Member("message", text)];
      GetPair("code", code, "message", text, "code");
      GetPair("code", code, "message", text, "data");
      GetPair("code", code, "message", text, "message");
      assert BuildResponse(id, Fails(e)).json == JObject([Member("error", JObject(error)), Member("id", id)]);
  }

  /** A reply is built exactly for the outcomes that can be replied with, and says what they are. */
  lemma ResultXorError(id: Json, outcome: CallResult)
    ensures BuildResponse(id, outcome).Body? <==> Replies(outcome)
    ensures BuildResponse(id, outcome).Panic? <==> Panics(outcome)
    ensures Replies(outcome) ==> IsReply(BuildResponse(id, outcome).json, id, outcome)
  {
    hide Get, IsError;
    match outcome
    case Answer(Some(result)) =>
      GetPair("id", id, "result", result, "id");
      GetPair("id", id, "result", result, "result");
      GetPair("id", id, "result", result, "error");
    case Answer(None) =>
    case Fails(e) =>
      if Replies(outcome) {
        ErrorIsTold(id, e);
        var error :| BuildResponse(id, Fails(e)).json == JObject([Member("error", error), Member("id", id)])
                     && IsError(error, e);
        GetPair("error", error, "id", id, "id");
        GetPair("error", error, "id", id, "error");
        GetPair("error", error, "id", id, "result");
      }
  }

  function CodeOf(body: Json): Option<real> {
    if !body.JObject? then None
    else
      match Get(body.members, "error")
      case Some(JObject(error)) =>
        (match Get(error, "code")
         case Some(JNumber(code)) => Some(code)
         case _ => None)
      case _ => None
  }

  /** The code on the wire is the error's own, and reserved codes mark internal errors and nothing else. */
  lemma ReservedMeansInternal(id: Json, e: Error)
    requires Replies(Fails(e))
    ensures CodeOf(BuildResponse(id, Fails(e)).json) == Some(CodeNumber(e) as real)
    ensures -32700 <= CodeNumber(e) <= -32000 <==> e.Internal?
  {
    hide Get;
    ResultXorError(id, Fails(e));
  }

  /** The codes that errors before the call carry on the wire, by what is wrong with the message. */
  lemma EarlyErrorCodes(found: Option<Method>, payload: Payload)
    ensures var p, id := ParseMessage(found, payload), IdIn(payload);
            p.error.Some? ==>
              var code := CodeOf(BuildResponse(p.id, Fails(p.error.value)).json);
              && (!IsRequest(payload) || (id.Some? && !Fits(id.value)) ==> code == Some(-32700.0))
              && (IsRequest(payload) && (id == None || (Fits(id.value) && !HasGoodId(payload))) ==>
                    code == Some(-32600.0))
              && (HasGoodId(payload) && found == None ==> code == Some(-32601.0))
              && (HasGoodId(payload) && found.Some? && ParamsIn(payload) == None ==> code == Some(-32602.0))
              && (HasGoodId(payload) && found.Some? && DecodedParams(found, payload) == Some(ArgMismatch) ==>
                    code == Some(-32602.0))
              && (HasGoodId(payload) && found.Some? && DecodedParams(found, payload) == Some(ArgSyntax) ==>
                    code == Some(-32700.0))
  {
    hide ParseMessage, BuildResponse, DecodedParams, HasGoodId, Fits, CodeOf;
    ErrorTable(found, payload);
    EarlyErrorsReply(found, payload);
    var p := ParseMessage(found, payload);
    if p.error.Some? {
      ReservedMeansInternal(p.id, p.error.value);
    }
  }

  // ---------------------------------------------------------------- one reply each

  ghost predicate WellBehaved(services: Services) {
    forall r, n, args :: Lookup(services, r).Some? ==> Replies(Lookup(services, r).value.call(n, args))
  }

  /** The method's outcome when it runs, the error before the call otherwise. */
  function Outcome(services: Services, log: Log, m: Request): CallResult
    requires RouteOf(m.topic).Some?
  {
    var route := RouteOf(m.topic).value;
    var found := Lookup(services, route);
    var p := ParseMessage(found, m.payload);
    match p.error
    case Some(e) => Fails(e)
    case None => found.value.call(NumCalls(log.calls, route), p.args)
  }

  /** A reply that is due: the message, the id to reply under, and the outcome. */
  datatype Due = Due(m: Request, id: Json, outcome: CallResult)

  /** Sent once, unretained, on the message's reply topic, and saying what the outcome was. */
  predicate IsPosted(post: Posted, due: Due) {
    && post.topic == due.m.topic + "/reply"
    && post.qos == 1 && !post.retained
    && IsReply(post.body, due.id, due.outcome)
  }

  /**
   The method runs, once, exactly when lookup, request, id and params are in order; the
   message gets one reply on its reply topic exactly when the outcome can be replied with,
   and otherwise none.
   */
  lemma OneReply(services: Services, log: Log, m: Request)
    requires RouteOf(m.topic).Some?
    ensures var route := RouteOf(m.topic).value;
            var found := Lookup(services, route);
            var h := HandleMessage(services, log, m);
            && h.log.calls == (if Runs(found, m.payload)
                               then log.calls + [Invocation(route, DecodedParams(found, m.payload).value.args)]
                               else log.calls)
            && (Replies(Outcome(services, log, m)) ==>
                  && !h.crashed
                  && |h.log.posts| == |log.posts| + 1
                  && h.log.posts[..|log.posts|] == log.posts
                  && IsPosted(h.log.posts[|log.posts|],
                              Due(m, ParseMessage(found, m.payload).id, Outcome(services, log, m))))
            && (!Replies(Outcome(services, log, m)) ==> h.log.posts == log.posts && Runs(found, m.payload))
            && (h.crashed <==> Panics(Outcome(services, log, m)))
  {
    var route := RouteOf(m.topic).value;
    var found := Lookup(services, route);
    ErrorTable(found, m.payload);
    ArgsAreDecoded(found, m.payload);
    EarlyErrorsReply(found, m.payload);
    ResultXorError(ParseMessage(found, m.payload).id, Outcome(services, log, m));
    hide IsReply, Replies;
    hide ParseMessage, BuildResponse, Runs, DecodedParams, RouteOf, Lookup;
  }

  lemma ArgsAreDecoded(found: Option<Method>, payload: Payload)
    ensures Runs(found, payload) ==> ParseMessage(found, payload).args == DecodedParams(found, payload).value.args
  {
  }

  lemma EarlyErrorsReply(found: Option<Method>, payload: Payload)
    ensures ParseMessage(found, payload).error.Some? ==> Replies(Fails(ParseMessage(found, payload).error.value))
  {
  }

  // ---------------------------------------------------------------- runs

  /** The server handles one message after the other until it crashes. */
  function HandleAll(services: Services, log: Log, ms: seq<Request>): Handled {
    if ms == [] then Handled(log, false)
    else
      var before := HandleAll(services, log, ms[..|ms| - 1]);
      if before.crashed then before else HandleMessage(services, before.log, ms[|ms| - 1])
  }

  predicate Admitted(app: string, ms: seq<Request>) {
    forall i :: 0 <= i < |ms| ==> TopicMatch(SubscriptionTopic(app), ms[i].topic)
  }

  predicate RunsMethod(services: Services, r: Route, m: Request) {
    RouteOf(m.topic) == Some(r) && Runs(Lookup(services, r), m.payload)
  }

  /** How many of the messages are in order and name this method. */
  function CountRuns(services: Services, r: Route, ms: seq<Request>): nat {
    if ms == [] then 0
    else
      var m := ms[|ms| - 1];
      CountRuns(services, r, ms[..|ms| - 1])
      + if RunsMethod(services, r, m) then 1 else 0
  }

  function DueFor(services: Services, log: Log, m: Request): Due
    requires RouteOf(m.topic).Some?
  {
    Due(m, ParseMessage(Lookup(services, RouteOf(m.topic).value), m.payload).id, Outcome(services, log, m))
  }

  /** The messages with an outcome to reply with, as long as the server is up. */
  function Answered(services: Services, ms: seq<Request>): seq<Due> {
    if ms == [] then []
    else
      var front, m := ms[..|ms| - 1], ms[|ms| - 1];
      var before := HandleAll(services, Log([], []), front);
      if !before.crashed && RouteOf(m.topic).Some? && Replies(Outcome(services, before.log, m))
      then Answered(services, front) + [DueFor(services, before.log, m)] else Answered(services, front)
  }

  /** The messages the server takes, the one it panics on included. */
  function Taken(services: Services, ms: seq<Request>): seq<Request> {
    if ms == [] then []
    else
      var front := ms[..|ms| - 1];
      if HandleAll(services, Log([], []), front).crashed then Taken(services, front) else ms
  }

  /** The k-th message makes the server panic. */
  predicate PanicsAt(services: Services, ms: seq<Request>, k: nat)
    requires k < |ms|
  {
    var before := HandleAll(services, Log([], []), ms[..k]);
    !before.crashed && RouteOf(ms[k].topic).Some? && Panics(Outcome(services, before.log, ms[k]))
  }

  ghost predicate PanicsSomewhere(services: Services, ms: seq<Request>) {
    exists k | 0 <= k < |ms| :: PanicsAt(services, ms, k)
  }

  /** One reply for each message in order, none of which the server hears, the filter having no "#". */
  predicate AnsweredInOrder(app: string, dues: seq<Due>, posts: seq<Posted>) {
    && |posts| == |dues|
    && forall i :: 0 <= i < |dues| ==>
         && IsPosted(posts[i], dues[i])
         && ("#" !in Split(app) ==> !TopicMatch(SubscriptionTopic(app), posts[i].topic))
  }

  lemma OneMoreCall(calls: seq<Invocation>, route: Route, args: Json, r: Route)
    ensures NumCalls(calls + [Invocation(route, args)], r) == NumCalls(calls, r) + if route == r then 1 else 0
  {
    assert (calls + [Invocation(route, args)])[..|calls|] == calls;
  }

  lemma OneMoreRequest(app: string, services: Services, log: Log, dues: seq<Due>, m: Request, r: Route)
    requires AnsweredInOrder(app, dues, log.posts) && TopicMatch(SubscriptionTopic(app), m.topic)
    ensures RouteOf(m.topic).Some?
    ensures var h, outcome := HandleMessage(services, log, m), Outcome(services, log, m);
            && (h.crashed <==> Panics(outcome))
            && AnsweredInOrder(app, if Replies(outcome) then dues + [DueFor(services, log, m)] else dues, h.log.posts)
            && NumCalls(h.log.calls, r) == NumCalls(log.calls, r) + if RunsMethod(services, r, m) then 1 else 0
  {
    hide TopicMatch, SubscriptionTopic, HandleMessage, RouteOf, Runs, Replies, Panics, NumCalls;
    hide Lookup, DecodedParams, Outcome, Split, IsReply, ParseMessage;
    AdmittedIsLocatable(app, m.topic);
    if "#" !in Split(app) {
      ReplyStaysOut(app, m.topic);
    }
    OneReply(services, log, m);
    var route := RouteOf(m.topic).value;
    if Runs(Lookup(services, route), m.payload) {
      OneMoreCall(log.calls, route, HandleMessage(services, log, m).log.calls[|log.calls|].args, r);
    }
  }

  lemma PanicsSooner(services: Services, ms: seq<Request>)
    requires ms != []
    ensures PanicsSomewhere(services, ms)
            <==> PanicsSomewhere(services, ms[..|ms| - 1]) || PanicsAt(services, ms, |ms| - 1)
  {
    hide HandleAll, Outcome, Panics, RouteOf;
    var front := ms[..|ms| - 1];
    forall k | 0 <= k < |front| ensures PanicsAt(services, ms, k) <==> PanicsAt(services, front, k) {
      assert ms[..k] == front[..k];
    }
  }

  lemma AllTakenWhileUp(services: Services, ms: seq<Request>)
    requires !HandleAll(services, Log([], []), ms).crashed
    ensures Taken(services, ms) == ms
  {
  }

  ghost predicate RunAgrees(app: string, services: Services, ms: seq<Request>, r: Route) {
    var h := HandleAll(services, Log([], []), ms);
    && AnsweredInOrder(app, Answered(services, ms), h.log.posts)
    && (h.crashed <==> PanicsSomewhere(services, ms))
    && NumCalls(h.log.calls, r) == CountRuns(services, r, Taken(services, ms))
  }

  lemma RunAgreesAtFirst(app: string, services: Services, r: Route)
    ensures RunAgrees(app, services, [], r)
  {
  }

  /** Once down, the server takes and sends nothing more. */
  lemma RunAgreesWhenDown(app: string, services: Services, front: seq<Request>, m: Request, r: Route)
    requires RunAgrees(app, services, front, r) && HandleAll(services, Log([], []), front).crashed
    ensures RunAgrees(app, services, front + [m], r)
  {
    hide AnsweredInOrder, PanicsSomewhere, HandleMessage, Outcome, RouteOf;
    var ms := front + [m];
    assert ms[..|ms| - 1] == front;
    PanicsSooner(services, ms);
  }

  lemma RunAgreesOn(app: string, services: Services, front: seq<Request>, m: Request, r: Route)
    requires RunAgrees(app, services, front, r) && !HandleAll(services, Log([], []), front).crashed
    requires TopicMatch(SubscriptionTopic(app), m.topic)
    ensures RunAgrees(app, services, front + [m], r)
  {
    hide TopicMatch, HandleMessage, RunsMethod, AnsweredInOrder, PanicsSomewhere, Outcome, Replies, Panics, RouteOf;
    hide NumCalls, DueFor, SubscriptionTopic;
    var ms, log := front + [m], HandleAll(services, Log([], []), front).log;
    assert ms[..|ms| - 1] == front && ms[..|front|] == front && ms[|front|] == m;
    AllTakenWhileUp(services, front);
    OneMoreRequest(app, services, log, Answered(services, front), m, r);
    PanicsSooner(services, ms);
  }

  /**
   Whatever methods return and whatever arrives on the filter: the i-th reply answers the
   i-th message that has an outcome to reply with, on its reply topic and with that outcome,
   up to a panic; the server goes down exactly at a method error outside its range of codes,
   so an answer that does not marshal leaves it serving; each method's counter is the number
   of messages taken that were in order and named it; and the server hears none of its
   replies.
   */
  lemma {:induction false} EveryRequestAnsweredOnce(app: string, services: Services, ms: seq<Request>, r: Route)
    requires Admitted(app, ms)
    ensures var h := HandleAll(services, Log([], []), ms);
            && AnsweredInOrder(app, Answered(services, ms), h.log.posts)
            && (h.crashed <==> PanicsSomewhere(services, ms))
            && (!h.crashed ==> Taken(services, ms) == ms)
            && NumCalls(h.log.calls, r) == CountRuns(services, r, Taken(services, ms))
  {
    hide AnsweredInOrder, Answered, HandleAll, PanicsSomewhere, Taken, NumCalls, CountRuns, TopicMatch;
    if ms == [] {
      RunAgreesAtFirst(app, services, r);
    } else {
      var front, m := ms[..|ms| - 1], ms[|ms| - 1];
      assert ms == front + [m];
      EveryRequestAnsweredOnce(app, services, front, r);
      if HandleAll(services, Log([], []), front).crashed {
        RunAgreesWhenDown(app, services, front, m, r);
      } else {
        RunAgreesOn(app, services, front, m, r);
      }
    }
    if !HandleAll(services, Log([], []), ms).crashed {
      AllTakenWhileUp(services, ms);
    }
  }

  /** The replies are due to just these messages, in this order. */
  predicate DueTo(dues: seq<Due>, ms: seq<Request>) {
    |dues| == |ms| && forall i :: 0 <= i < |ms| ==> dues[i].m == ms[i]
  }

  /** With methods that always return something to reply with, every message is answered and the server stays up. */
  lemma {:induction false} WellBehavedAnswersAll(app: string, services: Services, ms: seq<Request>)
    requires WellBehaved(services) && Admitted(app, ms)
    ensures DueTo(Answered(services, ms), ms)
    ensures !HandleAll(services, Log([], []), ms).crashed
  {
    if ms != [] {
      hide WellBehaved, TopicMatch, HandleMessage, Outcome, RouteOf;
      var front, m := ms[..|ms| - 1], ms[|ms| - 1];
      assert ms == front + [m];
      WellBehavedAnswersAll(app, services, front);
      WellBehavedGoesOn(app, services, HandleAll(services, Log([], []), front).log, m);
    }
  }

  lemma WellBehavedGoesOn(app: string, services: Services, log: Log, m: Request)
    requires WellBehaved(services) && TopicMatch(SubscriptionTopic(app), m.topic)
    ensures RouteOf(m.topic).Some? && Replies(Outcome(services, log, m))
    ensures !HandleMessage(services, log, m).crashed
  {
    hide WellBehaved, TopicMatch, SubscriptionTopic, HandleMessage, Outcome, RouteOf, Runs, DecodedParams, IsPosted;
    AdmittedIsLocatable(app, m.topic);
    WellBehavedReplies(services, log, m);
    OneReply(services, log, m);
  }

  lemma WellBehavedReplies(services: Services, log: Log, m: Request)
    requires WellBehaved(services) && RouteOf(m.topic).Some?
    ensures Replies(Outcome(services, log, m))
  {
    EarlyErrorsReply(Lookup(services, RouteOf(m.topic).value), m.payload);
  }

  lemma ReplyStaysOut(app: string, topic: string)
    requires "#" !in Split(app) && TopicMatch(SubscriptionTopic(app), topic)
    ensures !TopicMatch(SubscriptionTopic(app), ReplyTopic(topic))
  {
    RepliesStayOutIff(app);
    assert RepliesStayOut(app);
  }
}
