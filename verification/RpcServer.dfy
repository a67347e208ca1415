/** The RPC server as an object: parsing fills in its results step by step, counters and the client change in place. */
module RpcServerObject {
  import opened Messages
  import opened Topics
  import opened RpcTopics
  import opened RpcSpec
  import opened RpcReplies

  class MqttRpcServer {
    const app: string
    var serviceMap: Services
    var numCalls: map<Route, nat>
    var posts: seq<Posted>
    ghost var calls: seq<Invocation>

    /** The counters agree with the calls made. */
    ghost predicate Valid()
      reads this
    {
      forall r :: NumCalls(calls, r) == if r in numCalls then numCalls[r] else 0
    }

    ghost function View(): Log
      reads this
    {
      Log(calls, posts)
    }

    constructor (appName: string, services: Services)
      ensures Valid() && View() == Log([], [])
      ensures app == appName && serviceMap == services
    {
      app, serviceMap := appName, services;
      numCalls, posts, calls := map[], [], [];
    }

    /** None for an id in order; the id itself is not kept otherwise. */
    method ValidateId(id: Json) returns (error: Option<Error>)
      ensures error == if ValidId(id) then None else Some(INVALID_REQUEST)
    {
      match id {
        case JNull => error := None;
        case JString(_) => error := None;
        case JNumber(x) => error := if x == x.Floor as real then None else Some(INVALID_REQUEST);
        case _ => error := Some(INVALID_REQUEST);
      }
    }

    method ParseRequest(payload: Payload, target: Option<Json -> ArgResult>)
      returns (id: Json, error: Option<Error>, args: Json)
      ensures Parsed(id, error, args) == RpcSpec.ParseRequest(payload, target)
    {
      id, error, args := JNull, None, JNull;
      var members := RequestMembers(payload);
      if members.None? {
        error := Some(PARSE_ERROR);
        return;
      }
      var reqId := Present(members.value, "id");
      if reqId.None? {
        error := Some(INVALID_REQUEST);
        return;
      }
      id := Salvaged(reqId.value);
      if !Fits(reqId.value) {
        error := Some(PARSE_ERROR);
        return;
      }
      SalvagedWhenFits(reqId.value);
      error := ValidateId(id);
      if error.Some? {
        id := JNull;
        return;
      }
      if target.None? {
        return;
      }
      var reqParams := Present(members.value, "params");
      if reqParams.None? {
        error := Some(INVALID_PARAMS);
        return;
      }
      match target.value(reqParams.value) {
        case Args(decoded) =>
          args := decoded;
        case ArgSyntax =>
          id := JNull;
          error := Some(PARSE_ERROR);
        case ArgMismatch =>
          error := Some(INVALID_PARAMS);
      }
    }

    method LocateMethod(topic: string) returns (crashed: bool, route: Route, found: Option<Method>)
      ensures crashed <==> RouteOf(topic) == None
      ensures !crashed ==> RouteOf(topic) == Some(route) && found == Lookup(serviceMap, route)
    {
      var parts := Split(topic);
      route, found := Route("", ""), None;
      crashed := |parts| < 3;
      if crashed {
        return;
      }
      route := Route(parts[|parts| - 3], parts[|parts| - 2]);
      if route.service !in serviceMap {
        return;
      }
      var methods := serviceMap[route.service];
      if route.name in methods {
        found := Some(methods[route.name]);
      }
    }

    method ParseMessage(found: Option<Method>, payload: Payload)
        returns (replyId: Json, error: Option<Error>, args: Json)
      ensures Parsed(replyId, error, args) == RpcSpec.ParseMessage(found, payload)
    {
      if found.None? {
        error, replyId, args := Some(METHOD_NOT_FOUND), JNull, JNull;
        var id, error1, _ := ParseRequest(payload, None);
        if error1.Some? {
          error := error1;
          return;
        }
        replyId := id;
        return;
      }
      replyId, error, args := ParseRequest(payload, Some(found.value.decode));
    }

    /** Counts the call and makes it. */
    method Call(route: Route, m: Method, args: Json) returns (outcome: CallResult)
      requires Valid()
      modifies this`numCalls, this`calls
      ensures Valid() && calls == old(calls) + [Invocation(route, args)]
      ensures outcome == m.call(NumCalls(old(calls), route), args)
    {
      var n := if route in numCalls then numCalls[route] else 0;
      outcome := m.call(n, args);
      numCalls := numCalls[route := n + 1];
      calls := calls + [Invocation(route, args)];
      assert calls[..|calls| - 1] == old(calls);
    }

    method Publish(topic: string, body: Json, qos: nat, retained: bool)
      modifies this`posts
      ensures posts == old(posts) + [Posted(topic, body, qos, retained)]
    {
      posts := posts + [Posted(topic, body, qos, retained)];
    }

    method HandleMessage(m: Request) returns (crashed: bool)
      requires Valid()
      modifies this
      ensures Valid() && serviceMap == old(serviceMap)
      ensures Handled(View(), crashed) == RpcSpec.HandleMessage(serviceMap, old(View()), m)
    {
      hide RpcSpec.ParseMessage, BuildResponse, Lookup, RouteOf, NumCalls;
      var route, found;
      crashed, route, found := LocateMethod(m.topic);
      if crashed {
        return;
      }
      var replyId, error, args := ParseMessage(found, m.payload);
      var outcome;
      if error.None? {
        outcome := Call(route, found.value, args);
      } else {
        outcome := Fails(error.value);
      }
      var response := BuildResponse(replyId, outcome);
      match response {
        case Panic => crashed := true;
        case Unmarshallable =>
        case Body(json) => Publish(ReplyTopic(m.topic), json, 1, false);
      }
    }
  }
}
