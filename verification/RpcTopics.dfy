/** The topics of the RPC server: what its filter admits, and what a request topic names. */
module RpcTopics {
  import opened Messages
  import opened Topics

  function Prefix(app: string): string {
    "/rpc/v1/" + app
  }

  function SubscriptionTopic(app: string): string {
    Prefix(app) + "/+/+/+"
  }

  function RequestTopic(app: string, service: string, name: string, client: string): string {
    Prefix(app) + "/" + Join([service, name, client])
  }

  /** Where the server announces a method when it starts. */
  function MethodTopic(app: string, service: string, name: string): string {
    Prefix(app) + "/" + Join([service, name])
  }

  function ReplyTopic(topic: string): string {
    topic + "/reply"
  }

  datatype Route = Route(service: string, name: string)

  /** The names the server reads off a topic; None where it panics. */
  function RouteOf(topic: string): Option<Route> {
    var parts := Split(topic);
    if |parts| < 3 then None else Some(Route(parts[|parts| - 3], parts[|parts| - 2]))
  }

  lemma FilterParts(app: string)
    ensures Split(SubscriptionTopic(app)) == Split(Prefix(app)) + ["+", "+", "+"]
  {
    var wild := ["+", "+", "+"];
    assert Join(wild) == "+/+/+" by {
      assert wild[1..] == ["+", "+"] && wild[1..][1..] == ["+"];
    }
    assert SubscriptionTopic(app) == Prefix(app) + "/" + Join(wild);
    SplitConcat(Prefix(app), Join(wild));
    SplitJoin(wild);
  }

  lemma PrefixParts(app: string)
    ensures Split(Prefix(app)) == ["", "rpc", "v1"] + Split(app)
  {
    assert Prefix(app) == "" + "/" + ("rpc" + "/" + ("v1" + "/" + app));
    SplitHead("", "rpc" + "/" + ("v1" + "/" + app));
    SplitHead("rpc", "v1" + "/" + app);
    SplitHead("v1", app);
  }

  /** The levels of an application name that are multi-level wildcards, if any, are those of the filter. */
  lemma FilterHashFree(app: string)
    ensures "#" in Split(SubscriptionTopic(app)) <==> "#" in Split(app)
  {
    FilterParts(app);
    PrefixParts(app);
    assert "#" !in ["", "rpc", "v1"] && "#" !in ["+", "+", "+"];
  }

  lemma RequestParts(app: string, service: string, name: string, client: string)
    requires AllSlashFree([service, name, client])
    ensures Split(RequestTopic(app, service, name, client)) == Split(Prefix(app)) + [service, name, client]
  {
    SplitConcat(Prefix(app), Join([service, name, client]));
    SplitJoin([service, name, client]);
  }

  /** For an application without wildcard levels, the filter leaves three levels free and no more. */
  lemma FilterLevels(app: string, topic: string)
    requires Literal(Split(app))
    ensures TopicMatch(SubscriptionTopic(app), topic)
            <==> var base, t := Split(Prefix(app)), Split(topic);
                 |t| == |base| + 3 && t[..|base|] == base
  {
    var p, t, base := Split(SubscriptionTopic(app)), Split(topic), Split(Prefix(app));
    var n := |base|;
    FilterParts(app);
    PrefixParts(app);
    FilterHashFree(app);
    hide Split, Prefix, SubscriptionTopic;
    HashFreeMatch(p, t);
    assert forall i :: 0 <= i < n ==> p[i] == base[i] && base[i] != "+";
    if |t| == n + 3 {
      assert LevelsMatch(p, t, |p|) <==> forall i :: 0 <= i < n ==> base[i] == t[i];
    }
  }

  ghost predicate IsRequestTopic(app: string, topic: string) {
    exists service, name, client ::
      AllSlashFree([service, name, client]) && topic == RequestTopic(app, service, name, client)
  }

  /**
   For an application without wildcard levels the filter admits exactly the topics built
   from a service, a method and a client, slashes in the application's own name included.
   */
  lemma FilterAdmitsRequests(app: string, topic: string)
    requires Literal(Split(app))
    ensures TopicMatch(SubscriptionTopic(app), topic) <==> IsRequestTopic(app, topic)
  {
    hide Split, Prefix, SubscriptionTopic, Join, TopicMatch;
    FilterLevels(app, topic);
    var t, base := Split(topic), Split(Prefix(app));
    var n := |base|;
    if TopicMatch(SubscriptionTopic(app), topic) {
      JoinSplit(topic);
      JoinSplit(Prefix(app));
      JoinConcat(base, t[n..]);
      assert t == base + t[n..] && t[n..] == [t[n], t[n + 1], t[n + 2]];
      assert topic == RequestTopic(app, t[n], t[n + 1], t[n + 2]);
    }
    if service, name, client :|
      AllSlashFree([service, name, client]) && topic == RequestTopic(app, service, name, client) {
      RequestParts(app, service, name, client);
    }
  }

  /** A multi-level wildcard among the first levels of a filter admits whatever goes on from these levels. */
  lemma AdmitsBelow(base: seq<string>, rest: seq<string>, more: seq<string>)
    requires "#" in base
    ensures PartsMatch(base + rest, base + more)
  {
    var p, t := base + rest, base + more;
    MatcherMeetsStandard(p, t);
    var k := FirstHash(p);
    var i :| 0 <= i < |base| && base[i] == "#";
    assert p[i] == "#";
    FirstHashIsFirst(p, i);
    assert forall j :: 0 <= j < k ==> p[j] == t[j];
  }

  /**
   A request topic is admitted and names its own service and method, whatever the
   application is called.
   */
  lemma RequestIsRouted(app: string, service: string, name: string, client: string)
    requires AllSlashFree([service, name, client])
    ensures TopicMatch(SubscriptionTopic(app), RequestTopic(app, service, name, client))
    ensures RouteOf(RequestTopic(app, service, name, client)) == Some(Route(service, name))
  {
    var base, wild, names := Split(Prefix(app)), ["+", "+", "+"], [service, name, client];
    RequestParts(app, service, name, client);
    FilterParts(app);
    hide Split, Prefix, SubscriptionTopic, RequestTopic;
    if "#" in base {
      AdmitsBelow(base, wild, names);
    } else {
      assert "#" !in wild;
      HashFreeMatch(base + wild, base + names);
    }
  }

  /** Whatever the filter admits has the parts that locating a method reads, for every application. */
  lemma AdmittedIsLocatable(app: string, topic: string)
    requires TopicMatch(SubscriptionTopic(app), topic)
    ensures RouteOf(topic).Some?
  {
    var p, t := Split(SubscriptionTopic(app)), Split(topic);
    FilterParts(app);
    PrefixParts(app);
    assert p[0] == "" && p[1] == "rpc" && p[2] == "v1";
    hide Split, Prefix, SubscriptionTopic;
    MatcherMeetsStandard(p, t);
    assert FirstHash(p) >= 3;
  }

  /** Method announcements are taken for requests exactly when a level of the application's name is "#". */
  lemma AnnouncementIsNoRequest(app: string, service: string, name: string)
    requires AllSlashFree([service, name])
    ensures TopicMatch(SubscriptionTopic(app), MethodTopic(app, service, name)) <==> "#" in Split(app)
  {
    var base, wild, names := Split(Prefix(app)), ["+", "+", "+"], [service, name];
    FilterParts(app);
    PrefixParts(app);
    FilterHashFree(app);
    SplitConcat(Prefix(app), Join(names));
    SplitJoin(names);
    hide Split, Prefix, SubscriptionTopic;
    if "#" in base {
      AdmitsBelow(base, wild, names);
    } else {
      HashFreeMatch(base + wild, base + names);
    }
  }

  lemma ReplyParts(topic: string)
    ensures Split(ReplyTopic(topic)) == Split(topic) + ["reply"]
  {
    assert ReplyTopic(topic) == topic + "/" + "reply";
    SplitConcat(topic, "reply");
    SplitSlashFree("reply");
  }

  ghost predicate RepliesStayOut(app: string) {
    forall topic :: TopicMatch(SubscriptionTopic(app), topic) ==> !TopicMatch(SubscriptionTopic(app), ReplyTopic(topic))
  }

  /**
   Under this matcher the server never receives its own replies exactly when no level of the
   application's name is "#".  A broker that follows section 4.7.1.2 of MQTT 3.1.1 refuses a
   filter with such a level before its last one.
   */
  lemma RepliesStayOutIff(app: string)
    ensures RepliesStayOut(app) <==> "#" !in Split(app)
  {
    var filter := SubscriptionTopic(app);
    var p := Split(filter);
    FilterHashFree(app);
    if "#" !in Split(app) {
      forall topic | TopicMatch(filter, topic)
        ensures !TopicMatch(filter, ReplyTopic(topic))
      {
        ReplyParts(topic);
        HashFreeMatch(p, Split(topic));
        HashFreeMatch(p, Split(ReplyTopic(topic)));
      }
    } else {
      MatcherMeetsStandard(p, p);
      ReplyParts(filter);
      MatcherMeetsStandard(p, p + ["reply"]);
      assert p[..|p|] == p;
      assert FirstHash(p) < |p|;
      assert TopicMatch(filter, filter) && TopicMatch(filter, ReplyTopic(filter));
    }
  }
}
