/** The driver's topics and filters: what splitting them gives back, and which never meet. */
module DriverTopics {
  import opened Topics
  import opened DriverSpec

  lemma DeviceTopicParts(name: string, sub: seq<string>)
    requires SlashFree(name) && AllSlashFree(sub)
    ensures Split(DeviceTopic(name, sub)) == ["", "devices", name] + sub
  {
    var tail := [name] + sub;
    var parts := ["", "devices"] + tail;
    assert parts == ["", "devices", name] + sub;
    assert ["/devices", name] + sub == ["/devices"] + tail;
    JoinConcat(["/devices"], tail);
    JoinConcat(["", "devices"], tail);
    assert Join(["", "devices"]) == "/devices" == Join(["/devices"]) by {
      assert ["", "devices"][1..] == ["devices"];
      assert Join(["devices"]) == "devices";
    }
    SplitJoin(parts);
  }

  lemma ControlTopicParts(name: string, control: string, sub: seq<string>)
    requires SlashFree(name) && SlashFree(control) && AllSlashFree(sub)
    ensures Split(ControlTopic(name, control, sub)) == ["", "devices", name, "controls", control] + sub
  {
    DeviceTopicParts(name, ["controls", control] + sub);
    assert ["", "devices", name] + (["controls", control] + sub) == ["", "devices", name, "controls", control] + sub;
  }

  /** Two slash-free pairs that build the same control topic are the same pair. */
  lemma ControlTopicInjective(d1: string, c1: string, d2: string, c2: string, sub: seq<string>)
    requires SlashFree(d1) && SlashFree(c1) && SlashFree(d2) && SlashFree(c2) && AllSlashFree(sub)
    requires ControlTopic(d1, c1, sub) == ControlTopic(d2, c2, sub)
    ensures d1 == d2 && c1 == c2
  {
    ControlTopicParts(d1, c1, sub);
    ControlTopicParts(d2, c2, sub);
    var p := Split(ControlTopic(d1, c1, sub));
    assert p[2] == d1 == d2 && p[4] == c1 == c2;
  }

  /** A topic with these five parts is the control topic of its third and fifth. */
  lemma ControlTopicOf(topic: string)
    requires |Split(topic)| == 5
    requires Split(topic)[0] == "" && Split(topic)[1] == "devices" && Split(topic)[3] == "controls"
    ensures topic == ControlTopic(Split(topic)[2], Split(topic)[4], [])
  {
    var p := Split(topic);
    JoinSplit(topic);
    ControlTopicParts(p[2], p[4], []);
    assert p == ["", "devices", p[2], "controls", p[4]] + [];
    JoinSplit(ControlTopic(p[2], p[4], []));
  }

  lemma JoinTwo(a: string, b: string)
    ensures Join([a, b]) == a + "/" + b
  {
    assert [a, b][1..] == [b];
    assert Join([b]) == b;
  }

  lemma JoinFour(a: string, b: string, c: string, d: string)
    ensures Join([a, b, c, d]) == a + "/" + b + "/" + (c + "/" + d)
  {
    assert [a, b, c, d] == [a, b] + [c, d];
    JoinConcat([a, b], [c, d]);
    JoinTwo(a, b);
    JoinTwo(c, d);
  }

  lemma FeedParts(feed: Feed)
    ensures Split(FeedFilter(feed)) == ["", "devices", "+"] + FeedLevels(feed)
  {
    DeviceTopicParts("+", FeedLevels(feed));
  }

  lemma TwoLevels(x: string, y: string)
    ensures DeviceTopic("+", [x, y]) == "/devices/+/" + x + "/" + y
  {
    assert ["/devices", "+"] + [x, y] == ["/devices", "+", x, y];
    JoinFour("/devices", "+", x, y);
  }

  lemma FourLevels(x: string, y: string, z: string, w: string)
    ensures DeviceTopic("+", [x, y, z, w]) == "/devices/+/" + x + "/" + y + "/" + z + "/" + w
  {
    assert ["/devices", "+"] + [x, y, z, w] == (["/devices", "+"] + [x, y]) + [z, w];
    JoinConcat(["/devices", "+"] + [x, y], [z, w]);
    TwoLevels(x, y);
    JoinTwo(z, w);
  }

  /** The filters as driver.go spells them. */
  lemma FilterText()
    ensures FeedFilter(TitleFeed) == "/devices/+/meta/name"
    ensures FeedFilter(ValueFeed) == "/devices/+/controls/+"
    ensures FeedFilter(TypeFeed) == "/devices/+/controls/+/meta/type"
    ensures FeedFilter(MaxFeed) == "/devices/+/controls/+/meta/max"
  {
    hide DeviceTopic;
    TwoLevels("meta", "name");
    TwoLevels("controls", "+");
    FourLevels("controls", "+", "meta", "type");
    FourLevels("controls", "+", "meta", "max");
  }

  lemma FourFeeds()
    ensures ExternalFilters()
            == {FeedFilter(TitleFeed), FeedFilter(ValueFeed), FeedFilter(TypeFeed), FeedFilter(MaxFeed)}
  {
    hide FeedFilter;
    forall f | f in ExternalFilters()
      ensures f in {FeedFilter(TitleFeed), FeedFilter(ValueFeed), FeedFilter(TypeFeed), FeedFilter(MaxFeed)}
    {
      var feed: Feed :| f == FeedFilter(feed);
      match feed case TitleFeed => case ValueFeed => case TypeFeed => case MaxFeed =>
    }
    forall feed: Feed ensures FeedFilter(feed) in ExternalFilters() {
    }
  }

  /** An accepting driver subscribes to these four filters. */
  lemma FourFilters()
    ensures ExternalFilters() == {"/devices/+/meta/name", "/devices/+/controls/+",
                                  "/devices/+/controls/+/meta/type", "/devices/+/controls/+/meta/max"}
  {
    FourFeeds();
    FilterText();
    hide FeedFilter, ExternalFilters;
  }

  // ---------------------------------------------------------------- delivery

  /** The handler a topic belongs to, read off its parts. */
  datatype Route = Feeding(feed: Feed) | ToOn | Nowhere

  function RouteOf(parts: seq<string>): Route {
    if |parts| == 5 && parts[3] == "meta" then Feeding(TitleFeed)
    else if |parts| == 5 && parts[3] == "controls" then Feeding(ValueFeed)
    else if |parts| == 7 && parts[6] == "type" then Feeding(TypeFeed)
    else if |parts| == 7 && parts[6] == "max" then Feeding(MaxFeed)
    else if |parts| == 6 then ToOn
    else Nowhere
  }

  lemma FeedMatch(feed: Feed, topic: string)
    requires TopicMatch(FeedFilter(feed), topic)
    ensures |Split(topic)| == 3 + |FeedLevels(feed)|
    ensures Split(topic)[0] == "" && Split(topic)[1] == "devices"
    ensures forall i :: 0 <= i < |FeedLevels(feed)| ==> LevelMatch(FeedLevels(feed)[i], Split(topic)[3 + i])
  {
    FeedParts(feed);
    var p, t := Split(FeedFilter(feed)), Split(topic);
    var levels := FeedLevels(feed);
    assert "#" !in levels;
    HashFreeMatch(p, t);
    assert LevelMatch(p[0], t[0]) && LevelMatch(p[1], t[1]);
    forall i | 0 <= i < |levels| ensures LevelMatch(levels[i], t[3 + i]) {
      assert LevelMatch(p[3 + i], t[3 + i]);
    }
  }

  lemma FeedRoute(feed: Feed, t: seq<string>)
    requires |t| == 3 + |FeedLevels(feed)|
    requires forall i :: 0 <= i < |FeedLevels(feed)| ==> LevelMatch(FeedLevels(feed)[i], t[3 + i])
    ensures RouteOf(t) == Feeding(feed)
  {
    assert LevelMatch(FeedLevels(feed)[0], t[3]);
    if feed == TypeFeed || feed == MaxFeed {
      assert LevelMatch(FeedLevels(feed)[3], t[6]);
    }
  }

  /** A match guarantees every part the feed's handler reads, and tells the feed apart from all others. */
  lemma FeedDelivery(feed: Feed, topic: string)
    requires TopicMatch(FeedFilter(feed), topic)
    ensures |Split(topic)| == 3 + |FeedLevels(feed)| >= 5
    ensures RouteOf(Split(topic)) == Feeding(feed)
  {
    FeedMatch(feed, topic);
    FeedRoute(feed, Split(topic));
  }

  lemma ValueDelivery(topic: string)
    requires TopicMatch(FeedFilter(ValueFeed), topic)
    ensures |Split(topic)| == 5
    ensures topic == ControlTopic(Split(topic)[2], Split(topic)[4], [])
  {
    FeedMatch(ValueFeed, topic);
    assert LevelMatch(FeedLevels(ValueFeed)[0], Split(topic)[3]);
    ControlTopicOf(topic);
  }

  lemma OnTopicParts(name: string, control: string)
    requires ValidName(name) && ValidName(control)
    ensures Split(OnTopic(name, control)) == ["", "devices", name, "controls", control, "on"]
    ensures Literal(Split(OnTopic(name, control)))
  {
    ControlTopicParts(name, control, ["on"]);
    var p := Split(OnTopic(name, control));
    assert p == ["", "devices", name, "controls", control, "on"];
    assert '+' in "+" && '#' in "#";
    assert name != "+" && name != "#" && control != "+" && control != "#";
  }

  lemma OnTopicNotExternal(name: string, control: string)
    requires ValidName(name) && ValidName(control)
    ensures !ExternalFilter(OnTopic(name, control))
  {
    OnTopicParts(name, control);
    forall feed: Feed ensures OnTopic(name, control) != FeedFilter(feed) {
      FeedParts(feed);
    }
  }

  lemma OnDelivery(name: string, control: string, topic: string)
    requires ValidName(name) && ValidName(control)
    requires TopicMatch(OnTopic(name, control), topic)
    ensures topic == OnTopic(name, control)
    ensures |Split(topic)| == 6 && Split(topic)[2] == name && Split(topic)[4] == control
  {
    OnTopicParts(name, control);
    LiteralMatchesItself(OnTopic(name, control), topic);
  }

  ghost predicate OnFilter(f: string) {
    exists d, c :: ValidName(d) && ValidName(c) && f == OnTopic(d, c)
  }

  /** A filter the driver ever subscribes to. */
  ghost predicate DriverFilter(f: string) {
    ExternalFilter(f) || OnFilter(f)
  }

  lemma DeliveryRoute(f: string, topic: string)
    requires DriverFilter(f) && TopicMatch(f, topic)
    ensures match RouteOf(Split(topic))
            case Feeding(feed) => f == FeedFilter(feed)
            case ToOn => f == topic
            case Nowhere => false
  {
    if feed: Feed :| f == FeedFilter(feed) {
      FeedDelivery(feed, topic);
    } else {
      var d, c :| ValidName(d) && ValidName(c) && f == OnTopic(d, c);
      OnDelivery(d, c, topic);
    }
  }

  /** No topic reaches two of the driver's handlers: filters that share a topic are the same filter. */
  lemma FiltersDisjoint(f: string, g: string, topic: string)
    ensures DriverFilter(f) && DriverFilter(g) && TopicMatch(f, topic) && TopicMatch(g, topic) ==> f == g
  {
    if DriverFilter(f) && DriverFilter(g) && TopicMatch(f, topic) && TopicMatch(g, topic) {
      DeliveryRoute(f, topic);
      DeliveryRoute(g, topic);
    }
  }
}
