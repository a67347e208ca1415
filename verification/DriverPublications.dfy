/**
 What each event makes the driver publish, told by topic, payload and retain flag, and how
 that reaches the broker's retained store.
 */
module DriverPublications {
  import opened Topics
  import opened Messages
  import opened DriverSpec
  import opened DriverTopics
  import opened DriverFrames
  import opened DriverFlags
  import opened DriverSubscriptions
  import opened DriverDeclarations
  import DriverCleanup
  import DriverHistory

  // ---------------------------------------------------------------- the retain flag

  /** A control's last declaration says: retained, unless it is to be forgotten or is a push button. */
  function RetainBy(es: seq<Event>, name: string, control: string): bool {
    if es == [] then false
    else
      var e := es[|es| - 1];
      if e.NewControl? && e.dev.name == name && e.control.name == control
      then !e.control.forget && e.control.typ != "pushbutton"
      else RetainBy(es[..|es| - 1], name, control)
  }

  lemma AnnouncementRetain(c: Core, dev: Device, control: Control, value: string)
    ensures Announce(c, dev, control, value).reg.retain
            == c.reg.retain[ControlTopic(dev.name, control.name, []) := Retain(control)]
    ensures Enlist(c, dev, control).reg.retain == c.reg.retain
  {
    hide ControlTopic, OnTopic, Retain;
  }

  lemma DeclareRetain(c: Core, dev: Device, control: Control, restored: Option<string>)
    ensures Declare(c, dev, control, restored).reg.retain
            == c.reg.retain[ControlTopic(dev.name, control.name, []) := Retain(control)]
  {
    hide ControlMeta, ControlTopic, Announce, Enlist, Retain;
    var value, order := DeclaredValue(c, dev, control, restored), OrderFor(c, dev.name, control);
    var a := Advance(PublishMetas(c, ControlMeta(dev.name, control, order)), dev.name, order);
    AnnouncementRetain(a, dev, control, value);
    AnnouncementRetain(Announce(a, dev, control, value), dev, control, value);
  }

  lemma RegisterKeepsRetain(c: Core, dev: Device, title: string)
    ensures Register(c, dev, title).reg.retain == c.reg.retain
  {
    hide OnTopicsOf, TitleTopic;
  }

  lemma ForgetKeepsRetain(c: Core, name: string)
    ensures Forget(c, name).reg.retain == c.reg.retain
  {
    hide OnTopicsOf;
  }

  /** Only a declaration of its own control changes whether a topic is retained. */
  lemma StepRetain(s: State, e: Event)
    requires DriverCache.CacheAgrees(s)
    ensures Step(s, e).core.reg.retain
            == (if e.NewControl?
                then s.core.reg.retain[ControlTopic(e.dev.name, e.control.name, []) := Retain(e.control)]
                else s.core.reg.retain)
  {
    hide CoreStep, HandleValue, Register, Forget, Declare, Retain, ControlTopic;
    match e
    case NewDevice(dev, title) => RegisterKeepsRetain(s.core, dev, title);
    case DropDevice(name) => ForgetKeepsRetain(s.core, name);
    case NewControl(dev, control) =>
      DeclareRetain(s.core, dev, control, Received(s.topics, ControlTopic(dev.name, control.name, [])));
    case ValueMsg(topic, payload, answer) =>
      DriverCache.HandleValueAgrees(s, topic, payload, answer);
      DriverCache.FreshHandleLooksUp(DriverCache.Uncached(s), topic, payload, answer);
    case _ => CoreStepProgress(s.core, e);
  }

  /** Whether a control's values are retained is decided by its last declaration in the whole run. */
  lemma {:induction false} RetainFollowsHistory(accepts: bool, store: Store, es: seq<Event>,
                                                name: string, control: string)
    requires ValidRun(Initial(accepts, store), es) && SlashFree(name) && SlashFree(control)
    ensures Retained(Run(Initial(accepts, store), es).core, ControlTopic(name, control, []))
            == RetainBy(es, name, control)
  {
    hide *;
    if es == [] {
      NothingRetainedAtFirst(accepts, store, ControlTopic(name, control, []));
      assert !RetainBy([], name, control) by { NeverDeclared(name, control); }
    } else {
      var s0, before, e := Initial(accepts, store), es[..|es| - 1], es[|es| - 1];
      ValidPrefix(s0, es, |es| - 1);
      assert es == before + [e];
      RetainFollowsHistory(accepts, store, before, name, control);
      DriverCache.CacheAlwaysAgrees(accepts, store, before);
      DriverHistory.RunStep(s0, before, e);
      NamesAlwaysAgree(accepts, store, before);
      RetainStep(Run(s0, before), before, e, name, control);
    }
  }

  lemma NeverDeclared(name: string, control: string)
    ensures !RetainBy([], name, control)
  {
  }

  lemma NothingRetainedAtFirst(accepts: bool, store: Store, topic: string)
    ensures !Retained(Run(Initial(accepts, store), []).core, topic)
  {
  }

  lemma RetainStep(s: State, before: seq<Event>, e: Event, name: string, control: string)
    requires DriverCache.CacheAgrees(s) && NamesAgree(s.core)
    requires Enabled(s.core, e) && SlashFree(name) && SlashFree(control)
    requires Retained(s.core, ControlTopic(name, control, [])) == RetainBy(before, name, control)
    ensures Retained(Step(s, e).core, ControlTopic(name, control, [])) == RetainBy(before + [e], name, control)
  {
    hide Step, ControlTopic, DriverCache.CacheAgrees, NamesAgree;
    assert (before + [e])[..|before|] == before;
    StepRetain(s, e);
    if e.NewControl? {
      EnabledNames(s.core, e.dev, e.control);
      if ControlTopic(name, control, []) == ControlTopic(e.dev.name, e.control.name, []) {
        ControlTopicInjective(name, control, e.dev.name, e.control.name, []);
      }
    }
  }

  // ---------------------------------------------------------------- what an event publishes

  /** The messages due to any event but a declaration or a stop. */
  function PublishedFor(es: seq<Event>, e: Event): seq<Message> {
    match e
    case NewDevice(dev, title) =>
      if dev.LocalDevice? then [Message(DeviceTopic(dev.name, ["meta", "name"]), title, 1, true)] else []
    case ValueOut(dev, control, value) =>
      if dev.ExternalDevice? then [Message(ControlTopic(dev.name, control, ["on"]), value, 1, false)]
      else [Message(ControlTopic(dev.name, control, []), value, 1, RetainBy(es, dev.name, control))]
    case ErrorOut(dev, control, value) => [Message(ControlTopic(dev.name, control, ["meta", "error"]), value, 1, true)]
    case OnMsg(topic, payload, echo) =>
      var name, control := DriverHistory.Part(topic, 2), DriverHistory.Part(topic, 4);
      if echo then [Message(ControlTopic(name, control, []), payload, 1, RetainBy(es, name, control))] else []
    case _ => []
  }

  lemma OnTopicText(name: string, control: string)
    ensures ControlTopic(name, control, []) + "/on" == ControlTopic(name, control, ["on"])
  {
    var base := ["/devices", name] + (["controls", control] + []);
    assert ["/devices", name] + (["controls", control] + ["on"]) == base + ["on"];
    JoinConcat(base, ["on"]);
  }

  lemma HandlersPublishNothing(c: Core, topic: string, payload: string, answer: Option<nat>, parses: bool)
    requires |Split(topic)| >= 5
    ensures HandleTitle(c, topic, payload, answer).log.published == c.log.published
    ensures HandleType(c, topic, payload, answer).log.published == c.log.published
    ensures HandleMax(c, topic, payload, answer, parses).log.published == c.log.published
  {
    hide HandleTitle, HandleType, HandleMax;
    FeedLooksUp(c, topic, payload, answer, parses);
  }

  lemma OutPublishes(c: Core, e: Event)
    requires e.ValueOut? || e.ErrorOut?
    ensures CoreStep(c, e).log.published
            == c.log.published
               + (match e
                  case ValueOut(dev, control, value) =>
                    if dev.ExternalDevice? then [Message(ControlTopic(dev.name, control, ["on"]), value, 1, false)]
                    else var topic := ControlTopic(dev.name, control, []);
                         [Message(topic, value, 1, Retained(c, topic))]
                  case ErrorOut(dev, control, value) =>
                    [Message(ControlTopic(dev.name, control, ["meta", "error"]), value, 1, true)])
  {
    hide ControlTopic, Deposit, AddCleanup;
    if e.ValueOut? {
      OnTopicText(e.dev.name, e.controlName);
    }
  }

  lemma OnPublishes(c: Core, topic: string, payload: string, echo: bool)
    requires |Split(topic)| >= 5 && Split(topic)[2] in c.reg.devices && c.reg.devices[Split(topic)[2]].LocalDevice?
    requires c.reg.devices[Split(topic)[2]].name == Split(topic)[2]
    ensures HandleOn(c, topic, payload, echo).log.published
            == c.log.published
               + (if echo then var t := ControlTopic(Split(topic)[2], Split(topic)[4], []);
                               [Message(t, payload, 1, Retained(c, t))]
                  else [])
  {
    hide ControlTopic, Deposit, Split;
  }

  lemma RegisterPublishes(c: Core, dev: Device, title: string)
    ensures Register(c, dev, title).log.published
            == c.log.published
               + (if dev.LocalDevice? then [Message(DeviceTopic(dev.name, ["meta", "name"]), title, 1, true)] else [])
    ensures Forget(c, dev.name).log == c.log
  {
    hide OnTopicsOf, DeviceTopic, Deposit, AddCleanup;
  }

  lemma ValueLooksUp(s: State, topic: string, payload: string, answer: Option<nat>)
    requires DriverCache.CacheAgrees(s) && |Split(topic)| >= 5
    ensures LooksUp(s.core, HandleValue(s, topic, payload, answer).core)
  {
    hide HandleValue, DriverCache.FreshHandle, DriverCache.CacheAgrees;
    DriverCache.HandleValueAgrees(s, topic, payload, answer);
    DriverCache.FreshHandleLooksUp(DriverCache.Uncached(s), topic, payload, answer);
  }

  /** The retain flag that history gives, for the two names read off a topic. */
  lemma RetainOfParts(accepts: bool, store: Store, es: seq<Event>, topic: string)
    requires ValidRun(Initial(accepts, store), es) && |Split(topic)| >= 5
    ensures Retained(Run(Initial(accepts, store), es).core, ControlTopic(Split(topic)[2], Split(topic)[4], []))
            == RetainBy(es, Split(topic)[2], Split(topic)[4])
  {
    JoinSplit(topic);
    hide Run, ValidRun, Split, RetainBy, ControlTopic, SlashFree, Retained;
    assert SlashFree(Split(topic)[2]) && SlashFree(Split(topic)[4]);
    RetainFollowsHistory(accepts, store, es, Split(topic)[2], Split(topic)[4]);
  }

  /**
   In a reachable state a registration publishes the title of a local device, a value goes
   out on the control's topic with the flag of its last declaration or, from an external
   device, on its `/on` topic without one, an error as retained metadata, and an accepted
   `/on` value as its own echo; nothing else but declarations and stopping publishes.
   */
  lemma EventPublishes(accepts: bool, store: Store, es: seq<Event>, e: Event)
    requires ValidRun(Initial(accepts, store), es) && Enabled(Run(Initial(accepts, store), es).core, e)
    requires !e.NewControl? && !e.StopDriver?
    ensures Step(Run(Initial(accepts, store), es), e).core.log.published
            == Run(Initial(accepts, store), es).core.log.published + PublishedFor(es, e)
  {
    hide Run, ValidRun, HandleValue, HandleOn, HandleTitle, HandleType, HandleMax, Split, TopicMatch, ControlTopic;
    hide ExternalFilter, FeedFilter, Register, Forget, RetainBy, NamesAgree, Retained, DeviceTopic, ValidName;
    var s := Run(Initial(accepts, store), es);
    match e
    case NewDevice(dev, title) => RegisterPublishes(s.core, dev, title);
    case DropDevice(name) => DriverHistory.ForgetDevices(s.core, name);
    case ValueOut(dev, control, _) =>
      OutPublishes(s.core, e);
      ValidIsSlashFree(dev.name);
      ValidIsSlashFree(control);
      RetainFollowsHistory(accepts, store, es, dev.name, control);
    case ErrorOut(_, _, _) => OutPublishes(s.core, e);
    case ValueMsg(topic, payload, answer) =>
      FeedDelivery(ValueFeed, topic);
      DriverCache.CacheAlwaysAgrees(accepts, store, es);
      ValueLooksUp(s, topic, payload, answer);
    case TitleMsg(topic, payload, answer) =>
      FeedDelivery(TitleFeed, topic);
      HandlersPublishNothing(s.core, topic, payload, answer, true);
    case TypeMsg(topic, payload, answer) =>
      FeedDelivery(TypeFeed, topic);
      HandlersPublishNothing(s.core, topic, payload, answer, true);
    case MaxMsg(topic, payload, answer, parses) =>
      FeedDelivery(MaxFeed, topic);
      HandlersPublishNothing(s.core, topic, payload, answer, parses);
    case OnMsg(topic, payload, echo) =>
      OnMessageFindsLocalDevice(accepts, store, es, topic, payload, echo);
      NamesAlwaysAgree(accepts, store, es);
      RegisteredUnderItsName(s.core, Split(topic)[2]);
      OnPublishes(s.core, topic, payload, echo);
      RetainOfParts(accepts, store, es, topic);
    case _ =>
  }

  lemma ValidIsSlashFree(name: string)
    requires ValidName(name)
    ensures SlashFree(name)
  {
  }

  lemma RegisteredUnderItsName(c: Core, name: string)
    requires NamesAgree(c) && name in c.reg.devices
    ensures c.reg.devices[name].name == name
  {
  }

  /** Stopping a running driver publishes one empty retained message on each listed topic, and on no other. */
  lemma StopPublishes(accepts: bool, store: Store, es: seq<Event>)
    ensures var c := Run(Initial(accepts, store), es).core;
            var d := Run(Initial(accepts, store), es + [StopDriver]).core;
            && c.log.published <= d.log.published
            && (if ActiveBy(es)
                then && |d.log.published| == |c.log.published| + |c.cleanup|
                     && NoDuplicates(c.cleanup)
                     && forall i :: 0 <= i < |c.cleanup| ==>
                          d.log.published[|c.log.published| + i] == Message(c.cleanup[i], "", 1, true)
                else d.log.published == c.log.published)
  {
    hide *;
    var s := Run(Initial(accepts, store), es);
    DriverHistory.RunStep(Initial(accepts, store), es, StopDriver);
    FlagsFollowHistory(accepts, store, es);
    DriverCleanup.CleanupCoversRetained(accepts, store, es);
    StopMessages(s);
  }

  lemma StopMessages(s: State)
    requires DriverCleanup.Covered(s.core, {})
    ensures var c, d := s.core, Step(s, StopDriver).core;
            && c.log.published <= d.log.published && NoDuplicates(c.cleanup)
            && (if c.active
                then && |d.log.published| == |c.log.published| + |c.cleanup|
                     && forall i :: 0 <= i < |c.cleanup| ==>
                          d.log.published[|c.log.published| + i] == Message(c.cleanup[i], "", 1, true)
                else d.log.published == c.log.published)
  {
    hide NoDuplicates, Deposit, DepositAll;
  }

  // ---------------------------------------------------------------- the broker's store

  /** The later state has published more, and its broker has stored it. */
  predicate Flows(c: Core, d: Core) {
    && c.log.published <= d.log.published
    && d.broker.store == DepositAll(c.broker.store, d.log.published[|c.log.published|..])
  }

  predicate SameTraffic(c: Core, d: Core) {
    d.log.published == c.log.published && d.broker.store == c.broker.store
  }

  lemma SameFlows(c: Core, d: Core)
    requires SameTraffic(c, d)
    ensures Flows(c, d)
  {
  }

  lemma PublishFlows(c: Core, m: Message)
    ensures Flows(c, Publish(c, m))
  {
    hide Deposit;
    assert (c.log.published + [m])[|c.log.published|..] == [m];
    assert [m][..0] == [];
    assert DepositAll(c.broker.store, [m]) == Deposit(DepositAll(c.broker.store, []), m);
  }

  lemma FlowsOn(c: Core, d: Core, e: Core)
    requires Flows(c, d) && Flows(d, e)
    ensures Flows(c, e)
  {
    hide DepositAll;
    var a, b := d.log.published[|c.log.published|..], e.log.published[|d.log.published|..];
    DepositAllConcat(c.broker.store, a, b);
    assert e.log.published[|c.log.published|..] == a + b;
  }

  lemma {:induction false} MetasFlow(c: Core, metas: seq<(string, string)>)
    ensures Flows(c, PublishMetas(c, metas))
  {
    if metas == [] {
      SameFlows(c, c);
    } else {
      hide Flows;
      var last := metas[|metas| - 1];
      var before := PublishMetas(c, metas[..|metas| - 1]);
      MetasFlow(c, metas[..|metas| - 1]);
      MetaFlows(before, last.0, last.1);
      FlowsOn(c, before, PublishMeta(before, last.0, last.1));
    }
  }

  lemma MetaFlows(c: Core, topic: string, payload: string)
    ensures Flows(c, PublishMeta(c, topic, payload))
  {
    hide Deposit, DepositAll, AddCleanup;
    PublishFlows(c, Message(topic, payload, 1, true));
  }

  lemma AnnouncementFlows(c: Core, dev: Device, control: Control, value: string)
    ensures Flows(c, Announce(c, dev, control, value))
    ensures SameTraffic(c, Enlist(c, dev, control))
  {
    hide ControlTopic, OnTopic, Deposit, DepositAll;
    var topic := ControlTopic(dev.name, control.name, []);
    var r := c.(reg := c.reg.(retain := c.reg.retain[topic := Retain(control)]));
    SameFlows(c, r);
    PublishFlows(r, Message(topic, value, 1, Retained(r, topic)));
  }

  lemma DeclarationFlows(c: Core, dev: Device, control: Control, restored: Option<string>)
    ensures Flows(c, Declare(c, dev, control, restored))
  {
    hide ControlMeta, Announce, Enlist, OrderFor, DeclaredValue, DepositAll;
    var value, order := DeclaredValue(c, dev, control, restored), OrderFor(c, dev.name, control);
    var m := PublishMetas(c, ControlMeta(dev.name, control, order));
    var a := Advance(m, dev.name, order);
    MetasFlow(c, ControlMeta(dev.name, control, order));
    assert SameTraffic(m, a);
    hide Flows, PublishMetas, Advance;
    SameFlows(m, a);
    FlowsOn(c, m, a);
    AnnouncementFlows(a, dev, control, value);
    FlowsOn(c, a, Announce(a, dev, control, value));
    AnnouncementFlows(Announce(a, dev, control, value), dev, control, value);
    SameFlows(Announce(a, dev, control, value), Declare(c, dev, control, restored));
    FlowsOn(c, Announce(a, dev, control, value), Declare(c, dev, control, restored));
  }

  lemma RegistrationFlows(c: Core, dev: Device, title: string)
    ensures SameTraffic(c, Forget(c, dev.name))
    ensures Flows(c, Register(c, dev, title))
  {
    hide OnTopicsOf, TitleTopic, Deposit, DepositAll, PublishMeta;
    var f := Forget(c, dev.name);
    SameFlows(c, f);
    var r := f.reg.(devices := f.reg.devices[dev.name := dev]);
    if dev.LocalDevice? {
      var g := f.(reg := r.(nextOrder := r.nextOrder[dev.name := 1], controls := r.controls[dev.name := []]));
      assert SameTraffic(c, g);
      hide Flows, Forget;
      SameFlows(c, g);
      MetaFlows(g, TitleTopic(dev.name), title);
      FlowsOn(c, g, Register(c, dev, title));
    }
  }

  lemma ForgetFlows(c: Core, name: string)
    ensures Flows(c, Forget(c, name))
  {
    hide OnTopicsOf;
  }

  lemma OutFlows(c: Core, e: Event)
    requires e.ValueOut? || e.ErrorOut?
    ensures Flows(c, CoreStep(c, e))
  {
    hide Flows, Deposit, AddCleanup, ControlTopic, PublishMeta;
    match e
    case ValueOut(dev, control, value) =>
      var topic := ControlTopic(dev.name, control, []);
      PublishFlows(c, Message(topic, value, 1, Retained(c, topic)));
      PublishFlows(c, Message(topic + "/on", value, 1, false));
    case ErrorOut(dev, control, value) =>
      MetaFlows(c, ControlTopic(dev.name, control, ["meta", "error"]), value);
  }

  lemma OnFlows(c: Core, topic: string, payload: string, echo: bool)
    ensures Flows(c, HandleOn(c, topic, payload, echo))
  {
    hide Flows, Deposit, ControlTopic, Split;
    SameFlows(c, c);
    SameFlows(c, Crash(c));
    var parts := Split(topic);
    if |parts| >= 5 && parts[2] in c.reg.devices && c.reg.devices[parts[2]].LocalDevice? {
      var dev := c.reg.devices[parts[2]];
      var t := Tell(c, AcceptOnValue(dev, parts[4], payload));
      var control := ControlTopic(dev.name, parts[4], []);
      SameFlows(c, t);
      PublishFlows(t, Message(control, payload, 1, Retained(t, control)));
      FlowsOn(c, t, PublishValue(t, dev.name, parts[4], payload));
    }
  }

  lemma StopFlows(c: Core)
    ensures Flows(c, StopCore(c))
  {
    hide CleanupMessages;
    var ms := CleanupMessages(c.cleanup);
    assert (c.log.published + ms)[|c.log.published|..] == ms;
    SameFlows(c, c);
  }

  lemma LookingUpFlows(c: Core, d: Core)
    requires LooksUp(c, d)
    ensures Flows(c, d)
  {
    SameFlows(c, d);
  }

  /**
   In a reachable state the broker's retained store after an event is what the messages the
   event published have made of it, or what another client's message has.
   */
  lemma StoreFollowsMessages(accepts: bool, store: Store, es: seq<Event>, e: Event)
    requires ValidRun(Initial(accepts, store), es) && Enabled(Run(Initial(accepts, store), es).core, e)
    ensures var c, d := Run(Initial(accepts, store), es).core, Step(Run(Initial(accepts, store), es), e).core;
            if e.Foreign? then d.log.published == c.log.published && d.broker.store == Deposit(c.broker.store, e.m)
            else Flows(c, d)
  {
    hide Run, ValidRun, HandleValue, HandleOn, HandleTitle, HandleType, HandleMax, Split, TopicMatch, ControlTopic;
    hide ExternalFilter, FeedFilter, Register, Forget, Declare, StopCore, ValidName, LooksUp, Flows, Deposit;
    var s := Run(Initial(accepts, store), es);
    match e
    case NewDevice(dev, title) => RegistrationFlows(s.core, dev, title);
    case DropDevice(name) => ForgetFlows(s.core, name);
    case NewControl(dev, control) =>
      DeclarationFlows(s.core, dev, control, Received(s.topics, ControlTopic(dev.name, control.name, [])));
    case ValueOut(_, _, _) => OutFlows(s.core, e);
    case ErrorOut(_, _, _) => OutFlows(s.core, e);
    case ValueMsg(topic, payload, answer) =>
      FeedDelivery(ValueFeed, topic);
      DriverCache.CacheAlwaysAgrees(accepts, store, es);
      ValueLooksUp(s, topic, payload, answer);
      LookingUpFlows(s.core, HandleValue(s, topic, payload, answer).core);
    case TitleMsg(topic, payload, answer) =>
      FeedDelivery(TitleFeed, topic);
      FeedLooksUp(s.core, topic, payload, answer, true);
      LookingUpFlows(s.core, HandleTitle(s.core, topic, payload, answer));
    case TypeMsg(topic, payload, answer) =>
      FeedDelivery(TypeFeed, topic);
      FeedLooksUp(s.core, topic, payload, answer, true);
      LookingUpFlows(s.core, HandleType(s.core, topic, payload, answer));
    case MaxMsg(topic, payload, answer, parses) =>
      FeedDelivery(MaxFeed, topic);
      FeedLooksUp(s.core, topic, payload, answer, parses);
      LookingUpFlows(s.core, HandleMax(s.core, topic, payload, answer, parses));
    case OnMsg(topic, payload, echo) => OnFlows(s.core, topic, payload, echo);
    case StopDriver => StopFlows(s.core);
    case Foreign(_) =>
    case _ => SameFlows(s.core, CoreStep(s.core, e));
  }
}
