/**
 `/on` subscriptions against the controls declared, over whole runs.

 `Declared` reads off the run alone which controls ought to be writable; the main result
 is that the broker holds exactly their filters, so every message on a live filter finds
 a local device and no handler can fail.
 */
module DriverSubscriptions {
  import opened Topics
  import opened Messages
  import opened DriverSpec
  import opened DriverTopics
  import opened DriverFrames
  import DriverCache

  // ---------------------------------------------------------------- histories

  type Pair = (string, string)

  function Without(pairs: set<Pair>, name: string): set<Pair> {
    set p | p in pairs && p.0 != name
  }

  /** Controls declared other than read-only on their device since it was last registered. */
  function Declared(es: seq<Event>): set<Pair> {
    if es == [] then {}
    else
      var before := Declared(es[..|es| - 1]);
      match es[|es| - 1]
      case NewDevice(dev, _) => Without(before, dev.name)
      case DropDevice(name) => Without(before, name)
      case NewControl(dev, control) =>
        if control.writability == ForceReadOnly then before else before + {(dev.name, control.name)}
      case _ => before
  }

  /** The feeds a run has subscribed to. */
  function Feeds(accepts: bool, es: seq<Event>): set<string> {
    if accepts && FinishStart in es then ExternalFilters() else {}
  }

  function OnTopics(pairs: set<Pair>): set<string> {
    set p | p in pairs :: OnTopic(p.0, p.1)
  }

  // ---------------------------------------------------------------- the invariant

  predicate NamesAgree(c: Core) {
    && (forall n :: n in c.reg.devices ==>
          c.reg.devices[n].name == n && (c.reg.devices[n].LocalDevice? ==> ValidName(n) && n in c.reg.controls))
    && (forall n :: n in c.reg.controls ==>
          && n in c.reg.devices && c.reg.devices[n].LocalDevice?
          && forall i :: 0 <= i < |c.reg.controls[n]| ==> ValidName(c.reg.controls[n][i]))
  }

  predicate Listed(c: Core, p: Pair) {
    p.0 in c.reg.controls && p.1 in c.reg.controls[p.0]
  }

  predicate SubsAgree(c: Core, declared: set<Pair>, feeds: set<string>) {
    && NamesAgree(c)
    && (forall p :: p in declared ==> Listed(c, p))
    && (forall f :: f in feeds ==> ExternalFilter(f))
    && c.broker.filters == feeds + OnTopics(declared)
  }

  lemma ListedNames(c: Core, p: Pair)
    requires NamesAgree(c) && Listed(c, p)
    ensures ValidName(p.0) && ValidName(p.1)
  {
    var i :| 0 <= i < |c.reg.controls[p.0]| && c.reg.controls[p.0][i] == p.1;
  }

  /** Dropping a device's filters removes those of its declared controls and no others. */
  lemma ForgetRemovesOwnFilters(c: Core, declared: set<Pair>, feeds: set<string>, name: string)
    requires SubsAgree(c, declared, feeds) && name in c.reg.controls
    ensures c.broker.filters - OnTopicsOf(name, c.reg.controls[name]) == feeds + OnTopics(Without(declared, name))
  {
    hide OnTopic, ExternalFilter;
    var own, kept := OnTopicsOf(name, c.reg.controls[name]), Without(declared, name);
    forall f | f in own ensures f !in feeds + OnTopics(kept) {
      var i :| 0 <= i < |c.reg.controls[name]| && f == OnTopic(name, c.reg.controls[name][i]);
      OnTopicNotExternal(name, c.reg.controls[name][i]);
      forall p | p in kept ensures f != OnTopic(p.0, p.1) {
        ListedNames(c, p);
        OnTopicsDiffer(name, c.reg.controls[name][i], p.0, p.1);
      }
    }
    forall p | p in declared && p.0 == name ensures OnTopic(p.0, p.1) in own {
      var i :| 0 <= i < |c.reg.controls[name]| && c.reg.controls[name][i] == p.1;
    }
    forall f | f in c.broker.filters && f !in own ensures f in feeds + OnTopics(kept) {
      if f !in feeds {
        var p :| p in declared && f == OnTopic(p.0, p.1);
        assert p in kept;
      }
    }
  }

  lemma OnTopicsDiffer(d1: string, c1: string, d2: string, c2: string)
    requires ValidName(d1) && ValidName(c1) && ValidName(d2) && ValidName(c2)
    requires d1 != d2
    ensures OnTopic(d1, c1) != OnTopic(d2, c2)
  {
    if OnTopic(d1, c1) == OnTopic(d2, c2) {
      ControlTopicInjective(d1, c1, d2, c2, ["on"]);
    }
  }

  // ---------------------------------------------------------------- steps

  lemma ForgetAgrees(c: Core, declared: set<Pair>, feeds: set<string>, name: string)
    requires SubsAgree(c, declared, feeds)
    ensures SubsAgree(Forget(c, name), Without(declared, name), feeds)
    ensures name !in Forget(c, name).reg.devices && name !in Forget(c, name).reg.controls
  {
    hide OnTopic, OnTopics, OnTopicsOf, ExternalFilter;
    if name in c.reg.controls {
      ForgetRemovesOwnFilters(c, declared, feeds, name);
    } else {
      forall p | p in declared ensures p.0 != name {
        assert Listed(c, p);
      }
      assert Without(declared, name) == declared;
    }
    forall p | p in Without(declared, name) ensures Listed(Forget(c, name), p) {
      assert Listed(c, p);
    }
  }

  lemma RegisterAgrees(c: Core, declared: set<Pair>, feeds: set<string>, dev: Device, title: string)
    requires SubsAgree(c, declared, feeds) && ValidName(dev.name)
    ensures SubsAgree(Register(c, dev, title), Without(declared, dev.name), feeds)
  {
    hide Register, Forget, OnTopics, ExternalFilter, ValidName;
    ForgetAgrees(c, declared, feeds, dev.name);
    RegisterEffect(c, dev, title);
    var f, r := Forget(c, dev.name), Register(c, dev, title);
    forall p | p in Without(declared, dev.name) ensures Listed(r, p) {
      assert Listed(f, p);
    }
  }

  lemma DeclareAgrees(c: Core, declared: set<Pair>, feeds: set<string>, dev: Device, control: Control,
                      restored: Option<string>)
    requires SubsAgree(c, declared, feeds) && Enabled(c, NewControl(dev, control))
    ensures SubsAgree(Declare(c, dev, control, restored),
                      if control.writability == ForceReadOnly then declared else declared + {(dev.name, control.name)},
                          feeds)
  {
    hide Declare, OnTopic, ExternalFilter, ValidName;
    DeclareEffect(c, dev, control, restored);
    var d := Declare(c, dev, control, restored);
    var more := if control.writability == ForceReadOnly then declared else declared + {(dev.name, control.name)};
    var list := c.reg.controls[dev.name] + [control.name];
    assert d.reg.controls[dev.name] == list && list[|list| - 1] == control.name;
    forall p | p in declared ensures Listed(d, p) {
      assert Listed(c, p);
      if p.0 == dev.name {
        var i :| 0 <= i < |c.reg.controls[p.0]| && c.reg.controls[p.0][i] == p.1;
        assert list[i] == p.1;
      }
    }
    assert OnTopics(more) == OnTopics(declared)
                             + (if control.writability != ForceReadOnly then {OnTopic(dev.name, control.name)} else {});
  }

  lemma ProgressAgrees(c: Core, declared: set<Pair>, feeds: set<string>, d: Core)
    requires SubsAgree(c, declared, feeds) && Progress(c, d) && d.broker.filters == c.broker.filters
    ensures SubsAgree(d, declared, feeds)
  {
    hide OnTopics, ExternalFilter, ValidName;
    forall p | p in declared ensures Listed(d, p) {
      assert Listed(c, p);
    }
  }

  lemma FinishStartAgrees(c: Core, declared: set<Pair>, feeds: set<string>)
    requires SubsAgree(c, declared, feeds)
    ensures SubsAgree(SubscribeExternal(c), declared, if c.accepts then feeds + ExternalFilters() else feeds)
  {
    hide OnTopics, FeedFilter, ValidName;
    forall p | p in declared ensures Listed(SubscribeExternal(c), p) {
      assert Listed(c, p);
    }
  }

  lemma HandleValueKeepsFilters(s: State, topic: string, payload: string, answer: Option<nat>)
    requires DriverCache.CacheAgrees(s)
    ensures Progress(s.core, HandleValue(s, topic, payload, answer).core)
    ensures HandleValue(s, topic, payload, answer).core.broker.filters == s.core.broker.filters
    ensures |Split(topic)| >= 5 ==> HandleValue(s, topic, payload, answer).core.crashed == s.core.crashed
  {
    hide HandleValue, DriverCache.FreshHandle;
    DriverCache.HandleValueAgrees(s, topic, payload, answer);
    DriverCache.FreshHandleLooksUp(DriverCache.Uncached(s), topic, payload, answer);
    if |Split(topic)| < 5 {
      DriverCache.ShortTopicCrashes(DriverCache.Uncached(s), topic, payload, answer);
    }
  }

  lemma StepAgrees(s: State, before: seq<Event>, e: Event)
    requires DriverCache.CacheAgrees(s) && Enabled(s.core, e)
    requires SubsAgree(s.core, Declared(before), Feeds(s.core.accepts, before))
    ensures SubsAgree(Step(s, e).core, Declared(before + [e]), Feeds(s.core.accepts, before + [e]))
    ensures Step(s, e).core.accepts == s.core.accepts
  {
    hide CoreStep, HandleValue, Register, Forget, Declare, SubsAgree, ExternalFilters;
    assert (before + [e])[..|before|] == before;
    assert FinishStart in before + [e] <==> FinishStart in before || e == FinishStart;
    var declared, feeds := Declared(before), Feeds(s.core.accepts, before);
    match e
    case NewDevice(dev, title) =>
      RegisterAgrees(s.core, declared, feeds, dev, title);
      RegisterEffect(s.core, dev, title);
    case DropDevice(name) =>
      ForgetAgrees(s.core, declared, feeds, name);
      ForgetKeepsCalls(s.core, name);
    case NewControl(dev, control) =>
      var restored := Received(s.topics, ControlTopic(dev.name, control.name, []));
      DeclareAgrees(s.core, declared, feeds, dev, control, restored);
      DeclareEffect(s.core, dev, control, restored);
    case ValueMsg(topic, payload, answer) =>
      HandleValueKeepsFilters(s, topic, payload, answer);
      ProgressAgrees(s.core, declared, feeds, Step(s, e).core);
    case FinishStart =>
      FinishStartAgrees(s.core, declared, feeds);
      FinishStartStep(s.core);
      assert feeds + ExternalFilters() == ExternalFilters();
    case _ =>
      CoreStepProgress(s.core, e);
      ProgressAgrees(s.core, declared, feeds, Step(s, e).core);
  }

  lemma FinishStartStep(c: Core)
    ensures CoreStep(c, FinishStart) == SubscribeExternal(c)
    ensures SubscribeExternal(c).accepts == c.accepts
  {
  }

  /**
   In every reachable state the filters held at the broker are the feeds, once subscribed,
   and exactly one `/on` filter for each control declared writable on a device that is
   still registered; each such device is local.
   */
  lemma {:induction false} SubscriptionsMatchDeclarations(accepts: bool, store: Store, es: seq<Event>)
    requires ValidRun(Initial(accepts, store), es)
    ensures var c := Run(Initial(accepts, store), es).core;
            && c.accepts == accepts
            && SubsAgree(c, Declared(es), Feeds(accepts, es))
            && c.broker.filters == Feeds(accepts, es) + OnTopics(Declared(es))
            && forall p :: p in Declared(es) ==> p.0 in c.reg.devices && c.reg.devices[p.0].LocalDevice?
  {
    hide Step, Feeds, SubsAgree, Declared, OnTopics, Enabled;
    var s0 := Initial(accepts, store);
    if es == [] {
      InitialAgrees(accepts, store);
    } else {
      hide DriverCache.CacheAgrees, ValidRun;
      var before, e := es[..|es| - 1], es[|es| - 1];
      ValidPrefix(s0, es, |es| - 1);
      SubscriptionsMatchDeclarations(accepts, store, before);
      DriverCache.CacheAlwaysAgrees(accepts, store, before);
      StepAgrees(Run(s0, before), before, e);
      assert before + [e] == es;
    }
    AgreementMeans(Run(s0, es).core, Declared(es), Feeds(accepts, es));
  }

  lemma NamesAlwaysAgree(accepts: bool, store: Store, es: seq<Event>)
    requires ValidRun(Initial(accepts, store), es)
    ensures NamesAgree(Run(Initial(accepts, store), es).core)
  {
    hide Run, ValidRun, NamesAgree, Declared, OnTopics;
    SubscriptionsMatchDeclarations(accepts, store, es);
  }

  lemma AgreementMeans(c: Core, declared: set<Pair>, feeds: set<string>)
    requires SubsAgree(c, declared, feeds)
    ensures c.broker.filters == feeds + OnTopics(declared)
    ensures forall p :: p in declared ==> p.0 in c.reg.devices && c.reg.devices[p.0].LocalDevice?
  {
    forall p | p in declared ensures p.0 in c.reg.devices && c.reg.devices[p.0].LocalDevice? {
      assert Listed(c, p);
    }
  }

  lemma InitialAgrees(accepts: bool, store: Store)
    ensures Declared([]) == {}
    ensures SubsAgree(InitialCore(accepts, store), {}, Feeds(accepts, []))
  {
    assert OnTopics({}) == {};
  }

  // ---------------------------------------------------------------- no handler fails

  /** A message on a live `/on` filter names a declared control of a registered local device, and reaches it. */
  lemma OnMessageFindsLocalDevice(accepts: bool, store: Store, es: seq<Event>, topic: string, payload: string,
                                  echo: bool)
    requires ValidRun(Initial(accepts, store), es)
    ensures var c := Run(Initial(accepts, store), es).core;
            var parts := Split(topic);
            OnDelivered(c, topic) ==>
            && |parts| == 6
            && (parts[2], parts[4]) in Declared(es)
            && parts[2] in c.reg.devices && c.reg.devices[parts[2]].LocalDevice?
            && HandleOn(c, topic, payload, echo) == OnLocal(c, c.reg.devices[parts[2]], parts[4], payload, echo)
  {
    hide Run, ValidRun, ValidName, HandleOn, OnLocal, ExternalFilter, Split, TopicMatch, OnTopic;
    SubscriptionsMatchDeclarations(accepts, store, es);
    var c := Run(Initial(accepts, store), es).core;
    if f :| f in c.broker.filters && !ExternalFilter(f) && TopicMatch(f, topic) {
      var p :| p in Declared(es) && f == OnTopic(p.0, p.1);
      ListedNames(c, p);
      OnDelivery(p.0, p.1, topic);
      OnProgress(c, topic, payload, echo);
    }
  }

  /** In every reachable state at most one live filter matches a message. */
  lemma OneFilterPerMessage(accepts: bool, store: Store, es: seq<Event>, f: string, g: string, topic: string)
    requires ValidRun(Initial(accepts, store), es)
    ensures var filters := Run(Initial(accepts, store), es).core.broker.filters;
            f in filters && g in filters && TopicMatch(f, topic) && TopicMatch(g, topic) ==> f == g
  {
    hide Run, ValidRun, TopicMatch;
    SubscriptionsMatchDeclarations(accepts, store, es);
    var c := Run(Initial(accepts, store), es).core;
    LiveFiltersKnown(c, Declared(es), Feeds(accepts, es));
    FiltersDisjoint(f, g, topic);
  }

  lemma LiveFiltersKnown(c: Core, declared: set<Pair>, feeds: set<string>)
    requires SubsAgree(c, declared, feeds)
    ensures forall f :: f in c.broker.filters ==> DriverFilter(f)
  {
    hide ValidName, OnTopic, ExternalFilter;
    forall f | f in c.broker.filters ensures DriverFilter(f) {
      if f !in feeds {
        var p :| p in declared && f == OnTopic(p.0, p.1);
        ListedNames(c, p);
      }
    }
  }

  lemma StepDoesNotCrash(s: State, e: Event)
    requires DriverCache.CacheAgrees(s) && Enabled(s.core, e) && !e.OnMsg?
    ensures Step(s, e).core.crashed == s.core.crashed
  {
    hide HandleValue, HandleTitle, HandleType, HandleMax, HandleOn, Register, Forget, Declare, StopCore, TopicMatch,
         Split, FeedFilter;
    match e
    case NewDevice(dev, title) => RegisterEffect(s.core, dev, title);
    case DropDevice(name) => ForgetKeepsCalls(s.core, name);
    case NewControl(dev, control) =>
      DeclareEffect(s.core, dev, control, Received(s.topics, ControlTopic(dev.name, control.name, [])));
    case ValueMsg(topic, payload, answer) =>
      FeedDelivery(ValueFeed, topic);
      HandleValueKeepsFilters(s, topic, payload, answer);
    case TitleMsg(topic, payload, answer) =>
      FeedDelivery(TitleFeed, topic);
      TitleLooksUp(s.core, topic, payload, answer);
    case TypeMsg(topic, payload, answer) =>
      FeedDelivery(TypeFeed, topic);
      FeedLooksUp(s.core, topic, payload, answer, true);
    case MaxMsg(topic, payload, answer, parses) =>
      FeedDelivery(MaxFeed, topic);
      FeedLooksUp(s.core, topic, payload, answer, parses);
    case StopDriver => StopProgress(s.core);
    case _ =>
  }

  /** No valid run ever indexes a topic out of range or fails the `/on` handler's type assertion. */
  lemma {:induction false} NoHandlerFails(accepts: bool, store: Store, es: seq<Event>)
    requires ValidRun(Initial(accepts, store), es)
    ensures !Run(Initial(accepts, store), es).core.crashed
  {
    hide Step, HandleOn, OnLocal, ValidRun, Enabled, DriverCache.CacheAgrees;
    var s0 := Initial(accepts, store);
    if es != [] {
      var before, e := es[..|es| - 1], es[|es| - 1];
      ValidPrefix(s0, es, |es| - 1);
      NoHandlerFails(accepts, store, before);
      DriverCache.CacheAlwaysAgrees(accepts, store, before);
      var s := Run(s0, before);
      if e.OnMsg? {
        OnMessageFindsLocalDevice(accepts, store, before, e.topic, e.payload, e.echo);
        OnLocalProgress(s.core, s.core.reg.devices[Split(e.topic)[2]], Split(e.topic)[4], e.payload, e.echo);
        OnStep(s, e);
      } else {
        StepDoesNotCrash(s, e);
      }
    }
  }

  lemma OnStep(s: State, e: Event)
    requires e.OnMsg?
    ensures Step(s, e).core == HandleOn(s.core, e.topic, e.payload, e.echo)
  {
    hide HandleOn;
  }

  // ---------------------------------------------------------------- order numbers

  /** The orders of a device's declarations since it was last registered. */
  function DeclaredOrders(s0: State, es: seq<Event>, name: string): seq<int> {
    if es == [] then []
    else
      var before := es[..|es| - 1];
      var orders := DeclaredOrders(s0, before, name);
      match es[|es| - 1]
      case NewDevice(dev, _) => if dev.name == name then [] else orders
      case DropDevice(n) => if n == name then [] else orders
      case NewControl(dev, control) =>
        if dev.name == name then orders + [OrderFor(Run(s0, before).core, name, control)] else orders
      case _ => orders
  }

  function Largest(orders: seq<int>): (m: int)
    ensures m >= 0
    ensures forall i :: 0 <= i < |orders| ==> orders[i] <= m
    ensures m > 0 ==> m in orders
  {
    if orders == [] then 0
    else
      var rest, last := Largest(orders[..|orders| - 1]), orders[|orders| - 1];
      if last > rest then last else rest
  }

  predicate CountersAgree(s0: State, es: seq<Event>) {
    var c := Run(s0, es).core;
    forall n :: n in c.reg.devices && c.reg.devices[n].LocalDevice? ==>
      n in c.reg.nextOrder && c.reg.nextOrder[n] == 1 + Largest(DeclaredOrders(s0, es, n))
  }

  lemma RegistrationCounters(s: State, e: Event)
    requires e.NewDevice? || e.DropDevice?
    ensures var c, d := s.core, Step(s, e).core;
            var name := if e.NewDevice? then e.dev.name else e.name;
            && (forall n :: n != name && n in d.reg.devices ==>
                  n in c.reg.devices && c.reg.devices[n] == d.reg.devices[n])
            && (forall n :: n != name && n in c.reg.nextOrder ==>
                  n in d.reg.nextOrder && d.reg.nextOrder[n] == c.reg.nextOrder[n])
            && (name in d.reg.devices && d.reg.devices[name].LocalDevice? ==>
                  name in d.reg.nextOrder && d.reg.nextOrder[name] == 1)
  {
    hide CoreStep, HandleValue, Register, Declare, OnTopicsOf;
    if e.NewDevice? {
      RegisterEffect(s.core, e.dev, e.title);
    }
  }

  lemma StepCounters(s0: State, before: seq<Event>, e: Event)
    requires DriverCache.CacheAgrees(Run(s0, before)) && CountersAgree(s0, before)
    requires Enabled(Run(s0, before).core, e)
    ensures CountersAgree(s0, before + [e])
  {
    hide CoreStep, HandleValue, Register, Forget, Declare;
    var es, s := before + [e], Run(s0, before);
    assert es[..|before|] == before;
    assert Run(s0, es) == Step(s, e);
    match e
    case NewDevice(_, _) => RegistrationCounters(s, e);
    case DropDevice(_) => RegistrationCounters(s, e);
    case NewControl(_, _) => DeclarationCounters(s0, before, e);
    case ValueMsg(topic, payload, answer) => HandleValueKeepsFilters(s, topic, payload, answer);
    case _ => CoreStepProgress(s.core, e);
  }

  lemma DeclarationCounters(s0: State, before: seq<Event>, e: Event)
    requires CountersAgree(s0, before) && e.NewControl? && Enabled(Run(s0, before).core, e)
    ensures CountersAgree(s0, before + [e])
  {
    hide *;
    var es, c, name := before + [e], Run(s0, before).core, e.dev.name;
    var order, orders := OrderFor(c, name, e.control), DeclaredOrders(s0, before, name);
    DeclarationStep(s0, before, e);
    LargestOfMore(orders, order);
    CounterOfRegistered(s0, before, e.dev, e.control);
    AdvancedCounter(c, name, order, Largest(orders));
    CountersCarry(s0, before, es, name);
  }

  lemma CounterOfRegistered(s0: State, es: seq<Event>, dev: Device, control: Control)
    requires CountersAgree(s0, es) && Enabled(Run(s0, es).core, NewControl(dev, control))
    ensures var c := Run(s0, es).core;
            dev.name in c.reg.nextOrder && c.reg.nextOrder[dev.name] == 1 + Largest(DeclaredOrders(s0, es, dev.name))
  {
    hide Run, DeclaredOrders, Largest, ValidName;
  }

  lemma CountersCarry(s0: State, before: seq<Event>, es: seq<Event>, name: string)
    requires CountersAgree(s0, before)
    requires Run(s0, es).core.reg.devices == Run(s0, before).core.reg.devices
    requires Run(s0, es).core.reg.nextOrder
             == Run(s0, before).core.reg.nextOrder[name := 1 + Largest(DeclaredOrders(s0, es, name))]
    requires forall n :: n != name ==> DeclaredOrders(s0, es, n) == DeclaredOrders(s0, before, n)
    ensures CountersAgree(s0, es)
  {
    hide Run, DeclaredOrders, Largest;
  }

  lemma AdvancedCounter(c: Core, name: string, order: int, largest: int)
    requires name in c.reg.nextOrder && c.reg.nextOrder[name] == 1 + largest
    ensures Advance(c, name, order).reg.nextOrder
            == c.reg.nextOrder[name := 1 + if order > largest then order else largest]
  {
    assert c.reg.nextOrder == c.reg.nextOrder[name := 1 + largest];
  }

  /** A declaration is given the order that `OrderFor` says, and moves its device's counter past it. */
  lemma DeclarationStep(s0: State, before: seq<Event>, e: Event)
    requires e.NewControl? && Enabled(Run(s0, before).core, e)
    ensures var c, d, name := Run(s0, before).core, Run(s0, before + [e]).core, e.dev.name;
            var order := OrderFor(c, name, e.control);
            && d.reg.devices == c.reg.devices
            && DeclaredOrders(s0, before + [e], name) == DeclaredOrders(s0, before, name) + [order]
            && (forall n :: n != name ==> DeclaredOrders(s0, before + [e], n) == DeclaredOrders(s0, before, n))
            && d.reg.nextOrder == Advance(c, name, order).reg.nextOrder
  {
    hide Declare, OrderFor;
    var s := Run(s0, before);
    assert (before + [e])[..|before|] == before;
    DeclareEffect(s.core, e.dev, e.control, Received(s.topics, ControlTopic(e.dev.name, e.control.name, [])));
  }

  lemma LargestOfMore(orders: seq<int>, n: int)
    ensures Largest(orders + [n]) == if n > Largest(orders) then n else Largest(orders)
  {
    assert (orders + [n])[..|orders|] == orders;
  }

  lemma InitialCounters(s0: State)
    requires s0.core.reg.devices == map[]
    ensures CountersAgree(s0, [])
  {
  }

  /** Each local device's counter is one more than the largest order declared on it since registration. */
  lemma {:induction false} CountersExceedOrders(accepts: bool, store: Store, es: seq<Event>)
    requires ValidRun(Initial(accepts, store), es)
    ensures CountersAgree(Initial(accepts, store), es)
  {
    hide Step, CountersAgree, Enabled;
    var s0 := Initial(accepts, store);
    if es == [] {
      InitialCounters(s0);
    } else {
      ValidPrefix(s0, es, |es| - 1);
      CountersExceedOrders(accepts, store, es[..|es| - 1]);
      DriverCache.CacheTransparent(accepts, store, es[..|es| - 1]);
      StepCounters(s0, es[..|es| - 1], es[|es| - 1]);
      assert es[..|es| - 1] + [es[|es| - 1]] == es;
    }
  }

  ghost predicate CountersLocal(c: Core) {
    forall n :: n in c.reg.nextOrder <==> n in c.reg.devices && c.reg.devices[n].LocalDevice?
  }

  lemma RegistrationLocal(c: Core, dev: Device, title: string)
    requires CountersLocal(c)
    ensures CountersLocal(Register(c, dev, title))
  {
    ForgetLocal(c, dev.name);
    hide Register, Forget;
    RegisterEffect(c, dev, title);
  }

  lemma ForgetLocal(c: Core, name: string)
    requires CountersLocal(c)
    ensures CountersLocal(Forget(c, name)) && name !in Forget(c, name).reg.nextOrder
  {
    hide OnTopicsOf;
  }

  lemma StepLocal(s: State, e: Event)
    requires DriverCache.CacheAgrees(s) && CountersLocal(s.core) && Enabled(s.core, e)
    ensures CountersLocal(Step(s, e).core)
  {
    hide CoreStep, HandleValue, Register, Forget, Declare, ValidName, DriverCache.CacheAgrees;
    match e
    case NewDevice(dev, title) => RegistrationLocal(s.core, dev, title);
    case DropDevice(name) => ForgetLocal(s.core, name);
    case NewControl(dev, control) =>
      DeclareEffect(s.core, dev, control, Received(s.topics, ControlTopic(dev.name, control.name, [])));
    case ValueMsg(topic, payload, answer) => HandleValueKeepsFilters(s, topic, payload, answer);
    case _ => CoreStepProgress(s.core, e);
  }

  /** In every reachable state exactly the registered local devices have a counter. */
  lemma {:induction false} CountersAreOfLocals(accepts: bool, store: Store, es: seq<Event>)
    requires ValidRun(Initial(accepts, store), es)
    ensures CountersLocal(Run(Initial(accepts, store), es).core)
  {
    hide Step, CountersLocal, Enabled, ValidRun;
    if es == [] {
      NoCountersAtFirst(accepts, store);
    } else {
      ValidPrefix(Initial(accepts, store), es, |es| - 1);
      CountersAreOfLocals(accepts, store, es[..|es| - 1]);
      DriverCache.CacheAlwaysAgrees(accepts, store, es[..|es| - 1]);
      StepLocal(Run(Initial(accepts, store), es[..|es| - 1]), es[|es| - 1]);
    }
  }

  lemma NoCountersAtFirst(accepts: bool, store: Store)
    ensures CountersLocal(Initial(accepts, store).core)
  {
  }

  predicate ExceedsAll(order: int, orders: seq<int>) {
    forall o :: o in orders ==> o < order
  }

  /**
   The order of a declaration is larger than every order declared on its device since
   registration exactly when it is automatic or the explicit order reaches the counter.
   */
  lemma OrderIsFreshIff(accepts: bool, store: Store, es: seq<Event>, dev: Device, control: Control)
    requires ValidRun(Initial(accepts, store), es + [NewControl(dev, control)])
    ensures var s0 := Initial(accepts, store);
            var c := Run(s0, es).core;
            var order := OrderFor(c, dev.name, control);
            && order > 0
            && (ExceedsAll(order, DeclaredOrders(s0, es, dev.name))
                <==> control.order <= 0 || control.order >= Counter(c, dev.name))
  {
    hide Run, ValidRun, ValidName, Largest, DeclaredOrders, ExceedsAll;
    var s0 := Initial(accepts, store);
    ValidPrefix(s0, es + [NewControl(dev, control)], |es|);
    assert (es + [NewControl(dev, control)])[..|es|] == es;
    CountersExceedOrders(accepts, store, es);
    var c, orders := Run(s0, es).core, DeclaredOrders(s0, es, dev.name);
    assert Counter(c, dev.name) == 1 + Largest(orders);
    ExceedsAllIff(orders, OrderFor(c, dev.name, control));
    hide CountersAgree, Enabled;
  }

  lemma ExceedsAllIff(orders: seq<int>, order: int)
    ensures order > 0 ==> (ExceedsAll(order, orders) <==> order > Largest(orders))
  {
  }
}
