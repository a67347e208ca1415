/**
 The driver's device map and its calls into the model, read off the history of events.

 Nothing here is defined through the driver's own steps: `DevicesBy` says which device is
 registered under a name, `CallsBy` lists the calls that a run must have made.  The main
 results say that the driver's map and its log are exactly these.
 */
module DriverHistory {
  import opened Topics
  import opened Messages
  import opened DriverSpec
  import opened DriverTopics
  import opened DriverFrames
  import opened DriverFlags
  import opened DriverSubscriptions

  // ---------------------------------------------------------------- what history says

  type Devices = map<string, Device>

  function Part(topic: string, i: nat): string {
    if i < |Split(topic)| then Split(topic)[i] else ""
  }

  /** A message about a device adds it if it is unknown, the driver accepts it, and the model answers with one. */
  function Met(accepts: bool, ds: Devices, name: string, answer: Option<nat>): Devices {
    if name !in ds && accepts && answer.Some? then ds[name := ExternalDevice(answer.value, name)] else ds
  }

  function DevicesFor(accepts: bool, ds: Devices, e: Event): Devices {
    match e
    case NewDevice(dev, _) => ds[dev.name := dev]
    case DropDevice(name) => ds - {name}
    case ValueMsg(topic, _, answer) => Met(accepts, ds, Part(topic, 2), answer)
    case TitleMsg(topic, _, answer) => Met(accepts, ds, Part(topic, 2), answer)
    case TypeMsg(topic, _, answer) => Met(accepts, ds, Part(topic, 2), answer)
    case MaxMsg(topic, _, answer, _) => Met(accepts, ds, Part(topic, 2), answer)
    case _ => ds
  }

  /** The device each name stands for, registrations overriding and removals erasing it. */
  function DevicesBy(accepts: bool, es: seq<Event>): Devices {
    if es == [] then map[] else DevicesFor(accepts, DevicesBy(accepts, es[..|es| - 1]), es[|es| - 1])
  }

  /** The model is asked for a device when the name is unknown and the driver accepts external devices. */
  function Asked(accepts: bool, ds: Devices, name: string): seq<ModelCall> {
    if name !in ds && accepts then [AddExternalDevice(name)] else []
  }

  predicate IsExternal(ds: Devices, name: string) {
    name in ds && ds[name].ExternalDevice?
  }

  /** A value is for an external device at any time, and for a virtual one until the driver is ready. */
  predicate TakesValue(ds: Devices, name: string, ready: bool) {
    name in ds && (ds[name].ExternalDevice? || (ds[name].virtual && !ready))
  }

  /** The calls due to one event, given the devices before it and whether the driver was ready. */
  function CallsFor(accepts: bool, ds: Devices, ready: bool, e: Event): seq<ModelCall> {
    match e
    case ValueMsg(topic, payload, answer) =>
      var name := Part(topic, 2);
      var met := Met(accepts, ds, name, answer);
      Asked(accepts, ds, name)
      + (if TakesValue(met, name, ready) then [AcceptValue(met[name], Part(topic, 4), payload)] else [])
    case TitleMsg(topic, payload, answer) =>
      var name := Part(topic, 2);
      var met := Met(accepts, ds, name, answer);
      Asked(accepts, ds, name) + (if IsExternal(met, name) then [SetTitle(met[name], payload)] else [])
    case TypeMsg(topic, payload, answer) =>
      var name := Part(topic, 2);
      var met := Met(accepts, ds, name, answer);
      Asked(accepts, ds, name)
      + (if IsExternal(met, name) then [AcceptControlType(met[name], Part(topic, 4), payload)] else [])
    case MaxMsg(topic, payload, answer, parses) =>
      var name := Part(topic, 2);
      var met := Met(accepts, ds, name, answer);
      Asked(accepts, ds, name)
      + (if IsExternal(met, name) && parses then [AcceptControlRange(met[name], Part(topic, 4), payload)] else [])
    case OnMsg(topic, payload, _) =>
      if Part(topic, 2) in ds then [AcceptOnValue(ds[Part(topic, 2)], Part(topic, 4), payload)] else []
    case _ => []
  }

  function CallsBy(accepts: bool, es: seq<Event>): seq<ModelCall> {
    if es == [] then []
    else
      var before := es[..|es| - 1];
      CallsBy(accepts, before)
      + CallsFor(accepts, DevicesBy(accepts, before), BecomeReady in before, es[|es| - 1])
  }

  // ---------------------------------------------------------------- lookups

  /** A lookup asks and adds as history says, finds what is then registered, and changes nothing else. */
  lemma LookupExplained(c: Core, name: string, answer: Option<nat>)
    ensures var t, met := Ensure(c, name, answer).0, Met(c.accepts, c.reg.devices, name, answer);
            && t == c.(reg := c.reg.(devices := met),
                       log := c.log.(calls := c.log.calls + Asked(c.accepts, c.reg.devices, name)))
            && EnsureExt(c, name, answer).0 == t && Lookup(c, name, answer).0 == t
            && Ensure(c, name, answer).1 == (if name in met then Some(met[name]) else None)
            && EnsureExt(c, name, answer).1 == (if IsExternal(met, name) then Some(met[name]) else None)
            && Lookup(c, name, answer).1
               == (if c.ready then EnsureExt(c, name, answer).1 else Ensure(c, name, answer).1)
  {
    assert c.log.calls + [] == c.log.calls;
  }

  predicate Explained(c: Core, d: Core, e: Event) {
    && d.log.calls == c.log.calls + CallsFor(c.accepts, c.reg.devices, c.ready, e)
    && d.reg.devices == DevicesFor(c.accepts, c.reg.devices, e)
  }

  lemma FreshExplained(f: DriverCache.FreshState, topic: string, payload: string, answer: Option<nat>)
    requires |Split(topic)| >= 5
    ensures Explained(f.core, DriverCache.FreshHandle(f, topic, payload, answer).core, ValueMsg(topic, payload, answer))
  {
    hide Lookup, Ensure, EnsureExt, Met, Asked, Split;
    LookupExplained(f.core, Split(topic)[2], answer);
  }

  lemma ValueExplained(s: State, topic: string, payload: string, answer: Option<nat>)
    requires DriverCache.CacheAgrees(s) && |Split(topic)| >= 5
    ensures Explained(s.core, HandleValue(s, topic, payload, answer).core, ValueMsg(topic, payload, answer))
  {
    hide HandleValue, Explained, DriverCache.FreshHandle, DriverCache.CacheAgrees;
    DriverCache.HandleValueAgrees(s, topic, payload, answer);
    FreshExplained(DriverCache.Uncached(s), topic, payload, answer);
  }

  lemma TitleExplained(c: Core, topic: string, payload: string, answer: Option<nat>)
    requires |Split(topic)| >= 5
    ensures Explained(c, HandleTitle(c, topic, payload, answer), TitleMsg(topic, payload, answer))
  {
    hide Ensure, EnsureExt, Met, Asked, Split;
    LookupExplained(c, Split(topic)[2], answer);
  }

  lemma TypeExplained(c: Core, topic: string, payload: string, answer: Option<nat>)
    requires |Split(topic)| >= 5
    ensures Explained(c, HandleType(c, topic, payload, answer), TypeMsg(topic, payload, answer))
  {
    hide Ensure, EnsureExt, Met, Asked, Split;
    LookupExplained(c, Split(topic)[2], answer);
  }

  lemma MaxExplained(c: Core, topic: string, payload: string, answer: Option<nat>, parses: bool)
    requires |Split(topic)| >= 5
    ensures Explained(c, HandleMax(c, topic, payload, answer, parses), MaxMsg(topic, payload, answer, parses))
  {
    hide Ensure, EnsureExt, Met, Asked, Split;
    LookupExplained(c, Split(topic)[2], answer);
  }

  lemma OnExplained(c: Core, topic: string, payload: string, echo: bool)
    requires |Split(topic)| >= 5 && Split(topic)[2] in c.reg.devices && c.reg.devices[Split(topic)[2]].LocalDevice?
    ensures Explained(c, HandleOn(c, topic, payload, echo), OnMsg(topic, payload, echo))
  {
    hide Split, ControlTopic;
  }

  /** Outside message handling only registrations and removals touch the map, and nothing is called. */
  lemma QuietExplained(s: State, e: Event)
    requires !e.ValueMsg? && !e.TitleMsg? && !e.TypeMsg? && !e.MaxMsg? && !e.OnMsg?
    ensures Explained(s.core, Step(s, e).core, e)
  {
    hide Register, Forget, Declare, ControlTopic;
    match e
    case NewDevice(dev, title) =>
      RegisterEffect(s.core, dev, title);
      ForgetDevices(s.core, dev.name);
    case DropDevice(name) => ForgetDevices(s.core, name);
    case NewControl(dev, control) =>
      DeclareEffect(s.core, dev, control, Received(s.topics, ControlTopic(dev.name, control.name, [])));
    case _ =>
  }

  lemma ForgetDevices(c: Core, name: string)
    ensures Forget(c, name).reg.devices == c.reg.devices - {name}
    ensures Forget(c, name).log == c.log
  {
    hide OnTopicsOf;
    if name !in c.reg.devices {
      assert c.reg.devices - {name} == c.reg.devices;
    }
  }

  // ---------------------------------------------------------------- runs

  /** In a reachable state every event makes the calls, and the changes to the device map, that history says. */
  lemma StepExplained(accepts: bool, store: Store, es: seq<Event>, e: Event)
    requires ValidRun(Initial(accepts, store), es) && Enabled(Run(Initial(accepts, store), es).core, e)
    ensures Explained(Run(Initial(accepts, store), es).core, Step(Run(Initial(accepts, store), es), e).core, e)
  {
    hide Run, Explained, ValidRun, HandleValue, HandleOn, HandleTitle, HandleType, HandleMax, Split, TopicMatch;
    hide ExternalFilter, FeedFilter, ValidName, Register, Forget, Declare;
    var s := Run(Initial(accepts, store), es);
    match e
    case ValueMsg(topic, payload, answer) =>
      FeedDelivery(ValueFeed, topic);
      DriverCache.CacheAlwaysAgrees(accepts, store, es);
      ValueExplained(s, topic, payload, answer);
    case TitleMsg(topic, payload, answer) =>
      FeedDelivery(TitleFeed, topic);
      TitleExplained(s.core, topic, payload, answer);
    case TypeMsg(topic, payload, answer) =>
      FeedDelivery(TypeFeed, topic);
      TypeExplained(s.core, topic, payload, answer);
    case MaxMsg(topic, payload, answer, parses) =>
      FeedDelivery(MaxFeed, topic);
      MaxExplained(s.core, topic, payload, answer, parses);
    case OnMsg(topic, payload, echo) =>
      OnMessageFindsLocalDevice(accepts, store, es, topic, payload, echo);
      OnExplained(s.core, topic, payload, echo);
    case _ => QuietExplained(s, e);
  }

  /**
   Over every run the device map is the one history tells, and the driver has made exactly
   the calls history asks for, with these arguments and in this order: one AcceptValue for
   each value message to an external device or, before readiness, a virtual one; a title,
   type or range for external devices only; one AcceptOnValue for each `/on` message; and
   one AddExternalDevice before the first of these to an unknown name.
   */
  lemma {:induction false} CallsFollowHistory(accepts: bool, store: Store, es: seq<Event>)
    requires ValidRun(Initial(accepts, store), es)
    ensures var c := Run(Initial(accepts, store), es).core;
            c.reg.devices == DevicesBy(accepts, es) && c.log.calls == CallsBy(accepts, es)
  {
    hide *;
    if es == [] {
      NoHistory(accepts, store);
    } else {
      var s0, before, e := Initial(accepts, store), es[..|es| - 1], es[|es| - 1];
      ValidPrefix(s0, es, |es| - 1);
      CallsFollowHistory(accepts, store, before);
      FlagsFollowHistory(accepts, store, before);
      StepExplained(accepts, store, before, e);
      assert es == before + [e];
      RunStep(s0, before, e);
      HistoryStep(Run(s0, before).core, Run(s0, es).core, before, e);
    }
  }

  lemma NoHistory(accepts: bool, store: Store)
    ensures var c := Run(Initial(accepts, store), []).core;
            c.reg.devices == DevicesBy(accepts, []) && c.log.calls == CallsBy(accepts, [])
  {
  }

  lemma RunStep(s0: State, before: seq<Event>, e: Event)
    ensures Run(s0, before + [e]) == Step(Run(s0, before), e)
  {
    hide Step;
    assert (before + [e])[..|before|] == before;
  }

  lemma HistoryStep(c: Core, d: Core, before: seq<Event>, e: Event)
    requires c.reg.devices == DevicesBy(c.accepts, before) && c.log.calls == CallsBy(c.accepts, before)
    requires c.ready == (BecomeReady in before) && Explained(c, d, e)
    ensures d.reg.devices == DevicesBy(c.accepts, before + [e]) && d.log.calls == CallsBy(c.accepts, before + [e])
  {
    MoreDevices(c, d, before, e);
    hide DevicesBy, CallsFor, CallsBy;
    MoreCalls(c.accepts, before, e);
  }

  lemma MoreDevices(c: Core, d: Core, before: seq<Event>, e: Event)
    requires c.reg.devices == DevicesBy(c.accepts, before) && Explained(c, d, e)
    ensures d.reg.devices == DevicesBy(c.accepts, before + [e])
  {
    hide CallsFor, DevicesFor;
    var es := before + [e];
    assert es[..|es| - 1] == before && es[|es| - 1] == e;
  }

  lemma MoreCalls(accepts: bool, before: seq<Event>, e: Event)
    ensures CallsBy(accepts, before + [e])
            == CallsBy(accepts, before) + CallsFor(accepts, DevicesBy(accepts, before), BecomeReady in before, e)
  {
    hide CallsFor, DevicesBy;
    var es := before + [e];
    assert es[..|es| - 1] == before && es[|es| - 1] == e;
  }

  /**
   One value message in a reachable state.  A registered device that is external, or
   virtual before readiness, is given the value under the control's name, and any other
   registered device nothing.  For an unknown name the model is asked if the driver accepts
   external devices, and the device it answers with, if any, is given the value.
   */
  lemma ValueIsDelivered(accepts: bool, store: Store, es: seq<Event>,
                         topic: string, payload: string, answer: Option<nat>)
    requires ValidRun(Initial(accepts, store), es)
    ensures var c := Run(Initial(accepts, store), es).core;
            var calls := Step(Run(Initial(accepts, store), es), ValueMsg(topic, payload, answer)).core.log.calls;
            var parts, ds := Split(topic), c.reg.devices;
            Fed(c, ValueFeed, topic) ==>
            && |parts| == 5
            && (parts[2] in ds && (ds[parts[2]].ExternalDevice? || (ds[parts[2]].virtual && BecomeReady !in es)) ==>
                  calls == c.log.calls + [AcceptValue(ds[parts[2]], parts[4], payload)])
            && (parts[2] in ds && ds[parts[2]].LocalDevice? && (!ds[parts[2]].virtual || BecomeReady in es) ==>
                  calls == c.log.calls)
            && (parts[2] !in ds && accepts && answer.Some? ==>
                  calls == c.log.calls + [AddExternalDevice(parts[2]),
                                          AcceptValue(ExternalDevice(answer.value, parts[2]), parts[4], payload)])
            && (parts[2] !in ds && accepts && answer.None? ==> calls == c.log.calls + [AddExternalDevice(parts[2])])
            && (parts[2] !in ds && !accepts ==> calls == c.log.calls)
  {
    hide Run, Step, ValidRun, FeedFilter, TopicMatch, Split;
    if Fed(Run(Initial(accepts, store), es).core, ValueFeed, topic) {
      ValueDelivery(topic);
      FlagsFollowHistory(accepts, store, es);
      StepExplained(accepts, store, es, ValueMsg(topic, payload, answer));
    }
  }
}
