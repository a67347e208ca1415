/** What each of the driver's steps may change: the facts every invariant proof starts from. */
module DriverFrames {
  import opened Topics
  import opened Messages
  import opened DriverSpec

  /**
   A call allowed to a driver with this readiness: no hardware device accepts values, and
   after readiness no local one; `/on` values go to local devices, metadata to external ones.
   */
  predicate SafeCall(ready: bool, call: ModelCall) {
    match call
    case AcceptValue(dev, _, _) => !SkipsRetained(dev) && (ready ==> dev.ExternalDevice?)
    case AcceptOnValue(dev, _, _) => dev.LocalDevice?
    case AddExternalDevice(_) => true
    case SetTitle(dev, _) => dev.ExternalDevice?
    case AcceptControlType(dev, _, _) => dev.ExternalDevice?
    case AcceptControlRange(dev, _, _) => dev.ExternalDevice?
  }

  predicate SafeCallsFrom(ready: bool, calls: seq<ModelCall>, from: nat) {
    forall i :: from <= i < |calls| ==> SafeCall(ready, calls[i])
  }

  predicate DevicesExtend(c: Core, d: Core) {
    && (forall n :: n in c.reg.devices ==> n in d.reg.devices && d.reg.devices[n] == c.reg.devices[n])
    && (forall n :: n in d.reg.devices && n !in c.reg.devices ==>
          d.reg.devices[n].ExternalDevice? && d.reg.devices[n].name == n)
  }

  predicate CallsExtend(c: Core, d: Core) {
    c.log.calls <= d.log.calls && SafeCallsFrom(c.ready, d.log.calls, |c.log.calls|)
  }

  /** The step touches only the list of devices, by adding external ones, and the log of calls. */
  predicate LooksUp(c: Core, d: Core) {
    && DevicesExtend(c, d)
    && CallsExtend(c, d)
    && d == c.(reg := c.reg.(devices := d.reg.devices), log := c.log.(calls := d.log.calls))
  }

  /** What any step other than a registration, a removal or a declaration may do. */
  predicate Progress(c: Core, d: Core) {
    && DevicesExtend(c, d)
    && CallsExtend(c, d)
    && d.reg == c.reg.(devices := d.reg.devices)
    && d.accepts == c.accepts
    && (c.ready ==> d.ready)
  }

  predicate KeepsDevices(c: Core, d: Core) {
    d.reg.devices == c.reg.devices && d.log.calls == c.log.calls && d.ready == c.ready
    && d.accepts == c.accepts && d.crashed == c.crashed
  }

  // ---------------------------------------------------------------- lookups

  lemma EnsureLooksUp(c: Core, name: string, answer: Option<nat>)
    ensures LooksUp(c, Ensure(c, name, answer).0)
    ensures var (t, dev) := Ensure(c, name, answer);
            dev.Some? ==> name in t.reg.devices && t.reg.devices[name] == dev.value
    ensures name in c.reg.devices ==> Ensure(c, name, answer) == (c, Some(c.reg.devices[name]))
  {
  }

  /** A lookup finds the registered device, an external one once the driver is ready. */
  lemma LookupFinds(c: Core, name: string, answer: Option<nat>)
    ensures LooksUp(c, Lookup(c, name, answer).0) && LooksUp(c, EnsureExt(c, name, answer).0)
    ensures var dev := EnsureExt(c, name, answer).1; dev.Some? ==> dev.value.ExternalDevice?
    ensures var (t, dev) := Lookup(c, name, answer);
            dev.Some? ==> name in t.reg.devices && t.reg.devices[name] == dev.value
                          && (c.ready ==> dev.value.ExternalDevice?)
    ensures name in c.reg.devices && (c.ready ==> c.reg.devices[name].ExternalDevice?)
            ==> Lookup(c, name, answer) == (c, Some(c.reg.devices[name]))
  {
    hide Ensure;
    EnsureLooksUp(c, name, answer);
  }

  lemma TellLooksUp(c: Core, d: Core, call: ModelCall)
    requires LooksUp(c, d) && SafeCall(c.ready, call)
    ensures LooksUp(c, Tell(d, call))
  {
  }

  lemma OfferLooksUp(c: Core, d: Core, dev: Device, control: string, payload: string)
    requires LooksUp(c, d) && (c.ready ==> dev.ExternalDevice?)
    ensures LooksUp(c, Offer(d, dev, SkipsRetained(dev), control, payload))
    ensures Offer(d, dev, SkipsRetained(dev), control, payload).reg == d.reg
  {
  }

  // ---------------------------------------------------------------- handlers

  lemma FeedLooksUp(c: Core, topic: string, payload: string, answer: Option<nat>, parses: bool)
    requires |Split(topic)| >= 5
    ensures LooksUp(c, HandleTitle(c, topic, payload, answer))
    ensures LooksUp(c, HandleType(c, topic, payload, answer))
    ensures LooksUp(c, HandleMax(c, topic, payload, answer, parses))
  {
    hide EnsureExt, Tell;
    var parts := Split(topic);
    LookupFinds(c, parts[2], answer);
    var (t, dev) := EnsureExt(c, parts[2], answer);
    if dev.Some? {
      TellLooksUp(c, t, SetTitle(dev.value, payload));
      TellLooksUp(c, t, AcceptControlType(dev.value, parts[4], payload));
      TellLooksUp(c, t, AcceptControlRange(dev.value, parts[4], payload));
    }
  }

  lemma TitleLooksUp(c: Core, topic: string, payload: string, answer: Option<nat>)
    requires |Split(topic)| >= 3
    ensures LooksUp(c, HandleTitle(c, topic, payload, answer))
  {
    hide EnsureExt, Tell;
    var parts := Split(topic);
    LookupFinds(c, parts[2], answer);
    var (t, dev) := EnsureExt(c, parts[2], answer);
    if dev.Some? {
      TellLooksUp(c, t, SetTitle(dev.value, payload));
    }
  }

  /** The `/on` handler on a topic of a local device: one call, and the echo if asked for. */
  function OnLocal(c: Core, dev: Device, control: string, payload: string, echo: bool): Core {
    var t := Tell(c, AcceptOnValue(dev, control, payload));
    if echo then PublishValue(t, dev.name, control, payload) else t
  }

  lemma OnLocalProgress(c: Core, dev: Device, control: string, payload: string, echo: bool)
    requires dev.LocalDevice?
    ensures Progress(c, OnLocal(c, dev, control, payload, echo))
    ensures OnLocal(c, dev, control, payload, echo).broker.filters == c.broker.filters
    ensures OnLocal(c, dev, control, payload, echo).crashed == c.crashed
  {
    hide ControlTopic;
  }

  lemma OnProgress(c: Core, topic: string, payload: string, echo: bool)
    ensures Progress(c, HandleOn(c, topic, payload, echo))
    ensures HandleOn(c, topic, payload, echo).broker.filters == c.broker.filters
    ensures |Split(topic)| >= 5 && Split(topic)[2] in c.reg.devices && c.reg.devices[Split(topic)[2]].LocalDevice?
            ==> HandleOn(c, topic, payload, echo)
                == OnLocal(c, c.reg.devices[Split(topic)[2]], Split(topic)[4], payload, echo)
  {
    hide Tell, PublishValue, Split;
    var parts := Split(topic);
    if |parts| >= 5 && parts[2] in c.reg.devices && c.reg.devices[parts[2]].LocalDevice? {
      OnLocalProgress(c, c.reg.devices[parts[2]], parts[4], payload, echo);
    }
  }

  lemma StopProgress(c: Core)
    ensures Progress(c, StopCore(c))
    ensures StopCore(c).broker.filters == c.broker.filters && StopCore(c).crashed == c.crashed
  {
  }

  /** Events that leave the cache alone add devices without replacing any, and pass no value to a device. */
  lemma CoreStepProgress(c: Core, e: Event)
    ensures Progress(c, CoreStep(c, e))
    ensures !e.FinishStart? ==> CoreStep(c, e).broker.filters == c.broker.filters
  {
    hide HandleOn, HandleTitle, HandleType, HandleMax, StopCore;
    match e
    case OnMsg(topic, payload, echo) => OnProgress(c, topic, payload, echo);
    case TitleMsg(topic, payload, answer) => TitleProgress(c, topic, payload, answer);
    case TypeMsg(topic, payload, answer) => TypeProgress(c, topic, payload, answer, true);
    case MaxMsg(topic, payload, answer, parses) => TypeProgress(c, topic, payload, answer, parses);
    case StopDriver => StopProgress(c);
    case ValueOut(_, _, _) => OutProgress(c, e);
    case ErrorOut(_, _, _) => OutProgress(c, e);
    case _ =>
  }

  lemma OutProgress(c: Core, e: Event)
    requires e.ValueOut? || e.ErrorOut?
    ensures Progress(c, CoreStep(c, e))
    ensures CoreStep(c, e).broker.filters == c.broker.filters
  {
    hide ControlTopic, OnTopic, Deposit, AddCleanup;
  }

  lemma TitleProgress(c: Core, topic: string, payload: string, answer: Option<nat>)
    ensures Progress(c, HandleTitle(c, topic, payload, answer))
    ensures HandleTitle(c, topic, payload, answer).broker.filters == c.broker.filters
  {
    if |Split(topic)| >= 3 {
      hide HandleTitle;
      TitleLooksUp(c, topic, payload, answer);
    }
  }

  lemma TypeProgress(c: Core, topic: string, payload: string, answer: Option<nat>, parses: bool)
    ensures Progress(c, HandleType(c, topic, payload, answer))
    ensures HandleType(c, topic, payload, answer).broker.filters == c.broker.filters
    ensures Progress(c, HandleMax(c, topic, payload, answer, parses))
    ensures HandleMax(c, topic, payload, answer, parses).broker.filters == c.broker.filters
  {
    if |Split(topic)| >= 5 {
      hide HandleType, HandleMax;
      FeedLooksUp(c, topic, payload, answer, parses);
    }
  }

  // ---------------------------------------------------------------- registrations and declarations

  lemma AnnounceKeepsDevices(c: Core, dev: Device, control: Control, value: string)
    ensures KeepsDevices(c, Announce(c, dev, control, value))
    ensures Announce(c, dev, control, value).broker.filters == c.broker.filters
    ensures Announce(c, dev, control, value).reg == c.reg.(retain := Announce(c, dev, control, value).reg.retain)
  {
    hide ControlTopic;
  }

  lemma EnlistKeepsDevices(c: Core, dev: Device, control: Control)
    ensures KeepsDevices(c, Enlist(c, dev, control))
    ensures Enlist(c, dev, control).broker.filters
            == c.broker.filters + (if control.writability != ForceReadOnly then {OnTopic(dev.name, control.name)}
                else {})
    ensures Enlist(c, dev, control).reg
            == c.reg.(controls := c.reg.controls[dev.name := ControlsOf(c, dev.name) + [control.name]])
  {
    hide ControlTopic, OnTopic;
  }

  /** A declaration leaves devices alone, extends its device's control list, and subscribes unless read-only. */
  lemma DeclareEffect(c: Core, dev: Device, control: Control, restored: Option<string>)
    ensures var d := Declare(c, dev, control, restored);
            && KeepsDevices(c, d)
            && d.broker.filters
               == c.broker.filters + (if control.writability != ForceReadOnly then {OnTopic(dev.name, control.name)}
                   else {})
            && d.reg.controls == c.reg.controls[dev.name := ControlsOf(c, dev.name) + [control.name]]
            && d.reg.nextOrder == Advance(c, dev.name, OrderFor(c, dev.name, control)).reg.nextOrder
  {
    hide Announce, Enlist, ControlMeta;
    var value, order := DeclaredValue(c, dev, control, restored), OrderFor(c, dev.name, control);
    var a := Advance(PublishMetas(c, ControlMeta(dev.name, control, order)), dev.name, order);
    AnnounceKeepsDevices(a, dev, control, value);
    EnlistKeepsDevices(Announce(a, dev, control, value), dev, control);
  }

  predicate KeepsCalls(c: Core, d: Core) {
    d.log.calls == c.log.calls && d.ready == c.ready && d.crashed == c.crashed && d.accepts == c.accepts
  }

  lemma ForgetKeepsCalls(c: Core, name: string)
    ensures KeepsCalls(c, Forget(c, name))
  {
  }

  lemma RegisterEffect(c: Core, dev: Device, title: string)
    ensures var f, r := Forget(c, dev.name), Register(c, dev, title);
            && KeepsCalls(c, r)
            && r.broker.filters == f.broker.filters
            && r.reg.devices == f.reg.devices[dev.name := dev]
            && r.reg.controls == (if dev.LocalDevice? then f.reg.controls[dev.name := []] else f.reg.controls)
            && r.reg.nextOrder == (if dev.LocalDevice? then f.reg.nextOrder[dev.name := 1] else f.reg.nextOrder)
  {
    hide Forget;
    ForgetKeepsCalls(c, dev.name);
  }
}
