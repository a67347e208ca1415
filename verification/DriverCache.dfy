/**
 The per-topic device cache of the control-value handler.

 `FreshStep` is the driver without the cache: it remembers only the last value of each
 topic and looks the device up again for every message.  The main results are that the
 cached driver is indistinguishable from it over every run, that no device receives a
 value it must not receive, and that redeclared virtual controls get their last value back.
 */
module DriverCache {
  import opened Topics
  import opened Messages
  import opened DriverSpec
  import opened DriverTopics
  import opened DriverFrames
  import DriverFlags

  // ---------------------------------------------------------------- the driver without a cache

  datatype FreshState = FreshState(core: Core, received: map<string, string>)

  function FreshHandle(f: FreshState, topic: string, payload: string, answer: Option<nat>): FreshState {
    var parts := Split(topic);
    if |parts| < 5 then f.(core := Crash(f.core))
    else
      var (c, dev) := Lookup(f.core, parts[2], answer);
      FreshState(
        if dev.None? then c else Offer(c, dev.value, SkipsRetained(dev.value), parts[4], payload),
        f.received[topic := payload])
  }

  function FreshStep(f: FreshState, e: Event): FreshState {
    match e
    case NewDevice(dev, title) => f.(core := Register(f.core, dev, title))
    case DropDevice(name) => f.(core := Forget(f.core, name))
    case NewControl(dev, control) =>
      var topic := ControlTopic(dev.name, control.name, []);
      f.(core := Declare(f.core, dev, control, if topic in f.received then Some(f.received[topic]) else None))
    case ValueMsg(topic, payload, answer) => FreshHandle(f, topic, payload, answer)
    case _ => f.(core := CoreStep(f.core, e))
  }

  function FreshRun(f: FreshState, es: seq<Event>): FreshState {
    if es == [] then f else FreshStep(FreshRun(f, es[..|es| - 1]), es[|es| - 1])
  }

  function Uncached(s: State): FreshState {
    FreshState(s.core, map t | t in s.topics :: s.topics[t].received)
  }

  // ---------------------------------------------------------------- the invariant

  /** An entry belongs to its topic; a device it holds is the registered one, with the right flags. */
  predicate EntryAgrees(c: Core, topic: string, e: TopicEntry) {
    var parts := Split(topic);
    && |parts| >= 5
    && e.deviceName == parts[2]
    && e.controlName == parts[4]
    && (e.dev.Some? ==>
          && e.deviceName in c.reg.devices
          && c.reg.devices[e.deviceName] == e.dev.value
          && e.skip == SkipsRetained(e.dev.value)
          && (e.ready ==> e.dev.value.ExternalDevice?))
  }

  predicate CacheAgrees(s: State) {
    forall t :: t in s.topics ==> EntryAgrees(s.core, t, s.topics[t])
  }

  lemma EntriesCarryOver(s: State, c: Core)
    requires CacheAgrees(s) && DevicesExtend(s.core, c)
    ensures CacheAgrees(State(c, s.topics))
  {
    forall t | t in s.topics ensures EntryAgrees(c, t, s.topics[t]) {
      assert EntryAgrees(s.core, t, s.topics[t]);
    }
  }

  lemma ClearedAgrees(s: State, c: Core)
    requires CacheAgrees(s)
    ensures CacheAgrees(State(c, ClearCache(s.topics)))
  {
    forall t | t in s.topics ensures EntryAgrees(c, t, Reset(s.topics[t])) {
      assert EntryAgrees(s.core, t, s.topics[t]);
    }
  }

  lemma UpdateAgrees(s: State, c: Core, topic: string, e: TopicEntry)
    requires CacheAgrees(s) && DevicesExtend(s.core, c) && EntryAgrees(c, topic, e)
    ensures CacheAgrees(State(c, s.topics[topic := e]))
    ensures Uncached(State(c, s.topics[topic := e])) == FreshState(c, Uncached(s).received[topic := e.received])
  {
    EntriesCarryOver(s, c);
    forall t | t in s.topics ensures EntryAgrees(c, t, s.topics[t]) {
      assert EntryAgrees(c, t, State(c, s.topics).topics[t]);
    }
    assert Uncached(State(c, s.topics[topic := e])).received == Uncached(s).received[topic := e.received];
  }

  /** The one step that reads the cache: it behaves as a fresh lookup and keeps the cache right. */
  lemma HandleValueAgrees(s: State, topic: string, payload: string, answer: Option<nat>)
    requires CacheAgrees(s)
    ensures CacheAgrees(HandleValue(s, topic, payload, answer))
    ensures Uncached(HandleValue(s, topic, payload, answer)) == FreshHandle(Uncached(s), topic, payload, answer)
  {
    hide Lookup, Offer, Split;
    if topic in s.topics {
      assert EntryAgrees(s.core, topic, s.topics[topic]);
    }
    if |Split(topic)| >= 5 {
      var parts := Split(topic);
      var r := HandleValue(s, topic, payload, answer);
      var (c, dev) := Lookup(s.core, parts[2], answer);
      LookupFinds(s.core, parts[2], answer);
      if dev.Some? {
        OfferLooksUp(s.core, c, dev.value, parts[4], payload);
      }
      UpdateAgrees(s, r.core, topic, r.topics[topic]);
    }
  }

  lemma DeclarationAgrees(s: State, e: Event)
    requires CacheAgrees(s) && e.NewControl?
    ensures CacheAgrees(Step(s, e))
    ensures Uncached(Step(s, e)) == FreshStep(Uncached(s), e)
  {
    hide CoreStep, Declare;
    DeclareEffect(s.core, e.dev, e.control, Received(s.topics, ControlTopic(e.dev.name, e.control.name, [])));
    EntriesCarryOver(s, Step(s, e).core);
  }

  lemma StepAgrees(s: State, e: Event)
    requires CacheAgrees(s)
    ensures CacheAgrees(Step(s, e))
    ensures Uncached(Step(s, e)) == FreshStep(Uncached(s), e)
  {
    hide CoreStep, HandleValue, FreshHandle, Register, Forget, Declare, CacheAgrees;
    match e
    case NewDevice(dev, title) => ClearedAgrees(s, Register(s.core, dev, title));
    case DropDevice(name) => ClearedAgrees(s, Forget(s.core, name));
    case NewControl(_, _) => DeclarationAgrees(s, e);
    case ValueMsg(topic, payload, answer) => HandleValueAgrees(s, topic, payload, answer);
    case _ =>
      CoreStepProgress(s.core, e);
      EntriesCarryOver(s, Step(s, e).core);
  }

  /**
   Cache transparency: after any run whatever, the cached driver has published the same
   messages, made the same calls into the model in the same order, and holds the same
   state as the driver that looks every device up afresh.
   */
  lemma {:induction false} CacheTransparent(accepts: bool, store: Store, es: seq<Event>)
    ensures var s := Run(Initial(accepts, store), es);
            CacheAgrees(s) && Uncached(s) == FreshRun(Uncached(Initial(accepts, store)), es)
  {
    if es != [] {
      CacheTransparent(accepts, store, es[..|es| - 1]);
      StepAgrees(Run(Initial(accepts, store), es[..|es| - 1]), es[|es| - 1]);
    }
  }

  lemma CacheAlwaysAgrees(accepts: bool, store: Store, es: seq<Event>)
    ensures CacheAgrees(Run(Initial(accepts, store), es))
  {
    CacheTransparent(accepts, store, es);
  }

  // ---------------------------------------------------------------- who receives values

  lemma FreshHandleLooksUp(f: FreshState, topic: string, payload: string, answer: Option<nat>)
    ensures |Split(topic)| >= 5 ==> LooksUp(f.core, FreshHandle(f, topic, payload, answer).core)
    ensures Progress(f.core, FreshHandle(f, topic, payload, answer).core)
  {
    hide Lookup, Offer;
    var parts := Split(topic);
    if |parts| >= 5 {
      var (c, dev) := Lookup(f.core, parts[2], answer);
      LookupFinds(f.core, parts[2], answer);
      if dev.Some? {
        OfferLooksUp(f.core, c, dev.value, parts[4], payload);
      }
    }
  }

  lemma ShortTopicCrashes(f: FreshState, topic: string, payload: string, answer: Option<nat>)
    requires |Split(topic)| < 5
    ensures FreshHandle(f, topic, payload, answer) == f.(core := Crash(f.core))
  {
  }

  /** A step only adds calls, all of them allowed, and never takes readiness back. */
  lemma StepIsSafe(s: State, e: Event)
    requires CacheAgrees(s)
    ensures s.core.log.calls <= Step(s, e).core.log.calls
    ensures SafeCallsFrom(s.core.ready, Step(s, e).core.log.calls, |s.core.log.calls|)
    ensures s.core.ready ==> Step(s, e).core.ready
  {
    hide CoreStep, HandleValue, Register, Forget, FreshHandle, Declare;
    match e
    case NewDevice(dev, title) => RegisterEffect(s.core, dev, title);
    case DropDevice(name) => ForgetKeepsCalls(s.core, name);
    case NewControl(dev, control) =>
      DeclareEffect(s.core, dev, control, Received(s.topics, ControlTopic(dev.name, control.name, [])));
    case ValueMsg(topic, payload, answer) =>
      HandleValueAgrees(s, topic, payload, answer);
      FreshHandleLooksUp(Uncached(s), topic, payload, answer);
    case _ => CoreStepProgress(s.core, e);
  }

  /**
   In no run does a local device tied to hardware receive a value from a value topic, a
   local device metadata from its own topics, or an external device an `/on` value.
   */
  lemma {:induction false} HardwareNeverAccepts(accepts: bool, store: Store, es: seq<Event>)
    ensures SafeCallsFrom(false, Run(Initial(accepts, store), es).core.log.calls, 0)
  {
    if es != [] {
      var before := es[..|es| - 1];
      HardwareNeverAccepts(accepts, store, before);
      CacheTransparent(accepts, store, before);
      StepIsSafe(Run(Initial(accepts, store), before), es[|es| - 1]);
    }
  }

  /** Once the driver has become ready, only external devices receive values, whatever was cached before. */
  lemma {:induction false} OnlyExternalAcceptsWhenReady(accepts: bool, store: Store, es: seq<Event>, n: nat)
    requires n <= |es| && BecomeReady in es[..n]
    ensures Run(Initial(accepts, store), es[..n]).core.log.calls <= Run(Initial(accepts, store), es).core.log.calls
    ensures SafeCallsFrom(true, Run(Initial(accepts, store), es).core.log.calls,
                          |Run(Initial(accepts, store), es[..n]).core.log.calls|)
    decreases |es|
  {
    if n == |es| {
      assert es[..n] == es;
    } else {
      var before := es[..|es| - 1];
      assert before[..n] == es[..n];
      OnlyExternalAcceptsWhenReady(accepts, store, before, n);
      DriverFlags.FlagsFollowHistory(accepts, store, before);
      assert before[..n] <= before && BecomeReady in before;
      CacheTransparent(accepts, store, before);
      StepIsSafe(Run(Initial(accepts, store), before), es[|es| - 1]);
    }
  }

  // ---------------------------------------------------------------- value restoration

  /** The payload of the last value message of a run for this device and control, read off the topic's parts. */
  function LastValue(es: seq<Event>, name: string, control: string): Option<string> {
    if es == [] then None
    else
      var e := es[|es| - 1];
      if e.ValueMsg? && Split(e.topic) == ["", "devices", name, "controls", control] then Some(e.payload)
      else LastValue(es[..|es| - 1], name, control)
  }

  /** Only a value message on its own topic changes what a topic last received. */
  lemma StepReceived(s: State, e: Event, topic: string)
    requires e.ValueMsg? ==> |Split(e.topic)| >= 5
    ensures Received(Step(s, e).topics, topic)
            == if e.ValueMsg? && e.topic == topic then Some(e.payload) else Received(s.topics, topic)
  {
    hide CoreStep, Register, Forget, Declare, Lookup, Offer, Split;
  }

  lemma ControlTopicSpelled(topic: string, name: string, control: string)
    requires SlashFree(name) && SlashFree(control)
    ensures topic == ControlTopic(name, control, []) <==> Split(topic) == ["", "devices", name, "controls", control]
  {
    ControlTopicParts(name, control, []);
    assert ["", "devices", name, "controls", control] + [] == ["", "devices", name, "controls", control];
    JoinSplit(topic);
    JoinSplit(ControlTopic(name, control, []));
  }

  lemma {:induction false} ReceivedIsLastValue(s0: State, es: seq<Event>, name: string, control: string)
    requires s0.topics == map[] && ValidRun(s0, es)
    requires SlashFree(name) && SlashFree(control)
    ensures Received(Run(s0, es).topics, ControlTopic(name, control, [])) == LastValue(es, name, control)
  {
    hide Step, ControlTopic, Split;
    if es != [] {
      var before, e := es[..|es| - 1], es[|es| - 1];
      ValidPrefix(s0, es, |es| - 1);
      ReceivedIsLastValue(s0, before, name, control);
      if e.ValueMsg? {
        ValueDelivery(e.topic);
        ControlTopicSpelled(e.topic, name, control);
      }
      StepReceived(Run(s0, before), e, ControlTopic(name, control, []));
    }
  }
}
