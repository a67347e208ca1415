/**
 The driver's state and what each of its operations does to it.

 `Core` is everything the operations update except the per-topic device cache; `State`
 adds the cache.  `Broker` and `Log` are the driver's surroundings: the filters its MQTT
 client holds, the broker's retained store, the messages published and the calls made
 into the model.

 Calls into devices and into the model do not call back into the driver.
 */
module DriverSpec {
  import opened Topics
  import opened Messages

  // ---------------------------------------------------------------- data

  /** A device object; `id` tells apart two objects of one name. */
  datatype Device =
    | LocalDevice(id: nat, name: string, virtual: bool)
    | ExternalDevice(id: nat, name: string)

  datatype Writability = DefaultWritability | ForceReadOnly | ForceWritable

  /** `max` is the printed maximum of a control that has one. */
  datatype Control = Control(
    name: string, title: string, typ: string, value: string, units: string,
    writability: Writability, max: Option<string>, forget: bool, order: int)

  datatype ModelCall =
    | AddExternalDevice(name: string)
    | AcceptValue(dev: Device, control: string, value: string)
    | AcceptOnValue(dev: Device, control: string, value: string)
    | SetTitle(dev: Device, title: string)
    | AcceptControlType(dev: Device, control: string, typ: string)
    | AcceptControlRange(dev: Device, control: string, max: string)

  /** The driver's tables, keyed by device name or, for `retain`, by control topic. */
  datatype Registry = Registry(
    devices: map<string, Device>,
    nextOrder: map<string, int>,
    controls: map<string, seq<string>>,
    retain: map<string, bool>)

  /** The broker as the driver's client sees it. */
  datatype Broker = Broker(filters: set<string>, store: Store)

  /** Everything the driver has published and every call it has made into the model. */
  datatype Log = Log(published: seq<Message>, calls: seq<ModelCall>)

  /** `crashed` records an index out of range or a failed type assertion. */
  datatype Core = Core(
    reg: Registry,
    broker: Broker,
    log: Log,
    cleanup: seq<string>,
    accepts: bool,
    active: bool,
    ready: bool,
    crashed: bool)

  datatype TopicEntry = TopicEntry(
    received: string, deviceName: string, controlName: string,
    dev: Option<Device>, ready: bool, skip: bool)

  datatype State = State(core: Core, topics: map<string, TopicEntry>)

  function InitialCore(accepts: bool, store: Store): Core {
    Core(Registry(map[], map[], map[], map[]), Broker({}, store), Log([], []), [], accepts, false, false, false)
  }

  function Initial(accepts: bool, store: Store): State {
    State(InitialCore(accepts, store), map[])
  }

  // ---------------------------------------------------------------- topics

  predicate ValidName(s: string) {
    '/' !in s && '+' !in s && '#' !in s
  }

  function DeviceTopic(name: string, sub: seq<string>): string {
    Join(["/devices", name] + sub)
  }

  function ControlTopic(name: string, control: string, sub: seq<string>): string {
    DeviceTopic(name, ["controls", control] + sub)
  }

  function OnTopic(name: string, control: string): string {
    ControlTopic(name, control, ["on"])
  }

  function TitleTopic(name: string): string {
    DeviceTopic(name, ["meta", "name"])
  }

  /** The four subscriptions of a driver that accepts external devices. */
  datatype Feed = TitleFeed | ValueFeed | TypeFeed | MaxFeed

  function FeedLevels(feed: Feed): seq<string> {
    match feed
    case TitleFeed => ["meta", "name"]
    case ValueFeed => ["controls", "+"]
    case TypeFeed => ["controls", "+", "meta", "type"]
    case MaxFeed => ["controls", "+", "meta", "max"]
  }

  /** Written level by level; DriverTopics.FilterText gives the strings they spell. */
  function FeedFilter(feed: Feed): string {
    DeviceTopic("+", FeedLevels(feed))
  }

  predicate ExternalFilter(f: string) {
    exists feed: Feed :: f == FeedFilter(feed)
  }

  function ExternalFilters(): set<string> {
    set feed: Feed | true :: FeedFilter(feed)
  }

  // ---------------------------------------------------------------- controls

  function IndexOf(s: string, c: char): (r: int)
    ensures -1 <= r < |s|
    ensures r == -1 <==> c !in s
    ensures r >= 0 ==> s[r] == c && c !in s[..r]
  {
    if s == "" then -1
    else if s[0] == c then 0
    else
      var k := IndexOf(s[1..], c);
      assert s == [s[0]] + s[1..];
      if k < 0 then -1 else assert s[..k + 1] == [s[0]] + s[1..][..k]; k + 1
  }

  function GetType(c: Control): string {
    var idx := IndexOf(c.typ, ':');
    if idx >= 0 then c.typ[..idx] else c.typ
  }

  function GetUnits(c: Control): string {
    if c.units != "" then c.units
    else
      var idx := IndexOf(c.typ, ':');
      if idx >= 0 then c.typ[idx + 1..] else ""
  }

  predicate Retain(c: Control) {
    !c.forget && c.typ != "pushbutton"
  }

  function Digit(d: int): char
    requires 0 <= d < 10
  {
    "0123456789"[d]
  }

  function Decimal(n: nat): string {
    if n < 10 then [Digit(n)] else Decimal(n / 10) + [Digit(n % 10)]
  }

  function Itoa(n: int): string {
    if n < 0 then "-" + Decimal(-n) else Decimal(n)
  }

  // ---------------------------------------------------------------- publishing

  function Publish(c: Core, m: Message): Core {
    c.(broker := c.broker.(store := Deposit(c.broker.store, m)), log := c.log.(published := c.log.published + [m]))
  }

  function AddCleanup(cleanup: seq<string>, topic: string): seq<string> {
    if topic in cleanup then cleanup else cleanup + [topic]
  }

  function PublishMeta(c: Core, topic: string, payload: string): Core {
    var p := Publish(c, Message(topic, payload, 1, true));
    p.(cleanup := AddCleanup(p.cleanup, topic))
  }

  function PublishMetas(c: Core, metas: seq<(string, string)>): (r: Core)
    ensures r == c.(broker := c.broker.(store := r.broker.store), log := c.log.(published := r.log.published),
        cleanup := r.cleanup)
  {
    if metas == [] then c
    else
      var last := metas[|metas| - 1];
      PublishMeta(PublishMetas(c, metas[..|metas| - 1]), last.0, last.1)
  }

  predicate Retained(c: Core, topic: string) {
    topic in c.reg.retain && c.reg.retain[topic]
  }

  function PublishValue(c: Core, name: string, control: string, value: string): Core {
    var topic := ControlTopic(name, control, []);
    Publish(c, Message(topic, value, 1, Retained(c, topic)))
  }

  function PublishOnValue(c: Core, name: string, control: string, value: string): Core {
    Publish(c, Message(ControlTopic(name, control, []) + "/on", value, 1, false))
  }

  function Subscribe(c: Core, filters: set<string>): Core {
    c.(broker := c.broker.(filters := c.broker.filters + filters))
  }

  function Unsubscribe(c: Core, filters: set<string>): Core {
    c.(broker := c.broker.(filters := c.broker.filters - filters))
  }

  function Tell(c: Core, call: ModelCall): Core {
    c.(log := c.log.(calls := c.log.calls + [call]))
  }

  function Crash(c: Core): Core {
    c.(crashed := true)
  }

  // ---------------------------------------------------------------- devices

  function ControlsOf(c: Core, name: string): seq<string> {
    if name in c.reg.controls then c.reg.controls[name] else []
  }

  function Counter(c: Core, name: string): int {
    if name in c.reg.nextOrder then c.reg.nextOrder[name] else 0
  }

  function OnTopicsOf(name: string, controls: seq<string>): set<string> {
    set i | 0 <= i < |controls| :: OnTopic(name, controls[i])
  }

  function Forget(c: Core, name: string): Core {
    if name !in c.reg.devices then c
    else
      var u := if c.reg.devices[name].LocalDevice? then Unsubscribe(c, OnTopicsOf(name, ControlsOf(c, name))) else c;
      u.(reg := Registry(c.reg.devices - {name}, c.reg.nextOrder - {name}, c.reg.controls - {name}, c.reg.retain))
  }

  function Install(c: Core, dev: Device, title: string): Core {
    var r := c.reg.(devices := c.reg.devices[dev.name := dev]);
    if dev.ExternalDevice? then c.(reg := r)
    else
      PublishMeta(c.(reg := r.(nextOrder := r.nextOrder[dev.name := 1], controls := r.controls[dev.name := []])),
                  TitleTopic(dev.name), title)
  }

  function Register(c: Core, dev: Device, title: string): Core {
    Install(Forget(c, dev.name), dev, title)
  }

  function OrderFor(c: Core, name: string, control: Control): int {
    if control.order > 0 then control.order else Counter(c, name)
  }

  function ControlTexts(name: string, control: Control): seq<(string, string)> {
    [(ControlTopic(name, control.name, ["meta", "type"]), GetType(control))]
    + (if control.title != "" then [(ControlTopic(name, control.name, ["meta", "name"]), control.title)] else [])
    + (if GetUnits(control) != "" then [(ControlTopic(name, control.name, ["meta", "units"]), GetUnits(control))]
        else [])
  }

  function ControlMarks(name: string, control: Control, order: int): seq<(string, string)> {
    (match control.writability
     case ForceReadOnly => [(ControlTopic(name, control.name, ["meta", "readonly"]), "1")]
     case ForceWritable => [(ControlTopic(name, control.name, ["meta", "writable"]), "1")]
     case DefaultWritability => [])
    + [(ControlTopic(name, control.name, ["meta", "order"]), Itoa(order))]
    + (if control.max.Some? then [(ControlTopic(name, control.name, ["meta", "max"]), control.max.value)] else [])
  }

  function ControlMeta(name: string, control: Control, order: int): seq<(string, string)> {
    ControlTexts(name, control) + ControlMarks(name, control, order)
  }

  /** The value a declaration publishes and returns; `restored` is the value last seen on its topic. */
  function DeclaredValue(c: Core, dev: Device, control: Control, restored: Option<string>): string {
    if c.active && dev.LocalDevice? && dev.virtual && Retain(control) && restored.Some? then restored.value
    else control.value
  }

  function Advance(c: Core, name: string, order: int): Core {
    if order >= Counter(c, name) then c.(reg := c.reg.(nextOrder := c.reg.nextOrder[name := order + 1]))
    else c
  }

  function Announce(c: Core, dev: Device, control: Control, value: string): Core {
    var topic := ControlTopic(dev.name, control.name, []);
    var r := c.(reg := c.reg.(retain := c.reg.retain[topic := Retain(control)]));
    if Retain(control) then PublishValue(r, dev.name, control.name, value) else r
  }

  function Enlist(c: Core, dev: Device, control: Control): Core {
    var s := if control.writability != ForceReadOnly then Subscribe(c, {OnTopic(dev.name, control.name)}) else c;
    s.(reg := s.reg.(controls := s.reg.controls[dev.name := ControlsOf(s, dev.name) + [control.name]]),
       cleanup := AddCleanup(s.cleanup, ControlTopic(dev.name, control.name, [])))
  }

  function Declare(c: Core, dev: Device, control: Control, restored: Option<string>): Core {
    var value := DeclaredValue(c, dev, control, restored);
    var order := OrderFor(c, dev.name, control);
    var m := PublishMetas(c, ControlMeta(dev.name, control, order));
    Enlist(Announce(Advance(m, dev.name, order), dev, control, value), dev, control)
  }

  // ---------------------------------------------------------------- lookups

  /** `answer` is what the model's AddExternalDevice would return: a new object, or an error. */
  function Ensure(c: Core, name: string, answer: Option<nat>): (Core, Option<Device>) {
    if name in c.reg.devices then (c, Some(c.reg.devices[name]))
    else if !c.accepts then (c, None)
    else
      var t := Tell(c, AddExternalDevice(name));
      match answer
      case None => (t, None)
      case Some(id) =>
        var dev := ExternalDevice(id, name);
        (t.(reg := t.reg.(devices := t.reg.devices[name := dev])), Some(dev))
  }

  function EnsureExt(c: Core, name: string, answer: Option<nat>): (Core, Option<Device>) {
    var (t, dev) := Ensure(c, name, answer);
    (t, if dev.Some? && dev.value.ExternalDevice? then dev else None)
  }

  /** The lookup of the control-value handler: any device before readiness, external ones after. */
  function Lookup(c: Core, name: string, answer: Option<nat>): (Core, Option<Device>) {
    if c.ready then EnsureExt(c, name, answer) else Ensure(c, name, answer)
  }

  // ---------------------------------------------------------------- messages

  function HandleOn(c: Core, topic: string, payload: string, echo: bool): Core {
    var parts := Split(topic);
    if |parts| < 5 then Crash(c)
    else if parts[2] !in c.reg.devices then c
    else
      var dev := c.reg.devices[parts[2]];
      if dev.ExternalDevice? then Crash(c)
      else
        var t := Tell(c, AcceptOnValue(dev, parts[4], payload));
        if echo then PublishValue(t, dev.name, parts[4], payload) else t
  }

  function HandleTitle(c: Core, topic: string, payload: string, answer: Option<nat>): Core {
    var parts := Split(topic);
    if |parts| < 3 then Crash(c)
    else
      var (t, dev) := EnsureExt(c, parts[2], answer);
      if dev.Some? then Tell(t, SetTitle(dev.value, payload)) else t
  }

  function HandleType(c: Core, topic: string, payload: string, answer: Option<nat>): Core {
    var parts := Split(topic);
    if |parts| < 5 then Crash(c)
    else
      var (t, dev) := EnsureExt(c, parts[2], answer);
      if dev.Some? then Tell(t, AcceptControlType(dev.value, parts[4], payload)) else t
  }

  /** `parses` says whether the payload reads as a number. */
  function HandleMax(c: Core, topic: string, payload: string, answer: Option<nat>, parses: bool): Core {
    var parts := Split(topic);
    if |parts| < 5 then Crash(c)
    else
      var (t, dev) := EnsureExt(c, parts[2], answer);
      if dev.Some? && parses then Tell(t, AcceptControlRange(dev.value, parts[4], payload)) else t
  }

  predicate SkipsRetained(dev: Device) {
    dev.LocalDevice? && !dev.virtual
  }

  function Offer(c: Core, dev: Device, skip: bool, control: string, payload: string): Core {
    if skip then c else Tell(c, AcceptValue(dev, control, payload))
  }

  /** The entry the handler works on: the cached one with the new value, or a new one. */
  function EntryFor(s: State, topic: string, payload: string): TopicEntry
    requires topic in s.topics || |Split(topic)| >= 5
  {
    if topic in s.topics then s.topics[topic].(received := payload)
    else TopicEntry(payload, Split(topic)[2], Split(topic)[4], None, s.core.ready, false)
  }

  /** Looks the device up again unless the entry holds one found under the present readiness. */
  function Resolve(c: Core, e: TopicEntry, answer: Option<nat>): (Core, TopicEntry) {
    if e.dev.Some? && e.ready == c.ready then (c, e)
    else
      var (t, dev) := Lookup(c, e.deviceName, answer);
      (t, e.(ready := c.ready, dev := dev, skip := if dev.Some? then SkipsRetained(dev.value) else e.skip))
  }

  function Pass(c: Core, e: TopicEntry, payload: string): Core {
    if e.dev.Some? then Offer(c, e.dev.value, e.skip, e.controlName, payload) else c
  }

  function HandleValue(s: State, topic: string, payload: string, answer: Option<nat>): State {
    if topic !in s.topics && |Split(topic)| < 5 then s.(core := Crash(s.core))
    else
      var (c, e) := Resolve(s.core, EntryFor(s, topic, payload), answer);
      State(Pass(c, e, payload), s.topics[topic := e])
  }

  function Reset(e: TopicEntry): TopicEntry {
    e.(dev := None, ready := false, skip := false)
  }

  function ClearCache(topics: map<string, TopicEntry>): map<string, TopicEntry> {
    map t | t in topics :: Reset(topics[t])
  }

  function Received(topics: map<string, TopicEntry>, topic: string): Option<string> {
    if topic in topics then Some(topics[topic].received) else None
  }

  // ---------------------------------------------------------------- start and stop

  function SubscribeExternal(c: Core): Core {
    if c.accepts then Subscribe(c, ExternalFilters()) else c
  }

  /** Empty retained messages on every cleanup topic, in list order. */
  function CleanupMessages(cleanup: seq<string>): seq<Message> {
    seq(|cleanup|, i requires 0 <= i < |cleanup| => Message(cleanup[i], "", 1, true))
  }

  function PublishAll(c: Core, ms: seq<Message>): Core {
    c.(broker := c.broker.(store := DepositAll(c.broker.store, ms)), log := c.log.(published := c.log.published + ms))
  }

  function StopCore(c: Core): Core {
    if !c.active then c else PublishAll(c, CleanupMessages(c.cleanup)).(active := false)
  }

  // ---------------------------------------------------------------- events

  /**
   What can happen to the driver.  `Activate` and `FinishStart` are the two halves of
   Start, with the model's own startup declarations between them.  `Foreign` is a message
   some other client publishes.
   */
  datatype Event =
    | Activate
    | FinishStart
    | NewDevice(dev: Device, title: string)
    | DropDevice(name: string)
    | NewControl(dev: Device, control: Control)
    | ValueOut(dev: Device, controlName: string, value: string)
    | ErrorOut(dev: Device, controlName: string, value: string)
    | BecomeReady
    | ValueMsg(topic: string, payload: string, answer: Option<nat>)
    | OnMsg(topic: string, payload: string, echo: bool)
    | TitleMsg(topic: string, payload: string, answer: Option<nat>)
    | TypeMsg(topic: string, payload: string, answer: Option<nat>)
    | MaxMsg(topic: string, payload: string, answer: Option<nat>, parses: bool)
    | Foreign(m: Message)
    | StopDriver

  /** Events that neither read nor write the cache. */
  function CoreStep(c: Core, e: Event): Core {
    match e
    case Activate => c.(active := true)
    case FinishStart => SubscribeExternal(c)
    case ValueOut(dev, control, value) =>
      if dev.ExternalDevice? then PublishOnValue(c, dev.name, control, value)
      else PublishValue(c, dev.name, control, value)
    case ErrorOut(dev, control, value) =>
      PublishMeta(c, ControlTopic(dev.name, control, ["meta", "error"]), value)
    case BecomeReady => c.(ready := true)
    case OnMsg(topic, payload, echo) => HandleOn(c, topic, payload, echo)
    case TitleMsg(topic, payload, answer) => HandleTitle(c, topic, payload, answer)
    case TypeMsg(topic, payload, answer) => HandleType(c, topic, payload, answer)
    case MaxMsg(topic, payload, answer, parses) => HandleMax(c, topic, payload, answer, parses)
    case Foreign(m) => c.(broker := c.broker.(store := Deposit(c.broker.store, m)))
    case StopDriver => StopCore(c)
    case _ => c
  }

  function Step(s: State, e: Event): State {
    match e
    case NewDevice(dev, title) => State(Register(s.core, dev, title), ClearCache(s.topics))
    case DropDevice(name) => State(Forget(s.core, name), ClearCache(s.topics))
    case NewControl(dev, control) =>
      s.(core := Declare(s.core, dev, control, Received(s.topics, ControlTopic(dev.name, control.name, []))))
    case ValueMsg(topic, payload, answer) => HandleValue(s, topic, payload, answer)
    case _ => s.(core := CoreStep(s.core, e))
  }

  function Run(s: State, es: seq<Event>): State {
    if es == [] then s else Step(Run(s, es[..|es| - 1]), es[|es| - 1])
  }

  predicate Fed(c: Core, feed: Feed, topic: string) {
    FeedFilter(feed) in c.broker.filters && TopicMatch(FeedFilter(feed), topic)
  }

  predicate OnDelivered(c: Core, topic: string) {
    exists f :: f in c.broker.filters && !ExternalFilter(f) && TopicMatch(f, topic)
  }

  /**
   What the driver relies on: names hold no separator or wildcard, a control is declared
   on the device currently registered under its name, and a message reaches a handler
   only through a live filter.
   */
  predicate Enabled(c: Core, e: Event) {
    match e
    case NewDevice(dev, _) => ValidName(dev.name)
    case NewControl(dev, control) =>
      ValidName(control.name) && dev.name in c.reg.devices && c.reg.devices[dev.name] == dev && dev.LocalDevice?
    case ValueOut(dev, control, _) => ValidName(dev.name) && ValidName(control)
    case ErrorOut(dev, control, _) => ValidName(dev.name) && ValidName(control)
    case ValueMsg(topic, _, _) => Fed(c, ValueFeed, topic)
    case OnMsg(topic, _, _) => OnDelivered(c, topic)
    case TitleMsg(topic, _, _) => Fed(c, TitleFeed, topic)
    case TypeMsg(topic, _, _) => Fed(c, TypeFeed, topic)
    case MaxMsg(topic, _, _, _) => Fed(c, MaxFeed, topic)
    case _ => true
  }

  predicate ValidRun(s: State, es: seq<Event>) {
    forall k :: 0 <= k < |es| ==> Enabled(Run(s, es[..k]).core, es[k])
  }

  /** A prefix of a valid run is a valid run, and the last event of a run is enabled where it happens. */
  lemma ValidPrefix(s: State, es: seq<Event>, n: nat)
    requires ValidRun(s, es) && n <= |es|
    ensures ValidRun(s, es[..n])
    ensures n < |es| ==> Enabled(Run(s, es[..n]).core, es[n])
  {
    forall k | 0 <= k < n ensures Enabled(Run(s, es[..n][..k]).core, es[..n][k]) {
      assert es[..n][..k] == es[..k];
    }
  }
}
