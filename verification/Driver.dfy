/**
 The driver as it is written: an object whose methods update its tables in place, with one
 cache entry object per topic.  Each method is proved against the function of DriverSpec
 of the same purpose, which is what the run theorems speak about.
 */
module DriverObject {
  import opened Topics
  import opened Messages
  import opened DriverSpec
  import opened DriverTopics

  class DriverTopic {
    var receivedValue: string
    const deviceName: string
    const controlName: string
    var dev: Option<Device>
    var ready: bool
    var skip: bool

    constructor (value: string, deviceName: string, controlName: string, ready: bool)
      ensures View() == TopicEntry(value, deviceName, controlName, None, ready, false)
    {
      receivedValue, dev, skip := value, None, false;
      this.deviceName, this.controlName, this.ready := deviceName, controlName, ready;
    }

    function View(): TopicEntry
      reads this
    {
      TopicEntry(receivedValue, deviceName, controlName, dev, ready, skip)
    }

    method ResetDevice()
      modifies this
      ensures View() == Reset(old(View()))
    {
      dev, ready, skip := None, false, false;
    }
  }

  class Driver {
    var deviceMap: map<string, Device>
    var nextOrder: map<string, int>
    var controlList: map<string, seq<string>>
    var retainMap: map<string, bool>
    var topics: map<string, DriverTopic>
    var acceptsExternalDevices: bool
    var active: bool
    var ready: bool
    var cleanupTopics: seq<string>
    // what the MQTT client and the model have seen
    var broker: Broker
    var log: Log

    /** The fields other than the cache, as one value.  A running driver has not crashed. */
    function Core(): (c: DriverSpec.Core)
      reads this
    {
      DriverSpec.Core(Registry(deviceMap, nextOrder, controlList, retainMap), broker, log, cleanupTopics,
                      acceptsExternalDevices, active, ready, false)
    }

    /** Distinct topics have distinct entry objects. */
    ghost predicate Valid()
      reads this
    {
      forall s, t :: s in topics && t in topics && s != t ==> topics[s] != topics[t]
    }

    ghost function Entries(): set<DriverTopic>
      reads this
    {
      set t | t in topics :: topics[t]
    }

    ghost function Cache(): map<string, TopicEntry>
      reads this, Entries()
    {
      map t | t in topics :: topics[t].View()
    }

    ghost function View(): State
      reads this, Entries()
    {
      State(Core(), Cache())
    }

    constructor (accepts: bool, store: Store)
      ensures Valid() && View() == Initial(accepts, store)
    {
      deviceMap, nextOrder, controlList, retainMap, topics := map[], map[], map[], map[], map[];
      acceptsExternalDevices, active, ready := accepts, false, false;
      cleanupTopics := [];
      broker, log := Broker({}, store), Log([], []);
    }

    // -------------------------------------------------------------- publishing

    method AddCleanupTopic(topic: string)
      modifies `cleanupTopics
      ensures cleanupTopics == AddCleanup(old(cleanupTopics), topic)
    {
      for i := 0 to |cleanupTopics|
        invariant cleanupTopics == old(cleanupTopics) && topic !in cleanupTopics[..i]
      {
        if cleanupTopics[i] == topic {
          return;
        }
      }
      assert cleanupTopics[..|cleanupTopics|] == cleanupTopics;
      cleanupTopics := cleanupTopics + [topic];
    }

    method ClientPublish(m: Message)
      modifies `broker, `log
      ensures Core() == Publish(old(Core()), m)
    {
      broker := broker.(store := Deposit(broker.store, m));
      log := log.(published := log.published + [m]);
    }

    method PublishMeta(topic: string, payload: string)
      modifies `broker, `log, `cleanupTopics
      ensures Core() == DriverSpec.PublishMeta(old(Core()), topic, payload)
    {
      hide Deposit;
      ClientPublish(Message(topic, payload, 1, true));
      AddCleanupTopic(topic);
    }

    method PublishValue(dev: Device, controlName: string, value: string)
      modifies `broker, `log
      ensures Core() == DriverSpec.PublishValue(old(Core()), dev.name, controlName, value)
    {
      hide ControlTopic, Deposit;
      var topic := ControlTopic(dev.name, controlName, []);
      var retain := topic in retainMap && retainMap[topic];
      ClientPublish(Message(topic, value, 1, retain));
    }

    method PublishOnValue(dev: Device, controlName: string, value: string)
      modifies `broker, `log
      ensures Core() == DriverSpec.PublishOnValue(old(Core()), dev.name, controlName, value)
    {
      hide ControlTopic, Deposit;
      ClientPublish(Message(ControlTopic(dev.name, controlName, []) + "/on", value, 1, false));
    }

    method CallModel(call: ModelCall)
      modifies `log
      ensures Core() == Tell(old(Core()), call)
    {
      log := log.(calls := log.calls + [call]);
    }

    /** Every cleanup topic gets an empty retained message, in list order. */
    method PerformCleanup()
      modifies `broker, `log
      ensures Core() == PublishAll(old(Core()), CleanupMessages(old(cleanupTopics)))
    {
      ghost var all := CleanupMessages(cleanupTopics);
      assert PublishAll(Core(), all[..0]) == Core();
      for i := 0 to |cleanupTopics|
        invariant Core() == PublishAll(old(Core()), all[..i])
      {
        assert all[..i + 1] == all[..i] + [all[i]];
        assert all[..i + 1][..i] == all[..i];
        ClientPublish(Message(cleanupTopics[i], "", 1, true));
      }
      assert all[..|cleanupTopics|] == all;
    }

    // -------------------------------------------------------------- devices

    /** The entries are visited in map order, which Go leaves open. */
    method ClearTopicDevCache()
      requires Valid()
      modifies Entries()
      ensures Cache() == ClearCache(old(Cache()))
    {
      var rest := topics.Keys;
      while rest != {}
        invariant rest <= topics.Keys
        invariant forall t :: t in topics ==>
          topics[t].View() == if t in rest then old(topics[t].View()) else Reset(old(topics[t].View()))
        decreases |rest|
      {
        var t :| t in rest;
        topics[t].ResetDevice();
        rest := rest - {t};
      }
    }

    method ForgetDevice(name: string)
      modifies `deviceMap, `nextOrder, `controlList, `broker
      ensures Core() == Forget(old(Core()), name)
    {
      hide OnTopic;
      if name !in deviceMap {
        return;
      }
      if deviceMap[name].LocalDevice? {
        var controls := if name in controlList then controlList[name] else [];
        for i := 0 to |controls|
          modifies `broker
          invariant broker == old(broker).(filters := old(broker).filters - OnTopicsOf(name, controls[..i]))
        {
          OnTopicsStep(name, controls, i);
          broker := broker.(filters := broker.filters - {OnTopic(name, controls[i])});
        }
        assert controls[..|controls|] == controls;
      }
      deviceMap := deviceMap - {name};
      nextOrder := nextOrder - {name};
      controlList := controlList - {name};
    }

    static lemma OnTopicsStep(name: string, controls: seq<string>, i: nat)
      requires i < |controls|
      ensures OnTopicsOf(name, controls[..i + 1]) == OnTopicsOf(name, controls[..i]) + {OnTopic(name, controls[i])}
    {
      hide OnTopic;
      var a, b := controls[..i], controls[..i + 1];
      assert b == a + [controls[i]];
      forall f | f in OnTopicsOf(name, a) ensures f in OnTopicsOf(name, b) {
        var j :| 0 <= j < |a| && f == OnTopic(name, a[j]);
        assert b[j] == a[j];
      }
      assert b[i] == controls[i];
    }

    method RemoveDevice(name: string)
      requires Valid()
      modifies `deviceMap, `nextOrder, `controlList, `broker, Entries()
      ensures View() == Step(old(View()), DropDevice(name))
      ensures Valid() && topics == old(topics)
    {
      hide Forget, Register, Declare, CoreStep, HandleValue;
      ClearTopicDevCache();
      ForgetDevice(name);
    }

    method InstallDevice(dev: Device, title: string)
      modifies `deviceMap, `nextOrder, `controlList, `broker, `log, `cleanupTopics
      ensures Core() == Install(old(Core()), dev, title)
    {
      hide TitleTopic, Deposit, AddCleanup;
      deviceMap := deviceMap[dev.name := dev];
      if dev.LocalDevice? {
        nextOrder := nextOrder[dev.name := 1];
        controlList := controlList[dev.name := []];
        PublishMeta(TitleTopic(dev.name), title);
      }
    }

    method OnNewDevice(dev: Device, title: string)
      requires Valid()
      modifies `deviceMap, `nextOrder, `controlList, `broker, `log, `cleanupTopics, Entries()
      ensures View() == Step(old(View()), NewDevice(dev, title))
      ensures Valid() && topics == old(topics)
    {
      hide Forget, Install, Declare, CoreStep, HandleValue;
      ClearTopicDevCache();
      RemoveDevice(dev.name);
      ClearTwice(old(Cache()));
      InstallDevice(dev, title);
    }

    static lemma ClearTwice(cache: map<string, TopicEntry>)
      ensures ClearCache(ClearCache(cache)) == ClearCache(cache)
    {
    }

    // -------------------------------------------------------------- controls

    static lemma MetasSnoc(c: DriverSpec.Core, metas: seq<(string, string)>, topic: string, payload: string)
      ensures PublishMetas(c, metas + [(topic, payload)])
          == DriverSpec.PublishMeta(PublishMetas(c, metas), topic, payload)
    {
      assert (metas + [(topic, payload)])[..|metas|] == metas;
    }

    /** Publishes one more piece of metadata on top of those already published. */
    method AddMeta(ghost c0: DriverSpec.Core, ghost metas: seq<(string, string)>, topic: string, payload: string)
      returns (ghost more: seq<(string, string)>)
      requires Core() == PublishMetas(c0, metas)
      modifies `broker, `log, `cleanupTopics
      ensures more == metas + [(topic, payload)] && Core() == PublishMetas(c0, more)
    {
      hide DriverSpec.PublishMeta;
      more := metas + [(topic, payload)];
      MetasSnoc(c0, metas, topic, payload);
      PublishMeta(topic, payload);
    }

    method PublishTexts(dev: Device, control: Control) returns (ghost metas: seq<(string, string)>)
      modifies `broker, `log, `cleanupTopics
      ensures metas == ControlTexts(dev.name, control) && Core() == PublishMetas(old(Core()), metas)
    {
      hide ControlTopic, PublishMetas, GetType, GetUnits;
      ghost var c0 := Core();
      EmptyMetas(c0);
      metas := AddMeta(c0, [], ControlTopic(dev.name, control.name, ["meta", "type"]), GetType(control));
      if control.title != "" {
        metas := AddMeta(c0, metas, ControlTopic(dev.name, control.name, ["meta", "name"]), control.title);
      }
      if GetUnits(control) != "" {
        metas := AddMeta(c0, metas, ControlTopic(dev.name, control.name, ["meta", "units"]), GetUnits(control));
      }
    }

    method PublishMarks(ghost c0: DriverSpec.Core, ghost texts: seq<(string, string)>, dev: Device, control: Control,
                        order: int)
      requires Core() == PublishMetas(c0, texts)
      modifies `broker, `log, `cleanupTopics
      ensures Core() == PublishMetas(c0, texts + ControlMarks(dev.name, control, order))
    {
      hide ControlTopic, PublishMetas, Itoa;
      ghost var metas := texts;
      match control.writability {
        case ForceReadOnly =>
          metas := AddMeta(c0, metas, ControlTopic(dev.name, control.name, ["meta", "readonly"]), "1");
        case ForceWritable =>
          metas := AddMeta(c0, metas, ControlTopic(dev.name, control.name, ["meta", "writable"]), "1");
        case DefaultWritability =>
      }
      metas := AddMeta(c0, metas, ControlTopic(dev.name, control.name, ["meta", "order"]), Itoa(order));
      if control.max.Some? {
        metas := AddMeta(c0, metas, ControlTopic(dev.name, control.name, ["meta", "max"]), control.max.value);
      }
      assert metas == texts + ControlMarks(dev.name, control, order);
    }

    static lemma EmptyMetas(c: DriverSpec.Core)
      ensures PublishMetas(c, []) == c
    {
    }

    method AnnounceControl(dev: Device, control: Control, value: string)
      modifies `retainMap, `broker, `log
      ensures Core() == Announce(old(Core()), dev, control, value)
    {
      hide ControlTopic, DriverSpec.PublishValue;
      retainMap := retainMap[ControlTopic(dev.name, control.name, []) := Retain(control)];
      if Retain(control) {
        PublishValue(dev, control.name, value);
      }
    }

    method EnlistControl(dev: Device, control: Control)
      modifies `controlList, `cleanupTopics, `broker
      ensures Core() == Enlist(old(Core()), dev, control)
    {
      hide ControlTopic, OnTopic, AddCleanup;
      if control.writability != ForceReadOnly {
        broker := broker.(filters := broker.filters + {OnTopic(dev.name, control.name)});
      }
      var controls := if dev.name in controlList then controlList[dev.name] else [];
      controlList := controlList[dev.name := controls + [control.name]];
      AddCleanupTopic(ControlTopic(dev.name, control.name, []));
    }

    /** The value to publish: the last one received, for a virtual control redeclared while the driver runs. */
    method InitialValue(dev: Device, control: Control) returns (value: string)
      ensures value == DeclaredValue(Core(), dev, control, Received(Cache(), ControlTopic(dev.name, control.name, [])))
    {
      hide ControlTopic;
      var controlTopic := ControlTopic(dev.name, control.name, []);
      value := control.value;
      if active && dev.LocalDevice? && dev.virtual && Retain(control) {
        if controlTopic in topics {
          value := topics[controlTopic].receivedValue;
        }
      }
    }

    method DeclareControl(dev: Device, control: Control, value: string, ghost restored: Option<string>)
      requires value == DeclaredValue(Core(), dev, control, restored)
      modifies `nextOrder, `controlList, `retainMap, `cleanupTopics, `broker, `log
      ensures Core() == Declare(old(Core()), dev, control, restored)
    {
      hide ControlTexts, ControlMarks, PublishMetas, Announce, Enlist, DeclaredValue;
      var order := if control.order > 0 then control.order
                   else if dev.name in nextOrder then nextOrder[dev.name] else 0;
      ghost var texts := PublishTexts(dev, control);
      PublishMarks(old(Core()), texts, dev, control, order);
      if order >= (if dev.name in nextOrder then nextOrder[dev.name] else 0) {
        nextOrder := nextOrder[dev.name := order + 1];
      }
      AnnounceControl(dev, control, value);
      EnlistControl(dev, control);
    }

    method OnNewControl(dev: Device, control: Control) returns (value: string)
      modifies `nextOrder, `controlList, `retainMap, `cleanupTopics, `broker, `log
      ensures View() == Step(old(View()), NewControl(dev, control))
      ensures value == DeclaredValue(old(Core()), dev, control,
          Received(old(Cache()), ControlTopic(dev.name, control.name, [])))
    {
      hide ControlTopic, Declare, Register, Forget, CoreStep, HandleValue, DeclaredValue, Received;
      ghost var c0, cache0 := Core(), Cache();
      value := InitialValue(dev, control);
      assert Core() == c0 && Cache() == cache0;
      DeclareControl(dev, control, value, Received(cache0, ControlTopic(dev.name, control.name, [])));
      assert Cache() == cache0;
    }

    method OnValue(dev: Device, controlName: string, value: string)
      modifies `broker, `log
      ensures Core() == CoreStep(old(Core()), ValueOut(dev, controlName, value))
    {
      hide DriverSpec.PublishValue, DriverSpec.PublishOnValue, HandleOn, HandleTitle, HandleType, HandleMax, StopCore;
      if dev.ExternalDevice? {
        PublishOnValue(dev, controlName, value);
      } else {
        PublishValue(dev, controlName, value);
      }
    }

    method OnError(dev: Device, controlName: string, value: string)
      modifies `broker, `log, `cleanupTopics
      ensures Core() == CoreStep(old(Core()), ErrorOut(dev, controlName, value))
    {
      hide DriverSpec.PublishMeta, ControlTopic, HandleOn, HandleTitle, HandleType, HandleMax, StopCore;
      PublishMeta(ControlTopic(dev.name, controlName, ["meta", "error"]), value);
    }

    // -------------------------------------------------------------- lookups

    method EnsureDevice(deviceName: string, answer: Option<nat>) returns (dev: Option<Device>)
      modifies `deviceMap, `log
      ensures (Core(), dev) == Ensure(old(Core()), deviceName, answer)
    {
      if deviceName in deviceMap {
        return Some(deviceMap[deviceName]);
      }
      if !acceptsExternalDevices {
        return None;
      }
      CallModel(AddExternalDevice(deviceName));
      match answer {
        case None => return None;
        case Some(id) =>
          var added := ExternalDevice(id, deviceName);
          deviceMap := deviceMap[deviceName := added];
          return Some(added);
      }
    }

    method EnsureExtDevice(deviceName: string, answer: Option<nat>) returns (dev: Option<Device>)
      modifies `deviceMap, `log
      ensures (Core(), dev) == EnsureExt(old(Core()), deviceName, answer)
    {
      hide Ensure;
      dev := EnsureDevice(deviceName, answer);
      if dev.Some? && !dev.value.ExternalDevice? {
        dev := None;
      }
    }

    // -------------------------------------------------------------- messages

    method HandleIncomingControlOnValue(topic: string, payload: string, echo: bool)
      requires |Split(topic)| >= 5
      requires Split(topic)[2] in deviceMap ==> deviceMap[Split(topic)[2]].LocalDevice?
      modifies `broker, `log
      ensures Core() == HandleOn(old(Core()), topic, payload, echo)
    {
      hide DriverSpec.PublishValue, Tell, Split;
      var parts := Split(topic);
      var deviceName, controlName := parts[2], parts[4];
      if deviceName !in deviceMap {
        return;
      }
      var dev := deviceMap[deviceName];
      CallModel(AcceptOnValue(dev, controlName, payload));
      if echo {
        PublishValue(dev, controlName, payload);
      }
    }

    method HandleDeviceTitle(topic: string, payload: string, answer: Option<nat>)
      requires |Split(topic)| >= 3
      modifies `deviceMap, `log
      ensures Core() == HandleTitle(old(Core()), topic, payload, answer)
    {
      hide EnsureExt, Tell, Split;
      var dev := EnsureExtDevice(Split(topic)[2], answer);
      if dev.Some? {
        CallModel(SetTitle(dev.value, payload));
      }
    }

    method HandleExternalControlType(topic: string, payload: string, answer: Option<nat>)
      requires |Split(topic)| >= 5
      modifies `deviceMap, `log
      ensures Core() == HandleType(old(Core()), topic, payload, answer)
    {
      hide EnsureExt, Tell, Split;
      var parts := Split(topic);
      var dev := EnsureExtDevice(parts[2], answer);
      if dev.Some? {
        CallModel(AcceptControlType(dev.value, parts[4], payload));
      }
    }

    method HandleExternalControlMax(topic: string, payload: string, answer: Option<nat>, parses: bool)
      requires |Split(topic)| >= 5
      modifies `deviceMap, `log
      ensures Core() == HandleMax(old(Core()), topic, payload, answer, parses)
    {
      hide EnsureExt, Tell, Split;
      var parts := Split(topic);
      var dev := EnsureExtDevice(parts[2], answer);
      if dev.None? {
        return;
      }
      if !parses {
        return;
      }
      CallModel(AcceptControlRange(dev.value, parts[4], payload));
    }

    /** The entry object for a topic, created on first use, with the new value in it. */
    method TouchTopic(topic: string, payload: string) returns (entry: DriverTopic)
      requires Valid() && (topic !in topics ==> |Split(topic)| >= 5)
      modifies `topics, if topic in topics then {topics[topic]} else {}
      ensures Valid() && topic in topics && topics[topic] == entry
      ensures entry.View() == if topic in old(topics) then old(Cache()[topic]).(received := payload)
                              else TopicEntry(payload, Split(topic)[2], Split(topic)[4], None, ready, false)
      ensures Cache() == old(Cache())[topic := entry.View()]
      ensures topic !in old(topics) ==> fresh(entry)
      ensures topic in old(topics) ==> topics == old(topics)
      ensures topics == old(topics)[topic := entry]
      ensures Core() == old(Core())
      ensures entry.View() == EntryFor(old(View()), topic, payload)
    {
      hide Split;
      if topic !in topics {
        var parts := Split(topic);
        entry := new DriverTopic(payload, parts[2], parts[4], ready);
        topics := topics[topic := entry];
      } else {
        entry := topics[topic];
        entry.receivedValue := payload;
      }
    }

    /** Looks the entry's device up again and notes the readiness it was found under. */
    method Refresh(entry: DriverTopic, answer: Option<nat>)
      modifies `deviceMap, `log, entry
      ensures (Core(), entry.dev) == Lookup(old(Core()), entry.deviceName, answer)
      ensures entry.View() == old(entry.View()).(
                ready := ready, dev := entry.dev,
                skip := if entry.dev.Some? then SkipsRetained(entry.dev.value) else old(entry.skip))
    {
      hide Ensure, EnsureExt;
      entry.ready := ready;
      if ready {
        entry.dev := EnsureExtDevice(entry.deviceName, answer);
      } else {
        // until then values may also go to local devices
        entry.dev := EnsureDevice(entry.deviceName, answer);
      }
      if entry.dev.Some? {
        entry.skip := entry.dev.value.LocalDevice? && !entry.dev.value.virtual;
      }
    }

    /** Resolves the entry's device and passes it the value. */
    method PassValue(entry: DriverTopic, payload: string, answer: Option<nat>)
      modifies `deviceMap, `log, entry
      ensures var (c, e) := Resolve(old(Core()), old(entry.View()), answer);
              Core() == Pass(c, e, payload) && entry.View() == e
    {
      hide Lookup, Tell, SkipsRetained;
      if entry.dev == None || entry.ready != ready {
        Refresh(entry, answer);
        if entry.dev == None {
          return;
        }
      }
      if !entry.skip {
        CallModel(AcceptValue(entry.dev.value, entry.controlName, payload));
      }
    }

    method SettleTopic(topic: string, payload: string, answer: Option<nat>)
      requires Valid() && topic in topics
      modifies `deviceMap, `log, topics[topic]
      ensures var (c, e) := Resolve(old(Core()), old(Cache()[topic]), answer);
              Core() == Pass(c, e, payload) && Cache() == old(Cache())[topic := e]
    {
      hide Resolve, Pass, Core;
      ghost var cache0 := Cache();
      assert cache0[topic] == topics[topic].View();
      PassValue(topics[topic], payload, answer);
      assert forall t :: t in topics && t != topic ==> topics[t].View() == cache0[t];
    }

    lemma CacheKeys()
      ensures Cache().Keys == topics.Keys
    {
    }

    method HandleIncomingControlValue(topic: string, payload: string, answer: Option<nat>)
      requires Valid() && (topic !in topics ==> |Split(topic)| >= 5)
      modifies `topics, `deviceMap, `log, if topic in topics then {topics[topic]} else {}
      ensures View() == HandleValue(old(View()), topic, payload, answer)
      ensures Valid()
    {
      hide Split, Resolve, Pass, EntryFor, Core, Cache;
      CacheKeys();
      var entry := TouchTopic(topic, payload);
      SettleTopic(topic, payload, answer);
    }

    // -------------------------------------------------------------- life cycle

    /** The first half of Start: the driver is active while the model declares its devices. */
    method Activate()
      modifies `active
      ensures Core() == CoreStep(old(Core()), Event.Activate)
    {
      hide HandleOn, HandleTitle, HandleType, HandleMax, StopCore;
      if active {
        return;
      }
      active := true;
    }

    /** The second half of Start: the four feeds of a driver that accepts external devices. */
    method FinishStart()
      modifies `broker
      ensures Core() == CoreStep(old(Core()), Event.FinishStart)
    {
      hide HandleOn, HandleTitle, HandleType, HandleMax, StopCore, FeedFilter;
      if acceptsExternalDevices {
        broker := broker.(filters := broker.filters + {FeedFilter(TitleFeed)});
        broker := broker.(filters := broker.filters + {FeedFilter(ValueFeed)});
        broker := broker.(filters := broker.filters + {FeedFilter(TypeFeed)});
        broker := broker.(filters := broker.filters + {FeedFilter(MaxFeed)});
        FourFeeds();
      }
    }

    method BecomeReady()
      modifies `ready
      ensures Core() == CoreStep(old(Core()), Event.BecomeReady)
    {
      hide HandleOn, HandleTitle, HandleType, HandleMax, StopCore;
      ready := true;
    }

    method Stop()
      modifies `active, `broker, `log
      ensures Core() == StopCore(old(Core()))
    {
      hide CleanupMessages;
      if !active {
        return;
      }
      active := false;
      PerformCleanup();
    }
  }
}
