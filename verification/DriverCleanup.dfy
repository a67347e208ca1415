/**
 The list of topics the driver clears when it stops.

 At every step boundary it lists, once each, every topic the driver has ever published on
 with the retain flag; stopping therefore leaves nothing retained on any of them and
 touches no other topic.
 */
module DriverCleanup {
  import opened Topics
  import opened Messages
  import opened DriverSpec
  import opened DriverFrames
  import opened DriverFlags
  import DriverCache

  /** `extra` holds topics marked as retained whose cleanup entry is still to come in the same step. */
  ghost predicate Covered(c: Core, extra: set<string>) {
    && NoDuplicates(c.cleanup)
    && (forall m :: m in c.log.published && m.retained ==> m.topic in c.cleanup || m.topic in extra)
    && (forall t :: Retained(c, t) ==> t in c.cleanup || t in extra)
  }

  predicate SameRecords(c: Core, d: Core) {
    d.log.published == c.log.published && d.cleanup == c.cleanup && d.reg.retain == c.reg.retain
  }

  lemma SameRecordsCovered(c: Core, d: Core, extra: set<string>)
    requires Covered(c, extra) && SameRecords(c, d)
    ensures Covered(d, extra)
  {
    forall t | Retained(d, t) ensures t in d.cleanup || t in extra {
      assert Retained(c, t);
    }
  }

  lemma AddCleanupCovers(c: Core, topic: string, extra: set<string>)
    requires Covered(c, extra + {topic})
    ensures Covered(c.(cleanup := AddCleanup(c.cleanup, topic)), extra)
  {
    var d := c.(cleanup := AddCleanup(c.cleanup, topic));
    assert forall t :: t in c.cleanup ==> t in d.cleanup;
    assert topic in d.cleanup by {
      if topic !in c.cleanup {
        assert d.cleanup[|c.cleanup|] == topic;
      }
    }
    forall t | Retained(d, t) ensures t in d.cleanup || t in extra {
      assert Retained(c, t);
    }
  }

  lemma PublishCovered(c: Core, m: Message, extra: set<string>)
    requires Covered(c, extra)
    ensures Covered(Publish(c, m), if m.retained then extra + {m.topic} else extra)
  {
    hide Deposit;
    var d := Publish(c, m);
    forall x | x in d.log.published && x.retained ensures x.topic in d.cleanup || x.topic in extra
        || (m.retained && x.topic == m.topic) {
      assert x in c.log.published || x == m;
    }
    forall t | Retained(d, t) ensures t in d.cleanup || t in extra {
      assert Retained(c, t);
    }
  }

  lemma PublishMetaCovered(c: Core, topic: string, payload: string, extra: set<string>)
    requires Covered(c, extra)
    ensures Covered(PublishMeta(c, topic, payload), extra)
  {
    hide Publish, AddCleanup;
    PublishCovered(c, Message(topic, payload, 1, true), extra);
    AddCleanupCovers(Publish(c, Message(topic, payload, 1, true)), topic, extra);
  }

  lemma {:induction false} PublishMetasCovered(c: Core, metas: seq<(string, string)>, extra: set<string>)
    requires Covered(c, extra)
    ensures Covered(PublishMetas(c, metas), extra)
  {
    hide PublishMeta, Covered;
    if metas != [] {
      var last := metas[|metas| - 1];
      PublishMetasCovered(c, metas[..|metas| - 1], extra);
      PublishMetaCovered(PublishMetas(c, metas[..|metas| - 1]), last.0, last.1, extra);
    }
  }

  /** A value is published as retained only on a topic already marked so. */
  lemma PublishValueCovered(c: Core, name: string, control: string, value: string, extra: set<string>)
    requires Covered(c, extra)
    ensures Covered(PublishValue(c, name, control, value), extra)
  {
    hide Publish, ControlTopic;
    var topic := ControlTopic(name, control, []);
    PublishCovered(c, Message(topic, value, 1, Retained(c, topic)), extra);
    if Retained(c, topic) {
      var d := Publish(c, Message(topic, value, 1, true));
      PublishKeepsRecords(c, Message(topic, value, 1, true));
      assert forall t :: t in extra + {topic} ==> t in d.cleanup || t in extra;
    }
  }

  lemma PublishKeepsRecords(c: Core, m: Message)
    ensures Publish(c, m).cleanup == c.cleanup && Publish(c, m).reg == c.reg
    ensures Publish(c, m).log.published == c.log.published + [m]
  {
  }

  lemma AnnounceCovered(c: Core, dev: Device, control: Control, value: string)
    requires Covered(c, {})
    ensures Covered(Announce(c, dev, control, value), {ControlTopic(dev.name, control.name, [])})
  {
    hide PublishValue, ControlTopic;
    var topic := ControlTopic(dev.name, control.name, []);
    var r := c.(reg := c.reg.(retain := c.reg.retain[topic := Retain(control)]));
    forall t | Retained(r, t) ensures t in r.cleanup || t in {topic} {
      if t != topic {
        assert Retained(c, t);
      }
    }
    PublishValueCovered(r, dev.name, control.name, value, {topic});
  }

  lemma EnlistCovered(c: Core, dev: Device, control: Control)
    requires Covered(c, {ControlTopic(dev.name, control.name, [])})
    ensures Covered(Enlist(c, dev, control), {})
  {
    hide ControlTopic, OnTopic, AddCleanup;
    var topic := ControlTopic(dev.name, control.name, []);
    assert {} + {topic} == {topic};
    var s := if control.writability != ForceReadOnly then Subscribe(c, {OnTopic(dev.name, control.name)}) else c;
    var t := s.(reg := s.reg.(controls := s.reg.controls[dev.name := ControlsOf(s, dev.name) + [control.name]]));
    SameRecordsCovered(c, t, {topic});
    AddCleanupCovers(t, topic, {});
  }

  lemma DeclareCovered(c: Core, dev: Device, control: Control, restored: Option<string>)
    requires Covered(c, {})
    ensures Covered(Declare(c, dev, control, restored), {})
  {
    hide Announce, Enlist, ControlMeta, PublishMetas, Covered;
    var value, order := DeclaredValue(c, dev, control, restored), OrderFor(c, dev.name, control);
    var m := PublishMetas(c, ControlMeta(dev.name, control, order));
    var a := Advance(m, dev.name, order);
    PublishMetasCovered(c, ControlMeta(dev.name, control, order), {});
    SameRecordsCovered(m, a, {});
    AnnounceCovered(a, dev, control, value);
    EnlistCovered(Announce(a, dev, control, value), dev, control);
  }

  lemma ForgetKeepsRecords(c: Core, name: string)
    ensures SameRecords(c, Forget(c, name))
  {
  }

  lemma RegisterCovered(c: Core, dev: Device, title: string)
    requires Covered(c, {})
    ensures Covered(Register(c, dev, title), {})
  {
    hide Forget, PublishMeta, TitleTopic, Covered;
    var f := Forget(c, dev.name);
    ForgetKeepsRecords(c, dev.name);
    var r := f.reg.(devices := f.reg.devices[dev.name := dev]);
    SameRecordsCovered(c, f.(reg := r), {});
    if dev.LocalDevice? {
      var l := f.(reg := r.(nextOrder := r.nextOrder[dev.name := 1], controls := r.controls[dev.name := []]));
      SameRecordsCovered(c, l, {});
      PublishMetaCovered(l, TitleTopic(dev.name), title, {});
    }
  }

  lemma OnLocalCovered(c: Core, dev: Device, control: string, payload: string, echo: bool)
    requires Covered(c, {})
    ensures Covered(OnLocal(c, dev, control, payload, echo), {})
  {
    hide PublishValue, Covered;
    var t := Tell(c, AcceptOnValue(dev, control, payload));
    SameRecordsCovered(c, t, {});
    PublishValueCovered(t, dev.name, control, payload, {});
  }

  // ---------------------------------------------------------------- clearing

  /** Clearing a list of topics removes exactly those topics from the store. */
  lemma {:induction false} ClearingRemoves(store: Store, topics: seq<string>)
    ensures DepositAll(store, CleanupMessages(topics)) == store - (set t | t in topics)
  {
    if topics == [] {
      assert store - (set t | t in topics) == store;
    } else {
      var front, last := topics[..|topics| - 1], topics[|topics| - 1];
      ClearingRemoves(store, front);
      var ms := CleanupMessages(topics);
      assert ms[..|ms| - 1] == CleanupMessages(front);
      assert (set t | t in topics) == (set t | t in front) + {last} by {
        assert topics == front + [last];
      }
      assert DepositAll(store, ms) == Deposit(store - (set t | t in front), Message(last, "", 1, true));
    }
  }

  lemma StopCovered(c: Core)
    requires Covered(c, {})
    ensures Covered(StopCore(c), {})
  {
    if c.active {
      hide DepositAll;
      var d := StopCore(c);
      var ms := CleanupMessages(c.cleanup);
      assert d.log.published == c.log.published + ms;
      forall m | m in ms ensures m.topic in c.cleanup {
      }
      forall m | m in d.log.published && m.retained ensures m.topic in d.cleanup {
        assert m in c.log.published || m in ms;
      }
      forall t | Retained(d, t) ensures t in d.cleanup {
        assert Retained(c, t);
      }
    }
  }

  lemma CoreStepCovered(c: Core, e: Event)
    requires Covered(c, {})
    ensures Covered(CoreStep(c, e), {})
  {
    hide HandleOn, HandleTitle, HandleType, HandleMax, StopCore, PublishValue, PublishMeta, ControlTopic, Covered,
         Split;
    match e
    case OnMsg(topic, payload, echo) => OnCovered(c, topic, payload, echo);
    case TitleMsg(topic, payload, answer) => FeedsKeepRecords(c, topic, payload, answer, true);
      SameRecordsCovered(c, HandleTitle(c, topic, payload, answer), {});
    case TypeMsg(topic, payload, answer) => FeedsKeepRecords(c, topic, payload, answer, true);
      SameRecordsCovered(c, HandleType(c, topic, payload, answer), {});
    case MaxMsg(topic, payload, answer, parses) => FeedsKeepRecords(c, topic, payload, answer, parses);
      SameRecordsCovered(c, HandleMax(c, topic, payload, answer, parses), {});
    case ValueOut(dev, control, value) =>
      PublishValueCovered(c, dev.name, control, value, {});
      PublishOnValueCovered(c, dev.name, control, value);
    case ErrorOut(dev, control, value) =>
      PublishMetaCovered(c, ControlTopic(dev.name, control, ["meta", "error"]), value, {});
    case StopDriver => StopCovered(c);
    case _ => SameRecordsCovered(c, CoreStep(c, e), {});
  }

  lemma PublishOnValueCovered(c: Core, name: string, control: string, value: string)
    requires Covered(c, {})
    ensures Covered(PublishOnValue(c, name, control, value), {})
  {
    hide Publish, ControlTopic;
    PublishCovered(c, Message(ControlTopic(name, control, []) + "/on", value, 1, false), {});
  }

  lemma OnCovered(c: Core, topic: string, payload: string, echo: bool)
    requires Covered(c, {})
    ensures Covered(HandleOn(c, topic, payload, echo), {})
  {
    hide PublishValue, Tell, Split, Covered;
    var parts := Split(topic);
    SameRecordsCovered(c, Crash(c), {});
    if |parts| >= 5 && parts[2] in c.reg.devices && c.reg.devices[parts[2]].LocalDevice? {
      OnLocalCovered(c, c.reg.devices[parts[2]], parts[4], payload, echo);
    }
  }

  lemma FeedsKeepRecords(c: Core, topic: string, payload: string, answer: Option<nat>, parses: bool)
    ensures SameRecords(c, HandleTitle(c, topic, payload, answer))
    ensures SameRecords(c, HandleType(c, topic, payload, answer))
    ensures SameRecords(c, HandleMax(c, topic, payload, answer, parses))
  {
    if |Split(topic)| >= 3 {
      assert SameRecords(c, HandleTitle(c, topic, payload, answer)) by {
        TitleLooksUp(c, topic, payload, answer);
      }
    }
    if |Split(topic)| >= 5 {
      hide HandleTitle, HandleType, HandleMax;
      FeedLooksUp(c, topic, payload, answer, parses);
    }
  }

  lemma StepCovered(s: State, e: Event)
    requires DriverCache.CacheAgrees(s) && Covered(s.core, {})
    ensures Covered(Step(s, e).core, {})
  {
    hide CoreStep, HandleValue, Register, Forget, Declare, Covered;
    match e
    case NewDevice(dev, title) => RegisterCovered(s.core, dev, title);
    case DropDevice(name) =>
      ForgetKeepsRecords(s.core, name);
      SameRecordsCovered(s.core, Forget(s.core, name), {});
    case NewControl(dev, control) =>
      DeclareCovered(s.core, dev, control, Received(s.topics, ControlTopic(dev.name, control.name, [])));
    case ValueMsg(topic, payload, answer) =>
      ValueKeepsRecords(s, topic, payload, answer);
      SameRecordsCovered(s.core, Step(s, e).core, {});
    case _ => CoreStepCovered(s.core, e);
  }

  lemma ValueKeepsRecords(s: State, topic: string, payload: string, answer: Option<nat>)
    requires DriverCache.CacheAgrees(s)
    ensures SameRecords(s.core, HandleValue(s, topic, payload, answer).core)
  {
    hide HandleValue, DriverCache.FreshHandle;
    DriverCache.HandleValueAgrees(s, topic, payload, answer);
    DriverCache.FreshHandleLooksUp(DriverCache.Uncached(s), topic, payload, answer);
    if |Split(topic)| < 5 {
      DriverCache.ShortTopicCrashes(DriverCache.Uncached(s), topic, payload, answer);
    }
  }

  /** Every topic ever published with the retain flag is in the cleanup list, which holds no topic twice. */
  lemma {:induction false} CleanupCoversRetained(accepts: bool, store: Store, es: seq<Event>)
    ensures Covered(Run(Initial(accepts, store), es).core, {})
  {
    if es != [] {
      hide Step;
      CleanupCoversRetained(accepts, store, es[..|es| - 1]);
      DriverCache.CacheTransparent(accepts, store, es[..|es| - 1]);
      StepCovered(Run(Initial(accepts, store), es[..|es| - 1]), es[|es| - 1]);
    }
  }

  /**
   Stopping a driver that was started and not stopped since leaves no retained message on
   any topic it ever published on with the retain flag, and every other topic of the store
   as it was; stopping any other driver does nothing.
   */
  lemma StopLeavesNothing(accepts: bool, store: Store, es: seq<Event>)
    ensures var s, t := Run(Initial(accepts, store), es), Run(Initial(accepts, store), es + [StopDriver]);
            var c, d := s.core, t.core;
            && (!ActiveBy(es) ==> t == s)
            && (ActiveBy(es) ==>
                  && !d.active
                  && (forall m :: m in d.log.published && m.retained ==> m.topic !in d.broker.store)
                  && (forall t :: t in c.broker.store ==>
                        t in c.cleanup || (t in d.broker.store && d.broker.store[t] == c.broker.store[t]))
                  && (forall t :: t in d.broker.store ==> t in c.broker.store && t !in c.cleanup))
  {
    assert (es + [StopDriver])[..|es|] == es;
    var s := Run(Initial(accepts, store), es);
    assert Run(Initial(accepts, store), es + [StopDriver]) == Step(s, StopDriver) == s.(core := StopCore(s.core));
    FlagsFollowHistory(accepts, store, es);
    CleanupCoversRetained(accepts, store, es);
    if ActiveBy(es) {
      hide Run, Step, CoreStep, ActiveBy, Covered;
      StopCovered(s.core);
      ClearingRemoves(s.core.broker.store, s.core.cleanup);
      CoveredMeans(StopCore(s.core));
    }
  }

  lemma CoveredMeans(c: Core)
    requires Covered(c, {})
    ensures forall m :: m in c.log.published && m.retained ==> m.topic in c.cleanup
  {
  }
}
