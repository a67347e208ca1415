/** The driver's flags, read off its history: ready once told so, active from a start to the next stop. */
module DriverFlags {
  import opened Topics
  import opened Messages
  import opened DriverSpec

  /** Some Activate has no StopDriver after it. */
  predicate ActiveBy(es: seq<Event>) {
    exists i :: 0 <= i < |es| && es[i] == Activate && StopDriver !in es[i..]
  }

  predicate SameFlags(c: Core, d: Core) {
    d.ready == c.ready && d.active == c.active && d.accepts == c.accepts
  }

  lemma LookupKeepsFlags(c: Core, name: string, answer: Option<nat>)
    ensures SameFlags(c, Ensure(c, name, answer).0)
    ensures SameFlags(c, EnsureExt(c, name, answer).0)
    ensures SameFlags(c, Lookup(c, name, answer).0)
  {
  }

  lemma FeedsKeepFlags(c: Core, topic: string, payload: string, answer: Option<nat>, parses: bool)
    ensures SameFlags(c, HandleTitle(c, topic, payload, answer))
    ensures SameFlags(c, HandleType(c, topic, payload, answer))
    ensures SameFlags(c, HandleMax(c, topic, payload, answer, parses))
  {
    hide EnsureExt, Split;
    forall name ensures SameFlags(c, EnsureExt(c, name, answer).0) {
      LookupKeepsFlags(c, name, answer);
    }
  }

  lemma ValueKeepsFlags(s: State, topic: string, payload: string, answer: Option<nat>)
    ensures SameFlags(s.core, HandleValue(s, topic, payload, answer).core)
  {
    hide Lookup, EntryFor, Split;
    forall name ensures SameFlags(s.core, Lookup(s.core, name, answer).0) {
      LookupKeepsFlags(s.core, name, answer);
    }
  }

  lemma OnKeepsFlags(c: Core, topic: string, payload: string, echo: bool)
    ensures SameFlags(c, HandleOn(c, topic, payload, echo))
  {
    hide ControlTopic, Split;
  }

  lemma AnnouncementKeepsFlags(c: Core, dev: Device, control: Control, value: string)
    ensures SameFlags(c, Announce(c, dev, control, value)) && SameFlags(c, Enlist(c, dev, control))
  {
    hide ControlTopic, OnTopic;
  }

  lemma DeclareKeepsFlags(c: Core, dev: Device, control: Control, restored: Option<string>)
    ensures SameFlags(c, Declare(c, dev, control, restored))
  {
    hide ControlMeta, Announce, Enlist;
    var value, order := DeclaredValue(c, dev, control, restored), OrderFor(c, dev.name, control);
    var a := Advance(PublishMetas(c, ControlMeta(dev.name, control, order)), dev.name, order);
    AnnouncementKeepsFlags(a, dev, control, value);
    AnnouncementKeepsFlags(Announce(a, dev, control, value), dev, control, value);
  }

  lemma RegisterKeepsFlags(c: Core, dev: Device, title: string)
    ensures SameFlags(c, Register(c, dev, title)) && SameFlags(c, Forget(c, dev.name))
  {
    hide OnTopicsOf, TitleTopic;
  }

  lemma ForgetKeepsFlags(c: Core, name: string)
    ensures SameFlags(c, Forget(c, name))
  {
    hide OnTopicsOf;
  }

  lemma OutKeepsFlags(c: Core, e: Event)
    requires e.ValueOut? || e.ErrorOut?
    ensures SameFlags(c, CoreStep(c, e))
  {
    hide ControlTopic;
  }

  lemma StepFlags(s: State, e: Event)
    ensures var c, d := s.core, Step(s, e).core;
            && (d.ready <==> c.ready || e == BecomeReady)
            && (d.active <==> e == Activate || (c.active && e != StopDriver))
            && d.accepts == c.accepts
  {
    hide HandleValue, HandleOn, HandleTitle, HandleType, HandleMax, Register, Forget, Declare;
    match e
    case NewDevice(dev, title) => RegisterKeepsFlags(s.core, dev, title);
    case DropDevice(name) => ForgetKeepsFlags(s.core, name);
    case NewControl(dev, control) =>
      DeclareKeepsFlags(s.core, dev, control, Received(s.topics, ControlTopic(dev.name, control.name, [])));
    case ValueMsg(topic, payload, answer) => ValueKeepsFlags(s, topic, payload, answer);
    case OnMsg(topic, payload, echo) => OnKeepsFlags(s.core, topic, payload, echo);
    case TitleMsg(topic, payload, answer) => FeedsKeepFlags(s.core, topic, payload, answer, true);
    case TypeMsg(topic, payload, answer) => FeedsKeepFlags(s.core, topic, payload, answer, true);
    case MaxMsg(topic, payload, answer, parses) => FeedsKeepFlags(s.core, topic, payload, answer, parses);
    case ValueOut(_, _, _) => OutKeepsFlags(s.core, e);
    case ErrorOut(_, _, _) => OutKeepsFlags(s.core, e);
    case _ =>
  }

  lemma ActiveMore(es: seq<Event>, e: Event)
    ensures ActiveBy(es + [e]) <==> e == Activate || (ActiveBy(es) && e != StopDriver)
  {
    var more := es + [e];
    if ActiveBy(more) && e != Activate {
      var i :| 0 <= i < |more| && more[i] == Activate && StopDriver !in more[i..];
      assert more[i..] == es[i..] + [e];
      assert e in more[i..];
    }
    if ActiveBy(es) && e != StopDriver {
      var i :| 0 <= i < |es| && es[i] == Activate && StopDriver !in es[i..];
      assert more[i..] == es[i..] + [e];
      assert more[i] == Activate;
    }
    if e == Activate {
      assert more[|es|..] == [e] && more[|es|] == Activate;
    }
  }

  /**
   The driver is ready exactly when the client has said so at some time, and active exactly
   when it was started and not stopped since.
   */
  lemma {:induction false} FlagsFollowHistory(accepts: bool, store: Store, es: seq<Event>)
    ensures var c := Run(Initial(accepts, store), es).core;
            && (c.ready <==> BecomeReady in es)
            && (c.active <==> ActiveBy(es))
            && c.accepts == accepts
  {
    if es != [] {
      hide Step, ActiveBy;
      var before, e := es[..|es| - 1], es[|es| - 1];
      assert es == before + [e];
      FlagsFollowHistory(accepts, store, before);
      StepFlags(Run(Initial(accepts, store), before), e);
      ActiveMore(before, e);
    }
  }
}
