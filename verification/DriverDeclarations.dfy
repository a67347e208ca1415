/** What a control declaration puts on the wire, and that its numbers and values read back. */
module DriverDeclarations {
  import opened Topics
  import opened Messages
  import opened DriverSpec
  import opened DriverFrames
  import opened DriverFlags
  import DriverCache
  import DriverSubscriptions

  // ---------------------------------------------------------------- numbers

  function DigitValue(c: char): int {
    c as int - '0' as int
  }

  function DecimalValue(s: string): int {
    if s == "" then 0 else 10 * DecimalValue(s[..|s| - 1]) + DigitValue(s[|s| - 1])
  }

  function Atoi(s: string): int {
    if s != "" && s[0] == '-' then -DecimalValue(s[1..]) else DecimalValue(s)
  }

  lemma {:induction false} DecimalReadsBack(n: nat)
    ensures DecimalValue(Decimal(n)) == n
    ensures Decimal(n) != "" && Decimal(n)[0] != '-'
  {
    if n < 10 {
      var s := [Digit(n)];
      assert s[..0] == "" && DecimalValue("") == 0;
      assert DecimalValue(s) == DigitValue(Digit(n));
    } else {
      DecimalReadsBack(n / 10);
      DecimalValueOfMore(Decimal(n / 10), Digit(n % 10));
      DigitReadsBack(n % 10);
      hide DecimalValue, Digit, DigitValue;
    }
  }

  lemma DecimalValueOfMore(s: string, c: char)
    ensures DecimalValue(s + [c]) == 10 * DecimalValue(s) + DigitValue(c)
  {
    assert (s + [c])[..|s|] == s;
  }

  lemma DigitReadsBack(d: int)
    requires 0 <= d < 10
    ensures DigitValue(Digit(d)) == d
  {
  }

  /** A printed order reads back, so distinct orders are distinct on the wire. */
  lemma ItoaReadsBack(n: int)
    ensures Atoi(Itoa(n)) == n
  {
    DecimalReadsBack(if n < 0 then -n else n);
    if n < 0 {
      assert Itoa(n)[1..] == Decimal(-n);
    }
  }

  // ---------------------------------------------------------------- messages

  function MetaMessages(metas: seq<(string, string)>): seq<Message> {
    seq(|metas|, i requires 0 <= i < |metas| => Message(metas[i].0, metas[i].1, 1, true))
  }

  lemma {:induction false} MetasPublish(c: Core, metas: seq<(string, string)>)
    ensures PublishMetas(c, metas).log.published == c.log.published + MetaMessages(metas)
  {
    if metas == [] {
      assert MetaMessages(metas) == [];
    } else {
      var front, last := metas[..|metas| - 1], metas[|metas| - 1];
      MetasPublish(c, front);
      assert MetaMessages(metas) == MetaMessages(front) + [Message(last.0, last.1, 1, true)];
    }
  }

  lemma AnnouncementPublishes(c: Core, dev: Device, control: Control, value: string)
    ensures Enlist(Announce(c, dev, control, value), dev, control).log == Announce(c, dev, control, value).log
    ensures Announce(c, dev, control, value).log.published
            == c.log.published
               + (if Retain(control) then [Message(ControlTopic(dev.name, control.name, []), value, 1, true)] else [])
  {
    hide ControlTopic, OnTopic, Deposit;
  }

  /** The messages of a declaration, in order: its metadata, then its value if it is retained. */
  lemma DeclarationPublishes(c: Core, dev: Device, control: Control, restored: Option<string>)
    ensures Declare(c, dev, control, restored).log.published
            == c.log.published + MetaMessages(ControlMeta(dev.name, control, OrderFor(c, dev.name, control)))
               + (if Retain(control)
                  then [Message(ControlTopic(dev.name, control.name, []), DeclaredValue(c, dev, control, restored), 1,
                      true)]
                  else [])
  {
    hide ControlMeta, ControlTopic, Announce, Enlist, OrderFor, DeclaredValue;
    var order := OrderFor(c, dev.name, control);
    MetasPublish(c, ControlMeta(dev.name, control, order));
    AnnouncementPublishes(Advance(PublishMetas(c, ControlMeta(dev.name, control, order)), dev.name, order),
                          dev, control, DeclaredValue(c, dev, control, restored));
  }

  lemma OrderIsAmongMetas(name: string, control: Control, order: int)
    ensures (ControlTopic(name, control.name, ["meta", "order"]), Itoa(order)) in ControlMeta(name, control, order)
    ensures (ControlTopic(name, control.name, ["meta", "type"]), GetType(control)) in ControlMeta(name, control, order)
  {
    hide ControlTopic, Itoa, GetType, GetUnits;
  }

  function OrderMessage(name: string, control: string, order: int): Message {
    Message(ControlTopic(name, control, ["meta", "order"]), Itoa(order), 1, true)
  }

  /** The message is one of those published between the two states. */
  predicate PublishesNext(c: Core, d: Core, m: Message) {
    c.log.published <= d.log.published && m in d.log.published[|c.log.published|..]
  }

  /** Among its own messages a declaration publishes the order counted by `OrderFor`, in text that reads back. */
  lemma OrderIsPublished(c: Core, dev: Device, control: Control, restored: Option<string>)
    ensures var order := OrderFor(c, dev.name, control);
            && PublishesNext(c, Declare(c, dev, control, restored), OrderMessage(dev.name, control.name, order))
            && Atoi(OrderMessage(dev.name, control.name, order).payload) == order
  {
    hide ControlMeta, ControlTopic, Itoa, Atoi, Declare, DeclaredValue, Retain;
    var order := OrderFor(c, dev.name, control);
    var metas := ControlMeta(dev.name, control, order);
    ItoaReadsBack(order);
    OrderIsAmongMetas(dev.name, control, order);
    DeclarationPublishes(c, dev, control, restored);
    var i :| 0 <= i < |metas| && metas[i] == (ControlTopic(dev.name, control.name, ["meta", "order"]), Itoa(order));
    var d := Declare(c, dev, control, restored);
    assert d.log.published[|c.log.published| + i] == MetaMessages(metas)[i];
  }

  /** The type published is the control type up to its first colon, the rest being its units. */
  lemma TypeAndUnitsSplitAtColon(control: Control)
    ensures ':' !in GetType(control)
    ensures control.units != "" ==> GetUnits(control) == control.units
    ensures control.units == "" && ':' in control.typ ==> control.typ == GetType(control) + ":" + GetUnits(control)
    ensures control.units == "" && ':' !in control.typ ==> control.typ == GetType(control) && GetUnits(control) == ""
  {
    var k := IndexOf(control.typ, ':');
    if k >= 0 {
      assert control.typ == control.typ[..k] + [control.typ[k]] + control.typ[k + 1..];
    }
  }

  // ---------------------------------------------------------------- values

  /**
   Redeclaring a control publishes and returns the last value of its topic in the whole
   run, through every removal and cache clear, exactly when the driver is running, the
   device virtual, the control retained and some value was ever handled; otherwise the
   declared value.
   */
  lemma ValueRestored(accepts: bool, store: Store, es: seq<Event>, dev: Device, control: Control)
    requires ValidRun(Initial(accepts, store), es + [NewControl(dev, control)])
    ensures var s := Run(Initial(accepts, store), es);
            var topic := ControlTopic(dev.name, control.name, []);
            var last := DriverCache.LastValue(es, dev.name, control.name);
            var value := DeclaredValue(s.core, dev, control, Received(s.topics, topic));
            var published := Step(s, NewControl(dev, control)).core.log.published;
            && value == (if ActiveBy(es) && dev.LocalDevice? && dev.virtual && Retain(control) && last.Some?
                         then last.value
                         else control.value)
            && (Retain(control) ==> |published| > 0 && published[|published| - 1] == Message(topic, value, 1, true))
  {
    hide Run, ControlMeta, ControlTopic, DriverCache.LastValue, Received, Enabled, Declare, ActiveBy,
         DriverSubscriptions.NamesAgree;
    var s0 := Initial(accepts, store);
    ValidPrefix(s0, es + [NewControl(dev, control)], |es|);
    assert (es + [NewControl(dev, control)])[..|es|] == es;
    DriverSubscriptions.SubscriptionsMatchDeclarations(accepts, store, es);
    FlagsFollowHistory(accepts, store, es);
    var s := Run(s0, es);
    EnabledNames(s.core, dev, control);
    DriverCache.ReceivedIsLastValue(s0, es, dev.name, control.name);
    DeclarationPublishes(s.core, dev, control, Received(s.topics, ControlTopic(dev.name, control.name, [])));
    DeclareStep(s, dev, control);
  }

  lemma EnabledNames(c: Core, dev: Device, control: Control)
    requires DriverSubscriptions.NamesAgree(c) && Enabled(c, NewControl(dev, control))
    ensures SlashFree(dev.name) && SlashFree(control.name)
  {
  }

  lemma DeclareStep(s: State, dev: Device, control: Control)
    ensures Step(s, NewControl(dev, control)).core
            == Declare(s.core, dev, control, Received(s.topics, ControlTopic(dev.name, control.name, [])))
  {
    hide Declare;
  }

  // ---------------------------------------------------------------- a repeated order

  lemma RunMore(s0: State, es: seq<Event>, e: Event)
    ensures ValidRun(s0, es) && Enabled(Run(s0, es).core, e) ==> ValidRun(s0, es + [e])
    ensures Run(s0, es + [e]) == Step(Run(s0, es), e)
  {
    hide Step, Enabled;
    var more := es + [e];
    assert more[..|es|] == es;
    forall k | 0 <= k < |more| && ValidRun(s0, es) && Enabled(Run(s0, es).core, e)
      ensures Enabled(Run(s0, more[..k]).core, more[k])
    {
      if k < |es| {
        assert more[..k] == es[..k];
      }
    }
  }

  /** Declaring a second control with the explicit order of the first is allowed, and publishes that order again. */
  lemma ExplicitOrderRepeats(s0: State, es: seq<Event>, dev: Device, a: Control, b: Control)
    requires ValidRun(s0, es) && Enabled(Run(s0, es).core, NewControl(dev, a))
    requires a.order == b.order > 0 && ValidName(b.name)
    ensures ValidRun(s0, es + [NewControl(dev, a)] + [NewControl(dev, b)])
    ensures DriverSubscriptions.DeclaredOrders(s0, es + [NewControl(dev, a)] + [NewControl(dev, b)], dev.name)
            == DriverSubscriptions.DeclaredOrders(s0, es, dev.name) + [a.order, a.order]
    ensures var once, twice := es + [NewControl(dev, a)], es + [NewControl(dev, a)] + [NewControl(dev, b)];
            && PublishesNext(Run(s0, es).core, Run(s0, once).core, OrderMessage(dev.name, a.name, a.order))
            && PublishesNext(Run(s0, once).core, Run(s0, twice).core, OrderMessage(dev.name, b.name, a.order))
  {
    hide Run, ValidRun, Declare, ValidName, PublishesNext, OrderMessage;
    var s := Run(s0, es);
    RunMore(s0, es, NewControl(dev, a));
    DeclareStep(s, dev, a);
    DeclareEffect(s.core, dev, a, Received(s.topics, ControlTopic(dev.name, a.name, [])));
    var once := es + [NewControl(dev, a)];
    RunMore(s0, once, NewControl(dev, b));
    assert once[..|es|] == es && (once + [NewControl(dev, b)])[..|once|] == once;
    DeclarationPublishesOrder(s, dev, a);
    DeclarationPublishesOrder(Step(s, NewControl(dev, a)), dev, b);
    hide Step, Enabled;
  }

  lemma DeclarationPublishesOrder(s: State, dev: Device, control: Control)
    ensures PublishesNext(s.core, Step(s, NewControl(dev, control)).core,
                          OrderMessage(dev.name, control.name, OrderFor(s.core, dev.name, control)))
  {
    hide PublishesNext, OrderMessage, Declare;
    OrderIsPublished(s.core, dev, control, Received(s.topics, ControlTopic(dev.name, control.name, [])));
    DeclareStep(s, dev, control);
  }

  /** A run of that kind: one device and two controls, both published with order 5. */
  lemma ExplicitOrderMayRepeat(dev: Device, a: Control, b: Control)
    requires dev == LocalDevice(0, "d", false)
    requires a == Control("a", "", "switch", "0", "", DefaultWritability, None, false, 5) && b == a.(name := "b")
    ensures var s0 := Initial(false, map[]);
            var es := [NewDevice(dev, "D")] + [NewControl(dev, a)] + [NewControl(dev, b)];
            && ValidRun(s0, es) && DriverSubscriptions.DeclaredOrders(s0, es, dev.name) == [5, 5]
            && Message(ControlTopic("d", "a", ["meta", "order"]), "5", 1, true) in Run(s0, es).core.log.published
            && Message(ControlTopic("d", "b", ["meta", "order"]), "5", 1, true) in Run(s0, es).core.log.published
  {
    hide Register, ValidRun, Run;
    var s0 := Initial(false, map[]);
    EmptyRun(s0);
    RunMore(s0, [], NewDevice(dev, "D"));
    assert [] + [NewDevice(dev, "D")] == [NewDevice(dev, "D")];
    RegisterEffect(s0.core, dev, "D");
    ExplicitOrderRepeats(s0, [NewDevice(dev, "D")], dev, a, b);
    FiveIsPublished("d", "a");
    FiveIsPublished("d", "b");
    hide Step, Enabled, ValidName, OrderMessage, DriverSubscriptions.DeclaredOrders;
  }

  lemma FiveIsPublished(name: string, control: string)
    ensures OrderMessage(name, control, 5) == Message(ControlTopic(name, control, ["meta", "order"]), "5", 1, true)
  {
    hide ControlTopic;
    assert Decimal(5) == [Digit(5)] == "5";
  }

  lemma EmptyRun(s0: State)
    ensures ValidRun(s0, []) && Run(s0, []) == s0
  {
  }
}
