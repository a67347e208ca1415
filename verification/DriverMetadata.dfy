/** What a declaration publishes, topic by topic, told from the control alone. */
module DriverMetadata {
  import opened Topics
  import opened Messages
  import opened DriverSpec
  import opened DriverTopics
  import opened DriverFlags
  import opened DriverSubscriptions
  import opened DriverDeclarations
  import DriverHistory

  // ---------------------------------------------------------------- what ought to be there

  /** The payloads sent on one topic, in order. */
  function PayloadsOn(ms: seq<Message>, topic: string): seq<string> {
    if ms == [] then []
    else
      var before, m := PayloadsOn(ms[..|ms| - 1], topic), ms[|ms| - 1];
      if m.topic == topic then before + [m.payload] else before
  }

  function OneIf(present: bool, payload: string): seq<string> {
    if present then [payload] else []
  }

  /** The payloads of a declaration on the topic that `sub` makes below the control's own. */
  function Announced(control: Control, order: int, value: string, sub: seq<string>): seq<string> {
    if sub == ["meta", "type"] then [GetType(control)]
    else if sub == ["meta", "name"] then OneIf(control.title != "", control.title)
    else if sub == ["meta", "units"] then OneIf(GetUnits(control) != "", GetUnits(control))
    else if sub == ["meta", "readonly"] then OneIf(control.writability == ForceReadOnly, "1")
    else if sub == ["meta", "writable"] then OneIf(control.writability == ForceWritable, "1")
    else if sub == ["meta", "order"] then [Itoa(order)]
    else if sub == ["meta", "max"] then (match control.max case Some(max) => [max] case None => [])
    else if sub == [] then OneIf(!control.forget && control.typ != "pushbutton", value)
    else []
  }

  predicate IsSubtopic(sub: seq<string>) {
    || sub == []
    || (|sub| == 2 && sub[0] == "meta" && sub[1] in {"type", "name", "units", "readonly", "writable", "order", "max"})
  }

  // ---------------------------------------------------------------- entries

  function EntryIf(name: string, control: string, sub: seq<string>, present: bool, payload: string): seq<Message> {
    if present then [Message(ControlTopic(name, control, sub), payload, 1, true)] else []
  }

  /** The messages of a declaration, one optional entry for each topic. */
  function Entries(name: string, c: Control, order: int, value: string): seq<Message> {
    EntryIf(name, c.name, ["meta", "type"], true, GetType(c))
    + EntryIf(name, c.name, ["meta", "name"], c.title != "", c.title)
    + EntryIf(name, c.name, ["meta", "units"], GetUnits(c) != "", GetUnits(c))
    + EntryIf(name, c.name, ["meta", "readonly"], c.writability == ForceReadOnly, "1")
    + EntryIf(name, c.name, ["meta", "writable"], c.writability == ForceWritable, "1")
    + EntryIf(name, c.name, ["meta", "order"], true, Itoa(order))
    + EntryIf(name, c.name, ["meta", "max"], c.max.Some?, if c.max.Some? then c.max.value else "")
    + EntryIf(name, c.name, [], !c.forget && c.typ != "pushbutton", value)
  }

  lemma MetaMessagesAppend(a: seq<(string, string)>, b: seq<(string, string)>)
    ensures MetaMessages(a + b) == MetaMessages(a) + MetaMessages(b)
  {
  }

  lemma TextEntries(name: string, c: Control)
    ensures MetaMessages(ControlTexts(name, c))
            == EntryIf(name, c.name, ["meta", "type"], true, GetType(c))
               + EntryIf(name, c.name, ["meta", "name"], c.title != "", c.title)
               + EntryIf(name, c.name, ["meta", "units"], GetUnits(c) != "", GetUnits(c))
  {
    hide ControlTopic, GetType, GetUnits;
  }

  lemma MarkEntries(name: string, c: Control, order: int)
    ensures MetaMessages(ControlMarks(name, c, order))
            == EntryIf(name, c.name, ["meta", "readonly"], c.writability == ForceReadOnly, "1")
               + EntryIf(name, c.name, ["meta", "writable"], c.writability == ForceWritable, "1")
               + EntryIf(name, c.name, ["meta", "order"], true, Itoa(order))
               + EntryIf(name, c.name, ["meta", "max"], c.max.Some?, if c.max.Some? then c.max.value else "")
  {
    hide ControlTopic, Itoa;
  }

  lemma DeclarationEntries(c: Core, dev: Device, control: Control, restored: Option<string>)
    ensures Declare(c, dev, control, restored).log.published
            == c.log.published
               + Entries(dev.name, control, OrderFor(c, dev.name, control), DeclaredValue(c, dev, control, restored))
  {
    DeclarationPublishes(c, dev, control, restored);
    hide Declare, ControlTexts, ControlMarks, ControlTopic, OrderFor, DeclaredValue, MetaMessages;
    hide GetType, GetUnits, Itoa;
    var order := OrderFor(c, dev.name, control);
    MetaMessagesAppend(ControlTexts(dev.name, control), ControlMarks(dev.name, control, order));
    TextEntries(dev.name, control);
    MarkEntries(dev.name, control, order);
    hide EntryIf;
    EntryOfValue(dev.name, control, DeclaredValue(c, dev, control, restored));
  }

  lemma EntryOfValue(name: string, control: Control, value: string)
    ensures EntryIf(name, control.name, [], !control.forget && control.typ != "pushbutton", value)
            == if Retain(control) then [Message(ControlTopic(name, control.name, []), value, 1, true)] else []
  {
    hide ControlTopic;
  }

  // ---------------------------------------------------------------- topic by topic

  lemma {:induction false} PayloadsAppend(a: seq<Message>, b: seq<Message>, topic: string)
    ensures PayloadsOn(a + b, topic) == PayloadsOn(a, topic) + PayloadsOn(b, topic)
  {
    if b == [] {
      assert a + b == a;
    } else {
      PayloadsAppend(a, b[..|b| - 1], topic);
      assert (a + b)[..|a + b| - 1] == a + b[..|b| - 1];
    }
  }

  lemma PayloadsOfEntry(name: string, control: string, sub: seq<string>, present: bool, payload: string,
                        want: seq<string>)
    requires SlashFree(name) && SlashFree(control) && AllSlashFree(sub) && AllSlashFree(want)
    ensures PayloadsOn(EntryIf(name, control, sub, present, payload), ControlTopic(name, control, want))
            == OneIf(present && sub == want, payload)
  {
    hide ControlTopic;
    ControlTopicParts(name, control, sub);
    ControlTopicParts(name, control, want);
    var base := ["", "devices", name, "controls", control];
    assert (base + sub)[5..] == sub && (base + want)[5..] == want;
    var ms := EntryIf(name, control, sub, present, payload);
    if present {
      assert ms[..|ms| - 1] == [];
    }
  }

  /** The payloads of eight entries in a row. */
  lemma PayloadsOfEight(a: seq<Message>, b: seq<Message>, c: seq<Message>, d: seq<Message>,
                        e: seq<Message>, f: seq<Message>, g: seq<Message>, h: seq<Message>, t: string)
    ensures PayloadsOn(a + b + c + d + e + f + g + h, t)
            == PayloadsOn(a, t) + PayloadsOn(b, t) + PayloadsOn(c, t) + PayloadsOn(d, t)
               + PayloadsOn(e, t) + PayloadsOn(f, t) + PayloadsOn(g, t) + PayloadsOn(h, t)
  {
    hide PayloadsOn;
    PayloadsAppend(a, b, t);
    PayloadsAppend(a + b, c, t);
    PayloadsAppend(a + b + c, d, t);
    PayloadsAppend(a + b + c + d, e, t);
    PayloadsAppend(a + b + c + d + e, f, t);
    PayloadsAppend(a + b + c + d + e + f, g, t);
    PayloadsAppend(a + b + c + d + e + f + g, h, t);
  }

  /** At most one of the eight entries is on a given topic. */
  function Sum(c: Control, order: int, value: string, want: seq<string>): seq<string> {
    OneIf(true && ["meta", "type"] == want, GetType(c))
    + OneIf(c.title != "" && ["meta", "name"] == want, c.title)
    + OneIf(GetUnits(c) != "" && ["meta", "units"] == want, GetUnits(c))
    + OneIf(c.writability == ForceReadOnly && ["meta", "readonly"] == want, "1")
    + OneIf(c.writability == ForceWritable && ["meta", "writable"] == want, "1")
    + OneIf(true && ["meta", "order"] == want, Itoa(order))
    + OneIf(c.max.Some? && ["meta", "max"] == want, if c.max.Some? then c.max.value else "")
    + OneIf((!c.forget && c.typ != "pushbutton") && [] == want, value)
  }

  lemma SumIsAnnounced(c: Control, order: int, value: string, want: seq<string>)
    ensures Sum(c, order, value, want) == Announced(c, order, value, want)
  {
    hide GetType, GetUnits, Itoa;
    if |want| != 2 || want[0] != "meta" {
      assert want != ["meta", "type"] && want != ["meta", "name"] && want != ["meta", "units"];
      assert want != ["meta", "readonly"] && want != ["meta", "writable"];
      assert want != ["meta", "order"] && want != ["meta", "max"];
    } else {
      assert want == ["meta", want[1]];
    }
  }

  lemma EntriesAreAnnounced(name: string, c: Control, order: int, value: string, want: seq<string>)
    requires SlashFree(name) && SlashFree(c.name) && AllSlashFree(want)
    ensures PayloadsOn(Entries(name, c, order, value), ControlTopic(name, c.name, want))
            == Announced(c, order, value, want)
  {
    SumIsAnnounced(c, order, value, want);
    hide ControlTopic, PayloadsOn, EntryIf, GetType, GetUnits, Itoa, SlashFree, AllSlashFree, OneIf, Announced;
    var t := ControlTopic(name, c.name, want);
    var units, max := GetUnits(c), if c.max.Some? then c.max.value else "";
    SubtopicsAreSlashFree();
    PayloadsOfEight(
      EntryIf(name, c.name, ["meta", "type"], true, GetType(c)),
      EntryIf(name, c.name, ["meta", "name"], c.title != "", c.title),
      EntryIf(name, c.name, ["meta", "units"], units != "", units),
      EntryIf(name, c.name, ["meta", "readonly"], c.writability == ForceReadOnly, "1"),
      EntryIf(name, c.name, ["meta", "writable"], c.writability == ForceWritable, "1"),
      EntryIf(name, c.name, ["meta", "order"], true, Itoa(order)),
      EntryIf(name, c.name, ["meta", "max"], c.max.Some?, max),
      EntryIf(name, c.name, [], !c.forget && c.typ != "pushbutton", value), t);
    PayloadsOfEntry(name, c.name, ["meta", "type"], true, GetType(c), want);
    PayloadsOfEntry(name, c.name, ["meta", "name"], c.title != "", c.title, want);
    PayloadsOfEntry(name, c.name, ["meta", "units"], units != "", units, want);
    PayloadsOfEntry(name, c.name, ["meta", "readonly"], c.writability == ForceReadOnly, "1", want);
    PayloadsOfEntry(name, c.name, ["meta", "writable"], c.writability == ForceWritable, "1", want);
    PayloadsOfEntry(name, c.name, ["meta", "order"], true, Itoa(order), want);
    PayloadsOfEntry(name, c.name, ["meta", "max"], c.max.Some?, max, want);
    PayloadsOfEntry(name, c.name, [], !c.forget && c.typ != "pushbutton", value, want);
  }

  lemma SubtopicsAreSlashFree()
    ensures AllSlashFree(["meta", "type"]) && AllSlashFree(["meta", "name"]) && AllSlashFree(["meta", "units"])
    ensures AllSlashFree(["meta", "readonly"]) && AllSlashFree(["meta", "writable"]) && AllSlashFree(["meta", "order"])
    ensures AllSlashFree(["meta", "max"]) && AllSlashFree([])
  {
  }

  ghost predicate OnControlTopic(name: string, control: string, m: Message) {
    m.qos == 1 && m.retained && exists sub :: IsSubtopic(sub) && m.topic == ControlTopic(name, control, sub)
  }

  /** Every message is retained, of quality of service 1, and on a topic of the control's own. */
  lemma EntriesStayOnTopic(name: string, c: Control, order: int, value: string, m: Message)
    ensures m in Entries(name, c, order, value) ==> OnControlTopic(name, c.name, m)
  {
    hide EntryIf, OnControlTopic, ControlTopic, GetType, GetUnits, Itoa;
    var units, max := GetUnits(c), if c.max.Some? then c.max.value else "";
    EntryOnTopic(name, c.name, ["meta", "type"], true, GetType(c), m);
    EntryOnTopic(name, c.name, ["meta", "name"], c.title != "", c.title, m);
    EntryOnTopic(name, c.name, ["meta", "units"], units != "", units, m);
    EntryOnTopic(name, c.name, ["meta", "readonly"], c.writability == ForceReadOnly, "1", m);
    EntryOnTopic(name, c.name, ["meta", "writable"], c.writability == ForceWritable, "1", m);
    EntryOnTopic(name, c.name, ["meta", "order"], true, Itoa(order), m);
    EntryOnTopic(name, c.name, ["meta", "max"], c.max.Some?, max, m);
    EntryOnTopic(name, c.name, [], !c.forget && c.typ != "pushbutton", value, m);
  }

  lemma EntryOnTopic(name: string, control: string, sub: seq<string>, present: bool, payload: string, m: Message)
    requires IsSubtopic(sub)
    ensures m in EntryIf(name, control, sub, present, payload) ==> OnControlTopic(name, control, m)
  {
    hide ControlTopic, IsSubtopic;
  }

  // ---------------------------------------------------------------- declarations

  /** The order a declaration is due: its own, or one more than the largest since its device was registered. */
  function OrderDue(s0: State, es: seq<Event>, dev: Device, control: Control): int {
    if control.order > 0 then control.order else 1 + Largest(DeclaredOrders(s0, es, dev.name))
  }

  /** The value due: the last one handled, for a retained control of a virtual device of a running driver. */
  function ValueDue(es: seq<Event>, dev: Device, control: Control): string {
    var last := DriverCache.LastValue(es, dev.name, control.name);
    if ActiveBy(es) && dev.LocalDevice? && dev.virtual && !control.forget && control.typ != "pushbutton" && last.Some?
    then last.value
    else control.value
  }

  lemma OrderIsDue(accepts: bool, store: Store, es: seq<Event>, dev: Device, control: Control)
    requires ValidRun(Initial(accepts, store), es)
    requires Enabled(Run(Initial(accepts, store), es).core, NewControl(dev, control))
    ensures OrderFor(Run(Initial(accepts, store), es).core, dev.name, control)
            == OrderDue(Initial(accepts, store), es, dev, control)
  {
    hide Run, ValidRun, ValidName, Largest, DeclaredOrders, Initial;
    CountersExceedOrders(accepts, store, es);
  }

  lemma ValueIsDue(accepts: bool, store: Store, es: seq<Event>, dev: Device, control: Control)
    requires ValidRun(Initial(accepts, store), es + [NewControl(dev, control)])
    ensures var s := Run(Initial(accepts, store), es);
            DeclaredValue(s.core, dev, control, Received(s.topics, ControlTopic(dev.name, control.name, [])))
            == ValueDue(es, dev, control)
  {
    hide Run, ValidRun, ControlTopic, Received, DeclaredValue, DriverCache.LastValue, ActiveBy, Step, Initial;
    ValueRestored(accepts, store, es, dev, control);
  }

  /**
   A declaration in a reachable state publishes on each topic below the control's own
   exactly what the control calls for, a read-only mark on a read-only control and a
   writable mark on a writable one among them, and nothing on any other topic.
   */
  lemma DeclarationAnnounces(accepts: bool, store: Store, es: seq<Event>,
                             dev: Device, control: Control, sub: seq<string>)
    requires ValidRun(Initial(accepts, store), es + [NewControl(dev, control)])
    ensures var c := Run(Initial(accepts, store), es).core;
            var d := Run(Initial(accepts, store), es + [NewControl(dev, control)]).core;
            && c.log.published <= d.log.published
            && (AllSlashFree(sub) ==>
                  var order, value := OrderDue(Initial(accepts, store), es, dev, control), ValueDue(es, dev, control);
                  PayloadsOn(d.log.published[|c.log.published|..], ControlTopic(dev.name, control.name, sub))
                  == Announced(control, order, value, sub))
            && (forall m :: m in d.log.published[|c.log.published|..] ==> OnControlTopic(dev.name, control.name, m))
  {
    hide *;
    var s0, e := Initial(accepts, store), NewControl(dev, control);
    var s := Run(s0, es);
    assert (es + [e])[..|es|] == es;
    ValidPrefix(s0, es + [e], |es|);
    DriverHistory.RunStep(s0, es, e);
    DeclareStep(s, dev, control);
    OrderIsDue(accepts, store, es, dev, control);
    ValueIsDue(accepts, store, es, dev, control);
    NamesAlwaysAgree(accepts, store, es);
    EnabledNames(s.core, dev, control);
    var order, value := OrderDue(s0, es, dev, control), ValueDue(es, dev, control);
    DeclarationEntries(s.core, dev, control, Received(s.topics, ControlTopic(dev.name, control.name, [])));
    var d := Run(s0, es + [e]).core;
    assert d.log.published[|s.core.log.published|..] == Entries(dev.name, control, order, value);
    if AllSlashFree(sub) {
      EntriesAreAnnounced(dev.name, control, order, value, sub);
    }
    forall m | m in Entries(dev.name, control, order, value) ensures OnControlTopic(dev.name, control.name, m) {
      EntriesStayOnTopic(dev.name, control, order, value, m);
    }
  }
}
