/**
 The MQTT client's two tables, replayed to the broker on every connection.

 The broker is the one of MQTT 3.1.1: with a clean session it drops a client's filters
 when the connection is lost (section 3.1.2.4) and keeps retained messages as section
 3.3.1.3 says.  Callbacks are named by numbers.
 */
module PahoClient {
  import opened Messages

  type Handlers = map<string, seq<nat>>

  /** `filters` and `store` are the broker's; `sent` is every message handed to the connection. */
  datatype ClientState = ClientState(
    subs: Handlers, retained: Store, connected: bool, filters: set<string>, store: Store, sent: seq<Message>)

  // ---------------------------------------------------------------- operations as functions

  function Added(subs: Handlers, callback: nat, topics: seq<string>): Handlers {
    if topics == [] then subs
    else
      var before, topic := Added(subs, callback, topics[..|topics| - 1]), topics[|topics| - 1];
      if topic in before then before[topic := before[topic] + [callback]] else before[topic := [callback]]
  }

  function Elements(topics: seq<string>): set<string> {
    set t | t in topics
  }

  /** A message handed to a lost connection never reaches the broker. */
  function Reached(connected: bool, store: Store, m: Message): Store {
    if connected then Deposit(store, m) else store
  }

  function Sent(c: ClientState, m: Message): ClientState {
    c.(retained := Deposit(c.retained, m), store := Reached(c.connected, c.store, m), sent := c.sent + [m])
  }

  function SentAll(c: ClientState, ms: seq<Message>): ClientState {
    if ms == [] then c else Sent(SentAll(c, ms[..|ms| - 1]), ms[|ms| - 1])
  }

  // ---------------------------------------------------------------- the client object

  class Client {
    var subs: Handlers
    var retainedMessages: Store
    var connected: bool
    // the broker's side of the connection
    var filters: set<string>
    var store: Store
    var sent: seq<Message>

    function View(): ClientState
      reads this
    {
      ClientState(subs, retainedMessages, connected, filters, store, sent)
    }

    /** Every retained entry is a retained message with a payload, under its own topic; no callback list is empty. */
    ghost predicate Valid()
      reads `retainedMessages, `subs
    {
      TableProper(retainedMessages) && forall t :: t in subs ==> subs[t] != []
    }

    constructor (store: Store)
      ensures Valid() && View() == ClientState(map[], map[], false, {}, store, [])
    {
      subs, retainedMessages, connected, filters, sent := map[], map[], false, {}, [];
      this.store := store;
    }

    method Publish(m: Message)
      requires Valid()
      modifies `retainedMessages, `store, `sent
      ensures Valid() && View() == ClientStep(old(View()), Publishing(m))
    {
      store := Reached(connected, store, m);
      sent := sent + [m];
      if m.retained {
        if m.payload == "" {
          retainedMessages := retainedMessages - {m.topic};
        } else {
          retainedMessages := retainedMessages[m.topic := m];
        }
      }
    }

    /** Published past the table of retained messages. */
    method PublishSync(m: Message)
      requires Valid()
      modifies `store, `sent
      ensures Valid() && View() == ClientStep(old(View()), PublishingSync(m))
    {
      store := Reached(connected, store, m);
      sent := sent + [m];
    }

    method Subscribe(callback: nat, topics: seq<string>)
      requires Valid()
      modifies `subs, `filters
      ensures Valid() && View() == ClientStep(old(View()), Subscribing(callback, topics))
    {
      assert topics[..0] == [];
      for i := 0 to |topics|
        modifies `subs
        invariant subs == Added(old(subs), callback, topics[..i])
        invariant Valid()
      {
        assert topics[..i + 1][..i] == topics[..i];
        var topic := topics[i];
        if topic in subs {
          subs := subs[topic := subs[topic] + [callback]];
        } else {
          subs := subs[topic := [callback]];
        }
      }
      assert topics[..|topics|] == topics;
      if !connected {
        return;
      }
      filters := filters + Elements(topics);
    }

    method Unsubscribe(topics: seq<string>)
      requires Valid()
      modifies `subs, `filters
      ensures Valid() && View() == ClientStep(old(View()), Unsubscribing(topics))
    {
      for i := 0 to |topics|
        modifies `subs
        invariant subs == old(subs) - Elements(topics[..i])
      {
        assert topics[..i + 1] == topics[..i] + [topics[i]];
        assert Elements(topics[..i + 1]) == Elements(topics[..i]) + {topics[i]};
        subs := subs - {topics[i]};
      }
      assert topics[..|topics|] == topics;
      if !connected {
        return;
      }
      filters := filters - Elements(topics);
    }

    method OnConnectionLost()
      requires Valid()
      modifies `connected, `filters
      ensures Valid() && View() == ClientStep(old(View()), Lose)
    {
      connected := false;
      filters := {}; // the broker's doing
    }

    /** One filter for each callback, then each retained message, both tables visited in map order. */
    method OnConnect() returns (ghost order: seq<string>)
      requires Valid()
      modifies `connected, `filters, `retainedMessages, `store, `sent
      ensures Valid()
      ensures IsOrderOf(order, old(retainedMessages))
      ensures View() == ClientStep(old(View()), Connect(order))
    {
      connected := true;
      ResubscribeAll();
      order := ReplayAll();
    }

    method ResubscribeAll()
      requires Valid()
      modifies `filters
      ensures filters == old(filters) + subs.Keys
    {
      var rest := subs.Keys;
      while rest != {}
        modifies `filters
        invariant rest <= subs.Keys
        invariant filters == old(filters) + (subs.Keys - rest)
        decreases |rest|
      {
        var topic :| topic in rest;
        ghost var before := filters;
        for i := 0 to |subs[topic]|
          modifies `filters
          invariant filters == if i == 0 then before else before + {topic}
        {
          filters := filters + {topic};
        }
        rest := rest - {topic};
      }
    }

    /** Each republication writes its message back into the table being visited. */
    method ReplayAll() returns (ghost order: seq<string>)
      requires Valid()
      modifies `retainedMessages, `store, `sent
      ensures Valid()
      ensures IsOrderOf(order, old(retainedMessages))
      ensures View() == SentAll(old(View()), Replayed(old(retainedMessages), order))
    {
      var rest := retainedMessages.Keys;
      ghost var table := retainedMessages;
      order := [];
      assert Replayed(table, []) == [];
      while rest != {}
        modifies `retainedMessages, `store, `sent
        invariant Valid() && retainedMessages == table
        invariant rest <= table.Keys
        invariant NoDuplicates(order) && forall t :: t in order <==> t in table && t !in rest
        invariant View() == SentAll(old(View()), Replayed(table, order))
        decreases |rest|
      {
        var topic :| topic in rest;
        rest := rest - {topic};
        ghost var more := order + [topic];
        assert more[..|order|] == order;
        assert Replayed(table, more) == Replayed(table, order) + [table[topic]];
        assert Replayed(table, more)[..|order|] == Replayed(table, order);
        assert table[topic := table[topic]] == table;
        Publish(retainedMessages[topic]);
        order := more;
      }
    }
  }

  // ---------------------------------------------------------------- replaying retained messages

  ghost predicate TableProper(table: Store) {
    forall t :: t in table ==> table[t].topic == t && table[t].retained && table[t].payload != ""
  }

  /** An iteration order of a map: each key once. */
  ghost predicate IsOrderOf(order: seq<string>, table: Store) {
    NoDuplicates(order) && forall t :: t in order <==> t in table
  }

  ghost function Replayed(table: Store, order: seq<string>): (ms: seq<Message>)
    requires forall t :: t in order ==> t in table
  {
    seq(|order|, i requires 0 <= i < |order| => table[order[i]])
  }

  /** The table is the store an empty broker would hold after the same messages. */
  lemma {:induction false} DepositKeepsProper(ms: seq<Message>)
    ensures TableProper(DepositAll(map[], ms))
  {
    if ms != [] {
      DepositKeepsProper(ms[..|ms| - 1]);
    }
  }

  ghost function Kept(table: Store, order: seq<string>): Store {
    map t | t in table && t in order :: table[t]
  }

  lemma KeptGrows(store: Store, table: Store, front: seq<string>, last: string)
    requires last in table
    ensures (store + Kept(table, front))[last := table[last]] == store + Kept(table, front + [last])
  {
  }

  lemma ReplayedGrows(table: Store, front: seq<string>, last: string)
    requires last in table && forall t :: t in front ==> t in table
    ensures Replayed(table, front + [last]) == Replayed(table, front) + [table[last]]
  {
  }

  lemma {:induction false} ReplayDeposits(store: Store, table: Store, order: seq<string>)
    requires TableProper(table) && forall t :: t in order ==> t in table
    ensures DepositAll(store, Replayed(table, order)) == store + Kept(table, order)
  {
    if order != [] {
      var front, last := order[..|order| - 1], order[|order| - 1];
      ReplayDeposits(store, table, front);
      assert order == front + [last];
      ReplayedGrows(table, front, last);
      KeptGrows(store, table, front, last);
      assert (Replayed(table, front) + [table[last]])[..|front|] == Replayed(table, front);
      hide Kept, Replayed;
    } else {
      assert Replayed(table, order) == [];
    }
  }

  /**
   Replay rebuilds the store: after any history of Publish calls, sending the table in any
   order to a broker whose store is empty gives it exactly the store the whole history
   would have built.  To a broker that kept some store it does so exactly when that store
   has no topic which the history ended up clearing or never set.
   */
  lemma ReplayRebuilds(history: seq<Message>, order: seq<string>, store: Store)
    requires IsOrderOf(order, DepositAll(map[], history))
    ensures var table := DepositAll(map[], history);
            && DepositAll(map[], Replayed(table, order)) == table
            && (DepositAll(store, Replayed(table, order)) == table <==> store.Keys <= table.Keys)
  {
    var table := DepositAll(map[], history);
    DepositKeepsProper(history);
    ReplayDeposits(map[], table, order);
    ReplayDeposits(store, table, order);
    assert Kept(table, order) == table;
    assert map[] + table == table;
    if store.Keys <= table.Keys {
      assert store + table == table;
    } else {
      var t :| t in store && t !in table;
      assert t in store + table;
    }
  }

  /** Replaying is publishing again, and leaves the table as it was. */
  lemma {:induction false} ReplayKeepsTable(c: ClientState, table: Store, order: seq<string>)
    requires TableProper(table) && c.retained == table && c.connected && forall t :: t in order ==> t in table
    ensures SentAll(c, Replayed(table, order)).retained == table
    ensures SentAll(c, Replayed(table, order)).store == DepositAll(c.store, Replayed(table, order))
    ensures var d := SentAll(c, Replayed(table, order));
            d.subs == c.subs && d.connected == c.connected && d.filters == c.filters
  {
    if order != [] {
      var front, last := order[..|order| - 1], order[|order| - 1];
      assert Replayed(table, order)[..|front|] == Replayed(table, front);
      ReplayKeepsTable(c, table, front);
      assert table[last := table[last]] == table;
    }
  }

  /**
   A message sent past the table keeps table and store in step exactly when it is not
   retained, or it clears a topic the table lacks, or it repeats the table's entry; the
   driver's cleanup, which clears topics this way, leaves them in the table.
   */
  lemma SyncKeepsInStepIff(table: Store, m: Message)
    requires TableProper(table)
    ensures Deposit(table, m) == table
            <==> || !m.retained
                 || (m.payload == "" && m.topic !in table)
                 || (m.payload != "" && m.topic in table && table[m.topic] == m)
  {
    if m.retained {
      if m.payload == "" {
        assert m.topic !in Deposit(table, m);
        if m.topic !in table {
          assert table - {m.topic} == table;
        }
      } else {
        assert Deposit(table, m)[m.topic] == m;
        if m.topic in table && table[m.topic] == m {
          assert table[m.topic := m] == table;
        }
      }
    }
  }

  lemma {:induction false} ClearingShrinks(store: Store, ms: seq<Message>)
    requires forall m :: m in ms ==> m.payload == ""
    ensures DepositAll(store, ms).Keys <= store.Keys
  {
    if ms != [] {
      assert forall m :: m in ms[..|ms| - 1] ==> m in ms;
      ClearingShrinks(store, ms[..|ms| - 1]);
      assert ms[|ms| - 1] in ms;
    }
  }

  /**
   What that means for a reconnection: topics cleared past the table come back, for the
   next replay restores the whole table.
   */
  lemma ReplayUndoesSyncClearing(table: Store, ms: seq<Message>, order: seq<string>)
    requires TableProper(table) && IsOrderOf(order, table)
    requires forall m :: m in ms ==> m.payload == ""
    ensures DepositAll(DepositAll(table, ms), Replayed(table, order)) == table
  {
    ClearingShrinks(table, ms);
    ReplayDeposits(DepositAll(table, ms), table, order);
    assert Kept(table, order) == table;
  }

  // ---------------------------------------------------------------- runs

  datatype ClientEvent =
    | Connect(order: seq<string>)
    | Lose
    | Subscribing(callback: nat, topics: seq<string>)
    | Unsubscribing(topics: seq<string>)
    | Publishing(m: Message)
    | PublishingSync(m: Message)

  /** What the methods of Client do to its state; `Connect` carries the order the retained table was visited in. */
  ghost function ClientStep(c: ClientState, e: ClientEvent): ClientState {
    match e
    case Connect(order) =>
      if IsOrderOf(order, c.retained)
      then SentAll(c.(connected := true, filters := c.filters + c.subs.Keys), Replayed(c.retained, order)) else c
    case Lose => c.(connected := false, filters := {})
    case Subscribing(callback, topics) =>
      c.(subs := Added(c.subs, callback, topics),
         filters := if c.connected then c.filters + Elements(topics) else c.filters)
    case Unsubscribing(topics) =>
      c.(subs := c.subs - Elements(topics),
         filters := if c.connected then c.filters - Elements(topics) else c.filters)
    case Publishing(m) => Sent(c, m)
    case PublishingSync(m) => c.(store := Reached(c.connected, c.store, m), sent := c.sent + [m])
  }

  ghost function ClientRun(c: ClientState, es: seq<ClientEvent>): ClientState {
    if es == [] then c else ClientStep(ClientRun(c, es[..|es| - 1]), es[|es| - 1])
  }

  /** The callbacks subscribed to a topic since it was last unsubscribed, in order, read off the run. */
  function HandlersSince(es: seq<ClientEvent>, topic: string): seq<nat> {
    if es == [] then []
    else
      var before := HandlersSince(es[..|es| - 1], topic);
      match es[|es| - 1]
      case Subscribing(callback, topics) => before + Repeat(callback, Count(topics, topic))
      case Unsubscribing(topics) => if topic in topics then [] else before
      case _ => before
  }

  function Count(topics: seq<string>, topic: string): nat {
    if topics == [] then 0
    else Count(topics[..|topics| - 1], topic) + (if topics[|topics| - 1] == topic then 1 else 0)
  }

  function Repeat(x: nat, n: nat): seq<nat> {
    seq(n, _ => x)
  }

  function HandlersOf(subs: Handlers, topic: string): seq<nat> {
    if topic in subs then subs[topic] else []
  }

  /** Whether a message was sent past the table since the table was last replayed. */
  ghost function SentPast(es: seq<ClientEvent>): bool {
    if es == [] then false
    else
      var before := es[..|es| - 1];
      match es[|es| - 1]
      case Connect(order) => SentPast(before) && !IsOrderOf(order, DepositAll(map[], History(before)))
      case PublishingSync(_) => true
      case _ => SentPast(before)
  }

  /** The messages published through Publish, in order. */
  function History(es: seq<ClientEvent>): seq<Message> {
    if es == [] then []
    else
      var before := History(es[..|es| - 1]);
      if es[|es| - 1].Publishing? then before + [es[|es| - 1].m] else before
  }

  lemma {:induction false} AddedHandlers(subs: Handlers, callback: nat, topics: seq<string>, topic: string)
    ensures HandlersOf(Added(subs, callback, topics), topic) == HandlersOf(subs, topic)
        + Repeat(callback, Count(topics, topic))
    ensures topic in Added(subs, callback, topics) <==> topic in subs || topic in topics
    ensures topic in topics <==> Count(topics, topic) > 0
  {
    if topics == [] {
      assert Repeat(callback, 0) == [];
    } else {
      var front := topics[..|topics| - 1];
      AddedHandlers(subs, callback, front, topic);
      assert topics == front + [topics[|topics| - 1]];
      assert Repeat(callback, Count(front, topic) + 1) == Repeat(callback, Count(front, topic)) + [callback];
    }
  }

  /**
   While connected, the broker holds exactly the filters of the subscription table, which
   in turn holds for each topic the callbacks subscribed since its last unsubscription; the
   retained table is the store an empty broker would have built from the run's
   publications, and while connected the broker holds every message of it, unless something
   was sent past the table since it was last replayed.
   */
  ghost predicate ClientAgrees(c: ClientState, es: seq<ClientEvent>) {
    && (if c.connected then c.filters == c.subs.Keys else c.filters == {})
    && (forall t :: HandlersOf(c.subs, t) == HandlersSince(es, t))
    && (forall t :: t in c.subs ==> c.subs[t] != [])
    && c.retained == DepositAll(map[], History(es))
    && (c.connected && !SentPast(es) ==> Holds(c.store, c.retained))
  }

  predicate Holds(store: Store, table: Store) {
    forall t :: t in table ==> t in store && store[t] == table[t]
  }

  lemma SubscribingAgrees(c: ClientState, es: seq<ClientEvent>, callback: nat, topics: seq<string>)
    requires ClientAgrees(c, es)
    ensures ClientAgrees(ClientStep(c, Subscribing(callback, topics)), es + [Subscribing(callback, topics)])
  {
    hide Added, Count, Repeat, DepositAll;
    var e := Subscribing(callback, topics);
    var d := ClientStep(c, e);
    assert (es + [e])[..|es|] == es;
    forall t
      ensures HandlersOf(d.subs, t) == HandlersSince(es + [e], t)
      ensures t in d.subs <==> t in c.subs || t in Elements(topics)
      ensures t in d.subs ==> d.subs[t] != []
    {
      AddedHandlers(c.subs, callback, topics, t);
      RepeatLength(callback, Count(topics, t));
    }
    assert d.subs.Keys == c.subs.Keys + Elements(topics);
  }

  lemma RepeatLength(x: nat, n: nat)
    ensures |Repeat(x, n)| == n
  {
  }

  lemma UnsubscribingAgrees(c: ClientState, es: seq<ClientEvent>, topics: seq<string>)
    requires ClientAgrees(c, es)
    ensures ClientAgrees(ClientStep(c, Unsubscribing(topics)), es + [Unsubscribing(topics)])
  {
    hide DepositAll;
    var e := Unsubscribing(topics);
    var d := ClientStep(c, e);
    assert (es + [e])[..|es|] == es;
    forall t ensures HandlersOf(d.subs, t) == HandlersSince(es + [e], t) {
      assert HandlersOf(c.subs, t) == HandlersSince(es, t);
      assert t in Elements(topics) <==> t in topics;
    }
    assert d.subs.Keys == c.subs.Keys - Elements(topics);
  }

  lemma ConnectAgrees(c: ClientState, es: seq<ClientEvent>, order: seq<string>)
    requires ClientAgrees(c, es)
    ensures ClientAgrees(ClientStep(c, Connect(order)), es + [Connect(order)])
  {
    hide SentAll, DepositAll, HandlersOf;
    var e := Connect(order);
    assert (es + [e])[..|es|] == es;
    forall t ensures HandlersSince(es + [e], t) == HandlersSince(es, t) {
    }
    if IsOrderOf(order, c.retained) {
      DepositKeepsProper(History(es));
      ReplayKeepsTable(c.(connected := true, filters := c.filters + c.subs.Keys), c.retained, order);
      ReplayDeposits(c.store, c.retained, order);
    }
  }

  lemma LosingAgrees(c: ClientState, es: seq<ClientEvent>)
    requires ClientAgrees(c, es)
    ensures ClientAgrees(ClientStep(c, Lose), es + [Lose])
  {
    hide HandlersOf, DepositAll;
    assert (es + [Lose])[..|es|] == es;
    forall t ensures HandlersSince(es + [Lose], t) == HandlersSince(es, t) {
    }
  }

  lemma DepositHolds(store: Store, table: Store, m: Message)
    requires Holds(store, table)
    ensures Holds(Deposit(store, m), Deposit(table, m))
  {
  }

  lemma HistoryGrows(es: seq<ClientEvent>, m: Message)
    ensures DepositAll(map[], History(es + [Publishing(m)])) == Deposit(DepositAll(map[], History(es)), m)
    ensures forall t :: HandlersSince(es + [Publishing(m)], t) == HandlersSince(es, t)
  {
    hide Deposit;
    var more, ms := es + [Publishing(m)], History(es) + [m];
    assert more[..|es|] == es && ms[..|ms| - 1] == History(es);
    assert History(more) == ms;
    forall t ensures HandlersSince(more, t) == HandlersSince(es, t) {
    }
  }

  lemma PublishingAgrees(c: ClientState, es: seq<ClientEvent>, m: Message)
    requires ClientAgrees(c, es)
    ensures ClientAgrees(ClientStep(c, Publishing(m)), es + [Publishing(m)])
  {
    hide HandlersOf, HandlersSince, DepositAll, Deposit, History, Holds;
    HistoryGrows(es, m);
    assert (es + [Publishing(m)])[..|es|] == es;
    if c.connected && !SentPast(es) {
      DepositHolds(c.store, c.retained, m);
    }
  }

  lemma PublishingSyncAgrees(c: ClientState, es: seq<ClientEvent>, m: Message)
    requires ClientAgrees(c, es)
    ensures ClientAgrees(ClientStep(c, PublishingSync(m)), es + [PublishingSync(m)])
  {
    hide HandlersOf, DepositAll, Holds, Reached;
    var more := es + [PublishingSync(m)];
    assert more[..|es|] == es;
    forall t ensures HandlersSince(more, t) == HandlersSince(es, t) {
    }
  }

  /** The tables agree with the broker and with the history in every reachable state. */
  lemma {:induction false} ReconnectRestores(store: Store, es: seq<ClientEvent>)
    ensures ClientAgrees(ClientRun(ClientState(map[], map[], false, {}, store, []), es), es)
  {
    hide ClientAgrees, ClientStep;
    var c0 := ClientState(map[], map[], false, {}, store, []);
    if es == [] {
      StartAgrees(c0);
    } else {
      var before, e := es[..|es| - 1], es[|es| - 1];
      ReconnectRestores(store, before);
      var c := ClientRun(c0, before);
      assert before + [e] == es;
      match e
      case Subscribing(callback, topics) => SubscribingAgrees(c, before, callback, topics);
      case Unsubscribing(topics) => UnsubscribingAgrees(c, before, topics);
      case Connect(order) => ConnectAgrees(c, before, order);
      case Lose => LosingAgrees(c, before);
      case Publishing(m) => PublishingAgrees(c, before, m);
      case PublishingSync(m) => PublishingSyncAgrees(c, before, m);
    }
  }

  lemma StartAgrees(c: ClientState)
    requires c.subs == map[] && c.retained == map[] && !c.connected && c.filters == {}
    ensures ClientAgrees(c, [])
  {
  }

  // ---------------------------------------------------------------- what reaches the broker

  /** Connected since the last connection, with none lost after it. */
  ghost predicate ConnectedBy(es: seq<ClientEvent>) {
    if es == [] then false
    else
      var before := es[..|es| - 1];
      match es[|es| - 1]
      case Connect(order) => ConnectedBy(before) || IsOrderOf(order, DepositAll(map[], History(before)))
      case Lose => false
      case _ => ConnectedBy(before)
  }

  /** What is published while connected, in either way, and at each connection the whole table once. */
  ghost function Heard(es: seq<ClientEvent>): seq<Message> {
    if es == [] then []
    else
      var before := es[..|es| - 1];
      match es[|es| - 1]
      case Connect(order) =>
        var table := DepositAll(map[], History(before));
        if IsOrderOf(order, table) then Heard(before) + Replayed(table, order) else Heard(before)
      case Publishing(m) => if ConnectedBy(before) then Heard(before) + [m] else Heard(before)
      case PublishingSync(m) => if ConnectedBy(before) then Heard(before) + [m] else Heard(before)
      case _ => Heard(before)
  }

  ghost predicate BrokerAgrees(store: Store, c: ClientState, es: seq<ClientEvent>) {
    && (c.connected <==> ConnectedBy(es))
    && c.store == DepositAll(store, Heard(es))
  }

  lemma HeardMore(store: Store, heard: seq<Message>, m: Message)
    ensures DepositAll(store, heard + [m]) == Deposit(DepositAll(store, heard), m)
  {
    hide Deposit;
    assert (heard + [m])[..|heard|] == heard;
  }

  lemma BrokerStep(store: Store, c: ClientState, es: seq<ClientEvent>, e: ClientEvent)
    requires BrokerAgrees(store, c, es) && c.retained == DepositAll(map[], History(es))
    ensures BrokerAgrees(store, ClientStep(c, e), es + [e])
  {
    hide History, DepositAll, Deposit, IsOrderOf, SentAll, Added;
    assert (es + [e])[..|es|] == es;
    match e
    case Connect(order) =>
      if IsOrderOf(order, c.retained) {
        BrokerReplay(store, c, es, order);
      }
    case Publishing(m) => HeardMore(store, Heard(es), m);
    case PublishingSync(m) => HeardMore(store, Heard(es), m);
    case _ =>
  }

  lemma BrokerReplay(store: Store, c: ClientState, es: seq<ClientEvent>, order: seq<string>)
    requires BrokerAgrees(store, c, es) && c.retained == DepositAll(map[], History(es)) && IsOrderOf(order, c.retained)
    ensures var d := ClientStep(c, Connect(order));
            d.connected && d.store == DepositAll(store, Heard(es) + Replayed(c.retained, order))
  {
    hide History, DepositAll, Deposit, SentAll, Replayed, Heard;
    DepositKeepsProper(History(es));
    ReplayKeepsTable(c.(connected := true, filters := c.filters + c.subs.Keys), c.retained, order);
    DepositAllConcat(store, Heard(es), Replayed(c.retained, order));
  }

  /**
   Over every run the client is connected exactly if the last change of the connection was
   its making, and the broker's store is what the messages published meanwhile, through
   either method, and the replayed tables have made of it.
   */
  lemma {:induction false} BrokerFollowsHistory(store: Store, es: seq<ClientEvent>)
    ensures BrokerAgrees(store, ClientRun(ClientState(map[], map[], false, {}, store, []), es), es)
  {
    var c0 := ClientState(map[], map[], false, {}, store, []);
    if es != [] {
      hide BrokerAgrees, ClientStep;
      var before, e := es[..|es| - 1], es[|es| - 1];
      BrokerFollowsHistory(store, before);
      ReconnectRestores(store, before);
      var c := ClientRun(c0, before);
      TableOfHistory(c, before);
      BrokerStep(store, c, before, e);
      assert es == before + [e];
    } else {
      assert BrokerAgrees(store, c0, []);
    }
  }

  lemma TableOfHistory(c: ClientState, es: seq<ClientEvent>)
    requires ClientAgrees(c, es)
    ensures c.retained == DepositAll(map[], History(es))
  {
  }
}
