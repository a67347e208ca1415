/** MQTT messages and the retained store of a broker. */
module Messages {

  datatype Option<+T> = None | Some(value: T)

  datatype Message = Message(topic: string, payload: string, qos: nat, retained: bool)

  type Store = map<string, Message>

  /**
   Section 3.3.1.3 of MQTT 3.1.1: a retained message replaces the stored one of its
   topic, a retained message with an empty payload removes it.
   */
  function Deposit(store: Store, m: Message): (r: Store) {
    if !m.retained then store
    else if m.payload == "" then store - {m.topic}
    else store[m.topic := m]
  }

  function DepositAll(store: Store, ms: seq<Message>): (r: Store) {
    if ms == [] then store
    else Deposit(DepositAll(store, ms[..|ms| - 1]), ms[|ms| - 1])
  }

  lemma {:induction false} DepositAllConcat(store: Store, a: seq<Message>, b: seq<Message>)
    ensures DepositAll(store, a + b) == DepositAll(DepositAll(store, a), b)
  {
    if b == [] {
      assert a + b == a;
    } else {
      DepositAllConcat(store, a, b[..|b| - 1]);
      assert (a + b)[..|a + b| - 1] == a + b[..|b| - 1];
    }
  }

  predicate NoDuplicates<T(==)>(s: seq<T>) {
    forall i, j :: 0 <= i < j < |s| ==> s[i] != s[j]
  }

  /** What is left on a topic is decided by the last retained message on it. */
  function LastRetained(ms: seq<Message>, topic: string): (r: Option<Message>) {
    if ms == [] then None
    else
      var m := ms[|ms| - 1];
      if m.retained && m.topic == topic then Some(m) else LastRetained(ms[..|ms| - 1], topic)
  }

  lemma {:induction false} StoreHoldsLastRetained(store: Store, ms: seq<Message>, topic: string)
    ensures match LastRetained(ms, topic)
            case None => (topic in DepositAll(store, ms) <==> topic in store)
                         && (topic in store ==> DepositAll(store, ms)[topic] == store[topic])
            case Some(m) => (topic in DepositAll(store, ms) <==> m.payload != "")
                            && (m.payload != "" ==> DepositAll(store, ms)[topic] == m)
  {
    if ms != [] {
      StoreHoldsLastRetained(store, ms[..|ms| - 1], topic);
    }
  }
}
