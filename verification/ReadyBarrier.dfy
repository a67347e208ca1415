/**
 The readiness barrier: the client publishes one sentinel at QoS 1 and one at QoS 2 on a
 topic of its own, and counts as ready once both have come back.

 Section 4.6 of MQTT 3.1.1 orders messages only within one QoS, so the broker is two
 queues, drained in any interleaving, with any message already delivered delivered again
 any number of times.
 */
module ReadyBarrier {
  import opened Messages

  /** What the sentinel callback has captured, and how often it has closed `ready` and unsubscribed. */
  datatype Gate = Gate(got1: bool, got2: bool, closes: nat, unsubscribes: nat)

  const SHUT := Gate(false, false, 0, 0)

  function OnSentinel(g: Gate, payload: string): Gate {
    if g.got1 && g.got2 then g
    else
      var h := if payload == "1" then g.(got1 := true) else if payload == "2" then g.(got2 := true) else g;
      if h.got1 && h.got2 then h.(closes := h.closes + 1, unsubscribes := h.unsubscribes + 1) else h
  }

  class Barrier {
    var got1: bool
    var got2: bool
    var closes: nat
    var unsubscribes: nat

    function View(): Gate
      reads this
    {
      Gate(got1, got2, closes, unsubscribes)
    }

    constructor ()
      ensures View() == SHUT
    {
      got1, got2, closes, unsubscribes := false, false, 0, 0;
    }

    method Receive(payload: string)
      modifies this
      ensures View() == OnSentinel(old(View()), payload)
    {
      if got1 && got2 {
        // a redelivered sentinel, after both have come
        return;
      }
      if payload == "1" {
        got1 := true;
      } else if payload == "2" {
        got2 := true;
      }
      if got1 && got2 {
        unsubscribes := unsubscribes + 1;
        closes := closes + 1;
      }
    }
  }

  // ---------------------------------------------------------------- the broker's queues

  /**
   The two queues of messages for this client, sentinels included.  `ahead1` and `ahead2`
   messages were queued before the sentinels, which follow them.
   */
  datatype Queues = Queues(waitTopic: string, q1: seq<Message>, q2: seq<Message>, ahead1: nat, ahead2: nat)

  /** The sentinels stand behind the messages ahead, and nobody else uses the random topic. */
  predicate SentinelsPlaced(q: Queues) {
    && q.ahead1 < |q.q1| && q.q1[q.ahead1] == Message(q.waitTopic, "1", 1, false)
    && q.ahead2 < |q.q2| && q.q2[q.ahead2] == Message(q.waitTopic, "2", 2, false)
    && (forall i :: 0 <= i < |q.q1| && i != q.ahead1 ==> q.q1[i].topic != q.waitTopic)
    && (forall i :: 0 <= i < |q.q2| && i != q.ahead2 ==> q.q2[i].topic != q.waitTopic)
  }

  /** The next message of a queue, or again one already delivered. */
  datatype Delivery = Next1 | Next2 | Again1(i: nat) | Again2(i: nat)

  /** `next1` and `next2` count the messages of each queue delivered so far; `got` is what other callbacks received. */
  datatype Session = Session(next1: nat, next2: nat, gate: Gate, got: seq<Message>)

  const FRESH := Session(0, 0, SHUT, [])

  predicate Possible(q: Queues, s: Session, d: Delivery) {
    match d
    case Next1 => s.next1 < |q.q1|
    case Next2 => s.next2 < |q.q2|
    case Again1(i) => i < s.next1 <= |q.q1|
    case Again2(i) => i < s.next2 <= |q.q2|
  }

  function Hand(q: Queues, s: Session, m: Message): Session {
    if m.topic == q.waitTopic then s.(gate := OnSentinel(s.gate, m.payload)) else s.(got := s.got + [m])
  }

  /** A delivery the broker cannot make changes nothing. */
  function Deliver(q: Queues, s: Session, d: Delivery): Session {
    if !Possible(q, s, d) then s
    else
      match d
      case Next1 => Hand(q, s.(next1 := s.next1 + 1), q.q1[s.next1])
      case Next2 => Hand(q, s.(next2 := s.next2 + 1), q.q2[s.next2])
      case Again1(i) => Hand(q, s, q.q1[i])
      case Again2(i) => Hand(q, s, q.q2[i])
  }

  function Play(q: Queues, s: Session, ds: seq<Delivery>): Session {
    if ds == [] then s else Deliver(q, Play(q, s, ds[..|ds| - 1]), ds[|ds| - 1])
  }

  // ---------------------------------------------------------------- what the barrier guarantees

  /** The messages of a queue that are not sentinels. */
  function Others(waitTopic: string, ms: seq<Message>): seq<Message> {
    if ms == [] then []
    else
      var before, last := Others(waitTopic, ms[..|ms| - 1]), ms[|ms| - 1];
      if last.topic == waitTopic then before else before + [last]
  }

  /** The first messages of both queues, other than sentinels, are among `got`, each copy counted. */
  ghost predicate Handed(others1: seq<Message>, others2: seq<Message>, got: seq<Message>) {
    multiset(others1) + multiset(others2) <= multiset(got)
  }

  /** The gate knows exactly which sentinels have passed, and has closed once when both have. */
  predicate GateAgrees(q: Queues, s: Session) {
    && s.gate.got1 == (s.next1 > q.ahead1)
    && s.gate.got2 == (s.next2 > q.ahead2)
    && s.gate.closes == s.gate.unsubscribes == (if s.gate.got1 && s.gate.got2 then 1 else 0)
  }

  /** Everything taken off the queues has been given to the gate or to its callback. */
  ghost predicate Tracks(q: Queues, s: Session) {
    && s.next1 <= |q.q1| && s.next2 <= |q.q2|
    && GateAgrees(q, s)
    && Handed(Others(q.waitTopic, q.q1[..s.next1]), Others(q.waitTopic, q.q2[..s.next2]), s.got)
  }

  lemma OthersStep(waitTopic: string, ms: seq<Message>, n: nat)
    requires n < |ms|
    ensures Others(waitTopic, ms[..n + 1])
            == if ms[n].topic == waitTopic then Others(waitTopic, ms[..n]) else Others(waitTopic, ms[..n]) + [ms[n]]
  {
    assert ms[..n + 1][..n] == ms[..n];
  }

  lemma HandedGrows(a: seq<Message>, b: seq<Message>, got: seq<Message>, m: Message)
    requires Handed(a, b, got)
    ensures Handed(a + [m], b, got + [m]) && Handed(a, b + [m], got + [m]) && Handed(a, b, got + [m])
  {
  }

  lemma DeliverKeepsGate(q: Queues, s: Session, d: Delivery)
    requires SentinelsPlaced(q) && GateAgrees(q, s)
    ensures GateAgrees(q, Deliver(q, s, d))
  {
    match d
    case Next1 => assert Possible(q, s, d) ==> (q.q1[s.next1].topic == q.waitTopic <==> s.next1 == q.ahead1);
    case Next2 => assert Possible(q, s, d) ==> (q.q2[s.next2].topic == q.waitTopic <==> s.next2 == q.ahead2);
    case Again1(i) => assert Possible(q, s, d) ==> (q.q1[i].topic == q.waitTopic <==> i == q.ahead1);
    case Again2(i) => assert Possible(q, s, d) ==> (q.q2[i].topic == q.waitTopic <==> i == q.ahead2);
  }

  /** Taking the next message of a queue keeps every copy accounted for. */
  lemma NextIsHanded(q: Queues, s: Session, d: Delivery)
    requires Possible(q, s, d) && d in {Next1, Next2} && s.next1 <= |q.q1| && s.next2 <= |q.q2|
    requires Handed(Others(q.waitTopic, q.q1[..s.next1]), Others(q.waitTopic, q.q2[..s.next2]), s.got)
    ensures var t := Deliver(q, s, d);
            && t.next1 <= |q.q1| && t.next2 <= |q.q2|
            && Handed(Others(q.waitTopic, q.q1[..t.next1]), Others(q.waitTopic, q.q2[..t.next2]), t.got)
  {
    hide Others, Handed, OnSentinel;
    var others1, others2 := Others(q.waitTopic, q.q1[..s.next1]), Others(q.waitTopic, q.q2[..s.next2]);
    if d == Next1 {
      OthersStep(q.waitTopic, q.q1, s.next1);
      HandedGrows(others1, others2, s.got, q.q1[s.next1]);
    } else {
      OthersStep(q.waitTopic, q.q2, s.next2);
      HandedGrows(others1, others2, s.got, q.q2[s.next2]);
    }
  }

  lemma DeliverTracks(q: Queues, s: Session, d: Delivery)
    requires SentinelsPlaced(q) && Tracks(q, s)
    ensures Tracks(q, Deliver(q, s, d))
  {
    DeliverKeepsGate(q, s, d);
    hide Others, Handed, SentinelsPlaced, GateAgrees, OnSentinel;
    if Possible(q, s, d) {
      if d in {Next1, Next2} {
        NextIsHanded(q, s, d);
      } else {
        AgainIsHanded(q, s, d);
      }
      hide Deliver;
    }
  }

  lemma AgainIsHanded(q: Queues, s: Session, d: Delivery)
    requires Possible(q, s, d) && d !in {Next1, Next2} && s.next1 <= |q.q1| && s.next2 <= |q.q2|
    requires Handed(Others(q.waitTopic, q.q1[..s.next1]), Others(q.waitTopic, q.q2[..s.next2]), s.got)
    ensures var t := Deliver(q, s, d);
            && t.next1 == s.next1 && t.next2 == s.next2
            && Handed(Others(q.waitTopic, q.q1[..t.next1]), Others(q.waitTopic, q.q2[..t.next2]), t.got)
  {
    hide Others, Handed, OnSentinel;
    HandedGrows(Others(q.waitTopic, q.q1[..s.next1]), Others(q.waitTopic, q.q2[..s.next2]), s.got,
                if d.Again1? then q.q1[d.i] else q.q2[d.i]);
  }

  /** Nothing but sentinels is skipped. */
  lemma {:induction false} OthersKeepPrefix(waitTopic: string, ms: seq<Message>, k: nat, n: nat)
    requires k <= n <= |ms| && forall i :: 0 <= i < k ==> ms[i].topic != waitTopic
    ensures ms[..k] <= Others(waitTopic, ms[..n])
    decreases n
  {
    if n > 0 {
      OthersStep(waitTopic, ms, n - 1);
      hide Others;
      if k < n {
        OthersKeepPrefix(waitTopic, ms, k, n - 1);
      } else {
        AllKept(waitTopic, ms, k);
      }
    }
  }

  lemma {:induction false} AllKept(waitTopic: string, ms: seq<Message>, k: nat)
    requires k <= |ms| && forall i :: 0 <= i < k ==> ms[i].topic != waitTopic
    ensures Others(waitTopic, ms[..k]) == ms[..k]
  {
    if k > 0 {
      OthersStep(waitTopic, ms, k - 1);
      AllKept(waitTopic, ms, k - 1);
      assert ms[..k] == ms[..k - 1] + [ms[k - 1]];
    }
  }

  lemma HandedShrinks(a: seq<Message>, b: seq<Message>, a0: seq<Message>, b0: seq<Message>, got: seq<Message>)
    requires a0 <= a && b0 <= b && Handed(a, b, got)
    ensures Handed(a0, b0, got)
  {
    assert a == a0 + a[|a0|..] && b == b0 + b[|b0|..];
  }

  lemma {:induction false} PlayTracks(q: Queues, ds: seq<Delivery>)
    requires SentinelsPlaced(q)
    ensures Tracks(q, Play(q, FRESH, ds))
  {
    if ds != [] {
      hide Tracks, SentinelsPlaced, Deliver;
      PlayTracks(q, ds[..|ds| - 1]);
      DeliverTracks(q, Play(q, FRESH, ds[..|ds| - 1]), ds[|ds| - 1]);
    } else {
      FreshTracks(q);
    }
  }

  lemma FreshTracks(q: Queues)
    ensures Tracks(q, FRESH)
  {
  }

  /**
   Under every interleaving and every redelivery, `ready` is closed at most once; it is
   closed exactly when both sentinels have been delivered, and by then every QoS 1 and
   QoS 2 message queued ahead of them has reached its callback, each copy counted.
   */
  lemma BarrierHolds(q: Queues, ds: seq<Delivery>)
    requires SentinelsPlaced(q)
    ensures var s := Play(q, FRESH, ds);
            && s.gate.closes <= 1
            && s.gate.unsubscribes == s.gate.closes
            && (s.gate.closes == 1 <==> s.next1 > q.ahead1 && s.next2 > q.ahead2)
            && (s.gate.closes == 1 ==> Handed(q.q1[..q.ahead1], q.q2[..q.ahead2], s.got))
  {
    hide Play, Others, Handed;
    PlayTracks(q, ds);
    var s := Play(q, FRESH, ds);
    if s.gate.closes == 1 {
      OthersKeepPrefix(q.waitTopic, q.q1, q.ahead1, s.next1);
      OthersKeepPrefix(q.waitTopic, q.q2, q.ahead2, s.next2);
      HandedShrinks(Others(q.waitTopic, q.q1[..s.next1]), Others(q.waitTopic, q.q2[..s.next2]),
                    q.q1[..q.ahead1], q.q2[..q.ahead2], s.got);
    }
  }

  /** The callbacks have received just these messages, each copy counted. */
  ghost predicate HandedJust(others1: seq<Message>, others2: seq<Message>, got: seq<Message>) {
    multiset(others1) + multiset(others2) == multiset(got)
  }

  lemma HandedJustGrows(a: seq<Message>, b: seq<Message>, got: seq<Message>, m: Message)
    requires HandedJust(a, b, got)
    ensures HandedJust(a + [m], b, got + [m]) && HandedJust(a, b + [m], got + [m])
  {
  }

  lemma NextIsHandedOnce(q: Queues, s: Session, d: Delivery)
    requires d in {Next1, Next2} && s.next1 <= |q.q1| && s.next2 <= |q.q2|
    requires HandedJust(Others(q.waitTopic, q.q1[..s.next1]), Others(q.waitTopic, q.q2[..s.next2]), s.got)
    ensures var t := Deliver(q, s, d);
            && t.next1 <= |q.q1| && t.next2 <= |q.q2|
            && HandedJust(Others(q.waitTopic, q.q1[..t.next1]), Others(q.waitTopic, q.q2[..t.next2]), t.got)
  {
    hide Others, HandedJust, OnSentinel;
    if Possible(q, s, d) {
      var others1, others2 := Others(q.waitTopic, q.q1[..s.next1]), Others(q.waitTopic, q.q2[..s.next2]);
      if d == Next1 {
        OthersStep(q.waitTopic, q.q1, s.next1);
        HandedJustGrows(others1, others2, s.got, q.q1[s.next1]);
      } else {
        OthersStep(q.waitTopic, q.q2, s.next2);
        HandedJustGrows(others1, others2, s.got, q.q2[s.next2]);
      }
    }
  }

  /** Where nothing is delivered again, every message taken off the queues reaches its callback exactly once. */
  lemma {:induction false} OnceWithoutRedelivery(q: Queues, ds: seq<Delivery>)
    requires forall d :: d in ds ==> d in {Next1, Next2}
    ensures var s := Play(q, FRESH, ds);
            && s.next1 <= |q.q1| && s.next2 <= |q.q2|
            && HandedJust(Others(q.waitTopic, q.q1[..s.next1]), Others(q.waitTopic, q.q2[..s.next2]), s.got)
  {
    if ds != [] {
      hide Deliver, HandedJust, Others;
      var front, last := ds[..|ds| - 1], ds[|ds| - 1];
      assert last in ds && forall d :: d in front ==> d in ds;
      OnceWithoutRedelivery(q, front);
      NextIsHandedOnce(q, Play(q, FRESH, front), last);
    }
  }

  /** The closing delivery is itself the later of the two sentinels' first deliveries. */
  lemma ClosedByLastSentinel(q: Queues, ds: seq<Delivery>, d: Delivery)
    requires SentinelsPlaced(q)
    requires Play(q, FRESH, ds).gate.closes == 0 && Play(q, FRESH, ds + [d]).gate.closes == 1
    ensures var s := Play(q, FRESH, ds);
            || (d == Next1 && s.next1 == q.ahead1 && s.next2 > q.ahead2)
            || (d == Next2 && s.next2 == q.ahead2 && s.next1 > q.ahead1)
  {
    assert (ds + [d])[..|ds|] == ds;
    PlayTracks(q, ds);
    PlayTracks(q, ds + [d]);
    hide Others, Handed;
  }
}
