/**
 Work put off until the client is ready, and the loop that runs it.

 `WhenReady` checks the list under its lock and, once the list is gone, hands the thunk to
 the loop's queue in a later, separate step; `Ready` takes the list under the lock and runs
 it afterwards.  Every such step is a step of the machine below, so that any thread may
 come in between.
 */
module Deferred {
  import opened Messages

  /** Submitted through `WhenReady`, or put on the loop's queue directly through `CallSync`. */
  datatype Thunk = Deferrable(id: nat) | Direct(id: nat)

  datatype Phase =
    | Waiting
    | Draining(rest: seq<Thunk>)
    | Serving

  /** `fns` is the list until it is taken; `inFlight` has passed the check and is not on the queue yet. */
  datatype Machine = Machine(
    clientReady: bool,
    fns: Option<seq<Thunk>>,
    inFlight: multiset<Thunk>,
    queue: seq<Thunk>,
    phase: Phase,
    ran: seq<Thunk>)

  const INITIAL := Machine(false, Some([]), multiset{}, [], Waiting, [])

  datatype Step =
    | Submit(t: Thunk)
    | Send(t: Thunk)
    | Call(t: Thunk)
    | ClientReady
    | Take
    | RunDeferred
    | Finish
    | RunQueued

  predicate Enabled(m: Machine, s: Step) {
    match s
    case Submit(t) => t.Deferrable?
    case Send(t) => t in m.inFlight
    case Call(t) => t.Direct?
    case ClientReady => true
    case Take => m.phase == Waiting && m.clientReady
    case RunDeferred => m.phase.Draining? && m.phase.rest != []
    case Finish => m.phase == Draining([])
    case RunQueued => !m.phase.Draining? && m.queue != []
  }

  function Next(m: Machine, s: Step): Machine
    requires Enabled(m, s)
  {
    match s
    case Submit(t) =>
      (match m.fns
       case Some(fns) => m.(fns := Some(fns + [t]))
       case None => m.(inFlight := m.inFlight + multiset{t}))
    case Send(t) => m.(inFlight := m.inFlight - multiset{t}, queue := m.queue + [t])
    case Call(t) => m.(queue := m.queue + [t])
    case ClientReady => m.(clientReady := true)
    case Take => m.(phase := Draining(Listed(m)), fns := None)
    case RunDeferred => m.(ran := m.ran + [m.phase.rest[0]], phase := Draining(m.phase.rest[1..]))
    case Finish => m.(phase := Serving)
    case RunQueued => m.(ran := m.ran + [m.queue[0]], queue := m.queue[1..])
  }

  function Listed(m: Machine): seq<Thunk> {
    match m.fns
    case Some(fns) => fns
    case None => []
  }

  function Undrained(m: Machine): seq<Thunk> {
    match m.phase
    case Draining(rest) => rest
    case _ => []
  }

  // ---------------------------------------------------------------- runs, and what is read off them

  function Front<T>(s: seq<T>): seq<T>
    requires s != []
  {
    s[..|s| - 1]
  }

  function Last<T>(s: seq<T>): T
    requires s != []
  {
    s[|s| - 1]
  }

  /** Every step is possible when it is taken, and every thunk is submitted once. */
  predicate Possible(steps: seq<Step>)
    decreases |steps|, 0
  {
    steps != [] ==>
      && Possible(Front(steps))
      && Enabled(Run(Front(steps)), Last(steps))
      && (Last(steps).Submit? || Last(steps).Call? ==> Last(steps).t !in Submitted(Front(steps)))
  }

  function Run(steps: seq<Step>): Machine
    requires Possible(steps)
    decreases |steps|, 1
  {
    if steps == [] then INITIAL else Next(Run(Front(steps)), Last(steps))
  }

  /** Every thunk there is, in order of submission. */
  function Submitted(steps: seq<Step>): seq<Thunk> {
    if steps == [] then []
    else if Last(steps).Submit? || Last(steps).Call? then Submitted(Front(steps)) + [Last(steps).t]
    else Submitted(Front(steps))
  }

  /** What `WhenReady` was given before the list was taken. */
  function Early(steps: seq<Step>): seq<Thunk> {
    if steps == [] then []
    else if Last(steps).Submit? && Take !in steps then Early(Front(steps)) + [Last(steps).t]
    else Early(Front(steps))
  }

  /** What was put on the queue, in that order. */
  function Sent(steps: seq<Step>): seq<Thunk> {
    if steps == [] then []
    else if Last(steps).Send? || Last(steps).Call? then Sent(Front(steps)) + [Last(steps).t]
    else Sent(Front(steps))
  }

  // ---------------------------------------------------------------- one place each

  function Tally(listed: seq<Thunk>, undrained: seq<Thunk>, inFlight: multiset<Thunk>,
                 queue: seq<Thunk>, ran: seq<Thunk>): multiset<Thunk> {
    multiset(listed) + multiset(undrained) + inFlight + multiset(queue) + multiset(ran)
  }

  /** All five places a thunk can be in. */
  function Places(m: Machine): multiset<Thunk> {
    Tally(Listed(m), Undrained(m), m.inFlight, m.queue, m.ran)
  }

  function Added(s: Step): multiset<Thunk> {
    if s.Submit? || s.Call? then multiset{s.t} else multiset{}
  }

  lemma TallyAdds(l: seq<Thunk>, u: seq<Thunk>, f: multiset<Thunk>, q: seq<Thunk>, r: seq<Thunk>, t: Thunk)
    ensures Tally(l + [t], u, f, q, r) == Tally(l, u, f, q, r) + multiset{t}
    ensures Tally(l, u, f + multiset{t}, q, r) == Tally(l, u, f, q, r) + multiset{t}
    ensures Tally(l, u, f, q + [t], r) == Tally(l, u, f, q, r) + multiset{t}
  {
    assert multiset(l + [t]) == multiset(l) + multiset{t};
    assert multiset(q + [t]) == multiset(q) + multiset{t};
  }

  lemma TallyTakes(l: seq<Thunk>, f: multiset<Thunk>, q: seq<Thunk>, r: seq<Thunk>)
    ensures Tally([], l, f, q, r) == Tally(l, [], f, q, r)
  {
  }

  lemma TallySends(l: seq<Thunk>, u: seq<Thunk>, f: multiset<Thunk>, q: seq<Thunk>, r: seq<Thunk>, t: Thunk)
    requires t in f
    ensures Tally(l, u, f - multiset{t}, q + [t], r) == Tally(l, u, f, q, r)
  {
    assert f == f - multiset{t} + multiset{t};
    TallyAdds(l, u, f - multiset{t}, q, r, t);
  }

  lemma TallyRuns(l: seq<Thunk>, u: seq<Thunk>, f: multiset<Thunk>, q: seq<Thunk>, r: seq<Thunk>)
    ensures u != [] ==> Tally(l, u[1..], f, q, r + [u[0]]) == Tally(l, u, f, q, r)
    ensures q != [] ==> Tally(l, u, f, q[1..], r + [q[0]]) == Tally(l, u, f, q, r)
  {
    if u != [] {
      assert u == [u[0]] + u[1..];
    }
    if q != [] {
      assert q == [q[0]] + q[1..];
    }
  }

  lemma StepConserves(m: Machine, s: Step)
    requires Enabled(m, s) && (m.phase != Waiting <==> m.fns == None)
    ensures Places(Next(m, s)) == Places(m) + Added(s)
  {
    hide Tally;
    var l, u, f, q, r := Listed(m), Undrained(m), m.inFlight, m.queue, m.ran;
    match s
    case Submit(t) => TallyAdds(l, u, f, q, r, t);
    case Send(t) => TallySends(l, u, f, q, r, t);
    case Call(t) => TallyAdds(l, u, f, q, r, t);
    case ClientReady =>
    case Take => TallyTakes(l, f, q, r);
    case RunDeferred => TallyRuns(l, u, f, q, r);
    case Finish =>
    case RunQueued => TallyRuns(l, u, f, q, r);
  }

  lemma {:induction false} ListGoneOnceTaken(steps: seq<Step>)
    requires Possible(steps)
    ensures Run(steps).fns == None <==> Take in steps
    ensures Run(steps).phase == Waiting <==> Take !in steps
    ensures Run(steps).clientReady <==> ClientReady in steps
  {
    if steps != [] {
      ListGoneOnceTaken(Front(steps));
      assert steps == Front(steps) + [Last(steps)];
    }
  }

  /** A thunk is in exactly one place, exactly once: deferred, taken, in flight, queued or run. */
  lemma {:induction false} OnePlaceEach(steps: seq<Step>)
    requires Possible(steps)
    ensures Places(Run(steps)) == multiset(Submitted(steps))
    ensures forall t <- Submitted(steps) :: Places(Run(steps))[t] == 1
  {
    if steps != [] {
      OnePlaceEach(Front(steps));
      ListGoneOnceTaken(Front(steps));
      StepConserves(Run(Front(steps)), Last(steps));
    }
  }

  /** Nothing is lost: when the loop serves an empty queue and nothing is in flight, everything has run. */
  lemma QuietMeansDone(steps: seq<Step>)
    requires Possible(steps) && Quiet(Run(steps))
    ensures multiset(Run(steps).ran) == multiset(Submitted(steps))
  {
    OnePlaceEach(steps);
    ListGoneOnceTaken(steps);
  }

  // ---------------------------------------------------------------- nothing gets stuck

  predicate Quiet(m: Machine) {
    m.phase == Serving && m.queue == [] && m.inFlight == multiset{}
  }

  ghost predicate CanBecomeQuiet(steps: seq<Step>) {
    exists more :: Possible(steps + more) && Quiet(Run(steps + more)) && Submitted(steps + more) == Submitted(steps)
  }

  lemma OneMoreStep(steps: seq<Step>, s: Step)
    requires Possible(steps) && Enabled(Run(steps), s) && !s.Submit? && !s.Call?
    ensures Possible(steps + [s]) && Run(steps + [s]) == Next(Run(steps), s)
    ensures Submitted(steps + [s]) == Submitted(steps)
  {
    hide Next, Enabled;
    var more := steps + [s];
    assert Front(more) == steps && Last(more) == s;
  }

  /** What is left to do before the machine is quiet, in stages. */
  function Stage(m: Machine): nat {
    match m.phase
    case Waiting => if m.clientReady then 2 else 3
    case Draining(_) => 1
    case Serving => 0
  }

  /** The next thing to do without submitting anything. */
  ghost function Onward(m: Machine): (s: Step)
    requires !Quiet(m)
    ensures Enabled(m, s) && !s.Submit? && !s.Call?
    ensures var n := Next(m, s);
            || Stage(n) < Stage(m)
            || (Stage(n) == Stage(m) && |Undrained(n)| < |Undrained(m)|)
            || (Stage(n) == Stage(m) && Undrained(n) == Undrained(m)
                && 2 * |n.inFlight| + |n.queue| < 2 * |m.inFlight| + |m.queue|)
  {
    match m.phase
    case Waiting => if m.clientReady then Take else ClientReady
    case Draining(rest) => if rest == [] then Finish else RunDeferred
    case Serving =>
      if m.queue != [] then RunQueued
      else
        var t :| t in m.inFlight;
        Send(t)
  }

  /**
   From every reachable state the machine can, without anything more being submitted, get
   to where the loop serves with nothing left; everything submitted has then run.
   */
  lemma {:induction false} CanAlwaysFinish(steps: seq<Step>)
    requires Possible(steps)
    ensures CanBecomeQuiet(steps)
    decreases Stage(Run(steps)), |Undrained(Run(steps))|, 2 * |Run(steps).inFlight| + |Run(steps).queue|
  {
    hide Next, Enabled, Quiet;
    if Quiet(Run(steps)) {
      assert steps + [] == steps;
    } else {
      var s := Onward(Run(steps));
      OneMoreStep(steps, s);
      CanAlwaysFinish(steps + [s]);
      var more :| Possible(steps + [s] + more) && Quiet(Run(steps + [s] + more))
                  && Submitted(steps + [s] + more) == Submitted(steps + [s]);
      assert steps + [s] + more == steps + ([s] + more);
    }
  }

  // ---------------------------------------------------------------- order

  predicate AllDirect(a: seq<Thunk>) {
    forall i :: 0 <= i < |a| ==> a[i].Direct?
  }

  predicate AllDeferrable(a: seq<Thunk>) {
    forall i :: 0 <= i < |a| ==> a[i].Deferrable?
  }

  /**
   `ran` is some of the queue, then the early thunks, then more of the queue; the queue is
   first in, first out throughout, and its first part holds nothing deferrable.
   */
  predicate OnSchedule(m: Machine, early: seq<Thunk>, sent: seq<Thunk>, before: seq<Thunk>, done: seq<Thunk>,
                       after: seq<Thunk>) {
    && m.ran == before + done + after
    && before + after + m.queue == sent
    && done + Undrained(m) + Listed(m) == early
    && AllDirect(before)
    && AllDeferrable(early)
    && (m.phase != Serving ==> after == [])
    && (m.phase != Waiting ==> m.clientReady)
    && (m.phase == Waiting ==> done == [] && m.inFlight == multiset{} && AllDirect(m.queue))
  }

  ghost predicate Scheduled(m: Machine, early: seq<Thunk>, sent: seq<Thunk>) {
    exists before, done, after :: OnSchedule(m, early, sent, before, done, after)
  }

  /** What the last step of a run adds to the histories, told by the state it is taken in. */
  lemma LastStep(steps: seq<Step>)
    requires steps != [] && Possible(steps)
    ensures var m, s := Run(Front(steps)), Last(steps);
            && Early(steps) == (if s.Submit? && m.phase == Waiting then Early(Front(steps)) + [s.t]
              else Early(Front(steps)))
            && Sent(steps) == (if s.Send? || s.Call? then Sent(Front(steps)) + [s.t] else Sent(Front(steps)))
  {
    hide Next, Enabled;
    ListGoneOnceTaken(Front(steps));
    assert steps == Front(steps) + [Last(steps)];
  }

  lemma {:induction false} RunsOnSchedule(steps: seq<Step>)
    requires Possible(steps)
    ensures Scheduled(Run(steps), Early(steps), Sent(steps))
  {
    if steps != [] {
      hide Scheduled, Next, Enabled, Early, Sent;
      RunsOnSchedule(Front(steps));
      ListGoneOnceTaken(Front(steps));
      LastStep(steps);
      StepOnSchedule(Run(Front(steps)), Early(Front(steps)), Sent(Front(steps)), Last(steps));
    } else {
      assert OnSchedule(INITIAL, [], [], [], [], []);
    }
  }

  lemma StepOnSchedule(m: Machine, early: seq<Thunk>, sent: seq<Thunk>, s: Step)
    requires Scheduled(m, early, sent) && Enabled(m, s)
    requires m.phase != Waiting <==> m.fns == None
    ensures Scheduled(Next(m, s),
                      if s.Submit? && m.phase == Waiting then early + [s.t] else early,
                      if s.Send? || s.Call? then sent + [s.t] else sent)
  {
    var before, done, after :| OnSchedule(m, early, sent, before, done, after);
    match s
    case Submit(t) => SubmitOnSchedule(m, early, sent, before, done, after, t);
    case Send(_) => SendOnSchedule(m, early, sent, before, done, after, s);
    case Call(_) => SendOnSchedule(m, early, sent, before, done, after, s);
    case ClientReady => assert OnSchedule(Next(m, s), early, sent, before, done, after);
    case Take => assert OnSchedule(Next(m, s), early, sent, before, done, after);
    case RunDeferred => RunOnSchedule(m, early, sent, before, done, after, s);
    case Finish => assert OnSchedule(Next(m, s), early, sent, before, done, after);
    case RunQueued => RunOnSchedule(m, early, sent, before, done, after, s);
  }

  lemma SubmitOnSchedule(m: Machine, early: seq<Thunk>, sent: seq<Thunk>, before: seq<Thunk>, done: seq<Thunk>,
                         after: seq<Thunk>, t: Thunk)
    requires OnSchedule(m, early, sent, before, done, after) && t.Deferrable?
    requires m.phase != Waiting <==> m.fns == None
    ensures Scheduled(Next(m, Submit(t)), if m.phase == Waiting then early + [t] else early, sent)
  {
    assert OnSchedule(Next(m, Submit(t)), if m.phase == Waiting then early + [t] else early, sent, before, done, after);
  }

  lemma SendOnSchedule(m: Machine, early: seq<Thunk>, sent: seq<Thunk>, before: seq<Thunk>, done: seq<Thunk>,
                       after: seq<Thunk>, s: Step)
    requires OnSchedule(m, early, sent, before, done, after) && (s.Send? || s.Call?) && Enabled(m, s)
    ensures Scheduled(Next(m, s), early, sent + [s.t])
  {
    assert OnSchedule(Next(m, s), early, sent + [s.t], before, done, after);
  }

  lemma RunOnSchedule(m: Machine, early: seq<Thunk>, sent: seq<Thunk>, before: seq<Thunk>, done: seq<Thunk>,
                      after: seq<Thunk>, s: Step)
    requires OnSchedule(m, early, sent, before, done, after) && (s.RunDeferred? || s.RunQueued?) && Enabled(m, s)
    requires m.phase != Waiting <==> m.fns == None
    ensures Scheduled(Next(m, s), early, sent)
  {
    var n := Next(m, s);
    if s.RunDeferred? {
      assert OnSchedule(n, early, sent, before, done + [m.phase.rest[0]], after);
    } else if m.phase == Waiting {
      assert OnSchedule(n, early, sent, before + [m.queue[0]], done, after);
    } else {
      assert OnSchedule(n, early, sent, before, done, after + [m.queue[0]]);
    }
  }

  /** What `WhenReady` was given, in the order it ran. */
  function Ours(ran: seq<Thunk>): seq<Thunk> {
    if ran == [] then []
    else if Last(ran).Deferrable? then Ours(Front(ran)) + [Last(ran)]
    else Ours(Front(ran))
  }

  lemma OursOfMore(front: seq<Thunk>, t: Thunk)
    ensures Ours(front + [t]) == if t.Deferrable? then Ours(front) + [t] else Ours(front)
  {
    assert Front(front + [t]) == front;
  }

  lemma {:induction false} OursAppends(a: seq<Thunk>, b: seq<Thunk>)
    ensures Ours(a + b) == Ours(a) + Ours(b)
  {
    if b == [] {
      assert a + b == a;
    } else {
      OursAppends(a, Front(b));
      assert Front(a + b) == a + Front(b);
      assert Last(a + b) == Last(b);
    }
  }

  lemma {:induction false} OursOfDirect(a: seq<Thunk>)
    requires AllDirect(a)
    ensures Ours(a) == []
  {
    if a != [] {
      OursOfDirect(Front(a));
    }
  }

  lemma PrefixDeferrable(a: seq<Thunk>, b: seq<Thunk>)
    requires AllDeferrable(a + b)
    ensures AllDeferrable(a)
  {
    assert forall i :: 0 <= i < |a| ==> a[i] == (a + b)[i];
  }

  lemma {:induction false} OursOfDeferrable(a: seq<Thunk>)
    requires AllDeferrable(a)
    ensures Ours(a) == a
  {
    var n := |a|;
    if n == 0 {
      assert a == [];
    } else {
      var front, last := a[..n - 1], a[n - 1];
      assert last.Deferrable?;
      assert a == front + [last];
      PrefixDeferrable(front, [last]);
      hide Ours, AllDeferrable;
      OursOfDeferrable(front);
      OursOfMore(front, last);
    }
  }

  lemma OursOnSchedule(m: Machine, early: seq<Thunk>, sent: seq<Thunk>, before: seq<Thunk>, done: seq<Thunk>,
                       after: seq<Thunk>)
    requires OnSchedule(m, early, sent, before, done, after)
    ensures Ours(m.ran) == done + Ours(after)
    ensures Ours(sent) == Ours(after) + Ours(m.queue)
  {
    assert early == done + (Undrained(m) + Listed(m));
    assert m.ran == before + (done + after) && sent == before + (after + m.queue);
    hide Ours, AllDirect, AllDeferrable;
    PrefixDeferrable(done, Undrained(m) + Listed(m));
    OursOfDirect(before);
    hide OnSchedule;
    OursOfDeferrable(done);
    OursAppends(before, done + after);
    OursAppends(done, after);
    OursAppends(before, after + m.queue);
    OursAppends(after, m.queue);
  }

  /** The order in which a scheduled machine has run what `WhenReady` was given. */
  lemma OrderWhenScheduled(m: Machine, early: seq<Thunk>, sent: seq<Thunk>)
    requires Scheduled(m, early, sent) && (m.phase != Waiting <==> m.fns == None)
    ensures m.phase == Waiting ==> Ours(m.ran) == []
    ensures m.phase != Waiting ==> m.clientReady
    ensures m.phase != Serving ==> Ours(m.ran) + Undrained(m) + Listed(m) == early
    ensures m.phase == Serving ==> early <= Ours(m.ran)
    ensures m.phase == Serving ==> Ours(m.ran) + Ours(m.queue) == early + Ours(sent)
  {
    var before, done, after :| OnSchedule(m, early, sent, before, done, after);
    OursOnSchedule(m, early, sent, before, done, after);
    OursOfDirect([]);
    hide Ours, AllDirect, AllDeferrable;
    if m.phase == Serving {
      assert early == done;
    } else {
      assert Ours(m.ran) == done;
    }
  }

  /**
   Nothing given to `WhenReady` runs before the client is ready; what was given before the
   list was taken runs in the order it was given, before anything given later.
   */
  lemma EarlyRunsFirst(steps: seq<Step>)
    requires Possible(steps)
    ensures var m := Run(steps);
            var ours := Ours(m.ran);
            && (ours != [] ==> ClientReady in steps && Take in steps)
            && (m.phase != Serving ==> ours + Undrained(m) + Listed(m) == Early(steps))
            && (m.phase == Serving ==> Early(steps) <= ours)
  {
    RunsOnSchedule(steps);
    ListGoneOnceTaken(steps);
    hide Run, Early, Sent, Possible, Ours, Scheduled, Undrained, Listed;
    OrderWhenScheduled(Run(steps), Early(steps), Sent(steps));
  }

  /** What `WhenReady` is given late runs in the order it reached the queue. */
  lemma LateRunsInQueueOrder(steps: seq<Step>)
    requires Possible(steps) && Run(steps).phase == Serving
    ensures Ours(Run(steps).ran) + Ours(Run(steps).queue) == Early(steps) + Ours(Sent(steps))
  {
    RunsOnSchedule(steps);
    ListGoneOnceTaken(steps);
    hide Run, Early, Sent, Possible, Ours, Scheduled, Undrained, Listed;
    OrderWhenScheduled(Run(steps), Early(steps), Sent(steps));
  }
}
