/** The list and the loop as objects, each method proved to be a sequence of the machine's steps. */
module DeferredListObject {
  import opened Messages
  import opened Deferred

  /** Runs the deferred thunks that are left, nothing coming in between. */
  function Drained(m: Machine): (r: Machine)
    requires m.phase.Draining?
    ensures r.phase == Draining([])
    decreases |m.phase.rest|
  {
    if m.phase.rest == [] then m else Drained(Next(m, RunDeferred))
  }

  lemma {:induction false} DrainedRunsRest(m: Machine)
    requires m.phase.Draining?
    ensures Drained(m) == m.(ran := m.ran + m.phase.rest, phase := Draining([]))
    decreases |m.phase.rest|
  {
    if m.phase.rest != [] {
      DrainedRunsRest(Next(m, RunDeferred));
      assert m.phase.rest == [m.phase.rest[0]] + m.phase.rest[1..];
      assert m.ran + m.phase.rest == m.ran + [m.phase.rest[0]] + m.phase.rest[1..];
    }
  }

  /** The driver's goroutine: it listens for readiness once, and runs what is on its queue. */
  class EventLoop {
    var clientReady: bool
    var queue: seq<Thunk>
    var listening: bool
    var ran: seq<Thunk>

    constructor ()
      ensures !clientReady && queue == [] && listening && ran == []
    {
      clientReady, queue, listening, ran := false, [], true, [];
    }

    method CallSync(t: Thunk)
      modifies this`queue
      ensures queue == old(queue) + [t]
    {
      queue := queue + [t];
    }

    method Execute(t: Thunk)
      modifies this`ran
      ensures ran == old(ran) + [t]
    {
      ran := ran + [t];
    }

    method RunNext(whenReady: DeferredList)
      requires queue != [] && whenReady.executor == this
      modifies this`queue, this`ran
      ensures whenReady.View() == Next(old(whenReady.View()), RunQueued)
    {
      var f := queue[0];
      queue := queue[1..];
      Execute(f);
    }

    /** The case of the loop that sees the client become ready. */
    method BecomeReady(whenReady: DeferredList)
      requires clientReady && listening && whenReady.executor == this
      modifies this`listening, this`ran, whenReady`fns
      ensures var taken := Next(old(whenReady.View()), Take);
              whenReady.View() == Next(Drained(taken), Finish)
    {
      DrainedRunsRest(Next(whenReady.View(), Take));
      whenReady.Ready();
      listening := false;
    }
  }

  class DeferredList {
    var fns: Option<seq<Thunk>>
    const executor: EventLoop

    function View(): Machine
      reads this, executor
    {
      Machine(executor.clientReady, fns, multiset{}, executor.queue,
              if executor.listening then Waiting else Serving, executor.ran)
    }

    constructor (executor: EventLoop)
      ensures this.executor == executor && fns == Some([])
    {
      fns := Some([]);
      this.executor := executor;
    }

    /** With nothing coming in between, the check and the hand-over follow each other. */
    method MaybeDefer(t: Thunk)
      requires t.Deferrable?
      modifies this`fns, executor`queue
      ensures var checked := Next(old(View()), Submit(t));
              View() == if old(fns) == None then Next(checked, Send(t)) else checked
    {
      if fns.Some? {
        fns := Some(fns.value + [t]);
        return;
      }
      executor.CallSync(t);
      assert multiset{t} - multiset{t} == multiset{};
    }

    method Ready()
      modifies this`fns, executor`ran
      ensures fns == None
      ensures executor.ran == old(executor.ran) + Listed(old(View()))
    {
      var taken := if fns.Some? then fns.value else [];
      fns := None;
      for i := 0 to |taken|
        invariant fns == None
        invariant executor.ran == old(executor.ran) + taken[..i]
      {
        executor.Execute(taken[i]);
      }
    }
  }
}
