/** A concrete run of the coroutine that shows where destroying its frame is too early. */
module CoroWitness {
  import opened Outcomes
  import opened CoroProtocol
  import opened CoroTheorems

  /** Awaits the pool once, then returns 7. */
  function Body(awaitsLeft: int): Turn<int, int, int> {
    if awaitsLeft > 0 then Await(awaitsLeft - 1) else Return(Value(7))
  }

  function OneAwait(): Script<int, int, int> { Script(1, Body, 0) }

  lemma Go(log: seq<Action>, a: Action) returns (longer: seq<Action>)
    requires Legal(Initial(OneAwait(), 1), log) && Enabled(Exec(Initial(OneAwait(), 1), log), a)
    ensures Legal(Initial(OneAwait(), 1), longer)
    ensures Exec(Initial(OneAwait(), 1), longer) == Next(Exec(Initial(OneAwait(), 1), log), a)
  {
    OneMore(Initial(OneAwait(), 1), log, a);
    longer := log + [a];
  }

  /** The owner starts the coroutine with resume() and comes back; the handle is queued. */
  lemma Started() returns (log: seq<Action>)
    ensures Legal(Initial(OneAwait(), 1), log)
    ensures Exec(Initial(OneAwait(), 1), log)
         == State(OneAwait(), InFlight, 0, 1, None, None, false, None, [Handle], false, [Start, Free], false, 0)
  {
    assert Initial(OneAwait(), 1).threads == [Start, Free];
    log := Go([], Resume);
    log := Go(log, Step(0));
    log := Go(log, Step(0));
    log := Go(log, Step(0));
    log := Go(log, Step(0));
  }

  /** get() without a promise may return while the worker that ended the coroutine has yet to
      read the frame in its final awaiter: the owner must not destroy the frame then. */
  lemma GotBeforeTheFinalAwaiterRead() returns (log: seq<Action>)
    ensures Legal(Initial(OneAwait(), 1), log)
    ensures var s := Exec(Initial(OneAwait(), 1), log);
            s.threads == [Got(Value(7)), Signalling] && !s.attached && TouchesFrame(s.threads[1])
  {
    log := Started();
    log := Go(log, Step(1));
    log := Go(log, Step(1));
    log := Go(log, Step(1));
    log := Go(log, Get);
  }
}
