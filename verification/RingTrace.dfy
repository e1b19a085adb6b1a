/** Bookkeeping for one call of one thread: the run made since the call began. */
module RingTrace {
  import opened RingProtocol
  import opened RingInvariant
  import opened RingFifo
  import opened RingProgress

  /** The run `log` since `base` lies within one call of `t`, which passed the head of its loop
      `loads` times and has reported `reports`. */
  ghost predicate During<T>(t: nat, base: Ring<T>, log: seq<Move<T>>, loads: nat, reports: seq<Event<T>>) {
    && Inv(base) && t < |base.threads|
    && Legal(base, log) && SameCall(t, log)
    && Count(t, base, log).passes == loads
    && OfThread(t, Reports(base, log)) == reports
  }

  predicate ByOthers<T>(t: nat, moves: seq<Move<T>>) {
    forall i :: 0 <= i < |moves| ==> moves[i].thread != t
  }

  lemma {:induction false} TalliesCompose<T>(t: nat, s: Ring<T>, a: seq<Move<T>>, b: seq<Move<T>>)
    requires Shaped(s) && t < |s.threads| && Legal(s, a) && Legal(Exec(s, a), b)
    ensures Legal(s, a + b) && Exec(s, a + b) == Exec(Exec(s, a), b)
    ensures Count(t, s, a + b).passes == Count(t, s, a).passes + Count(t, Exec(s, a), b).passes
    decreases |a|
  {
    RunsCompose(s, a, b);
    if a == [] {
      assert a + b == b;
    } else {
      assert (a + b)[0] == a[0] && (a + b)[1..] == a[1..] + b;
      TalliesCompose(t, Next(s, a[0]), a[1..], b);
    }
  }

  lemma {:induction false} ReportsCompose<T>(s: Ring<T>, a: seq<Move<T>>, b: seq<Move<T>>)
    requires Shaped(s) && Legal(s, a) && Legal(Exec(s, a), b)
    ensures Legal(s, a + b) && Reports(s, a + b) == Reports(s, a) + Reports(Exec(s, a), b)
    decreases |a|
  {
    RunsCompose(s, a, b);
    if a == [] {
      assert a + b == b;
    } else {
      assert (a + b)[0] == a[0] && (a + b)[1..] == a[1..] + b;
      ReportsCompose(Next(s, a[0]), a[1..], b);
    }
  }

  /** A run of one move. */
  lemma JustOne<T>(t: nat, s: Ring<T>, m: Move<T>)
    requires Shaped(s) && t < |s.threads| && Enabled(s, m)
    ensures Legal(s, [m]) && Exec(s, [m]) == Next(s, m)
    ensures Count(t, s, [m]).passes == Passes(t, s, m) && Reports(s, [m]) == Report(s, m)
  {
    assert [m][1..] == [];
    assert Legal(Next(s, m), []);
    assert Count(t, Next(s, m), []) == Tally(0, 0, 0);
    assert Reports(Next(s, m), []) == [];
  }

  lemma {:induction false} OthersCountNothing<T>(t: nat, s: Ring<T>, moves: seq<Move<T>>)
    requires Shaped(s) && t < |s.threads| && Legal(s, moves) && ByOthers(t, moves)
    ensures Count(t, s, moves).passes == 0 && OfThread(t, Reports(s, moves)) == []
    ensures Exec(s, moves).threads[t] == s.threads[t]
    decreases |moves|
  {
    if moves != [] {
      OthersCountNothing(t, Next(s, moves[0]), moves[1..]);
      OfThreadComposes(t, Report(s, moves[0]), Reports(Next(s, moves[0]), moves[1..]));
    }
  }

  /** The rest of the system runs while `t` is between two of its operations. */
  lemma OthersRun<T>(t: nat, base: Ring<T>, log: seq<Move<T>>, loads: nat, reports: seq<Event<T>>, more: seq<Move<T>>)
    requires During(t, base, log, loads, reports)
    requires Legal(Exec(base, log), more) && ByOthers(t, more)
    ensures During(t, base, log + more, loads, reports)
    ensures Exec(base, log + more) == Exec(Exec(base, log), more)
    ensures Exec(base, log + more).threads[t] == Exec(base, log).threads[t]
  {
    TalliesCompose(t, base, log, more);
    ReportsCompose(base, log, more);
    OthersCountNothing(t, Exec(base, log), more);
    OfThreadComposes(t, Reports(base, log), Reports(Exec(base, log), more));
  }

  /** `t` makes its own next step. */
  lemma OwnStep<T>(t: nat, base: Ring<T>, log: seq<Move<T>>, loads: nat, reports: seq<Event<T>>, m: Move<T>)
    requires During(t, base, log, loads, reports)
    requires Enabled(Exec(base, log), m) && m.thread == t && !m.action.StartPush? && !m.action.StartPop?
    ensures During(t, base, log + [m], loads + Passes(t, Exec(base, log), m), reports + Report(Exec(base, log), m))
    ensures Exec(base, log + [m]) == Next(Exec(base, log), m)
  {
    var s := Exec(base, log);
    JustOne(t, s, m);
    TalliesCompose(t, base, log, [m]);
    ReportsCompose(base, log, [m]);
    OfThreadComposes(t, Reports(base, log), Report(s, m));
    assert OfThread(t, Report(s, m)) == Report(s, m);
  }

  /** ... one that neither loads a sequence nor returns. */
  lemma InnerStep<T>(t: nat, base: Ring<T>, log: seq<Move<T>>, loads: nat, m: Move<T>)
    requires During(t, base, log, loads, [])
    requires Enabled(Exec(base, log), m) && m.thread == t && !m.action.StartPush? && !m.action.StartPop?
    requires var pc := Exec(base, log).threads[t]; !pc.PushPos? && !pc.PopPos? && !pc.PushFilled? && !pc.PopTaken?
    ensures During(t, base, log + [m], loads, []) && Exec(base, log + [m]) == Next(Exec(base, log), m)
  {
    OwnStep(t, base, log, loads, [], m);
    assert Report(Exec(base, log), m) == [];
  }

  /** ... the load of a slot's sequence. */
  lemma LoadStep<T>(t: nat, base: Ring<T>, log: seq<Move<T>>, loads: nat)
    requires During(t, base, log, loads, [])
    requires var pc := Exec(base, log).threads[t]; pc.PushPos? || pc.PopPos?
    ensures During(t, base, log + [Move(t, Advance)], loads + 1, [])
    ensures Exec(base, log + [Move(t, Advance)]) == Next(Exec(base, log), Move(t, Advance))
  {
    OwnStep(t, base, log, loads, [], Move(t, Advance));
    assert Report(Exec(base, log), Move(t, Advance)) == [];
  }

  /** ... the sequence store, with which a successful call returns. */
  lemma LastStep<T>(t: nat, base: Ring<T>, log: seq<Move<T>>, loads: nat, e: Event<T>)
    requires During(t, base, log, loads, [])
    requires var pc := Exec(base, log).threads[t];
             (pc.PushFilled? && e == Pushed(t, pc.value)) || (pc.PopTaken? && e == Popped(t, pc.value))
    ensures During(t, base, log + [Move(t, Advance)], loads, [e])
    ensures Exec(base, log + [Move(t, Advance)]) == Next(Exec(base, log), Move(t, Advance))
  {
    OwnStep(t, base, log, loads, [], Move(t, Advance));
    assert Report(Exec(base, log), Move(t, Advance)) == [e] && [] + [e] == [e];
  }

  /** When `t` is between calls again, the effects it had are the ones it reported. */
  lemma CallBalances<T>(t: nat, base: Ring<T>, log: seq<Move<T>>, loads: nat, reports: seq<Event<T>>)
    requires During(t, base, log, loads, reports)
    requires Pending(base, t) == [] && Pending(Exec(base, log), t) == []
    ensures OfThread(t, Effects(base, log)) == reports
  {
    RunBalances(base, log, t);
    assert [] + OfThread(t, Effects(base, log)) == OfThread(t, Effects(base, log));
    assert OfThread(t, Reports(base, log)) + [] == reports;
  }

  /** A whole call of `start.thread` from `s`: `start` begins it and `log` is the rest of the run
      up to its return. Its effects on the abstract queue are `effects`, and it passed the head
      of its loop `loads` times: at most once more than it lost the race for the counter or
      failed spuriously. */
  ghost predicate CallMade<T>(s: Ring<T>, start: Move<T>, log: seq<Move<T>>, loads: nat, effects: seq<Event<T>>) {
    && Inv(s) && Enabled(s, start) && (start.action.StartPush? || start.action.StartPop?)
    && Inv(Next(s, start)) && Legal(Next(s, start), log) && SameCall(start.thread, log)
    && OfThread(start.thread, Effects(Next(s, start), log)) == effects
    && var c := Count(start.thread, Next(s, start), log);
       loads == c.passes <= 1 + c.losses + c.spurious
  }

  lemma CallEnds<T>(s: Ring<T>, start: Move<T>, log: seq<Move<T>>, loads: nat, effects: seq<Event<T>>)
    requires Inv(s) && Enabled(s, start) && (start.action.StartPush? || start.action.StartPop?)
    requires During(start.thread, Next(s, start), log, loads, effects)
    requires Exec(Next(s, start), log).threads[start.thread].AtRest()
    ensures CallMade(s, start, log, loads, effects)
  {
    CallBalances(start.thread, Next(s, start), log, loads, effects);
    RetriesAreBounded(start.thread, s, start, log);
  }
}
