/** Whole-run properties of the pool: exactly-once execution, shutdown that drains, freedom from
    deadlock, bounded work, and chains whose result does not depend on the schedule. */
module PoolTheorems {
  import opened Outcomes
  import opened Pool
  import opened PoolInvariant

  lemma Reached<V, E>(n: nat, actions: seq<Action<V, E>>)
    requires Legal(Initial<V, E>(n), actions)
    ensures Inv(Exec(Initial<V, E>(n), actions))
  {
    InitialInv<V, E>(n);
    RunKeepsInv(Initial<V, E>(n), actions);
  }

  // ---------------------------------------------------------------- exactly once, in order

  /** In every run the tasks taken from the queue are the accepted ones, oldest first and each
      once; what is left is queued; each future is set at most once, only after its task was
      taken, and to the task's meaning. Each body is entered at most once, only after its task was
      taken, and only if no exception is to be let through; and a finished task whose body was to
      run has run it. */
  lemma TasksRunOnceInOrder<V, E>(n: nat, actions: seq<Action<V, E>>)
    requires Legal(Initial<V, E>(n), actions)
    ensures var s := Exec(Initial<V, E>(n), actions);
            && s.popped + s.queue == seq(|s.accepted|, i => i)
            && (forall t :: t in s.finished ==> t in s.popped)
            && (forall i, j :: 0 <= i < j < |s.finished| ==> s.finished[i] != s.finished[j])
            && Linked(s.accepted)
            && (forall t :: t in s.finished ==> t < |s.accepted| && s.futures[t] == Some(Meaning(s.accepted, t)))
            && (forall i, j :: 0 <= i < j < |s.entered| ==> s.entered[i] != s.entered[j])
            && (forall t :: t in s.entered ==> t in s.popped && t < |s.accepted| && BodyRuns(s.accepted, t))
            && (forall t :: t in s.finished && BodyRuns(s.accepted, t) ==> t in s.entered)
  {
    Reached(n, actions);
    var s := Exec(Initial<V, E>(n), actions);
    assert s.popped + s.queue == seq(|s.accepted|, i => i);
    forall t | t in s.finished
      ensures t in s.popped
    {
      assert t < Taken(s) && s.popped[t] == t;
    }
    forall t | t in s.entered
      ensures t in s.popped && t < |s.accepted| && BodyRuns(s.accepted, t)
    {
      assert EnteredOk(s, t);
      assert s.popped[t] == t;
    }
  }

  /** A submission after shutdown changes neither the queue nor any history, however the run
      goes on: nothing is ever accepted again. */
  lemma {:induction false} NothingAcceptedAfterShutdown<V, E>(s: State<V, E>, actions: seq<Action<V, E>>)
    requires Inv(s) && s.shutdown && Legal(s, actions)
    ensures Exec(s, actions).shutdown && Exec(s, actions).accepted == s.accepted
    ensures |Exec(s, actions).queue| <= |s.queue|
    ensures |Exec(s, actions).stop| == |s.stop|
    ensures forall w :: 0 <= w < |s.stop| && s.stop[w] ==> Exec(s, actions).stop[w]
    decreases |actions|
  {
    if actions != [] {
      StepKeepsInv(s, actions[0]);
      NothingAcceptedAfterShutdown(Next(s, actions[0]), actions[1..]);
    }
  }

  // ---------------------------------------------------------------- shutdown drains

  /** Once one worker has exited the queue is empty, and it stays empty in every continuation of
      the run. */
  lemma FirstExitEmptiesForGood<V, E>(n: nat, actions: seq<Action<V, E>>, w: nat, later: seq<Action<V, E>>)
    requires Legal(Initial<V, E>(n), actions) && w < n
    requires Exec(Initial<V, E>(n), actions).workers[w].Exited?
    requires Legal(Exec(Initial<V, E>(n), actions), later)
    ensures Exec(Exec(Initial<V, E>(n), actions), later).queue == []
  {
    Reached(n, actions);
    var s := Exec(Initial<V, E>(n), actions);
    assert s.stop[w];
    NothingAcceptedAfterShutdown(s, later);
  }

  /** When all workers have exited, every accepted task has run and its future is set. */
  lemma AllExitedAllFinished<V, E>(n: nat, actions: seq<Action<V, E>>)
    requires n >= 1 && Legal(Initial<V, E>(n), actions)
    requires forall w :: 0 <= w < n ==> Exec(Initial<V, E>(n), actions).workers[w].Exited?
    ensures var s := Exec(Initial<V, E>(n), actions);
            && s.shutdown && s.queue == []
            && forall t :: 0 <= t < |s.accepted| ==> s.futures[t].Some? && t in s.finished
  {
    Reached(n, actions);
    var s := Exec(Initial<V, E>(n), actions);
    assert s.workers[0].Exited?;
    forall t | 0 <= t < |s.accepted|
      ensures s.futures[t].Some?
    {
    }
  }

  // ---------------------------------------------------------------- deadlock freedom

  ghost predicate AllFinished<V, E>(s: State<V, E>) {
    forall t :: 0 <= t < |s.futures| ==> s.futures[t].Some?
  }

  /** A worker that only goes round its loop between `queue_.shutdown()` and its own stop
      request, with nothing to do. */
  predicate Spins<V, E>(s: State<V, E>, w: nat) {
    && w < |s.workers| == |s.stop| && s.workers[w].Waiting?
    && s.queue == [] && s.shutdown && !s.stop[w]
  }

  predicate Productive<V, E>(s: State<V, E>, w: nat)
    requires Shaped(s)
  {
    w < |s.workers| && CanWork(s, w) && !Spins(s, w)
  }

  lemma {:induction false} OldestUnfinished<V, E>(s: State<V, E>, t: nat) returns (first: nat)
    requires t < |s.futures| && s.futures[t].None?
    ensures first <= t && s.futures[first].None?
    ensures forall k :: 0 <= k < first ==> s.futures[k].Some?
    decreases t
  {
    if k :| 0 <= k < t && s.futures[k].None? {
      first := OldestUnfinished(s, k);
    } else {
      first := t;
    }
  }

  /** Freedom from deadlock: while an accepted task is unfinished, some worker of the pool can
      make a productive step, although continuations block their workers. The oldest unfinished
      task is never the one that waits: tasks are taken in submission order, and a continuation
      is submitted after its predecessor. */
  lemma NeverDeadlocked<V, E>(n: nat, actions: seq<Action<V, E>>)
    requires n >= 1 && Legal(Initial<V, E>(n), actions)
    requires !AllFinished(Exec(Initial<V, E>(n), actions))
    ensures exists w :: 0 <= w < n && Productive(Exec(Initial<V, E>(n), actions), w)
  {
    Reached(n, actions);
    var s := Exec(Initial<V, E>(n), actions);
    var t: nat :| t < |s.futures| && s.futures[t].None?;
    var first := OldestUnfinished(s, t);
    var w := WhoCanWork(s, first);
    assert Productive(s, w);
  }

  lemma WhoCanWork<V, E>(s: State<V, E>, first: nat) returns (w: nat)
    requires Inv(s) && |s.workers| >= 1 && first < |s.futures| && s.futures[first].None?
    requires forall k :: 0 <= k < first ==> s.futures[k].Some?
    ensures w < |s.workers| && Productive(s, w)
  {
    if first < Taken(s) {
      assert Held(s, first);
      w :| 0 <= w < |s.workers| && s.workers[w].Holds(first);
    } else {
      IdleWorkerCanPop(s, first);
      w := 0;
    }
  }

  /** If every taken task is finished and one is queued, no worker is busy, blocked or gone. */
  lemma IdleWorkerCanPop<V, E>(s: State<V, E>, first: nat)
    requires Inv(s) && |s.workers| >= 1 && Taken(s) <= first < |s.futures|
    requires forall k :: 0 <= k < first ==> s.futures[k].Some?
    ensures Productive(s, 0)
  {
    assert s.queue != [];
  }

  // ---------------------------------------------------------------- bounded work

  function Weight<V, E>(pc: Worker<V, E>, stop: bool): nat {
    if stop then
      match pc
      case Top => 2
      case Waiting => 3
      case DrainTop => 1
      case Exited => 0
      case Holding(_, _) => 4
      case InBody(_, _, _) => 3
    else
      match pc
      case Top => 12
      case Waiting => 11
      case DrainTop => 1
      case Exited => 0
      case Holding(_, _) => 14
      case InBody(_, _, _) => 13
  }

  function Weights<V, E>(workers: seq<Worker<V, E>>, stop: seq<bool>): nat
    requires |workers| == |stop|
  {
    if workers == [] then 0 else Weight(workers[0], stop[0]) + Weights(workers[1..], stop[1..])
  }

  function Measure<V, E>(s: State<V, E>): nat
    requires Shaped(s)
  {
    6 * |s.queue| + Weights(s.workers, s.stop)
  }

  lemma {:induction false} WeightsChange<V, E>(workers: seq<Worker<V, E>>, stop: seq<bool>, w: nat,
                                               pc: Worker<V, E>, b: bool)
    requires |workers| == |stop| && w < |workers|
    ensures Weights(workers[w := pc], stop[w := b])
         == Weights(workers, stop) + Weight(pc, b) - Weight(workers[w], stop[w])
    decreases |workers|
  {
    if w == 0 {
      assert workers[0 := pc][1..] == workers[1..] && stop[0 := b][1..] == stop[1..];
    } else {
      WeightsChange(workers[1..], stop[1..], w - 1, pc, b);
      assert workers[w := pc][1..] == workers[1..][w - 1 := pc];
      assert stop[w := b][1..] == stop[1..][w - 1 := b];
    }
  }

  function Productives<V, E>(s: State<V, E>, actions: seq<Action<V, E>>): nat
    requires Shaped(s) && Legal(s, actions)
    decreases |actions|
  {
    if actions == [] then 0
    else (if actions[0].Work? && !Spins(s, actions[0].worker) then 1 else 0)
         + Productives(Next(s, actions[0]), actions[1..])
  }

  function SpinCount<V, E>(s: State<V, E>, actions: seq<Action<V, E>>): nat
    requires Shaped(s) && Legal(s, actions)
    decreases |actions|
  {
    if actions == [] then 0
    else (if actions[0].Work? && Spins(s, actions[0].worker) then 1 else 0)
         + SpinCount(Next(s, actions[0]), actions[1..])
  }

  lemma WeightDrops<V, E>(s: State<V, E>, w: nat)
    requires Shaped(s) && ShutdownOrder(s) && w < |s.workers| && CanWork(s, w)
    ensures var s' := Worked(s, w);
            && |s'.workers| == |s.workers|
            && 6 * |s'.queue| + Weight(s'.workers[w], s.stop[w])
               <= 6 * |s.queue| + Weight(s.workers[w], s.stop[w]) + (if Spins(s, w) then 1 else -1)
  {
  }

  lemma WorkMeasure<V, E>(s: State<V, E>, w: nat)
    requires Inv(s) && w < |s.workers| && CanWork(s, w)
    requires Shaped(Worked(s, w))
    ensures Measure(Worked(s, w)) <= Measure(s) + (if Spins(s, w) then 1 else -1)
  {
    var s' := Worked(s, w);
    WeightDrops(s, w);
    WeightsChange(s.workers, s.stop, w, s'.workers[w], s.stop[w]);
    OnlyItsOwn(s, w);
    assert s.stop == s.stop[w := s.stop[w]];
  }

  lemma OnlyItsOwn<V, E>(s: State<V, E>, w: nat)
    requires Shaped(s) && w < |s.workers| && CanWork(s, w)
    ensures var s' := Worked(s, w);
            |s'.workers| == |s.workers| && s'.workers == s.workers[w := s'.workers[w]] && s'.stop == s.stop
    ensures Worked(s, w).accepted == s.accepted
  {
  }

  /** What a step does to the measure: a productive worker step lowers it, a stop request does
      not raise it, accepting a task raises it by 6, a spin by 1. */
  lemma StepMeasure<V, E>(s: State<V, E>, a: Action<V, E>)
    requires Inv(s) && Enabled(s, a)
    ensures var s' := Next(s, a);
            Measure(s') + (if a.Work? && !Spins(s, a.worker) then 1 else 0)
            <= Measure(s) + 6 * (|s'.accepted| - |s.accepted|) + (if a.Work? && Spins(s, a.worker) then 1 else 0)
  {
    match a {
      case Work(w) =>
        assert Next(s, a) == Worked(s, w);
        WorkMeasure(s, w);
        OnlyItsOwn(s, w);
      case RequestStop(w) => StopMeasure(s, w);
      case Submit(_) =>
      case Attach(_, _) =>
      case Get(_) =>
      case ShutDownQueue =>
    }
  }

  lemma StopMeasure<V, E>(s: State<V, E>, w: nat)
    requires Inv(s) && Enabled(s, RequestStop(w))
    ensures Measure(Next(s, RequestStop(w))) <= Measure(s)
  {
    WeightsChange(s.workers, s.stop, w, s.workers[w], true);
    assert s.workers == s.workers[w := s.workers[w]];
  }

  lemma {:induction false} RunMeasure<V, E>(s: State<V, E>, actions: seq<Action<V, E>>)
    requires Inv(s) && Legal(s, actions)
    ensures Productives(s, actions) + Measure(Exec(s, actions))
         <= Measure(s) + 6 * (|Exec(s, actions).accepted| - |s.accepted|) + SpinCount(s, actions)
    decreases |actions|
  {
    if actions != [] {
      StepMeasure(s, actions[0]);
      StepKeepsInv(s, actions[0]);
      RunMeasure(Next(s, actions[0]), actions[1..]);
    }
  }

  lemma {:induction false} InitialMeasure<V, E>(n: nat)
    ensures Measure(Initial<V, E>(n)) == 12 * n
  {
    if n > 0 {
      InitialMeasure<V, E>(n - 1);
      assert Initial<V, E>(n).workers[1..] == Initial<V, E>(n - 1).workers;
      assert Initial<V, E>(n).stop[1..] == Initial<V, E>(n - 1).stop;
    }
  }

  /** Termination: in any run the pool makes at most 6 productive steps per accepted task and
      12 per worker, plus one for each idle turn between shutdown and stop. */
  lemma WorkIsBounded<V, E>(n: nat, actions: seq<Action<V, E>>)
    requires Legal(Initial<V, E>(n), actions)
    ensures var s0 := Initial<V, E>(n);
            Productives(s0, actions) <= 12 * n + 6 * |Exec(s0, actions).accepted| + SpinCount(s0, actions)
  {
    InitialInv<V, E>(n);
    InitialMeasure<V, E>(n);
    RunMeasure(Initial<V, E>(n), actions);
  }

  lemma QueuedIsUnfinished<V, E>(s: State<V, E>)
    requires Inv(s)
    ensures AllFinished(s) ==> s.queue == []
  {
    if s.queue != [] { assert s.futures[Taken(s)].None?; }
  }

  /** A pool that can make no more progress has finished everything it accepted; and if all its
      workers were asked to stop, they have all exited. With `WorkIsBounded`: every shutdown
      completes. */
  lemma QuietPoolIsDone<V, E>(n: nat, actions: seq<Action<V, E>>)
    requires n >= 1 && Legal(Initial<V, E>(n), actions)
    requires forall w :: 0 <= w < n ==> !Productive(Exec(Initial<V, E>(n), actions), w)
    ensures var s := Exec(Initial<V, E>(n), actions);
            && AllFinished(s) && s.queue == []
            && ((forall w :: 0 <= w < n ==> s.stop[w]) ==> forall w :: 0 <= w < n ==> s.workers[w].Exited?)
  {
    Reached(n, actions);
    var s := Exec(Initial<V, E>(n), actions);
    if !AllFinished(s) {
      NeverDeadlocked(n, actions);
    }
    QueuedIsUnfinished(s);
    forall w | 0 <= w < n && s.stop[w]
      ensures s.workers[w].Exited?
    {
      assert !Productive(s, w);
    }
  }

  // ---------------------------------------------------------------- steps of other threads

  lemma OthersLeaveWorker<V, E>(s: State<V, E>, a: Action<V, E>, w: nat)
    requires Shaped(s) && Enabled(s, a) && w < |s.workers| && !(a.Work? && a.worker == w)
    ensures Next(s, a).workers[w] == s.workers[w]
  {
  }

  lemma OneMore<V, E>(s: State<V, E>, log: seq<Action<V, E>>, a: Action<V, E>)
    requires Shaped(s) && Legal(s, log) && Enabled(Exec(s, log), a)
    ensures Legal(s, log + [a]) && Exec(s, log + [a]) == Next(Exec(s, log), a)
  {
    RunsCompose(s, log, [a]);
  }
}
