/** The logger's guarantees over every run: nothing is lost or reordered, a flush covers all that
    was logged before it, and the drain thread leaves only when everything has been sunk. */
module LoggerTheorems {
  import opened LoggerProtocol

  /** The part of the current batch that has not reached the sink. */
  function Rest<M>(s: State<M>): seq<Entry<M>> {
    if s.drain.Sinking? then s.drain.rest else []
  }

  /** Sunk, then the rest of the batch, then the queue: every accepted entry, in lock order. */
  ghost predicate Conserved<M>(s: State<M>) {
    s.accepted == s.sunk + Rest(s) + s.queue
  }

  ghost predicate Generations<M>(s: State<M>) {
    && |s.marks| == s.pending && s.done <= s.pending
    && (forall g :: 0 <= g < s.pending ==> s.marks[g] <= |s.accepted|)
    && (forall g :: 0 <= g < s.done ==> s.marks[g] <= |s.sunk|)
    && (s.drain.Sinking? ==>
          && s.done <= s.drain.target <= s.pending
          && forall g :: 0 <= g < s.drain.target ==> s.marks[g] <= |s.sunk| + |s.drain.rest|)
    && (forall c :: 0 <= c < |s.clients| && s.clients[c].Flushing? ==> 1 <= s.clients[c].target <= s.pending)
  }

  ghost predicate Lifetime<M>(s: State<M>) {
    && (s.running <==> !s.closing.Joining?)
    && (!s.closing.Open? ==> forall c :: 0 <= c < |s.clients| ==> s.clients[c].Idle?)
    && (s.closing.CloserFlushing? ==>
          1 <= s.closing.target <= s.pending == |s.marks| && s.marks[s.closing.target - 1] == |s.accepted|)
    && (s.closing.Joining? ==> s.sunk == s.accepted)
    && (s.drain.TestQueue? || s.drain.Exited? ==> !s.running)
  }

  ghost predicate Inv<M>(s: State<M>) {
    Conserved(s) && Generations(s) && Lifetime(s)
  }

  lemma DrainKeepsInv<M>(s: State<M>)
    requires Inv(s) && !s.drain.Exited?
    ensures Inv(Drained(s))
  {
    DrainKeepsCounts(s);
  }

  lemma DrainKeepsCounts<M>(s: State<M>)
    requires Conserved(s) && Generations(s) && !s.drain.Exited?
    ensures Conserved(Drained(s)) && Generations(Drained(s))
  {
    DrainConserves(s);
    DrainKeepsGenerations(s);
  }

  lemma DrainKeepsGenerations<M>(s: State<M>)
    requires Conserved(s) && Generations(s) && !s.drain.Exited?
    ensures Generations(Drained(s))
  {
    assert s.drain.Collect? ==> |s.accepted| == |s.sunk| + |s.queue|;
  }

  lemma DrainConserves<M>(s: State<M>)
    requires Conserved(s) && !s.drain.Exited?
    ensures Conserved(Drained(s))
  {
    var s' := Drained(s);
    if s.drain.Sinking? && s.drain.rest != [] {
      assert s.drain.rest == [s.drain.rest[0]] + s.drain.rest[1..];
      assert s'.sunk + Rest(s') == s.sunk + Rest(s);
    }
  }

  lemma StepKeepsInv<M>(s: State<M>, a: Action<M>)
    requires Inv(s) && Enabled(s, a)
    ensures Inv(Next(s, a))
  {
    var s' := Next(s, a);
    match a {
      case DrainStep => DrainKeepsInv(s);
      case Push(c) =>
        assert s'.accepted == s.sunk + Rest(s) + (s.queue + [s.clients[c].entry]);
      case Stop =>
        assert |s.sunk| >= |s.accepted|;
      case _ =>
    }
  }

  lemma {:induction false} RunKeepsInv<M>(s: State<M>, actions: seq<Action<M>>)
    requires Inv(s) && Legal(s, actions)
    ensures Inv(Exec(s, actions))
    decreases |actions|
  {
    if actions != [] {
      StepKeepsInv(s, actions[0]);
      RunKeepsInv(Next(s, actions[0]), actions[1..]);
    }
  }

  /** Conservation and order, at every reachable state. */
  lemma NothingLostOrReordered<M>(level: Level, n: nat, actions: seq<Action<M>>)
    requires Legal(Initial<M>(level, n), actions)
    ensures var s := Exec(Initial<M>(level, n), actions);
            && s.accepted == s.sunk + Rest(s) + s.queue
            && s.done <= s.pending
            && (s.drain.Exited? ==> s.sunk == s.accepted && s.queue == [] && !s.running)
  {
    RunKeepsInv(Initial<M>(level, n), actions);
  }

  // ---------------------------------------------------------------- the threshold

  /** While the threshold is `level`, what is below it gets nowhere. */
  ghost predicate NothingBelow<M>(s: State<M>, level: Level) {
    && s.minLevel == level
    && (forall i :: 0 <= i < |s.accepted| ==> Admits(level, s.accepted[i].level))
    && (forall c :: 0 <= c < |s.clients| && s.clients[c].Passed? ==> Admits(level, s.clients[c].entry.level))
  }

  lemma {:induction false} NothingBelowStays<M>(s: State<M>, actions: seq<Action<M>>, level: Level)
    requires NothingBelow(s, level) && Legal(s, actions)
    requires forall i :: 0 <= i < |actions| ==> !actions[i].SetLevel?
    ensures NothingBelow(Exec(s, actions), level)
    decreases |actions|
  {
    if actions != [] { NothingBelowStays(Next(s, actions[0]), actions[1..], level); }
  }

  /** Entries below the threshold are never accepted, in any run that does not change it. */
  lemma AcceptedAreAdmitted<M>(level: Level, n: nat, actions: seq<Action<M>>)
    requires Legal(Initial<M>(level, n), actions)
    requires forall i :: 0 <= i < |actions| ==> !actions[i].SetLevel?
    ensures forall e :: e in Exec(Initial<M>(level, n), actions).accepted ==> Admits(level, e.level)
  {
    NothingBelowStays(Initial<M>(level, n), actions, level);
  }

  // ---------------------------------------------------------------- what only grows

  ghost predicate Grows<M>(s: State<M>, s': State<M>) {
    && s.done <= s'.done && s.pending <= s'.pending
    && s.sunk <= s'.sunk && s.accepted <= s'.accepted && s.marks <= s'.marks
  }

  lemma StepIsMonotone<M>(s: State<M>, a: Action<M>)
    requires Inv(s) && Enabled(s, a)
    ensures Grows(s, Next(s, a))
  {
  }

  lemma {:induction false} RunIsMonotone<M>(s: State<M>, actions: seq<Action<M>>)
    requires Inv(s) && Legal(s, actions)
    ensures Grows(s, Exec(s, actions))
    decreases |actions|
  {
    if actions != [] {
      StepKeepsInv(s, actions[0]);
      StepIsMonotone(s, actions[0]);
      RunIsMonotone(Next(s, actions[0]), actions[1..]);
    }
  }

  /** Client `c` stays in the call it is in. */
  predicate StaysInFlush<M>(c: nat, actions: seq<Action<M>>) {
    forall i :: 0 <= i < |actions| ==> actions[i] != FlushReturn(c)
  }

  lemma {:induction false} StillFlushing<M>(s: State<M>, actions: seq<Action<M>>, c: nat)
    requires Legal(s, actions) && c < |s.clients| && s.clients[c].Flushing? && StaysInFlush(c, actions)
    ensures Exec(s, actions).clients[c] == s.clients[c]
    decreases |actions|
  {
    if actions != [] {
      assert actions[0] != FlushReturn(c);
      assert forall i :: 0 <= i < |actions[1..]| ==> actions[1..][i] == actions[i + 1];
      StillFlushing(Next(s, actions[0]), actions[1..], c);
    }
  }

  // ---------------------------------------------------------------- the flush guarantee

  /** When a flush may return, every entry accepted before it took its generation has been given
      to the sink, in order, whatever the other loggers and flushers did meanwhile, and also if
      the entries were in a batch being processed when the flush began. */
  lemma FlushGuarantee<M>(level: Level, n: nat, before: seq<Action<M>>, c: nat, after: seq<Action<M>>)
    requires Legal(Initial<M>(level, n), before)
    requires var s0 := Exec(Initial<M>(level, n), before);
             && Enabled(s0, Flush(c))
             && var s1 := Next(s0, Action<M>.Flush(c));
                && Legal(s1, after) && StaysInFlush(c, after)
                && Enabled(Exec(s1, after), FlushReturn(c))
    ensures var s0 := Exec(Initial<M>(level, n), before);
            s0.accepted <= Exec(Next(s0, Action<M>.Flush(c)), after).sunk
  {
    RunKeepsInv(Initial<M>(level, n), before);
    var s0 := Exec(Initial<M>(level, n), before);
    FlushCovers(s0, c, after);
  }

  lemma FlushCovers<M>(s0: State<M>, c: nat, after: seq<Action<M>>)
    requires Inv(s0) && Enabled(s0, Flush(c))
    requires Legal(Next(s0, Action<M>.Flush(c)), after) && StaysInFlush(c, after)
    ensures var s2 := Exec(Next(s0, Action<M>.Flush(c)), after);
            Enabled(s2, FlushReturn(c)) ==> s0.accepted <= s2.sunk
  {
    var s1 := Next(s0, Action<M>.Flush(c));
    var s2 := Exec(s1, after);
    StepKeepsInv(s0, Action<M>.Flush(c));
    RunKeepsInv(s1, after);
    RunIsMonotone(s1, after);
    StillFlushing(s1, after, c);
    if Enabled(s2, FlushReturn(c)) {
      var target := s0.pending + 1;
      assert s2.marks[target - 1] == s1.marks[target - 1] == |s0.accepted|;
      PrefixByLength(s0.accepted, s2.sunk, s2.accepted);
    }
  }

  /** Two prefixes of one sequence are ordered by their lengths. */
  lemma PrefixByLength<X>(a: seq<X>, b: seq<X>, whole: seq<X>)
    requires a <= whole && b <= whole && |a| <= |b|
    ensures a <= b
  {
  }

  // ---------------------------------------------------------------- progress

  /** Ends of drain iterations: the stores to flush_gen_done_. */
  function Signals<M>(s: State<M>, actions: seq<Action<M>>): nat
    requires Legal(s, actions)
    decreases |actions|
  {
    if actions == [] then 0
    else (if actions[0].DrainStep? && s.drain.Sinking? && s.drain.rest == [] then 1 else 0)
         + Signals(Next(s, actions[0]), actions[1..])
  }

  /** How many more iteration ends it takes for generation `target` to be reported done. */
  function SignalsNeeded<M>(s: State<M>, target: nat): nat {
    if s.done >= target then 0
    else if s.drain.Sinking? && s.drain.target < target then 2
    else 1
  }

  lemma {:induction false} SignalsReach<M>(s: State<M>, actions: seq<Action<M>>, target: nat)
    requires Inv(s) && Legal(s, actions) && target <= s.pending
    ensures Signals(s, actions) >= SignalsNeeded(s, target) ==> Exec(s, actions).done >= target
    decreases |actions|
  {
    if s.done >= target {
      RunIsMonotone(s, actions);
    } else if actions != [] {
      StepKeepsInv(s, actions[0]);
      SignalsReach(Next(s, actions[0]), actions[1..], target);
    }
  }

  /** Any flush generation that has been taken is reported done once two drain iterations have
      ended, however the run goes. */
  lemma TwoIterationsSuffice<M>(level: Level, n: nat, before: seq<Action<M>>, after: seq<Action<M>>)
    requires Legal(Initial<M>(level, n), before)
    requires Legal(Exec(Initial<M>(level, n), before), after)
    requires Signals(Exec(Initial<M>(level, n), before), after) >= 2
    ensures var s := Exec(Initial<M>(level, n), before); Exec(s, after).done >= s.pending
  {
    RunKeepsInv(Initial<M>(level, n), before);
    var s := Exec(Initial<M>(level, n), before);
    SignalsReach(s, after, s.pending);
  }

  /** One iteration may not be enough: the batch being processed when the flush begins was
      swapped out, with an older generation number, before it. */
  lemma OneIterationMayNotSuffice() returns (before: seq<Action<int>>, after: seq<Action<int>>)
    ensures Legal(Initial<int>(Info, 1), before)
    ensures var s := Exec(Initial<int>(Info, 1), before);
            && Legal(s, after) && Signals(s, after) == 1 && Exec(s, after).done < s.pending
  {
    var s0 := Initial<int>(Info, 1);
    before := [DrainStep];
    assert Legal(s0, []) && Exec(s0, []) == s0;
    OneMore(s0, [], DrainStep);
    OneMore(s0, [DrainStep], DrainStep);
    before := [DrainStep] + [DrainStep];
    OneMore(s0, before, Flush(0));
    before := before + [Flush(0)];
    after := [DrainStep];
    var s := Exec(s0, before);
    assert s.drain == Sinking([], 0) && s.pending == 1;
    assert Signals(Next(s, DrainStep), after[1..]) == 0;
  }

  /** The drain thread taking `steps` steps by itself. */
  function Alone<M>(s: State<M>, steps: nat): State<M>
    decreases steps
  {
    if steps == 0 || s.drain.Exited? then s else Alone(Drained(s), steps - 1)
  }

  /** Its steps to the end of the iteration that serves all generations taken so far. */
  function StepsToServe<M>(s: State<M>): nat {
    match s.drain
    case TestRunning => |s.queue| + 3
    case TestQueue => if s.queue == [] then 1 else |s.queue| + 3
    case Collect => |s.queue| + 2
    case Sinking(rest, target) =>
      if target == s.pending then |rest| + 1 else |rest| + 1 + |s.queue| + 3
    case Exited => 0
  }

  lemma AloneStep<M>(s: State<M>)
    requires Inv(s) && s.running && s.done < s.pending
    ensures !s.drain.Exited? && Inv(Drained(s)) && Drained(s).running && Drained(s).pending == s.pending
    ensures Drained(s).done < s.pending ==> StepsToServe(Drained(s)) < StepsToServe(s)
    ensures StepsToServe(s) > 0
  {
    assert Next(s, Action<M>.DrainStep) == Drained(s);
    StepKeepsInv(s, Action<M>.DrainStep);
  }

  lemma {:induction false} AloneServes<M>(s: State<M>, steps: nat)
    requires Inv(s) && s.running && StepsToServe(s) <= steps
    ensures s.done < s.pending ==> exists k :: 0 <= k <= steps && Alone(s, k).done >= s.pending
    decreases steps
  {
    if s.done < s.pending {
      AloneStep(s);
      var s' := Drained(s);
      if s'.done >= s.pending {
        assert Alone(s, 1) == s' by { assert Alone(s', 0) == s'; }
      } else {
        AloneServes(s', steps - 1);
        var k :| 0 <= k <= steps - 1 && Alone(s', k).done >= s'.pending;
        assert Alone(s, k + 1) == Alone(s', k);
      }
    }
  }

  /** A flush never waits for ever: while the logger runs, its drain thread can always step, and
      by itself it serves every generation taken so far within a number of steps that depends
      only on what is queued or being sunk. */
  lemma FlushIsServed<M>(level: Level, n: nat, actions: seq<Action<M>>)
    requires Legal(Initial<M>(level, n), actions)
    requires Exec(Initial<M>(level, n), actions).running
    ensures var s := Exec(Initial<M>(level, n), actions);
            && Enabled(s, DrainStep)
            && exists k :: 0 <= k <= |Rest(s)| + |s.queue| + 4 && Alone(s, k).done >= s.pending
  {
    RunKeepsInv(Initial<M>(level, n), actions);
    var s := Exec(Initial<M>(level, n), actions);
    if s.done < s.pending {
      AloneServes(s, |Rest(s)| + |s.queue| + 4);
    } else {
      assert Alone(s, 0) == s;
    }
  }

  // ---------------------------------------------------------------- progress under interference

  /** The drain thread's steps until generation `target` is reported done, if nobody logs. */
  function StepsNeeded<M>(s: State<M>, target: nat): nat {
    if s.done >= target then 0
    else
      match s.drain
      case TestRunning => |s.queue| + 4
      case TestQueue => |s.queue| + 3
      case Collect => |s.queue| + 2
      case Sinking(rest, g) => if g >= target then |rest| + 1 else |rest| + 1 + |s.queue| + 4
      case Exited => 1
  }

  /** A push that lengthens the batch which serves `target`: one made before that batch is swapped
      out. Later pushes delay nothing. */
  predicate Delays<M>(s: State<M>, a: Action<M>, target: nat) {
    a.Push? && s.done < target && !(s.drain.Sinking? && s.drain.target >= target)
  }

  function DelayCount<M>(s: State<M>, actions: seq<Action<M>>, target: nat): nat
    requires Legal(s, actions)
    decreases |actions|
  {
    if actions == [] then 0
    else (if Delays(s, actions[0], target) then 1 else 0) + DelayCount(Next(s, actions[0]), actions[1..], target)
  }

  function DrainCount<M>(actions: seq<Action<M>>): nat {
    if actions == [] then 0 else (if actions[0].DrainStep? then 1 else 0) + DrainCount(actions[1..])
  }

  lemma StepNeedsLess<M>(s: State<M>, a: Action<M>, target: nat)
    requires Inv(s) && Enabled(s, a) && target <= s.pending && s.done < target
    ensures Next(s, a).done >= target ||
            StepsNeeded(Next(s, a), target) + (if a.DrainStep? then 1 else 0)
            <= StepsNeeded(s, target) + (if Delays(s, a, target) then 1 else 0)
  {
  }

  lemma {:induction false} DrainStepsServe<M>(s: State<M>, actions: seq<Action<M>>, target: nat)
    requires Inv(s) && Legal(s, actions) && target <= s.pending
    requires DrainCount(actions) >= StepsNeeded(s, target) + DelayCount(s, actions, target)
    ensures Exec(s, actions).done >= target
    decreases |actions|
  {
    if s.done >= target {
      RunIsMonotone(s, actions);
    } else {
      var s' := Next(s, actions[0]);
      StepKeepsInv(s, actions[0]);
      StepIsMonotone(s, actions[0]);
      if s'.done >= target {
        RunIsMonotone(s', actions[1..]);
      } else {
        StepNeedsLess(s, actions[0], target);
        DrainStepsServe(s', actions[1..], target);
      }
    }
  }

  /** Flush progress in every run, with loggers, flushers and the destructor interleaved at will:
      every generation taken is reported done once the drain thread has made as many steps as
      there were entries to sink, five more, and one for each push that came before the swap of
      the serving batch. */
  lemma FlushProgress<M>(level: Level, n: nat, before: seq<Action<M>>, after: seq<Action<M>>)
    requires Legal(Initial<M>(level, n), before)
    requires Legal(Exec(Initial<M>(level, n), before), after)
    requires var s := Exec(Initial<M>(level, n), before);
             DrainCount(after) >= |Rest(s)| + |s.queue| + 5 + DelayCount(s, after, s.pending)
    ensures var s := Exec(Initial<M>(level, n), before); Exec(s, after).done >= s.pending
  {
    RunKeepsInv(Initial<M>(level, n), before);
    InterleavedServes(Exec(Initial<M>(level, n), before), after);
  }

  lemma InterleavedServes<M>(s: State<M>, actions: seq<Action<M>>)
    requires Inv(s) && Legal(s, actions)
    requires DrainCount(actions) >= |Rest(s)| + |s.queue| + 5 + DelayCount(s, actions, s.pending)
    ensures Exec(s, actions).done >= s.pending
  {
    assert StepsNeeded(s, s.pending) <= |Rest(s)| + |s.queue| + 5;
    DrainStepsServe(s, actions, s.pending);
  }

  /** The destructor completes: once it has cleared running_ nothing is left to sink, and the
      drain thread by itself exits within five more steps. */
  lemma {:induction false} ExitsAlone<M>(s: State<M>)
    requires Inv(s) && s.closing.Joining?
    ensures Rest(s) == [] && s.queue == []
    ensures Alone(s, 5).drain.Exited? && Alone(s, 5).sunk == s.accepted
  {
    assert |s.accepted| == |s.sunk| + |Rest(s)| + |s.queue|;
    var s1 := Drained(s);
    var s2 := Drained(s1);
    var s3 := Drained(s2);
    var s4 := Drained(s3);
    assert Alone(s, 5) == if s.drain.Exited? then s else Alone(s1, 4);
    assert Alone(s1, 4) == if s1.drain.Exited? then s1 else Alone(s2, 3);
    assert Alone(s2, 3) == if s2.drain.Exited? then s2 else Alone(s3, 2);
    assert Alone(s3, 2) == if s3.drain.Exited? then s3 else Alone(s4, 1);
  }
}
