/** The coroutine handle is always in exactly one place, completion is signalled exactly once, and
    `get` returns what a synchronous run would. */
module CoroTheorems {
  import opened Outcomes
  import opened CoroProtocol

  // ---------------------------------------------------------------- counting places

  function Bit(b: bool): nat { if b then 1 else 0 }

  /** Threads that hold the handle: executing the coroutine, or handing it to the queue. */
  predicate Holds<L, V, E>(pc: Pc<L, V, E>) { pc.Running? || pc.InBody? || pc.Suspending? }

  function Holders<L, V, E>(threads: seq<Pc<L, V, E>>): nat {
    if threads == [] then 0 else Bit(Holds(threads[0])) + Holders(threads[1..])
  }

  function Signallers<L, V, E>(threads: seq<Pc<L, V, E>>): nat {
    if threads == [] then 0 else Bit(threads[0].Signalling?) + Signallers(threads[1..])
  }

  function Handles(queue: seq<Token>): nat {
    if queue == [] then 0 else Bit(queue[0].Handle?) + Handles(queue[1..])
  }

  lemma {:induction false} CountsChange<L, V, E>(threads: seq<Pc<L, V, E>>, t: nat, pc: Pc<L, V, E>)
    requires t < |threads|
    ensures Holders(threads[t := pc]) == Holders(threads) - Bit(Holds(threads[t])) + Bit(Holds(pc))
    ensures Signallers(threads[t := pc]) == Signallers(threads) - Bit(threads[t].Signalling?) + Bit(pc.Signalling?)
    decreases |threads|
  {
    if t == 0 {
      assert threads[0 := pc][1..] == threads[1..];
    } else {
      CountsChange(threads[1..], t - 1, pc);
      assert threads[t := pc][1..] == threads[1..][t - 1 := pc];
    }
  }

  lemma {:induction false} HandlesAppend(queue: seq<Token>, x: Token)
    ensures Handles(queue + [x]) == Handles(queue) + Bit(x.Handle?)
    decreases |queue|
  {
    if queue != [] {
      HandlesAppend(queue[1..], x);
      assert (queue + [x])[0] == queue[0] && (queue + [x])[1..] == queue[1..] + [x];
    }
  }

  // ---------------------------------------------------------------- invariant

  /** Not started, held by one thread, queued once, or done: exactly one of them. */
  ghost predicate OnePlace<L, V, E>(s: State<L, V, E>) {
    && Bit(s.status.NotStarted?) + Bit(s.status.Done?) + Holders(s.threads) + Handles(s.queue) == 1
  }

  /** Completion is signalled once if a promise is attached, by the thread that ended the
      coroutine, and never before the end. */
  ghost predicate OneSignal<L, V, E>(s: State<L, V, E>) {
    && (!s.status.Done? ==> s.signals == 0 && Signallers(s.threads) == 0)
    && (s.status.Done? ==> Signallers(s.threads) <= 1)
    && (s.status.Done? && s.attached ==> s.signals + Signallers(s.threads) == 1)
    && (!s.attached ==> s.signals == 0)
    && (s.promise.Some? <==> s.signals > 0)
  }

  /** What the stretch of body that ended the coroutine came to, or the refusal that cut it
      short. */
  function Expected<L, V, E>(s: State<L, V, E>): Option<Outcome<V, E>> {
    if s.refused then Some(Threw(s.script.refusal))
    else match s.script.body(s.local)
         case Return(outcome) => Some(outcome)
         case Await(_) => None
  }

  ghost predicate FrameOk<L, V, E>(s: State<L, V, E>) {
    && (s.status.Done? ==> FrameOutcome(s).Some? && FrameOutcome(s) == Expected(s))
    && (!s.status.Done? ==> s.result.None? && s.exception.None? && !s.refused)
    && (s.refused ==> s.shutdown && s.awaited > 0)
    && (s.status.NotStarted? ==> s.awaited == 0)
    && (s.promise.Some? ==> s.status.Done? && s.promise == Expected(s))
    && (forall t :: 0 <= t < |s.threads| && s.threads[t].Suspending? ==> s.awaited > 0)
    && (forall t :: 0 <= t < |s.threads| && s.threads[t].Got? ==>
          s.status.Done? && Some(s.threads[t].outcome) == Expected(s))
  }

  /** Who may stand where: thread 0 calls, the others work. */
  ghost predicate RolesOk<L, V, E>(s: State<L, V, E>) {
    && |s.threads| > 0 && CallerOk(s, s.threads[0])
    && (forall t :: 0 < t < |s.threads| ==> WorkerPc(s.threads[t]))
  }

  predicate CallerOk<L, V, E>(s: State<L, V, E>, pc: Pc<L, V, E>) {
    && !pc.Free? && !pc.Busy?
    && (pc.Attached? ==> s.attached && s.status.NotStarted?)
    && (pc.Blocked? ==> s.attached && !s.status.NotStarted?)
    && (pc.Start? ==> !s.attached)
    && (s.attached && s.status.NotStarted? ==> pc.Attached?)
  }

  predicate WorkerPc<L, V, E>(pc: Pc<L, V, E>) {
    pc.Free? || pc.Busy? || pc.Running? || pc.InBody? || pc.Suspending? || pc.Signalling? || pc.Leaving?
  }

  ghost predicate Inv<L, V, E>(s: State<L, V, E>) {
    OnePlace(s) && OneSignal(s) && FrameOk(s) && RolesOk(s) && OnTrack(s)
  }

  /** The frame's local variables are those of the synchronous run at the same co_await, whatever
      threads they were computed on. */
  ghost predicate OnTrack<L, V, E>(s: State<L, V, E>) {
    && LocalAfter(s.script, s.awaited) == Some(s.local)
    && forall t :: 0 <= t < |s.threads| && s.threads[t].InBody? ==> s.threads[t].local == s.local
  }

  lemma {:induction false} InitialCounts<L, V, E>(n: nat)
    ensures Holders(seq(n, _ => Pc<L, V, E>.Free)) == 0 && Signallers(seq(n, _ => Pc<L, V, E>.Free)) == 0
  {
    if n > 0 {
      InitialCounts<L, V, E>(n - 1);
      assert seq(n, _ => Pc<L, V, E>.Free)[1..] == seq(n - 1, _ => Pc<L, V, E>.Free);
    }
  }

  lemma InitialInv<L, V, E>(script: Script<L, V, E>, workers: nat)
    ensures Inv(Initial(script, workers))
  {
    InitialCounts<L, V, E>(workers);
    assert Initial(script, workers).threads[1..] == seq(workers, _ => Pc<L, V, E>.Free);
  }

  lemma {:induction false} HolderCounts<L, V, E>(threads: seq<Pc<L, V, E>>, t: nat)
    requires t < |threads|
    ensures Holds(threads[t]) ==> Holders(threads) >= 1
    ensures threads[t].Signalling? ==> Signallers(threads) >= 1
    decreases |threads|
  {
    if t > 0 { HolderCounts(threads[1..], t - 1); }
  }

  lemma {:induction false} TwoHoldersCount<L, V, E>(threads: seq<Pc<L, V, E>>, t: nat, k: nat)
    requires t < k < |threads| && Holds(threads[t]) && Holds(threads[k])
    ensures Holders(threads) >= 2
    decreases |threads|
  {
    if t == 0 { HolderCounts(threads[1..], k - 1); } else { TwoHoldersCount(threads[1..], t - 1, k - 1); }
  }

  lemma StepKeepsInv<L, V, E>(s: State<L, V, E>, a: Action)
    requires Inv(s) && Enabled(s, a)
    ensures Inv(Next(s, a))
  {
    var s' := Next(s, a);
    match a {
      case Get => CountsChange(s.threads, 0, s'.threads[0]);
      case Resume => CountsChange(s.threads, 0, s'.threads[0]);
      case SubmitOther => HandlesAppend(s.queue, Other);
      case OtherEnds(t) => OtherEndsKeepsInv(s, t);
      case ShutDown =>
      case Step(t) => ThreadStepKeepsInv(s, t);
    }
  }

  lemma OtherEndsKeepsInv<L, V, E>(s: State<L, V, E>, t: nat)
    requires Inv(s) && t < |s.threads| && s.threads[t].Busy?
    ensures Inv(SetPc(s, t, Free))
  {
    PlacesAfter(s, t, SetPc(s, t, Free));
    SignalsAfter(s, t, SetPc(s, t, Free));
  }

  ghost predicate Steps<L, V, E>(s: State<L, V, E>, t: nat) {
    Inv(s) && t < |s.threads| && CanStep(s, t)
  }

  /** The state part of a step: what it does to the thread, the queue and the status. */
  lemma PlacesAfter<L, V, E>(s: State<L, V, E>, t: nat, s': State<L, V, E>)
    requires t < |s.threads| && |s'.threads| == |s.threads|
    requires s'.threads == s.threads[t := s'.threads[t]]
    requires Bit(s'.status.NotStarted?) + Bit(s'.status.Done?) + Bit(Holds(s'.threads[t])) + Handles(s'.queue)
          == Bit(s.status.NotStarted?) + Bit(s.status.Done?) + Bit(Holds(s.threads[t])) + Handles(s.queue)
    requires OnePlace(s)
    ensures OnePlace(s')
  {
    CountsChange(s.threads, t, s'.threads[t]);
  }

  lemma HolderKeepsPlaces<L, V, E>(s: State<L, V, E>, t: nat)
    requires OnePlace(s) && s.status.InFlight? && t < |s.threads| && CanStep(s, t) && Holds(s.threads[t])
    ensures OnePlace(Stepped(s, t))
  {
    HandlesAppend(s.queue, Handle);
    PlacesAfter(s, t, Stepped(s, t));
  }

  lemma PopKeepsPlaces<L, V, E>(s: State<L, V, E>, t: nat)
    requires OnePlace(s) && t < |s.threads| && CanStep(s, t) && s.threads[t].Free?
    ensures OnePlace(Stepped(s, t))
  {
    PlacesAfter(s, t, Stepped(s, t));
  }

  lemma OtherStepKeepsPlaces<L, V, E>(s: State<L, V, E>, t: nat)
    requires OnePlace(s) && t < |s.threads| && CanStep(s, t)
    requires !Holds(s.threads[t]) && !s.threads[t].Free?
    requires s.threads[t].Attached? ==> s.status.NotStarted?
    ensures OnePlace(Stepped(s, t))
  {
    PlacesAfter(s, t, Stepped(s, t));
  }

  lemma HolderKeepsSignals<L, V, E>(s: State<L, V, E>, t: nat)
    requires OneSignal(s) && s.status.InFlight? && t < |s.threads| && CanStep(s, t) && Holds(s.threads[t])
    ensures OneSignal(Stepped(s, t))
  {
    if Stepped(s, t).status.Done? {
      CountsChange(s.threads, t, Signalling);
    } else {
      SignalsAfter(s, t, Stepped(s, t));
    }
  }

  lemma SignallerKeepsSignals<L, V, E>(s: State<L, V, E>, t: nat)
    requires OneSignal(s) && t < |s.threads| && CanStep(s, t) && s.threads[t].Signalling?
    requires s.status.Done? ==> FrameOutcome(s).Some?
    ensures OneSignal(Stepped(s, t))
  {
    CountsChange(s.threads, t, Stepped(s, t).threads[t]);
    HolderCounts(s.threads, t);
  }

  lemma OtherStepKeepsSignals<L, V, E>(s: State<L, V, E>, t: nat)
    requires OneSignal(s) && t < |s.threads| && CanStep(s, t)
    requires !Holds(s.threads[t]) && !s.threads[t].Signalling?
    requires s.threads[t].Attached? ==> s.status.NotStarted?
    ensures OneSignal(Stepped(s, t))
  {
    SignalsAfter(s, t, Stepped(s, t));
  }

  /** A step that neither ends the coroutine nor signals. */
  lemma SignalsAfter<L, V, E>(s: State<L, V, E>, t: nat, s': State<L, V, E>)
    requires OneSignal(s) && t < |s.threads| && |s'.threads| == |s.threads|
    requires s'.threads == s.threads[t := s'.threads[t]]
    requires !s.threads[t].Signalling? && !s'.threads[t].Signalling?
    requires s'.status.Done? == s.status.Done? && s'.signals == s.signals
    requires s'.attached == s.attached && s'.promise == s.promise
    ensures OneSignal(s')
  {
    CountsChange(s.threads, t, s'.threads[t]);
  }

  lemma HolderKeepsFrame<L, V, E>(s: State<L, V, E>, t: nat)
    requires Steps(s, t) && Holds(s.threads[t])
    ensures FrameOk(Stepped(s, t))
  {
    OnlyHolder(s, t);
  }

  lemma SignallerKeepsFrame<L, V, E>(s: State<L, V, E>, t: nat)
    requires Steps(s, t) && s.threads[t].Signalling?
    ensures FrameOk(Stepped(s, t))
  {
    HolderCounts(s.threads, t);
  }

  lemma OtherStepKeepsFrame<L, V, E>(s: State<L, V, E>, t: nat)
    requires Steps(s, t) && !Holds(s.threads[t]) && !s.threads[t].Signalling?
    ensures FrameOk(Stepped(s, t))
  {
    OnlyHoldersTouchTheFrame(s, t);
  }

  lemma HolderKeepsRoles<L, V, E>(s: State<L, V, E>, t: nat)
    requires Steps(s, t) && Holds(s.threads[t])
    ensures RolesOk(Stepped(s, t))
  {
    OnlyHolder(s, t);
  }

  lemma OtherStepKeepsRoles<L, V, E>(s: State<L, V, E>, t: nat)
    requires Steps(s, t) && !Holds(s.threads[t])
    ensures RolesOk(Stepped(s, t))
  {
    if t > 0 { assert WorkerPc(s.threads[t]); }
  }

  /** The holder computes on the frame's variables, because nobody else can have changed them
      since it looked. */
  lemma HolderKeepsTrack<L, V, E>(s: State<L, V, E>, t: nat)
    requires Steps(s, t) && Holds(s.threads[t])
    ensures OnTrack(Stepped(s, t))
  {
    OnlyHolder(s, t);
  }

  lemma OnlyHoldersTouchTheFrame<L, V, E>(s: State<L, V, E>, t: nat)
    requires t < |s.threads| && CanStep(s, t) && !Holds(s.threads[t])
    ensures var s' := Stepped(s, t);
            && s'.script == s.script && s'.awaited == s.awaited && s'.local == s.local
            && |s'.threads| == |s.threads| && !s'.threads[t].InBody?
            && forall k :: 0 <= k < |s.threads| && k != t ==> s'.threads[k] == s.threads[k]
  {
  }

  lemma OtherStepKeepsTrack<L, V, E>(s: State<L, V, E>, t: nat)
    requires OnTrack(s) && t < |s.threads| && CanStep(s, t) && !Holds(s.threads[t])
    ensures OnTrack(Stepped(s, t))
  {
    OnlyHoldersTouchTheFrame(s, t);
  }

  lemma ThreadStepKeepsInv<L, V, E>(s: State<L, V, E>, t: nat)
    requires Steps(s, t)
    ensures Inv(Stepped(s, t))
  {
    assert s.threads[t].Attached? ==> t == 0;
    if Holds(s.threads[t]) {
      OnlyHolder(s, t);
      HolderKeepsPlaces(s, t);
      HolderKeepsSignals(s, t);
      HolderKeepsFrame(s, t);
      HolderKeepsRoles(s, t);
      HolderKeepsTrack(s, t);
    } else if s.threads[t].Free? {
      PopKeepsPlaces(s, t);
      OtherStepKeepsSignals(s, t);
      OtherStepKeepsFrame(s, t);
      OtherStepKeepsRoles(s, t);
      OtherStepKeepsTrack(s, t);
    } else {
      OtherStepKeepsPlaces(s, t);
      OtherStepKeepsRoles(s, t);
      OtherStepKeepsTrack(s, t);
      if s.threads[t].Signalling? {
        SignallerKeepsSignals(s, t);
        SignallerKeepsFrame(s, t);
      } else {
        OtherStepKeepsSignals(s, t);
        OtherStepKeepsFrame(s, t);
      }
    }
  }

  /** While `t` holds the handle nobody else does. */
  lemma OnlyHolder<L, V, E>(s: State<L, V, E>, t: nat)
    requires Inv(s) && t < |s.threads| && Holds(s.threads[t])
    ensures s.status.InFlight? && Handles(s.queue) == 0
    ensures forall k :: 0 <= k < |s.threads| && k != t ==> !Holds(s.threads[k])
  {
    HolderCounts(s.threads, t);
    forall k | 0 <= k < |s.threads| && k != t
      ensures !Holds(s.threads[k])
    {
      if Holds(s.threads[k]) {
        TwoHoldersCount(s.threads, if t < k then t else k, if t < k then k else t);
      }
    }
  }

  lemma {:induction false} RunKeepsInv<L, V, E>(s: State<L, V, E>, actions: seq<Action>)
    requires Inv(s) && Legal(s, actions)
    ensures Inv(Exec(s, actions))
    decreases |actions|
  {
    if actions != [] {
      StepKeepsInv(s, actions[0]);
      RunKeepsInv(Next(s, actions[0]), actions[1..]);
    }
  }

  // ---------------------------------------------------------------- whole runs

  lemma Reached<L, V, E>(script: Script<L, V, E>, workers: nat, actions: seq<Action>)
    requires Legal(Initial(script, workers), actions)
    ensures Inv(Exec(Initial(script, workers), actions))
    ensures Exec(Initial(script, workers), actions).script == script
  {
    InitialInv(script, workers);
    RunKeepsInv(Initial(script, workers), actions);
    ScriptStays(Initial(script, workers), actions);
  }

  lemma {:induction false} ScriptStays<L, V, E>(s: State<L, V, E>, actions: seq<Action>)
    requires Legal(s, actions)
    ensures Exec(s, actions).script == s.script
    decreases |actions|
  {
    if actions != [] { ScriptStays(Next(s, actions[0]), actions[1..]); }
  }

  /** At every reachable state the handle is in exactly one place, and no two threads are ever
      inside the coroutine at once. */
  lemma HandleHasOnePlace<L, V, E>(script: Script<L, V, E>, workers: nat, actions: seq<Action>)
    requires Legal(Initial(script, workers), actions)
    ensures var s := Exec(Initial(script, workers), actions);
            && Bit(s.status.NotStarted?) + Bit(s.status.Done?) + Holders(s.threads) + Handles(s.queue) == 1
            && forall t, k :: 0 <= t < |s.threads| && 0 <= k < |s.threads| && t != k ==>
                 !(Holds(s.threads[t]) && Holds(s.threads[k]))
  {
    Reached(script, workers, actions);
    var s := Exec(Initial(script, workers), actions);
    forall t, k | 0 <= t < |s.threads| && 0 <= k < |s.threads| && t != k && Holds(s.threads[t])
      ensures !Holds(s.threads[k])
    {
      OnlyHolder(s, t);
    }
  }

  /** The outcome of a finished coroutine: what the synchronous run gives, or the refusal. */
  lemma FinishedAsSynchronous<L, V, E>(s: State<L, V, E>)
    requires Inv(s) && s.status.Done?
    ensures s.refused ==> Expected(s) == Some(Threw(s.script.refusal))
    ensures !s.refused ==>
              && Expected(s) == SyncRun(s.script, s.script.start, s.awaited)
              && Expected(s).Some? && SyncEnds(s.script, Expected(s).value) && SyncAwaits(s.script, s.awaited)
  {
    SyncRunPasses(s.script, s.awaited, 0);
    if !s.refused { EndsOnce(s.script, s.awaited, Expected(s).value); }
  }

  /** What get() returns is what the body run synchronously on one thread gives, with the local
      variables it would have there, whatever bound on its co_awaits that run is given; or else
      the exception of the refused submission, and then the pool had been shut down. It returns
      only after the coroutine is done, and completion was signalled at most once. */
  lemma GetReturnsTheOutcome<L, V, E>(script: Script<L, V, E>, workers: nat, actions: seq<Action>)
    requires Legal(Initial(script, workers), actions)
    requires Exec(Initial(script, workers), actions).threads[0].Got?
    ensures var s := Exec(Initial(script, workers), actions);
            && (!s.refused ==> SyncEnds(script, s.threads[0].outcome) && SyncAwaits(script, s.awaited))
            && (s.refused ==> s.threads[0].outcome == Threw(script.refusal) && s.shutdown && s.awaited > 0)
            && s.status.Done? && s.signals <= 1 && (s.signals == 1 <==> s.attached)
  {
    Reached(script, workers, actions);
    GotWasSignalled(script, workers, actions);
    var s := Exec(Initial(script, workers), actions);
    FinishedAsSynchronous(s);
  }

  ghost predicate Signalled<L, V, E>(s: State<L, V, E>) {
    |s.threads| > 0 && (s.threads[0].Got? && s.attached ==> s.signals == 1)
  }

  lemma {:induction false} SignalledStays<L, V, E>(s: State<L, V, E>, actions: seq<Action>)
    requires Inv(s) && Signalled(s) && Legal(s, actions)
    ensures Signalled(Exec(s, actions))
    decreases |actions|
  {
    if actions != [] {
      StepKeepsInv(s, actions[0]);
      SignalledStays(Next(s, actions[0]), actions[1..]);
    }
  }

  lemma GotWasSignalled<L, V, E>(script: Script<L, V, E>, workers: nat, actions: seq<Action>)
    requires Legal(Initial(script, workers), actions)
    ensures Signalled(Exec(Initial(script, workers), actions))
  {
    InitialInv(script, workers);
    SignalledStays(Initial(script, workers), actions);
  }

  // ---------------------------------------------------------------- refusal

  lemma {:induction false} ShutDownStays<L, V, E>(s: State<L, V, E>, actions: seq<Action>)
    requires s.shutdown && Legal(s, actions)
    ensures Exec(s, actions).shutdown
    decreases |actions|
  {
    if actions != [] { ShutDownStays(Next(s, actions[0]), actions[1..]); }
  }

  /** A submission that is reached after the pool was shut down is refused: the handle is not queued,
      and the coroutine ends with the refusal's exception. */
  lemma RefusedAfterShutdown<L, V, E>(script: Script<L, V, E>, workers: nat, before: seq<Action>, after: seq<Action>,
                                      t: nat)
    requires Legal(Initial(script, workers), before)
    requires var s := Exec(Initial(script, workers), before);
             && Enabled(s, ShutDown) && Legal(Next(s, ShutDown), after)
             && var s1 := Exec(Next(s, ShutDown), after); t < |s1.threads| && s1.threads[t].Suspending?
    ensures var s1 := Exec(Next(Exec(Initial(script, workers), before), ShutDown), after);
            && s1.shutdown && CanStep(s1, t)
            && var s2 := Stepped(s1, t);
               && s2.refused && s2.status.Done? && s2.queue == s1.queue
               && FrameOutcome(s2) == Some(Threw(script.refusal))
  {
    var s := Exec(Initial(script, workers), before);
    Reached(script, workers, before);
    StepKeepsInv(s, ShutDown);
    ShutDownStays(Next(s, ShutDown), after);
    RunKeepsInv(Next(s, ShutDown), after);
    ScriptStays(Next(s, ShutDown), after);
  }

  // ---------------------------------------------------------------- the end of the frame

  /** The thread is executing the coroutine, handing it on, or in its final awaiter. */
  predicate TouchesFrame<L, V, E>(pc: Pc<L, V, E>) { Holds(pc) || pc.Signalling? }

  lemma QuietFrame<L, V, E>(s: State<L, V, E>)
    requires Inv(s) && s.status.Done?
    ensures Handles(s.queue) == 0
    ensures (exists t :: 0 <= t < |s.threads| && TouchesFrame(s.threads[t])) <==> Signallers(s.threads) == 1
  {
    if Signallers(s.threads) > 0 {
      var t := SomeThread(s.threads);
      assert TouchesFrame(s.threads[t]);
    }
    forall t | 0 <= t < |s.threads| && TouchesFrame(s.threads[t])
      ensures Signallers(s.threads) == 1
    {
      HolderCounts(s.threads, t);
    }
  }

  /** When get() has returned, the handle is in no queue. If it waited for the signal, no thread
      will touch the frame any more, and its owner may destroy it. If it found the coroutine done
      without waiting, exactly one thread may still be about to read the frame: the one that
      ended the coroutine, on its way through the final awaiter. */
  lemma FrameMayBeDestroyed<L, V, E>(script: Script<L, V, E>, workers: nat, actions: seq<Action>)
    requires Legal(Initial(script, workers), actions)
    requires Exec(Initial(script, workers), actions).threads[0].Got?
    ensures var s := Exec(Initial(script, workers), actions);
            && Handles(s.queue) == 0
            && (s.attached ==> forall t :: 0 <= t < |s.threads| ==> !TouchesFrame(s.threads[t]))
            && ((exists t :: 0 <= t < |s.threads| && TouchesFrame(s.threads[t])) <==> Signallers(s.threads) == 1)
  {
    Reached(script, workers, actions);
    GotWasSignalled(script, workers, actions);
    QuietFrame(Exec(Initial(script, workers), actions));
  }

  // ---------------------------------------------------------------- progress

  /** While a call of get() is under way some thread of the system can take a step, unless the
      handle is queued and every worker is inside an unrelated task, which may itself be blocked. */
  lemma GetNeverStuck<L, V, E>(script: Script<L, V, E>, workers: nat, actions: seq<Action>)
    requires workers > 0 && Legal(Initial(script, workers), actions)
    requires var pc := Exec(Initial(script, workers), actions).threads[0]; !pc.Start? && !pc.Got?
    ensures var s := Exec(Initial(script, workers), actions);
            || (exists t :: 0 <= t <= workers && Enabled(s, Step(t)))
            || (Handles(s.queue) == 1 && forall t :: 0 < t <= workers ==> s.threads[t].Busy?)
  {
    Reached(script, workers, actions);
    var s := Exec(Initial(script, workers), actions);
    if s.threads[0].Blocked? && s.promise.None? {
      if Holders(s.threads) > 0 || Signallers(s.threads) > 0 {
        var t := SomeThread(s.threads);
        assert Enabled(s, Step(t));
      } else {
        forall t | 0 < t <= workers
          ensures Handles(s.queue) == 1 && (s.threads[t].Busy? || Enabled(s, Step(t)))
        {
          WorkerCanPop(s, t);
        }
      }
    } else {
      assert Enabled(s, Step(0));
    }
  }

  lemma {:induction false} SomeThread<L, V, E>(threads: seq<Pc<L, V, E>>) returns (t: nat)
    requires Holders(threads) > 0 || Signallers(threads) > 0
    ensures t < |threads| && (Holds(threads[t]) || threads[t].Signalling?)
    decreases |threads|
  {
    if Holds(threads[0]) || threads[0].Signalling? {
      t := 0;
    } else {
      t := SomeThread(threads[1..]);
      t := t + 1;
    }
  }

  /** The handle is queued, so a worker that is not busy can pop, or is about to. */
  lemma WorkerCanPop<L, V, E>(s: State<L, V, E>, t: nat)
    requires Inv(s) && 0 < t < |s.threads| && s.threads[0].Blocked? && s.promise.None?
    requires Holders(s.threads) == 0 && Signallers(s.threads) == 0
    ensures Handles(s.queue) == 1 && (s.threads[t].Busy? || Enabled(s, Step(t)))
  {
    assert WorkerPc(s.threads[t]);
    HolderCounts(s.threads, t);
  }

  function Weight<L, V, E>(pc: Pc<L, V, E>): nat {
    match pc
    case Start => 0
    case Attached => 7
    case Running => 6
    case InBody(_) => 5
    case Suspending => 10
    case Signalling => 3
    case Leaving => 2
    case Blocked => 1
    case Free => 0
    case Busy => 0
    case Got(_) => 0
  }

  function Weights<L, V, E>(threads: seq<Pc<L, V, E>>): nat {
    if threads == [] then 0 else Weight(threads[0]) + Weights(threads[1..])
  }

  function QueueWeight(queue: seq<Token>): nat {
    if queue == [] then 0 else (if queue[0].Handle? then 7 else 1) + QueueWeight(queue[1..])
  }

  function Measure<L, V, E>(s: State<L, V, E>): int {
    Weights(s.threads) + QueueWeight(s.queue) - 6 * s.awaited
  }

  lemma {:induction false} WeightsChange<L, V, E>(threads: seq<Pc<L, V, E>>, t: nat, pc: Pc<L, V, E>)
    requires t < |threads|
    ensures Weights(threads[t := pc]) == Weights(threads) - Weight(threads[t]) + Weight(pc)
    decreases |threads|
  {
    if t == 0 {
      assert threads[0 := pc][1..] == threads[1..];
    } else {
      WeightsChange(threads[1..], t - 1, pc);
      assert threads[t := pc][1..] == threads[1..][t - 1 := pc];
    }
  }

  lemma {:induction false} QueueWeightAppend(queue: seq<Token>, x: Token)
    ensures QueueWeight(queue + [x]) == QueueWeight(queue) + (if x.Handle? then 7 else 1)
    decreases |queue|
  {
    if queue != [] {
      QueueWeightAppend(queue[1..], x);
      assert (queue + [x])[0] == queue[0] && (queue + [x])[1..] == queue[1..] + [x];
    }
  }

  /** What a step changes in the measure, in terms of the stepping thread alone. */
  lemma MeasureAfter<L, V, E>(s: State<L, V, E>, t: nat, s': State<L, V, E>)
    requires t < |s.threads| && |s'.threads| == |s.threads|
    requires s'.threads == s.threads[t := s'.threads[t]] && s'.script == s.script
    requires Weight(s'.threads[t]) + QueueWeight(s'.queue) - 6 * s'.awaited
           < Weight(s.threads[t]) + QueueWeight(s.queue) - 6 * s.awaited
    ensures Measure(s') < Measure(s)
  {
    WeightsChange(s.threads, t, s'.threads[t]);
  }

  lemma HolderLowersMeasure<L, V, E>(s: State<L, V, E>, t: nat)
    requires t < |s.threads| && CanStep(s, t) && Holds(s.threads[t])
    ensures Measure(Stepped(s, t)) < Measure(s)
  {
    QueueWeightAppend(s.queue, Handle);
    MeasureAfter(s, t, Stepped(s, t));
  }

  lemma OtherLowersMeasure<L, V, E>(s: State<L, V, E>, t: nat)
    requires t < |s.threads| && CanStep(s, t) && !Holds(s.threads[t])
    ensures Measure(Stepped(s, t)) < Measure(s)
  {
    MeasureAfter(s, t, Stepped(s, t));
  }

  /** Every step of a thread brings the end nearer. */
  lemma StepLowersMeasure<L, V, E>(s: State<L, V, E>, t: nat)
    requires Inv(s) && t < |s.threads| && CanStep(s, t)
    ensures Measure(Stepped(s, t)) < Measure(s)
  {
    ThreadStepKeepsInv(s, t);
    if Holds(s.threads[t]) { HolderLowersMeasure(s, t); } else { OtherLowersMeasure(s, t); }
  }

  function StepCount(actions: seq<Action>): nat {
    if actions == [] then 0 else (if actions[0].Step? then 1 else 0) + StepCount(actions[1..])
  }

  function OtherCount(actions: seq<Action>): nat {
    if actions == [] then 0 else (if actions[0].SubmitOther? then 1 else 0) + OtherCount(actions[1..])
  }

  function Calls(actions: seq<Action>): nat {
    if actions == [] then 0 else (if actions[0].Get? || actions[0].Resume? then 1 else 0) + Calls(actions[1..])
  }

  /** A thread's step lowers the measure; an unrelated task raises it by one, a call by seven. */
  lemma StepMeasure<L, V, E>(s: State<L, V, E>, a: Action)
    requires Inv(s) && Enabled(s, a)
    ensures Measure(Next(s, a)) + StepCount([a]) <= Measure(s) + OtherCount([a]) + 7 * Calls([a])
  {
    var s' := Next(s, a);
    assert [a][1..] == [];
    match a {
      case Step(t) => StepLowersMeasure(s, t);
      case Get => WeightsChange(s.threads, 0, s'.threads[0]);
      case Resume => WeightsChange(s.threads, 0, s'.threads[0]);
      case SubmitOther => QueueWeightAppend(s.queue, Other);
      case OtherEnds(t) => WeightsChange(s.threads, t, Free);
      case ShutDown =>
    }
  }

  lemma {:induction false} StepsAreBounded<L, V, E>(s: State<L, V, E>, actions: seq<Action>)
    requires Inv(s) && Legal(s, actions)
    ensures StepCount(actions) + Measure(Exec(s, actions))
         <= Measure(s) + OtherCount(actions) + 7 * Calls(actions)
    decreases |actions|
  {
    if actions != [] {
      StepMeasure(s, actions[0]);
      assert [actions[0]][1..] == [];
      StepKeepsInv(s, actions[0]);
      StepsAreBounded(Next(s, actions[0]), actions[1..]);
    }
  }

  lemma {:induction false} InitialMeasure<L, V, E>(workers: nat)
    ensures Weights(seq(workers, _ => Pc<L, V, E>.Free)) == 0
  {
    if workers > 0 {
      InitialMeasure<L, V, E>(workers - 1);
      assert seq(workers, _ => Pc<L, V, E>.Free)[1..] == seq(workers - 1, _ => Pc<L, V, E>.Free);
    }
  }

  /** The whole system takes at most six steps per co_await reached, one per unrelated task, and
      seven per call on the coroutine; and it reaches no more co_awaits than the synchronous run.
      With `GetNeverStuck`: if the body ends, get() returns, unless unrelated tasks occupy all
      workers for ever. */
  lemma GetCompletes<L, V, E>(script: Script<L, V, E>, workers: nat, actions: seq<Action>, n: nat)
    requires Legal(Initial(script, workers), actions)
    requires SyncRun(script, script.start, n).Some?
    ensures Exec(Initial(script, workers), actions).awaited <= n
    ensures StepCount(actions) <= 6 * n + OtherCount(actions) + 7 * Calls(actions)
  {
    InitialInv(script, workers);
    InitialMeasure<L, V, E>(workers);
    var s0 := Initial(script, workers);
    assert s0.threads[1..] == seq(workers, _ => Pc<L, V, E>.Free);
    StepsAreBounded(s0, actions);
    Reached(script, workers, actions);
    NoneBeyondTheEnd(script, n, Exec(s0, actions).awaited);
  }
}
