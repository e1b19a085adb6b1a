/** A coroutine and its owner as an object: the members of the coroutine's promise, the awaiters'
    `await_suspend`, and `CoroTask::resume` and `CoroTask::get` with the pool running in between. */
module CoroTasks {
  import opened Outcomes
  import opened CoroProtocol
  import opened CoroTheorems
  import opened CoroSchedule

  /** Only the caller attaches a promise and waits for it. */
  lemma CallersOwn<L, V, E>(s: State<L, V, E>, t: nat)
    requires Inv(s) && t < |s.threads| && (s.threads[t].Attached? || s.threads[t].Blocked?)
    ensures t == 0
  {
    assert t > 0 ==> WorkerPc(s.threads[t]);
  }

  /** What a stretch of body does, by the way it ends. */
  lemma BodyTurns<L, V, E>(s: State<L, V, E>, t: nat)
    requires Inv(s) && t < |s.threads| && s.threads[t].InBody?
    ensures Enabled(s, Step(t)) && Inv(Next(s, Step(t)))
    ensures match s.script.body(s.threads[t].local)
            case Await(l) => Next(s, Step(t)) == SetPc(s, t, Suspending).(local := l, awaited := s.awaited + 1)
            case Return(outcome) => Next(s, Step(t)) == Ended(s, t, outcome)
    ensures s.status.InFlight? && s.result.None? && s.exception.None?
  {
    StepKeepsInv(s, Step(t));
    OnlyHolder(s, t);
  }

  /** What a submission at a co_await does, by whether the pool still accepts it. */
  lemma SubmissionTurns<L, V, E>(s: State<L, V, E>, t: nat)
    requires Inv(s) && t < |s.threads| && s.threads[t].Suspending?
    ensures Enabled(s, Step(t)) && Inv(Next(s, Step(t)))
    ensures Next(s, Step(t)) == if s.shutdown then Ended(s, t, Threw(s.script.refusal)).(refused := true)
                                else SetPc(s, t, Leaving).(queue := s.queue + [Handle])
    ensures s.status.InFlight? && s.result.None? && s.exception.None?
  {
    StepKeepsInv(s, Step(t));
    OnlyHolder(s, t);
  }

  class CoroTask<!L, V, E> {
    const script: Script<L, V, E>
    var status: Status
    var local: L
    ghost var awaited: nat
    var result: Option<V>
    var exception: Option<E>
    var attached: bool
    var promise: Option<Outcome<V, E>>
    var queue: seq<Token>
    var shutdown: bool
    var threads: seq<Pc<L, V, E>>
    ghost var refused: bool
    ghost var signals: nat

    ghost function Now(): State<L, V, E>
      reads this
    {
      State(script, status, local, awaited, result, exception, attached, promise,
            queue, shutdown, threads, refused, signals)
    }

    ghost predicate Valid()
      reads this
    {
      Inv(Now())
    }

    /** The coroutine is lazy: it is created suspended. */
    constructor (s: Script<L, V, E>, workers: nat)
      ensures Valid() && Now() == Initial(s, workers)
      ensures status.NotStarted? && local == s.start && !attached && queue == [] && !shutdown && !refused
      ensures threads == [Start] + seq(workers, _ => Free)
    {
      script, status, local, awaited, result, exception := s, NotStarted, s.start, 0, None, None;
      attached, promise, queue, shutdown := false, None, [], false;
      threads := [Start] + seq(workers, _ => Free);
      refused, signals := false, 0;
      new;
      InitialInv(s, workers);
    }

    predicate CanAct(a: Action)
      reads this
      ensures CanAct(a) == Enabled(Now(), a)
    {
      |threads| > 0 &&
      match a
      case Get => threads[0].Start? && !status.InFlight?
      case Resume => threads[0].Start? && status.NotStarted?
      case Step(t) => t < |threads| && CanMove(t)
      case SubmitOther => true
      case OtherEnds(t) => 0 < t < |threads| && threads[t].Busy?
      case ShutDown => true
    }

    predicate CanMove(t: nat)
      requires t < |threads|
      reads this
      ensures CanMove(t) == CanStep(Now(), t)
    {
      match threads[t]
      case Start => false
      case Free => t > 0 && queue != []
      case Busy => false
      case Blocked => promise.Some?
      case Got(_) => false
      case _ => true
    }

    /** `outcome` is what the body gives when it is run synchronously, on one thread and with
        co_awaits that do nothing; or the refusal, if a shut-down pool refused a submission. */
    ghost predicate IsOutcome(outcome: Outcome<V, E>)
      reads this
    {
      if refused then outcome == Threw(script.refusal) else SyncEnds(script, outcome)
    }

    /** The step `a` has just been made. */
    ghost predicate Made(s: State<L, V, E>, a: Action)
      reads this
    {
      Enabled(s, a) && Now() == Next(s, a)
    }

    // -------------------------------------------------------------- the coroutine's promise

    /** `get_result`: rethrows the exception if there is one. */
    method GetResult() returns (outcome: Outcome<V, E>)
      requires Valid() && status.Done?
      ensures IsOutcome(outcome)
    {
      FinishedAsSynchronous(Now());
      if exception.Some? { return Threw(exception.value); }
      outcome := Value(result.value);
    }

    /** The resumed coroutine finds its local variables in the frame. */
    method EnterBody(t: nat)
      requires Valid() && t < |threads| && threads[t].Running?
      modifies this`threads
      ensures Valid() && Made(old(Now()), Step(t))
      ensures threads == old(threads)[t := InBody(local)]
    {
      StepKeepsInv(Now(), Step(t));
      threads := threads[t := InBody(local)];
    }

    /** The body runs to its next co_await, or to its end and the final suspend point. */
    method RunBody(t: nat)
      requires Valid() && t < |threads| && threads[t].InBody?
      modifies this`threads, this`local, this`awaited, this`status, this`result, this`exception
      ensures Valid() && Made(old(Now()), Step(t))
      ensures match script.body(old(threads[t].local))
              case Await(l) =>
                threads == old(threads)[t := Suspending] && local == l && awaited == old(awaited) + 1 && !status.Done?
              case Return(outcome) =>
                threads == old(threads)[t := Signalling] && status.Done? && EndsWith(outcome)
    {
      BodyTurns(Now(), t);
      match script.body(threads[t].local) {
        case Await(l) =>
          local, awaited := l, awaited + 1;
          threads := threads[t := Suspending];
        case Return(outcome) =>
          End(t, outcome);
      }
    }

    /** The frame holds the outcome, and nothing else. */
    ghost predicate EndsWith(outcome: Outcome<V, E>)
      reads this
    {
      match outcome
      case Value(v) => result == Some(v) && exception == None
      case Threw(e) => exception == Some(e) && result == None
    }

    /** `return_value` or `unhandled_exception`. */
    method End(t: nat, outcome: Outcome<V, E>)
      requires t < |threads|
      modifies this`threads, this`status, this`result, this`exception
      ensures Now() == Ended(old(Now()), t, outcome) && threads == old(threads)[t := Signalling] && status.Done?
      ensures old(result).None? && old(exception).None? ==> EndsWith(outcome)
    {
      match outcome {
        case Value(v) => result := Some(v);
        case Threw(e) => exception := Some(e);
      }
      status := Status.Done;
      threads := threads[t := Signalling];
    }

    // -------------------------------------------------------------- awaiters

    /** `PoolScheduler::await_suspend`: the handle goes to the queue, unless the pool refuses it;
        then the exception ends the coroutine. */
    method AwaitSuspend(t: nat)
      requires Valid() && t < |threads| && threads[t].Suspending?
      modifies this`threads, this`status, this`result, this`exception, this`queue, this`refused
      ensures Valid() && Made(old(Now()), Step(t))
      ensures if shutdown then
                && refused && status.Done? && EndsWith(Threw(script.refusal))
                && threads == old(threads)[t := Signalling] && queue == old(queue)
              else
                && refused == old(refused) && status == old(status)
                && threads == old(threads)[t := Leaving] && queue == old(queue) + [Handle]
    {
      SubmissionTurns(Now(), t);
      if shutdown {
        refused := true;
        End(t, Threw(script.refusal));
      } else {
        queue := queue + [Handle];
        threads := threads[t := Leaving];
      }
    }

    /** The final awaiter's `await_suspend`. It never signals twice. */
    method FinalAwaitSuspend(t: nat)
      requires Valid() && t < |threads| && threads[t].Signalling?
      modifies this`threads, this`promise, this`signals
      ensures Valid() && Made(old(Now()), Step(t))
      ensures threads == old(threads)[t := Leaving]
      ensures attached ==>
                promise == if exception.Some? then Some(Threw(exception.value))
                           else if result.Some? then Some(Value(result.value)) else None
      ensures !attached ==> promise == old(promise)
      ensures attached ==> old(promise).None? && old(signals) == 0
    {
      StepKeepsInv(Now(), Step(t));
      HolderCounts(threads, t);
      if attached {
        if exception.Some? {
          promise := Some(Threw(exception.value));
        } else {
          promise := Some(Value(result.value));
        }
        signals := signals + 1;
      }
      threads := threads[t := Leaving];
    }

    // -------------------------------------------------------------- threads

    /** `handle.resume()` returns to the caller or to the worker's loop. */
    method ReturnFromResume(t: nat)
      requires Valid() && t < |threads| && threads[t].Leaving?
      modifies this`threads
      ensures Valid() && Made(old(Now()), Step(t))
      ensures threads == old(threads)[t := if t > 0 then Free else if attached then Blocked else Start]
    {
      StepKeepsInv(Now(), Step(t));
      threads := threads[t := if t > 0 then Free else if attached then Blocked else Start];
    }

    /** A worker pops a task: the handle, which it resumes, or an unrelated one. */
    method Pop(t: nat)
      requires Valid() && 0 < t < |threads| && threads[t].Free? && queue != []
      modifies this`threads, this`queue
      ensures Valid() && Made(old(Now()), Step(t))
      ensures threads == old(threads)[t := if old(queue)[0].Handle? then Running else Busy] && queue == old(queue)[1..]
    {
      StepKeepsInv(Now(), Step(t));
      threads := threads[t := if queue[0].Handle? then Running else Busy];
      queue := queue[1..];
    }

    method BeginResume()
      requires Valid() && |threads| > 0 && threads[0].Start? && status.NotStarted?
      modifies this`threads, this`status
      ensures Valid() && Made(old(Now()), Action.Resume)
      ensures threads == old(threads)[0 := Running] && status.InFlight?
    {
      StepKeepsInv(Now(), Action.Resume);
      threads, status := threads[0 := Running], InFlight;
    }

    method BeginResumeInGet()
      requires Valid() && |threads| > 0 && threads[0].Attached?
      modifies this`threads, this`status
      ensures Valid() && Made(old(Now()), Step(0)) && attached
      ensures threads == old(threads)[0 := Running] && status.InFlight?
    {
      StepKeepsInv(Now(), Step(0));
      threads, status := threads[0 := Running], InFlight;
    }

    method SetExternalPromise()
      requires Valid() && |threads| > 0 && threads[0].Start? && status.NotStarted?
      modifies this`threads, this`attached
      ensures Valid() && Made(old(Now()), Action.Get)
      ensures threads == old(threads)[0 := Attached] && attached
    {
      StepKeepsInv(Now(), Action.Get);
      threads, attached := threads[0 := Attached], true;
    }

    method GetAtOnce() returns (outcome: Outcome<V, E>)
      requires Valid() && |threads| > 0 && threads[0].Start? && status.Done?
      modifies this`threads
      ensures Valid() && Made(old(Now()), Action.Get) && threads == old(threads)[0 := Got(outcome)]
      ensures IsOutcome(outcome)
    {
      StepKeepsInv(Now(), Action.Get);
      FinishedAsSynchronous(Now());
      outcome := GetResult();
      threads := threads[0 := Got(outcome)];
    }

    method FutureGet() returns (outcome: Outcome<V, E>)
      requires Valid() && |threads| > 0 && threads[0].Blocked? && promise.Some?
      modifies this`threads
      ensures Valid() && Made(old(Now()), Step(0)) && threads == old(threads)[0 := Got(outcome)]
      ensures IsOutcome(outcome) && promise == Some(outcome)
    {
      StepKeepsInv(Now(), Step(0));
      FinishedAsSynchronous(Now());
      outcome := promise.value;
      threads := threads[0 := Got(outcome)];
    }

    method StepThread(t: nat)
      requires Valid() && CanAct(Step(t))
      modifies this
      ensures Valid() && Made(old(Now()), Step(t))
    {
      match threads[t] {
        case Attached => CallersOwn(Now(), t); BeginResumeInGet();
        case Free => Pop(t);
        case Running => EnterBody(t);
        case InBody(_) => RunBody(t);
        case Suspending => AwaitSuspend(t);
        case Signalling => FinalAwaitSuspend(t);
        case Leaving => ReturnFromResume(t);
        case Blocked => CallersOwn(Now(), t); var _ := FutureGet();
      }
    }

    /** Somebody submits an unrelated task. */
    method Submit()
      requires Valid() && |threads| > 0
      modifies this`queue
      ensures Valid() && Made(old(Now()), SubmitOther)
      ensures queue == if shutdown then old(queue) else old(queue) + [Other]
    {
      StepKeepsInv(Now(), SubmitOther);
      if !shutdown { queue := queue + [Other]; }
    }

    method EndOther(t: nat)
      requires Valid() && 0 < t < |threads| && threads[t].Busy?
      modifies this`threads
      ensures Valid() && Made(old(Now()), OtherEnds(t)) && threads == old(threads)[t := Free]
    {
      StepKeepsInv(Now(), OtherEnds(t));
      threads := threads[t := Free];
    }

    method ShutDownPool()
      requires Valid() && |threads| > 0
      modifies this`shutdown
      ensures Valid() && Made(old(Now()), ShutDown) && shutdown
    {
      StepKeepsInv(Now(), ShutDown);
      shutdown := true;
    }

    method Perform(a: Action)
      requires Valid() && CanAct(a)
      modifies this
      ensures Valid() && Made(old(Now()), a)
    {
      match a {
        case Get => if status.Done? { var _ := GetAtOnce(); } else { SetExternalPromise(); }
        case Resume => BeginResume();
        case Step(t) => StepThread(t);
        case SubmitOther => Submit();
        case OtherEnds(t) => EndOther(t);
        case ShutDown => ShutDownPool();
      }
    }

    // -------------------------------------------------------------- interference

    /** The steps of a window are taken. */
    method Interfere(others: seq<Action>)
      requires Valid()
      modifies this
      ensures Valid() && Now() == Exec(old(Now()), Played(old(Now()), others))
    {
      ghost var s := Now();
      for i := 0 to |others|
        invariant Valid() && Now() == Exec(s, Played(s, others[..i]))
      {
        var a := others[i];
        PlayedNext(s, others, i);
        if !Callers(a) && CanAct(a) {
          OneMore(s, Played(s, others[..i]), a);
          Perform(a);
        }
      }
      assert others[..|others|] == others;
    }

    /** The owner is on its schedule since `base`, with `k` windows of `env` used up. */
    ghost predicate AtAttempt(base: State<L, V, E>, env: seq<seq<Action>>, k: nat)
      reads this
    {
      k <= |env| && OnSchedule(base, env, k, Now())
    }

    /** ... and the window before its next step has been played too. */
    ghost predicate AtStep(base: State<L, V, E>, env: seq<seq<Action>>, k: nat)
      reads this
    {
      k <= |env| && WindowOver(base, env, k, Now())
    }

    /** The next window of `env` opens. */
    method Pause(env: seq<seq<Action>>, k: nat, ghost base: State<L, V, E>) returns (k': nat)
      requires Valid() && AtAttempt(base, env, k)
      modifies this
      ensures Valid() && AtStep(base, env, k') && CallerKept(old(Now()), Now())
      ensures if k < |env| then k' == k + 1 else k' == k && Now() == old(Now())
    {
      WindowPlayed(base, env, k, Now());
      k' := k;
      if k < |env| {
        Interfere(env[k]);
        k' := k + 1;
      }
    }

    // -------------------------------------------------------------- CoroTask

    method Done() returns (done: bool)
      ensures done == status.Done?
    {
      done := status.Done?;
    }

    /** The coroutine's body on the caller's thread, up to a co_await or to its end. */
    method RunToAwait(env: seq<seq<Action>>, k: nat, ghost base: State<L, V, E>) returns (k': nat)
      requires Valid() && AtAttempt(base, env, k) && |threads| > 0 && threads[0].Running?
      modifies this
      ensures Valid() && AtAttempt(base, env, k') && |threads| == old(|threads|)
      ensures attached == old(attached) && !status.NotStarted?
      ensures threads[0].Signalling? || threads[0].Suspending?
    {
      OnlyHolder(Now(), 0);
      k' := Pause(env, k, base);
      AttemptSucceeds(base, env, k', Now());
      EnterBody(0);
      k' := Pause(env, k', base);
      AttemptSucceeds(base, env, k', Now());
      RunBody(0);
    }

    /** The part of `handle.resume()` on the caller's thread that executes the coroutine: its
        body up to a co_await, and the submission there; or up to its end. */
    method RunToSuspension(env: seq<seq<Action>>, k: nat, ghost base: State<L, V, E>) returns (k': nat)
      requires Valid() && AtAttempt(base, env, k) && |threads| > 0 && threads[0].Running?
      modifies this
      ensures Valid() && AtAttempt(base, env, k') && |threads| == old(|threads|)
      ensures attached == old(attached) && !status.NotStarted?
      ensures threads[0].Signalling? || threads[0].Leaving?
    {
      k' := RunToAwait(env, k, base);
      if threads[0].Suspending? {
        k' := Pause(env, k', base);
        AttemptSucceeds(base, env, k', Now());
        AwaitSuspend(0);
      }
    }

    /** `handle.resume()` on the caller's thread. */
    method ResumeHandle(env: seq<seq<Action>>, k: nat, ghost base: State<L, V, E>) returns (k': nat)
      requires Valid() && AtAttempt(base, env, k) && |threads| > 0 && threads[0].Running?
      modifies this
      ensures Valid() && AtAttempt(base, env, k') && |threads| == old(|threads|)
      ensures attached == old(attached) && threads[0] == if attached then Blocked else Start
      ensures !status.NotStarted?
    {
      k' := RunToSuspension(env, k, base);
      if threads[0].Signalling? {
        k' := Pause(env, k', base);
        AttemptSucceeds(base, env, k', Now());
        FinalAwaitSuspend(0);
      }
      k' := Pause(env, k', base);
      AttemptSucceeds(base, env, k', Now());
      ReturnFromResume(0);
    }

    /** `resume()` by the owner of a coroutine that is fresh or done. */
    method Resume(env: seq<seq<Action>>) returns (k: nat)
      requires Valid() && |threads| > 0 && threads[0].Start? && !status.InFlight?
      modifies this
      ensures Valid() && |threads| == old(|threads|) && threads[0].Start? && !status.NotStarted?
      ensures old(status).Done? ==> Now() == old(Now())
      ensures old(status).NotStarted? ==>
                Enabled(old(Now()), Action.Resume) && OnSchedule(Next(old(Now()), Action.Resume), env, k, Now())
    {
      k := 0;
      var done := Done();
      if done { return; }
      BeginResume();
      ghost var base := Now();
      ScheduleStarts(base, env);
      k := ResumeHandle(env, 0, base);
    }

    /** The wait for the future. */
    method AwaitFuture(env: seq<seq<Action>>, from: nat, ghost base: State<L, V, E>)
      returns (outcome: Option<Outcome<V, E>>, k: nat)
      requires Valid() && AtAttempt(base, env, from) && |threads| > 0 && threads[0].Blocked?
      modifies this
      ensures Valid() && AtAttempt(base, env, k) && |threads| == old(|threads|)
      ensures outcome.Some? ==> threads[0] == Got(outcome.value) && status.Done? && IsOutcome(outcome.value)
      ensures outcome.None? ==> threads[0].Blocked? && promise.None? && k == |env|
    {
      k := from;
      while true
        invariant Valid() && AtAttempt(base, env, k) && |threads| == old(|threads|) && threads[0].Blocked?
        decreases |env| - k
      {
        var last := k == |env|;
        k := Pause(env, k, base);
        if promise.Some? {
          AttemptSucceeds(base, env, k, Now());
          var o := FutureGet();
          return Some(o), k;
        }
        AttemptFails(base, env, k, Now());
        if last { return None, k; }
      }
    }

    /** `get()`. It returns or throws what the body run synchronously would, or the exception of
        the submission that a shut-down pool refused; nothing if it is still blocked when all the
        `k` windows of `env` have been played, and then the coroutine has not signalled. */
    method Get(env: seq<seq<Action>>) returns (outcome: Option<Outcome<V, E>>, k: nat)
      requires Valid() && |threads| > 0 && threads[0].Start? && !status.InFlight?
      modifies this
      ensures Valid() && |threads| == old(|threads|) && Enabled(old(Now()), Action.Get)
      ensures old(status).Done? ==> outcome.Some? && Now() == Next(old(Now()), Action.Get)
      ensures old(status).NotStarted? ==> OnSchedule(Next(old(Now()), Action.Get), env, k, Now())
      ensures outcome.Some? ==> threads[0] == Got(outcome.value) && status.Done? && IsOutcome(outcome.value)
      ensures outcome.None? ==> threads[0].Blocked? && promise.None? && k == |env|
    {
      var done := Done();
      if done {
        var o := GetAtOnce();
        return Some(o), 0;
      }
      SetExternalPromise();
      ghost var base := Now();
      ScheduleStarts(base, env);
      k := Pause(env, 0, base);
      AttemptSucceeds(base, env, k, Now());
      BeginResumeInGet();
      k := ResumeHandle(env, k, base);
      outcome, k := AwaitFuture(env, k, base);
    }
  }
}
