/** One lazy coroutine driven by `CoroTask::get`, handed between the calling thread, the pool's
    queue and its workers at every `co_await pool.schedule()`, as a step system. */
module CoroProtocol {
  import opened Outcomes

  /** Thread 0 is the caller that owns the CoroTask; the others are pool workers. */
  datatype Pc<+L, +V, +E> =
    | Start                        // caller: outside any call
    | Attached                     // caller, in get(): promise attached; next: resume()
    | Free                         // worker: looking at the queue
    | Busy                         // worker: inside an unrelated task, for as long as that takes
    | Running                      // inside handle.resume(), about to go on in the coroutine's body
    | InBody(local: L)             // executing the body on the local variables it found in the frame
    | Suspending                   // in PoolScheduler::await_suspend, about to submit the handle
    | Signalling                   // in the final awaiter's await_suspend
    | Leaving                      // resume() is returning
    | Blocked                      // caller, in get(): on the future
    | Got(outcome: Outcome<V, E>)  // caller: get() has returned or thrown

  datatype Token = Handle | Other

  datatype Status = NotStarted | InFlight | Done

  /** How a stretch of the coroutine's body ends: at a co_await on the pool, with the local
      variables it has by then, or with the body's end. */
  datatype Turn<+L, +V, +E> = Await(local: L) | Return(outcome: Outcome<V, E>)

  /** A coroutine: its local variables at the start, and what its body does with them up to the
      next co_await. How often it awaits may depend on them. A refused submission throws
      `refusal` out of the co_await, which the body does not catch. */
  datatype Script<!L, V, E> = Script(start: L, body: L -> Turn<L, V, E>, refusal: E)

  /** `local`, `result`, `exception` and `attached` live in the coroutine's frame; `promise` is the
      std::promise on the stack of get(). `awaited` counts the co_awaits reached; `refused` and
      `signals` are history. */
  datatype State<!L, V, E> = State(
    script: Script<L, V, E>,
    status: Status,
    local: L,
    awaited: nat,
    result: Option<V>,
    exception: Option<E>,
    attached: bool,
    promise: Option<Outcome<V, E>>,
    queue: seq<Token>,
    shutdown: bool,
    threads: seq<Pc<L, V, E>>,
    refused: bool,
    signals: nat)

  datatype Action =
    | Get                  // caller: call get()
    | Resume               // caller: call resume() on the fresh coroutine
    | Step(thread: nat)    // a thread's next step
    | SubmitOther          // somebody submits an unrelated task
    | OtherEnds(thread: nat)   // an unrelated task that a worker is running ends, if it ever does
    | ShutDown

  predicate Enabled<L, V, E>(s: State<L, V, E>, a: Action) {
    |s.threads| > 0 &&
    match a
    case Get => s.threads[0].Start? && !s.status.InFlight?
    case Resume => s.threads[0].Start? && s.status.NotStarted?
    case Step(t) => t < |s.threads| && CanStep(s, t)
    case SubmitOther => true
    case OtherEnds(t) => 0 < t < |s.threads| && s.threads[t].Busy?
    case ShutDown => true
  }

  predicate CanStep<L, V, E>(s: State<L, V, E>, t: nat)
    requires t < |s.threads|
  {
    match s.threads[t]
    case Start => false
    case Free => t > 0 && s.queue != []
    case Busy => false
    case Blocked => s.promise.Some?
    case Got(_) => false
    case _ => true
  }

  function SetPc<L, V, E>(s: State<L, V, E>, t: nat, pc: Pc<L, V, E>): State<L, V, E>
    requires t < |s.threads|
  {
    s.(threads := s.threads[t := pc])
  }

  /** return_value or unhandled_exception, then the final suspend point: done() is true. */
  function Ended<L, V, E>(s: State<L, V, E>, t: nat, outcome: Outcome<V, E>): State<L, V, E>
    requires t < |s.threads|
  {
    var s1 := SetPc(s, t, Signalling).(status := Done);
    match outcome
    case Value(v) => s1.(result := Some(v))
    case Threw(e) => s1.(exception := Some(e))
  }

  /** What get_result gives: the exception if there is one, else the value. */
  function FrameOutcome<L, V, E>(s: State<L, V, E>): Option<Outcome<V, E>> {
    if s.exception.Some? then Some(Threw(s.exception.value))
    else if s.result.Some? then Some(Value(s.result.value))
    else None
  }

  function Stepped<L, V, E>(s: State<L, V, E>, t: nat): State<L, V, E>
    requires t < |s.threads| && CanStep(s, t)
  {
    match s.threads[t]
    case Attached => SetPc(s, t, Running).(status := InFlight)
    case Free =>
      var s1 := s.(queue := s.queue[1..]);
      SetPc(s1, t, if s.queue[0].Handle? then Running else Busy)
    case Running =>
      SetPc(s, t, InBody(s.local))
    case InBody(local) =>
      (match s.script.body(local)
       case Await(l) => SetPc(s, t, Suspending).(local := l, awaited := s.awaited + 1)
       case Return(outcome) => Ended(s, t, outcome))
    case Suspending =>
      if s.shutdown then Ended(s, t, Threw(s.script.refusal)).(refused := true)
      else SetPc(s, t, Leaving).(queue := s.queue + [Handle])
    case Signalling =>
      if s.attached then SetPc(s, t, Leaving).(promise := FrameOutcome(s), signals := s.signals + 1)
      else SetPc(s, t, Leaving)
    case Leaving => SetPc(s, t, if t > 0 then Free else if s.attached then Blocked else Start)
    case Blocked => SetPc(s, t, Got(s.promise.value))
    case _ => s
  }

  /** get(): the result at once if the coroutine is done, else attach a promise. */
  function Next<L, V, E>(s: State<L, V, E>, a: Action): (s': State<L, V, E>)
    requires Enabled(s, a)
    ensures |s'.threads| == |s.threads|
  {
    match a
    case Get =>
      if s.status.Done? then
        (if FrameOutcome(s).Some? then SetPc(s, 0, Got(FrameOutcome(s).value)) else s)
      else SetPc(s, 0, Attached).(attached := true)
    case Resume => SetPc(s, 0, Running).(status := InFlight)
    case Step(t) => Stepped(s, t)
    case SubmitOther => if s.shutdown then s else s.(queue := s.queue + [Other])
    case OtherEnds(t) => SetPc(s, t, Free)
    case ShutDown => s.(shutdown := true)
  }

  function Initial<L, V, E>(script: Script<L, V, E>, workers: nat): State<L, V, E> {
    State(script, NotStarted, script.start, 0, None, None, false, None, [], false,
          [Start] + seq(workers, _ => Free), false, 0)
  }

  // ---------------------------------------------------------------- the synchronous reference

  /** The body run on one thread from `local` on, with at most `awaits` co_awaits, each of which
      does nothing: no pool, no queue, no handle. */
  function SyncRun<L, V, E>(script: Script<L, V, E>, local: L, awaits: nat): Option<Outcome<V, E>> {
    match script.body(local)
    case Return(outcome) => Some(outcome)
    case Await(l) => if awaits == 0 then None else SyncRun(script, l, awaits - 1)
  }

  /** More co_awaits allowed do not change the outcome. */
  lemma {:induction false} SyncRunIsStable<L, V, E>(script: Script<L, V, E>, local: L, awaits: nat, more: nat)
    requires awaits <= more && SyncRun(script, local, awaits).Some?
    ensures SyncRun(script, local, more) == SyncRun(script, local, awaits)
    decreases awaits
  {
    if script.body(local).Await? {
      SyncRunIsStable(script, script.body(local).local, awaits - 1, more - 1);
    }
  }

  /** The synchronous run ends, and with `outcome`: it does so within some number of co_awaits,
      and whenever it ends within a number of them, that is the outcome. */
  ghost predicate SyncEnds<L, V, E>(script: Script<L, V, E>, outcome: Outcome<V, E>) {
    && (exists n :: SyncRun(script, script.start, n) == Some(outcome))
    && (forall n :: SyncRun(script, script.start, n).Some? ==> SyncRun(script, script.start, n) == Some(outcome))
  }

  /** The synchronous run makes exactly `n` co_awaits. */
  ghost predicate SyncAwaits<L, V, E>(script: Script<L, V, E>, n: nat) {
    forall k :: SyncRun(script, script.start, k).Some? <==> n <= k
  }

  lemma EndsOnce<L, V, E>(script: Script<L, V, E>, n: nat, outcome: Outcome<V, E>)
    requires SyncRun(script, script.start, n) == Some(outcome) && LocalAfter(script, n).Some?
    ensures SyncEnds(script, outcome) && SyncAwaits(script, n)
  {
    forall k: nat | SyncRun(script, script.start, k).Some?
      ensures SyncRun(script, script.start, k) == Some(outcome) && n <= k
    {
      NoneBeyondTheEnd(script, k, n);
      SyncRunIsStable(script, script.start, n, k);
    }
    forall k: nat | n <= k
      ensures SyncRun(script, script.start, k).Some?
    {
      SyncRunIsStable(script, script.start, n, k);
    }
  }

  /** The local variables of the synchronous run at its `n`-th co_await, if it gets there. */
  function LocalAfter<L, V, E>(script: Script<L, V, E>, n: nat): Option<L> {
    if n == 0 then Some(script.start)
    else match LocalAfter(script, n - 1)
         case None => None
         case Some(l) =>
           match script.body(l)
           case Await(l') => Some(l')
           case Return(_) => None
  }

  lemma {:induction false} SyncRunPasses<L, V, E>(script: Script<L, V, E>, n: nat, awaits: nat)
    requires LocalAfter(script, n).Some?
    ensures SyncRun(script, script.start, n + awaits) == SyncRun(script, LocalAfter(script, n).value, awaits)
    decreases n
  {
    if n > 0 { SyncRunPasses(script, n - 1, awaits + 1); }
  }

  /** A run that ends within `n` co_awaits does not get beyond the `n`-th. */
  lemma {:induction false} NoneBeyondTheEnd<L, V, E>(script: Script<L, V, E>, n: nat, k: nat)
    requires SyncRun(script, script.start, n).Some? && LocalAfter(script, k).Some?
    ensures k <= n
  {
    if k > n {
      NoLocalLost(script, n + 1, k);
      SyncRunPasses(script, n, 0);
    }
  }

  lemma {:induction false} NoLocalLost<L, V, E>(script: Script<L, V, E>, n: nat, k: nat)
    requires n <= k && LocalAfter(script, k).Some?
    ensures LocalAfter(script, n).Some?
    decreases k
  {
    if n < k { NoLocalLost(script, n, k - 1); }
  }

  predicate Legal<L, V, E>(s: State<L, V, E>, actions: seq<Action>)
    decreases |actions|
  {
    actions == [] || (Enabled(s, actions[0]) && Legal(Next(s, actions[0]), actions[1..]))
  }

  function Exec<L, V, E>(s: State<L, V, E>, actions: seq<Action>): (s': State<L, V, E>)
    requires Legal(s, actions)
    ensures |s'.threads| == |s.threads|
    decreases |actions|
  {
    if actions == [] then s else Exec(Next(s, actions[0]), actions[1..])
  }

  lemma {:induction false} RunsCompose<L, V, E>(s: State<L, V, E>, a: seq<Action>, b: seq<Action>)
    requires Legal(s, a) && Legal(Exec(s, a), b)
    ensures Legal(s, a + b) && Exec(s, a + b) == Exec(Exec(s, a), b)
    decreases |a|
  {
    if a == [] {
      assert a + b == b;
    } else {
      assert (a + b)[0] == a[0];
      assert (a + b)[1..] == a[1..] + b;
      RunsCompose(Next(s, a[0]), a[1..], b);
    }
  }

  lemma OneMore<L, V, E>(s: State<L, V, E>, log: seq<Action>, a: Action)
    requires Legal(s, log) && Enabled(Exec(s, log), a)
    ensures Legal(s, log + [a]) && Exec(s, log + [a]) == Next(Exec(s, log), a)
  {
    RunsCompose(s, log, [a]);
  }
}
