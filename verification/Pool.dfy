/** The thread pool with its FIFO task queue, `.then()` continuations and shutdown, as a step
    system: one step per critical section, per future access, or per stage body. */
module Pool {
  import opened Outcomes

  /** A submitted task: a callable, which is only ever observed through its outcome, or the
      continuation task of `then`, which first gets the result of ticket `pred`. */
  datatype Task<!V, E> =
    | Root(body: Outcome<V, E>)
    | Then(pred: nat, continuation: V -> Outcome<V, E>)

  datatype Worker<V, E> =
    | Top                                               // about to test stop_requested()
    | Waiting                                           // inside wait_and_pop
    | Holding(ticket: nat, draining: bool)              // popped a task; about to get its input
    | InBody(ticket: nat, outcome: Outcome<V, E>, draining: bool)
    | DrainTop                                          // about to try_pop in the drain loop
    | Exited
  {
    predicate Holds(t: nat) { (Holding? || InBody?) && ticket == t }
  }

  /** Tickets number the accepted tasks in submission order. `accepted`, `popped`, `entered` and
      `finished` are history: what was accepted, taken from the queue, whose body was entered,
      whose future was set, in that order. */
  datatype State<!V, E> = State(
    queue: seq<nat>,
    shutdown: bool,
    stop: seq<bool>,
    workers: seq<Worker<V, E>>,
    futures: seq<Option<Outcome<V, E>>>,
    moved: set<nat>,            // tickets whose AsyncResult has given its future away
    accepted: seq<Task<V, E>>,
    popped: seq<nat>,
    entered: seq<nat>,
    finished: seq<nat>)

  datatype Action<!V, E> =
    | Submit(body: Outcome<V, E>)
    | Attach(pred: nat, continuation: V -> Outcome<V, E>)  // then() on the AsyncResult of `pred`
    | Get(ticket: nat)        // get() on the AsyncResult of `ticket`, once its future is ready
    | ShutDownQueue
    | RequestStop(worker: nat)
    | Work(worker: nat)

  predicate Shaped<V, E>(s: State<V, E>) {
    && |s.stop| == |s.workers|
    && |s.futures| == |s.accepted|
    && (forall i :: 0 <= i < |s.queue| ==> s.queue[i] < |s.accepted|)
    && (forall w :: 0 <= w < |s.workers| && (s.workers[w].Holding? || s.workers[w].InBody?) ==>
          s.workers[w].ticket < |s.accepted|)
    && (forall t :: 0 <= t < |s.accepted| && s.accepted[t].Then? ==> s.accepted[t].pred < t)
  }

  predicate Enabled<V, E>(s: State<V, E>, a: Action<V, E>)
    requires Shaped(s)
  {
    match a
    case Submit(_) => true
    case Attach(pred, _) => pred < |s.accepted| && pred !in s.moved
    case Get(t) => t < |s.accepted| && t !in s.moved && s.futures[t].Some?
    case ShutDownQueue => true
    case RequestStop(w) => w < |s.stop| && s.shutdown
    case Work(w) => w < |s.workers| && CanWork(s, w)
  }

  /** The two places where a worker blocks: waiting for a task, and getting its predecessor's
      result. */
  predicate CanWork<V, E>(s: State<V, E>, w: nat)
    requires Shaped(s) && w < |s.workers|
  {
    match s.workers[w]
    case Waiting => s.queue != [] || s.shutdown || s.stop[w]
    case Holding(t, _) => s.accepted[t].Root? || s.futures[s.accepted[t].pred].Some?
    case Exited => false
    case _ => true
  }

  function Accept<V, E>(s: State<V, E>, task: Task<V, E>): State<V, E> {
    s.(queue := s.queue + [|s.accepted|], accepted := s.accepted + [task], futures := s.futures + [None])
  }

  function SetWorker<V, E>(s: State<V, E>, w: nat, pc: Worker<V, E>): State<V, E>
    requires w < |s.workers|
  {
    s.(workers := s.workers[w := pc])
  }

  function PopFront<V, E>(s: State<V, E>, w: nat, draining: bool): State<V, E>
    requires w < |s.workers| && s.queue != []
  {
    SetWorker(s, w, Holding(s.queue[0], draining)).(queue := s.queue[1..], popped := s.popped + [s.queue[0]])
  }

  /** The packaged task of ticket `t` stores its outcome, and the worker goes round its loop. */
  function Finish<V, E>(s: State<V, E>, w: nat, t: nat, outcome: Outcome<V, E>, draining: bool): State<V, E>
    requires w < |s.workers| && t < |s.futures|
  {
    SetWorker(s, w, if draining then DrainTop else Top).(
      futures := s.futures[t := Some(outcome)], finished := s.finished + [t])
  }

  function Enter<V, E>(s: State<V, E>, w: nat, t: nat, outcome: Outcome<V, E>, draining: bool): State<V, E>
    requires w < |s.workers|
  {
    SetWorker(s, w, InBody(t, outcome, draining)).(entered := s.entered + [t])
  }

  function Worked<V, E>(s: State<V, E>, w: nat): (s': State<V, E>)
    requires Shaped(s) && w < |s.workers| && CanWork(s, w)
    ensures Shaped(s') && |s'.workers| == |s.workers|
  {
    match s.workers[w]
    case Top => SetWorker(s, w, if s.stop[w] then DrainTop else Waiting)
    case Waiting => if s.queue != [] then PopFront(s, w, false) else SetWorker(s, w, Top)
    case DrainTop => if s.queue != [] then PopFront(s, w, true) else SetWorker(s, w, Exited)
    case Holding(t, draining) =>
      (match s.accepted[t]
       case Root(body) => Enter(s, w, t, body, draining)
       case Then(pred, continuation) =>
         match s.futures[pred].value
         case Value(v) => Enter(s, w, t, continuation(v), draining)
         case Threw(e) => Finish(s, w, t, Threw(e), draining))
    case InBody(t, outcome, draining) => Finish(s, w, t, outcome, draining)
    case Exited => s
  }

  /** A rejected submission throws in the caller and leaves the pool alone; a rejected `then`
      has already moved the predecessor's future out of its AsyncResult. */
  function Next<V, E>(s: State<V, E>, a: Action<V, E>): (s': State<V, E>)
    requires Shaped(s) && Enabled(s, a)
    ensures Shaped(s') && |s'.workers| == |s.workers|
  {
    match a
    case Submit(body) => if s.shutdown then s else Accept(s, Root(body))
    case Attach(pred, continuation) =>
      var s1 := s.(moved := s.moved + {pred});
      if s.shutdown then s1 else Accept(s1, Then(pred, continuation))
    case Get(t) => s.(moved := s.moved + {t})
    case ShutDownQueue => s.(shutdown := true)
    case RequestStop(w) => s.(stop := s.stop[w := true])
    case Work(w) => Worked(s, w)
  }

  function Initial<V, E>(n: nat): (s: State<V, E>)
    ensures Shaped(s) && |s.workers| == n
  {
    State([], false, seq(n, _ => false), seq(n, _ => Top), [], {}, [], [], [], [])
  }

  predicate Legal<V, E>(s: State<V, E>, actions: seq<Action<V, E>>)
    requires Shaped(s)
    decreases |actions|
  {
    actions == [] || (Enabled(s, actions[0]) && Legal(Next(s, actions[0]), actions[1..]))
  }

  function Exec<V, E>(s: State<V, E>, actions: seq<Action<V, E>>): (s': State<V, E>)
    requires Shaped(s) && Legal(s, actions)
    ensures Shaped(s') && |s'.workers| == |s.workers|
    decreases |actions|
  {
    if actions == [] then s else Exec(Next(s, actions[0]), actions[1..])
  }

  lemma {:induction false} RunsCompose<V, E>(s: State<V, E>, a: seq<Action<V, E>>, b: seq<Action<V, E>>)
    requires Shaped(s) && Legal(s, a) && Legal(Exec(s, a), b)
    ensures Legal(s, a + b) && Exec(s, a + b) == Exec(Exec(s, a), b)
    decreases |a|
  {
    if a == [] {
      assert a + b == b;
    } else {
      assert (a + b)[0] == a[0] && (a + b)[1..] == a[1..] + b;
      RunsCompose(Next(s, a[0]), a[1..], b);
    }
  }

  // ---------------------------------------------------------------- meaning

  ghost predicate Linked<V, E>(tasks: seq<Task<V, E>>) {
    forall t :: 0 <= t < |tasks| && tasks[t].Then? ==> tasks[t].pred < t
  }

  /** What ticket `t` denotes, with no pool in sight: run the predecessor, pass its value on,
      let an exception through. */
  ghost function Meaning<V, E>(tasks: seq<Task<V, E>>, t: nat): Outcome<V, E>
    requires Linked(tasks) && t < |tasks|
    decreases t
  {
    match tasks[t]
    case Root(body) => body
    case Then(pred, continuation) =>
      match Meaning(tasks, pred)
      case Value(v) => continuation(v)
      case Threw(e) => Threw(e)
  }

  /** Whether the stage body of ticket `t` runs at all. */
  ghost predicate BodyRuns<V, E>(tasks: seq<Task<V, E>>, t: nat)
    requires Linked(tasks) && t < |tasks|
  {
    tasks[t].Root? || Meaning(tasks, tasks[t].pred).Value?
  }

  lemma {:induction false} MeaningIsStable<V, E>(tasks: seq<Task<V, E>>, more: seq<Task<V, E>>, t: nat)
    requires Linked(tasks) && Linked(tasks + more) && t < |tasks|
    ensures Meaning(tasks + more, t) == Meaning(tasks, t)
    ensures BodyRuns(tasks + more, t) == BodyRuns(tasks, t)
    decreases t
  {
    assert (tasks + more)[t] == tasks[t];
    if tasks[t].Then? { MeaningIsStable(tasks, more, tasks[t].pred); }
  }
}
