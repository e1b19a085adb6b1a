/** `ThreadPool` and `AsyncResult` as objects: submission, `then`, shutdown, and the two loops of
    `worker_loop`, with the other threads of the system running in between. */
module ThreadPools {
  import opened Outcomes
  import opened Pool
  import opened PoolInvariant
  import opened PoolTheorems
  import opened PoolSchedule
  import opened TaskQueues

  /** How a call of the worker loop ends for want of further outside events: it has returned; or
      it is blocked; or it idles between the queue's shutdown and its own stop request. */
  datatype LoopEnd = Returned | Blocked | Idling

  /** The first `n` workers have been asked to stop. */
  predicate Stopped(stop: seq<bool>, n: nat) {
    n <= |stop| && forall w :: 0 <= w < n ==> stop[w]
  }

  lemma StopsStay<V, E>(s: State<V, E>, actions: seq<Action<V, E>>, n: nat)
    requires Inv(s) && s.shutdown && Legal(s, actions) && Stopped(s.stop, n)
    ensures var s' := Exec(s, actions); s'.shutdown && Stopped(s'.stop, n) && |s'.stop| == |s.stop|
  {
    NothingAcceptedAfterShutdown(s, actions);
  }

  /** One more stop request, after its window. */
  lemma StopAfter<V, E>(base: State<V, E>, env: seq<seq<Action<V, E>>>, w: nat)
    requires Shaped(base) && w < |base.workers|
    requires var s := Stopping(base, env, w); Inv(s) && s.shutdown && Stopped(s.stop, w)
    ensures var s := Stopping(base, env, w);
            var s1 := if w < |env| then Exec(s, Played(s, |s.workers|, env[w])) else s;
            && s1.shutdown && w < |s1.stop| && Stopped(s1.stop[w := true], w + 1)
            && Stopping(base, env, w + 1) == Next(s1, Pool.RequestStop(w))
  {
    var s := Stopping(base, env, w);
    StillStopped(s, if w < |env| then Played(s, |s.workers|, env[w]) else [], w);
    StoppingNext(base, env, w);
  }

  lemma StillStopped<V, E>(s: State<V, E>, actions: seq<Action<V, E>>, w: nat)
    requires Inv(s) && s.shutdown && Legal(s, actions) && w < |s.workers| && Stopped(s.stop, w)
    ensures var s1 := Exec(s, actions);
            s1.shutdown && w < |s1.stop| && Stopped(s1.stop[w := true], w + 1) && Enabled(s1, Pool.RequestStop(w))
  {
    StopsStay(s, actions, w);
  }

  lemma WorkNextMeasure<V, E>(s: State<V, E>, w: nat)
    requires Inv(s) && w < |s.workers| && CanWork(s, w)
    ensures Measure(Next(s, Work(w))) <= Measure(s) + (if Spins(s, w) then 1 else -1)
  {
    WorkMeasure(s, w);
  }

  /** A step of worker `w`, and what that step does to the measure. */
  lemma WorkNext<V, E>(base: State<V, E>, w: nat, env: seq<seq<Action<V, E>>>, k: nat, s: State<V, E>)
    requires Inv(s) && WindowOver(base, w, env, k, s) && w < |s.workers| && CanWork(s, w)
    ensures Shaped(Next(s, Work(w))) && OnSchedule(base, w, env, k, Next(s, Work(w)))
    ensures Measure(Next(s, Work(w))) <= Measure(s) + (if Spins(s, w) then 1 else -1)
  {
    AttemptSucceeds(base, w, env, k, s);
    WorkNextMeasure(s, w);
  }

  /** What a worker makes of its task's input. */
  lemma InputComes<V, E>(s: State<V, E>, w: nat)
    requires Inv(s) && w < |s.workers| && s.workers[w].Holding? && CanWork(s, w)
    ensures Inv(Next(s, Work(w))) && s.workers[w].ticket < |s.accepted|
    ensures var t, draining := s.workers[w].ticket, s.workers[w].draining;
            match s.accepted[t]
            case Root(body) => Next(s, Work(w)) == Enter(s, w, t, body, draining)
            case Then(pred, continuation) =>
              match s.futures[pred].value
              case Value(v) => Next(s, Work(w)) == Enter(s, w, t, continuation(v), draining)
              case Threw(e) => Next(s, Work(w)) == Finish(s, w, t, Threw(e), draining)
  {
    StepKeepsInv(s, Work(w));
  }

  /** The packaged task sets its future. */
  lemma BodyEnds<V, E>(s: State<V, E>, w: nat)
    requires Inv(s) && w < |s.workers| && s.workers[w].InBody?
    ensures var pc := s.workers[w];
            && Enabled(s, Work(w)) && Next(s, Work(w)) == Finish(s, w, pc.ticket, pc.outcome, pc.draining)
            && Inv(Finish(s, w, pc.ticket, pc.outcome, pc.draining))
  {
    StepKeepsInv(s, Work(w));
  }

  class ThreadPool<!V, E> {
    const queue: TaskQueue<nat>
    var stop: seq<bool>
    var workers: seq<Worker<V, E>>
    var accepted: seq<Task<V, E>>
    var futures: seq<Option<Outcome<V, E>>>
    var moved: set<nat>
    ghost var popped: seq<nat>
    ghost var entered: seq<nat>
    ghost var finished: seq<nat>

    ghost function Now(): State<V, E>
      reads this, queue
    {
      State(queue.tasks, queue.shutdown, stop, workers, futures, moved, accepted, popped, entered, finished)
    }

    ghost predicate Valid()
      reads this, queue
    {
      Inv(Now())
    }

    /** `hardware` is what hardware_concurrency() answers; it may be 0. */
    constructor (threads: nat, hardware: nat)
      ensures Valid() && fresh(queue)
      ensures |workers| == if threads > 0 then threads else if hardware > 1 then hardware else 1
      ensures Now() == Initial(|workers|)
      ensures queue.tasks == [] && !queue.shutdown && accepted == [] && moved == {}
      ensures forall w :: 0 <= w < |workers| ==> workers[w].Top? && w < |stop| && !stop[w]
    {
      var n := if threads > 0 then threads else if hardware > 1 then hardware else 1;
      queue := new TaskQueue<nat>();
      stop, workers := seq(n, _ => false), seq(n, _ => Top);
      accepted, futures := [], [];
      moved, popped, entered, finished := {}, [], [], [];
      new;
      InitialInv<V, E>(n);
    }

    // -------------------------------------------------------------- submitting

    /** Returns the ticket of the accepted task, or nothing where the source throws. */
    method Submit(body: Outcome<V, E>) returns (ticket: Option<nat>)
      requires Valid()
      modifies this`accepted, this`futures, queue
      ensures Valid() && Now() == Next(old(Now()), Pool.Submit(body))
      ensures ticket == if old(queue.shutdown) then None else Some(old(|accepted|))
      ensures ticket.None? ==> Now() == old(Now())
      ensures ticket.Some? ==>
                && queue.tasks == old(queue.tasks) + [ticket.value]
                && accepted == old(accepted) + [Root(body)] && futures == old(futures) + [None]
    {
      StepKeepsInv(Now(), Pool.Submit(body));
      var t := |accepted|;
      var enqueued := queue.Push(t);
      if !enqueued { return None; }
      accepted, futures := accepted + [Root(body)], futures + [None];
      ticket := Some(t);
    }

    /** The submission that `then` makes, after it moved the future of `pred`. */
    method Attach(pred: nat, continuation: V -> Outcome<V, E>) returns (ticket: Option<nat>)
      requires Valid() && pred < |accepted| && pred !in moved
      modifies this`accepted, this`futures, this`moved, queue
      ensures Valid() && Now() == Next(old(Now()), Pool.Attach(pred, continuation))
      ensures ticket == if old(queue.shutdown) then None else Some(old(|accepted|))
      ensures moved == old(moved) + {pred}
      ensures ticket.None? ==> queue.tasks == old(queue.tasks) && accepted == old(accepted) && futures == old(futures)
      ensures ticket.Some? ==>
                && queue.tasks == old(queue.tasks) + [ticket.value]
                && accepted == old(accepted) + [Task.Then(pred, continuation)] && futures == old(futures) + [None]
    {
      StepKeepsInv(Now(), Pool.Attach(pred, continuation));
      moved := moved + {pred};
      var t := |accepted|;
      var enqueued := queue.Push(t);
      if !enqueued { return None; }
      accepted, futures := accepted + [Then(pred, continuation)], futures + [None];
      ticket := Some(t);
    }

    /** `future_.get()` on a future that is ready. */
    method GetFuture(t: nat) returns (outcome: Outcome<V, E>)
      requires Valid() && t < |accepted| && t !in moved && futures[t].Some?
      modifies this`moved
      ensures Valid() && Now() == Next(old(Now()), Pool.Get(t))
      ensures Linked(accepted) && outcome == Meaning(accepted, t) && moved == old(moved) + {t}
    {
      StepKeepsInv(Now(), Pool.Get(t));
      outcome := futures[t].value;
      moved := moved + {t};
    }

    method ShutDownQueue()
      requires Valid()
      modifies queue
      ensures Valid() && Now() == Next(old(Now()), Pool.ShutDownQueue)
      ensures queue.shutdown && queue.tasks == old(queue.tasks)
      ensures forall w :: 0 <= w < |workers| && workers[w].Waiting? ==> CanStep(w)
    {
      StepKeepsInv(Now(), Pool.ShutDownQueue);
      queue.Shutdown();
    }

    method RequestStop(w: nat)
      requires Valid() && w < |stop| && queue.shutdown
      modifies this`stop
      ensures Valid() && Now() == Next(old(Now()), Pool.RequestStop(w))
      ensures stop == old(stop)[w := true]
    {
      StepKeepsInv(Now(), Pool.RequestStop(w));
      stop := stop[w := true];
    }

    // -------------------------------------------------------------- worker steps

    /** A step of worker `w` has just been made. */
    ghost predicate Stepped(s: State<V, E>, w: nat)
      reads this, queue
    {
      Shaped(s) && Enabled(s, Work(w)) && Now() == Next(s, Work(w))
    }

    /** `stoken.stop_requested()` at the head of the main loop. */
    method TestStop(w: nat) returns (requested: bool)
      requires Valid() && w < |workers| && workers[w].Top?
      modifies this`workers
      ensures Valid() && Stepped(old(Now()), w)
      ensures requested == stop[w] && workers == old(workers)[w := if requested then DrainTop else Waiting]
    {
      StepKeepsInv(Now(), Work(w));
      requested := stop[w];
      workers := workers[w := if requested then DrainTop else Waiting];
    }

    method WaitAndPop(w: nat) returns (task: Option<nat>)
      requires Valid() && w < |workers| && workers[w].Waiting?
      requires queue.tasks != [] || queue.shutdown || stop[w]
      modifies this`workers, this`popped, queue
      ensures Valid() && Stepped(old(Now()), w)
      ensures task == if old(queue.tasks) == [] then None else Some(old(queue.tasks)[0])
      ensures queue.tasks == if old(queue.tasks) == [] then [] else old(queue.tasks)[1..]
      ensures workers == old(workers)[w := if task.Some? then Holding(task.value, false) else Top]
    {
      StepKeepsInv(Now(), Work(w));
      task := queue.WaitAndPop(stop[w]);
      if task.Some? {
        popped := popped + [task.value];
        workers := workers[w := Holding(task.value, false)];
      } else {
        workers := workers[w := Top];
      }
    }

    method TryPop(w: nat) returns (task: Option<nat>)
      requires Valid() && w < |workers| && workers[w].DrainTop?
      modifies this`workers, this`popped, queue
      ensures Valid() && Stepped(old(Now()), w)
      ensures task == if old(queue.tasks) == [] then None else Some(old(queue.tasks)[0])
      ensures queue.tasks == if old(queue.tasks) == [] then [] else old(queue.tasks)[1..]
      ensures workers == old(workers)[w := if task.Some? then Holding(task.value, true) else Exited]
    {
      StepKeepsInv(Now(), Work(w));
      task := queue.TryPop();
      if task.Some? {
        popped := popped + [task.value];
        workers := workers[w := Holding(task.value, true)];
      } else {
        workers := workers[w := Exited];
      }
    }

    /** The body of ticket `t` comes to `o`: a root task's own outcome, or the continuation's on the
        value of its predecessor. */
    ghost predicate IsInput(t: nat, o: Outcome<V, E>)
      reads this
    {
      t < |accepted| &&
      match accepted[t]
      case Root(body) => o == body
      case Then(pred, continuation) =>
        && pred < |futures| && futures[pred].Some? && futures[pred].value.Value?
        && o == continuation(futures[pred].value.value)
    }

    /** Ticket `t` is a root task, or its predecessor's future is ready. */
    predicate InputReady(t: nat)
      reads this
    {
      t < |accepted| && (accepted[t].Root? || (accepted[t].pred < |futures| && futures[accepted[t].pred].Some?))
    }

    /** Ticket `t` is a continuation whose predecessor threw. */
    ghost predicate PassesException(t: nat)
      reads this
    {
      && t < |accepted| && accepted[t].Then? && accepted[t].pred < |futures|
      && futures[accepted[t].pred].Some? && futures[accepted[t].pred].value.Threw?
    }

    /** `shared->get()` in a continuation task, which rethrows the predecessor's exception; a
        root task has nothing to get. */
    method GetInput(w: nat) returns (enters: bool)
      requires Valid() && w < |workers| && workers[w].Holding?
      requires InputReady(workers[w].ticket)
      modifies this`workers, this`futures, this`entered, this`finished
      ensures Valid() && Stepped(old(Now()), w)
      ensures var pc := old(workers[w]);
              if enters then workers[w].InBody? && workers[w].draining == pc.draining
              else workers[w] == if pc.draining then DrainTop else Top
      ensures enters ==>
                && futures == old(futures) && entered == old(entered) + [workers[w].ticket]
                && workers == old(workers)[w := workers[w]] && workers[w].ticket == old(workers[w].ticket)
                && IsInput(old(workers[w].ticket), workers[w].outcome)
      ensures !enters ==> old(PassesException(workers[w].ticket)) && old(workers[w].ticket) < |old(futures)|
      ensures !enters ==>
                futures == old(futures)[old(workers[w].ticket) := old(futures[accepted[workers[w].ticket].pred])]
    {
      InputComes(Now(), w);
      match accepted[workers[w].ticket] {
        case Root(body) =>
          EnterBody(w, body);
          enters := true;
        case Then(pred, continuation) =>
          match futures[pred].value {
            case Value(v) =>
              EnterBody(w, continuation(v));
              enters := true;
            case Threw(e) =>
              PassOn(w, e);
              enters := false;
          }
      }
    }

    method EnterBody(w: nat, o: Outcome<V, E>)
      requires Valid() && w < |workers| && workers[w].Holding? && CanWork(Now(), w)
      requires var s, pc := Now(), workers[w];
               Next(s, Work(w)) == Enter(s, w, pc.ticket, o, pc.draining) && Inv(Next(s, Work(w)))
      modifies this`workers, this`entered
      ensures Valid() && Stepped(old(Now()), w) && entered == old(entered) + [old(workers[w].ticket)]
      ensures workers == old(workers)[w := InBody(old(workers[w].ticket), o, old(workers[w].draining))]
    {
      var pc := workers[w];
      ghost var s' := Next(Now(), Work(w));
      workers, entered := workers[w := InBody(pc.ticket, o, pc.draining)], entered + [pc.ticket];
      assert Now() == s';
    }

    /** The predecessor's exception leaves the task's callable and goes to its future. */
    method PassOn(w: nat, e: E)
      requires Valid() && w < |workers| && workers[w].Holding? && CanWork(Now(), w) && workers[w].ticket < |futures|
      requires var s, pc := Now(), workers[w];
               Next(s, Work(w)) == Finish(s, w, pc.ticket, Threw(e), pc.draining) && Inv(Next(s, Work(w)))
      modifies this`workers, this`futures, this`finished
      ensures Valid() && Stepped(old(Now()), w)
      ensures futures == old(futures)[old(workers[w].ticket) := Some(Threw(e))]
      ensures workers == old(workers)[w := if old(workers[w].draining) then DrainTop else Top]
    {
      var pc := workers[w];
      futures, finished := futures[pc.ticket := Some(Threw(e))], finished + [pc.ticket];
      workers := workers[w := if pc.draining then DrainTop else Top];
    }

    /** The stage body ends and the packaged task sets its future. */
    method EndBody(w: nat)
      requires Valid() && w < |workers| && workers[w].InBody?
      modifies this`workers, this`futures, this`finished
      ensures Valid() && Stepped(old(Now()), w)
      ensures workers == old(workers)[w := if old(workers[w].draining) then DrainTop else Top]
      ensures old(workers[w].ticket) < |old(futures)|
      ensures futures == old(futures)[old(workers[w].ticket) := Some(old(workers[w].outcome))]
    {
      BodyEnds(Now(), w);
      var pc := workers[w];
      futures, finished := futures[pc.ticket := Some(pc.outcome)], finished + [pc.ticket];
      workers := workers[w := if pc.draining then DrainTop else Top];
    }

    // -------------------------------------------------------------- interference

    predicate CanStep(w: nat)
      requires Shaped(Now()) && w < |workers|
      reads this, queue
      ensures CanStep(w) == CanWork(Now(), w)
    {
      match workers[w]
      case Waiting => queue.Awake(stop[w])
      case Holding(t, _) => accepted[t].Root? || futures[accepted[t].pred].Some?
      case Exited => false
      case _ => true
    }

    predicate CanAct(a: Action<V, E>)
      requires Shaped(Now())
      reads this, queue
      ensures CanAct(a) == Enabled(Now(), a)
    {
      match a
      case Submit(_) => true
      case Attach(pred, _) => pred < |accepted| && pred !in moved
      case Get(t) => t < |accepted| && t !in moved && futures[t].Some?
      case ShutDownQueue => true
      case RequestStop(w) => w < |stop| && queue.shutdown
      case Work(w) => w < |workers| && CanStep(w)
    }

    method WorkerStep(w: nat)
      requires Valid() && w < |workers| && CanStep(w)
      modifies this, queue
      ensures Valid() && Stepped(old(Now()), w)
    {
      match workers[w] {
        case Top => var _ := TestStop(w);
        case Waiting => var _ := WaitAndPop(w);
        case DrainTop => var _ := TryPop(w);
        case Holding(_, _) => var _ := GetInput(w);
        case InBody(_, _, _) => EndBody(w);
      }
    }

    method Perform(a: Action<V, E>)
      requires Valid() && CanAct(a)
      modifies this, queue
      ensures Valid() && Shaped(old(Now())) && Enabled(old(Now()), a) && Now() == Next(old(Now()), a)
    {
      match a {
        case Submit(body) => var _ := Submit(body);
        case Attach(pred, continuation) => var _ := Attach(pred, continuation);
        case Get(t) => var _ := GetFuture(t);
        case ShutDownQueue => ShutDownQueue();
        case RequestStop(w) => RequestStop(w);
        case Work(w) => WorkerStep(w);
      }
    }

    /** Submitters, other workers and whoever shuts the pool down take the steps `others`, as far
        as each is possible when its turn comes. Worker `w`, if there is one, stays where it is. */
    method Interfere(w: nat, others: seq<Action<V, E>>)
      requires Valid()
      modifies this, queue
      ensures Valid() && Shaped(old(Now())) && Now() == Exec(old(Now()), Played(old(Now()), w, others))
    {
      ghost var s := Now();
      for i := 0 to |others|
        invariant Valid() && Shaped(s) && Now() == Exec(s, Played(s, w, others[..i]))
      {
        var a := others[i];
        PlayedNext(s, w, others, i);
        if !(a.Work? && a.worker == w) && CanAct(a) {
          OneMore(s, Played(s, w, others[..i]), a);
          Perform(a);
        }
      }
      assert others[..|others|] == others;
    }

    /** Worker `w` is on its schedule since `base`, with `k` windows of `env` used up. */
    ghost predicate AtAttempt(base: State<V, E>, w: nat, env: seq<seq<Action<V, E>>>, k: nat)
      reads this, queue
    {
      k <= |env| && OnSchedule(base, w, env, k, Now())
    }

    /** ... and the window before its next step has been played too. */
    ghost predicate AtStep(base: State<V, E>, w: nat, env: seq<seq<Action<V, E>>>, k: nat)
      reads this, queue
    {
      k <= |env| && WindowOver(base, w, env, k, Now())
    }

    /** The next window of `env` opens. */
    method Pause(w: nat, env: seq<seq<Action<V, E>>>, k: nat, ghost base: State<V, E>)
      returns (k': nat)
      requires Valid() && w < |workers| && AtAttempt(base, w, env, k)
      modifies this, queue
      ensures Valid() && w < |workers| && workers[w] == old(workers[w]) && AtStep(base, w, env, k')
      ensures if k < |env| then k' == k + 1 else k' == k && Now() == old(Now())
    {
      WindowPlayed(base, w, env, k, Now());
      k' := k;
      if k < |env| {
        Interfere(w, env[k]);
        k' := k + 1;
      }
    }

    /** Worker `w` waits until its next step is possible: the next window of `env` opens, and more
        of them for as long as `w` is blocked. It gives up only when `env` has no more windows. */
    method Await(w: nat, env: seq<seq<Action<V, E>>>, k: nat, ghost base: State<V, E>)
      returns (ready: bool, k': nat)
      requires Valid() && w < |workers| && AtAttempt(base, w, env, k)
      modifies this, queue
      ensures Valid() && w < |workers| && workers[w] == old(workers[w])
      ensures ready ==> CanStep(w) && AtStep(base, w, env, k')
      ensures !ready ==> !CanStep(w) && AtAttempt(base, w, env, k') && k' == |env|
      ensures k <= k' <= |env| && (k < |env| ==> k < k')
      ensures k == |env| ==> Now() == old(Now())
    {
      k' := Pause(w, env, k, base);
      ready := CanStep(w);
      while !ready && k' < |env|
        invariant Valid() && w < |workers| && workers[w] == old(workers[w]) && AtStep(base, w, env, k')
        invariant k <= k' <= |env| && (k < |env| ==> k < k') && ready == CanStep(w)
        invariant k == |env| ==> Now() == old(Now())
        decreases |env| - k'
      {
        AttemptFails(base, w, env, k', Now());
        k' := Pause(w, env, k', base);
        ready := CanStep(w);
      }
      if !ready { AttemptFails(base, w, env, k', Now()); }
    }

    /** `(*task)()`: get the input, run the body, set the future. `done` is false if the task is
        still waiting for its predecessor when `env` ends. */
    method RunTask(w: nat, env: seq<seq<Action<V, E>>>, k: nat, ghost base: State<V, E>)
      returns (done: bool, k': nat)
      requires Valid() && w < |workers| && workers[w].Holding? && AtAttempt(base, w, env, k)
      modifies this, queue
      ensures Valid() && w < |workers| && AtAttempt(base, w, env, k') && k <= k' <= |env|
      ensures done ==> workers[w] == if old(workers[w].draining) then DrainTop else Top
      ensures !done ==> workers[w] == old(workers[w]) && !CanStep(w) && k' == |env|
      ensures done && k == |env| ==> Measure(Now()) < Measure(old(Now()))
    {
      var enters;
      done, enters, k' := NextInput(w, env, k, base);
      if done && enters { k' := NextEnd(w, env, k', base); }
    }

    /** The first half: the worker waits for its input and gets it. */
    method NextInput(w: nat, env: seq<seq<Action<V, E>>>, k: nat, ghost base: State<V, E>)
      returns (got: bool, enters: bool, k': nat)
      requires Valid() && w < |workers| && workers[w].Holding? && AtAttempt(base, w, env, k)
      modifies this, queue
      ensures Valid() && w < |workers| && AtAttempt(base, w, env, k') && k <= k' <= |env|
      ensures got && enters ==> workers[w].InBody? && workers[w].draining == old(workers[w].draining)
      ensures got && !enters ==> workers[w] == if old(workers[w].draining) then DrainTop else Top
      ensures !got ==> workers[w] == old(workers[w]) && !CanStep(w) && k' == |env|
      ensures got && k == |env| ==> Measure(Now()) < Measure(old(Now()))
    {
      enters := false;
      got, k' := Await(w, env, k, base);
      if !got { return; }
      WorkNext(base, w, env, k', Now());
      enters := GetInput(w);
    }

    /** The second half: the body runs to its end. */
    method NextEnd(w: nat, env: seq<seq<Action<V, E>>>, k: nat, ghost base: State<V, E>)
      returns (k': nat)
      requires Valid() && w < |workers| && workers[w].InBody? && AtAttempt(base, w, env, k)
      modifies this, queue
      ensures Valid() && w < |workers| && AtAttempt(base, w, env, k') && k <= k' <= |env|
      ensures workers[w] == if old(workers[w].draining) then DrainTop else Top
      ensures k == |env| ==> Measure(Now()) < Measure(old(Now()))
    {
      var ready;
      ready, k' := Await(w, env, k, base);
      WorkNext(base, w, env, k', Now());
      EndBody(w);
    }

    /** Interference, then the test of the stop request. */
    method HeadOfLoop(w: nat, env: seq<seq<Action<V, E>>>, k: nat, ghost base: State<V, E>)
      returns (requested: bool, k': nat)
      requires Valid() && w < |workers| && workers[w].Top? && AtAttempt(base, w, env, k)
      modifies this, queue
      ensures Valid() && w < |workers| && AtAttempt(base, w, env, k') && k <= k' <= |env|
      ensures workers[w] == if requested then DrainTop else Waiting
      ensures k < |env| ==> k < k'
      ensures k == |env| ==> Measure(Now()) < Measure(old(Now()))
    {
      var ready: bool;
      ready, k' := Await(w, env, k, base);
      WorkNext(base, w, env, k', Now());
      requested := TestStop(w);
    }

    /** The call of `wait_and_pop` in the main loop; `end` is `Returned` if it did return. */
    method NextTask(w: nat, env: seq<seq<Action<V, E>>>, k: nat, ghost base: State<V, E>)
      returns (end: LoopEnd, task: Option<nat>, k': nat)
      requires Valid() && w < |workers| && workers[w].Waiting? && AtAttempt(base, w, env, k)
      modifies this, queue
      ensures Valid() && w < |workers| && AtAttempt(base, w, env, k') && k <= k' <= |env|
      ensures end == Returned ==> workers[w] == if task.Some? then Holding(task.value, false) else Top
      ensures end == Blocked ==> workers[w].Waiting? && !CanStep(w) && k' == |env|
      ensures end == Idling ==> Spins(Now(), w) && k' == |env|
      ensures end == Returned && k' == |env| && k == |env| ==> Measure(Now()) < Measure(old(Now()))
    {
      if k == |env| && queue.tasks == [] && queue.shutdown && !stop[w] { return Idling, None, k; }
      var ready;
      ready, k' := Await(w, env, k, base);
      if !ready { return Blocked, None, k'; }
      WorkNext(base, w, env, k', Now());
      task := WaitAndPop(w);
      end := Returned;
    }

    /** The second loop of `worker_loop`: finish the queued tasks after stop. */
    method DrainLoop(w: nat, env: seq<seq<Action<V, E>>>, from: nat, ghost base: State<V, E>)
      returns (end: LoopEnd, k: nat)
      requires Valid() && w < |workers| && workers[w].DrainTop? && AtAttempt(base, w, env, from)
      modifies this, queue
      ensures Valid() && w < |workers| && AtAttempt(base, w, env, k)
      ensures end == Returned ==> workers[w].Exited? && queue.tasks == []
      ensures end == Blocked ==> !workers[w].Exited? && !CanStep(w) && k == |env|
      ensures end != Idling
    {
      k := from;
            while true
        invariant Valid() && w < |workers| && workers[w].DrainTop? && AtAttempt(base, w, env, k)
        decreases |env| - k, Measure(Now())
      {
        var ready: bool;
        ready, k := Await(w, env, k, base);
        WorkNext(base, w, env, k, Now());
        var task := TryPop(w);
        if task.None? { return Returned, k; }
        ready, k := RunTask(w, env, k, base);
        if !ready { return Blocked, k; }
      }
    }

    /** The body of the main loop: wait for a task and run it. */
    method LoopBody(w: nat, env: seq<seq<Action<V, E>>>, k: nat, ghost base: State<V, E>)
      returns (end: LoopEnd, k': nat)
      requires Valid() && w < |workers| && workers[w].Waiting? && AtAttempt(base, w, env, k)
      modifies this, queue
      ensures Valid() && w < |workers| && AtAttempt(base, w, env, k') && k <= k' <= |env|
      ensures end == Returned ==> workers[w].Top?
      ensures end == Blocked ==> !workers[w].Exited? && !CanStep(w) && k' == |env|
      ensures end == Idling ==> Spins(Now(), w) && k' == |env|
      ensures end == Returned && k == |env| ==> Measure(Now()) < Measure(old(Now()))
    {
      var task;
      end, task, k' := NextTask(w, env, k, base);
      if end == Returned && task.Some? {
        var done;
        done, k' := RunTask(w, env, k', base);
        if !done { end := Blocked; }
      }
    }

    /** The first loop of `worker_loop`; it returns when it has seen the stop request. */
    method MainLoop(w: nat, env: seq<seq<Action<V, E>>>, ghost base: State<V, E>) returns (end: LoopEnd, k: nat)
      requires Valid() && w < |workers| && workers[w].Top? && AtAttempt(base, w, env, 0)
      modifies this, queue
      ensures Valid() && w < |workers| && AtAttempt(base, w, env, k)
      ensures end == Returned ==> workers[w].DrainTop?
      ensures end == Blocked ==> !workers[w].Exited? && !CanStep(w) && k == |env|
      ensures end == Idling ==> Spins(Now(), w) && k == |env|
    {
      k := 0;
      while true
        invariant Valid() && w < |workers| && workers[w].Top? && AtAttempt(base, w, env, k)
        decreases |env| - k, Measure(Now())
      {
        var requested: bool;
        requested, k := HeadOfLoop(w, env, k, base);
        if requested { return Returned, k; }
        end, k := LoopBody(w, env, k, base);
        if end != Returned { return; }
      }
    }

    /** `worker_loop`: the main loop until a stop request is seen, then the drain loop until the
        queue is empty. It ends otherwise only where it is blocked, or idles between the queue's
        shutdown and its stop request, with nothing more to come from outside. */
    method WorkerLoop(w: nat, env: seq<seq<Action<V, E>>>) returns (end: LoopEnd, k: nat)
      requires Valid() && w < |workers| && workers[w].Top?
      modifies this, queue
      ensures Valid() && w < |workers| && OnSchedule(old(Now()), w, env, k, Now())
      ensures end != Returned ==> k == |env|
      ensures end == Returned ==> workers[w].Exited? && queue.tasks == []
      ensures end == Blocked ==> !workers[w].Exited? && !CanStep(w)
      ensures end == Idling ==> Spins(Now(), w)
    {
      ghost var base := Now();
      ScheduleStarts(base, w, env);
      end, k := MainLoop(w, env, base);
      if end == Returned { end, k := DrainLoop(w, env, k, base); }
    }

    /** The next window, then the stop request for worker `w`. */
    method StopNext(w: nat, env: seq<seq<Action<V, E>>>, ghost base: State<V, E>)
      requires Shaped(base) && w < |base.workers|
      requires Valid() && queue.shutdown && Stopped(stop, w) && Now() == Stopping(base, env, w)
      modifies this, queue
      ensures Valid() && queue.shutdown && Stopped(stop, w + 1) && Now() == Stopping(base, env, w + 1)
    {
      StopAfter(base, env, w);
      if w < |env| { Interfere(|workers|, env[w]); }
      RequestStop(w);
    }

    /** `shutdown`: the queue first, then a stop request for every worker, each after a window of
        `env`. */
    method Shutdown(env: seq<seq<Action<V, E>>>)
      requires Valid()
      modifies this, queue
      ensures Valid() && Shaped(old(Now())) && Now() == Stopping(old(Now()), env, |workers|)
      ensures queue.shutdown && |stop| == |workers| == old(|workers|) && Stopped(stop, |stop|)
    {
      ghost var base := Now();
      ShutDownQueue();
      for w := 0 to |workers|
        invariant Valid() && queue.shutdown && Stopped(stop, w) && Now() == Stopping(base, env, w)
      {
        StopNext(w, env, base);
      }
    }
  }

  /** `AsyncResult`: the right to one ticket's future. */
  class AsyncResult<!V, E> {
    var future: Option<nat>
    const pool: ThreadPool<V, E>

    ghost predicate Valid()
      reads this, pool, pool.queue
    {
      pool.Valid() && (future.Some? ==> future.value < |pool.accepted| && future.value !in pool.moved)
    }

    constructor (ticket: nat, pool: ThreadPool<V, E>)
      requires pool.Valid() && ticket < |pool.accepted| && ticket !in pool.moved
      ensures Valid() && future == Some(ticket) && this.pool == pool
    {
      future, this.pool := Some(ticket), pool;
    }

    /** `then`: the future is moved out of this object in any case; the continuation task is
        submitted after its predecessor, or the call throws because the pool is shut down. */
    method Then(continuation: V -> Outcome<V, E>) returns (next: Option<AsyncResult<V, E>>)
      requires Valid() && future.Some?
      modifies this, pool, pool.queue
      ensures Valid() && future == None
      ensures pool.Now() == Next(old(pool.Now()), Pool.Attach(old(future.value), continuation))
      ensures next.Some? == !old(pool.queue.shutdown)
      ensures next.None? ==> pool.accepted == old(pool.accepted) && pool.queue.tasks == old(pool.queue.tasks)
      ensures next.Some? ==>
                && pool.accepted == old(pool.accepted) + [Task.Then(old(future.value), continuation)]
                && pool.queue.tasks == old(pool.queue.tasks) + [old(|pool.accepted|)]
      ensures next.Some? ==> fresh(next.value) && next.value.Valid() && next.value.pool == pool
      ensures next.Some? ==> next.value.future == Some(old(|pool.accepted|)) && old(future.value) < old(|pool.accepted|)
    {
      var pred := future.value;
      future := None;
      var ticket := pool.Attach(pred, continuation);
      if ticket.None? { return None; }
      var r := new AsyncResult(ticket.value, pool);
      next := Some(r);
    }

    /** `get`, from the moment the future is ready: the outcome is what the ticket means. */
    method Get() returns (outcome: Outcome<V, E>)
      requires Valid() && future.Some? && pool.futures[future.value].Some?
      modifies this, pool`moved
      ensures Valid() && future == None
      ensures pool.Now() == Next(old(pool.Now()), Pool.Get(old(future.value)))
      ensures Linked(pool.accepted) && outcome == Meaning(pool.accepted, old(future.value))
    {
      outcome := pool.GetFuture(future.value);
      future := None;
    }
  }
}
