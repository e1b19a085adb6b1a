/** `Logger` as an object: its critical sections, and `flush`, `drain_loop` and the destructor
    with the other threads of the system running in between. */
module Loggers {
  import opened LoggerProtocol
  import opened LoggerTheorems
  import opened LoggerSchedule

  class Logger<M> {
    var minLevel: Level
    var queue: seq<Entry<M>>
    var pending: nat
    var done: nat
    var running: bool
    var drain: Drain<M>
    var clients: seq<Client<M>>
    var closing: Closing
    ghost var sunk: seq<Entry<M>>
    ghost var accepted: seq<Entry<M>>
    ghost var marks: seq<nat>

    ghost function Now(): State<M>
      reads this
    {
      State(minLevel, queue, pending, done, running, drain, clients, closing, sunk, accepted, marks)
    }

    ghost predicate Valid()
      reads this
    {
      Inv(Now())
    }

    constructor (level: Level, n: nat)
      ensures Valid() && Now() == Initial(level, n)
      ensures Now() == State(level, [], 0, 0, true, TestRunning, seq(n, _ => Idle), Open, [], [], [])
    {
      minLevel, queue, pending, done, running := level, [], 0, 0, true;
      drain, clients, closing := TestRunning, seq(n, _ => Idle), Open;
      sunk, accepted, marks := [], [], [];
    }

    predicate CanAct(a: Action<M>)
      reads this
      ensures CanAct(a) == Enabled(Now(), a)
    {
      match a
      case Log(c, _) => c < |clients| && clients[c].Idle? && closing.Open?
      case Push(c) => c < |clients| && clients[c].Passed?
      case Flush(c) => c < |clients| && clients[c].Idle? && closing.Open?
      case FlushReturn(c) => c < |clients| && clients[c].Flushing? && done >= clients[c].target
      case SetLevel(_) => true
      case DrainStep => !drain.Exited?
      case Close => closing.Open? && forall c :: 0 <= c < |clients| ==> clients[c].Idle?
      case Stop => closing.CloserFlushing? && done >= closing.target
    }

    /** The step `a` has just been made. */
    ghost predicate Made(s: State<M>, a: Action<M>)
      reads this
    {
      Enabled(s, a) && Now() == Next(s, a)
    }

    // -------------------------------------------------------------- log

    method TestLevel(c: nat, entry: Entry<M>) returns (passed: bool)
      requires Valid() && c < |clients| && clients[c].Idle? && closing.Open?
      modifies this`clients
      ensures Valid() && Made(old(Now()), Log(c, entry))
      ensures passed == Admits(minLevel, entry.level)
      ensures Now() == if passed then old(Now()).(clients := old(clients)[c := Passed(entry)]) else old(Now())
    {
      StepKeepsInv(Now(), Log(c, entry));
      if entry.level.Rank() < minLevel.Rank() { return false; }
      clients := clients[c := Passed(entry)];
      passed := true;
    }

    method PushBack(c: nat)
      requires Valid() && c < |clients| && clients[c].Passed?
      modifies this`clients, this`queue, this`accepted
      ensures Valid() && Made(old(Now()), Push(c))
      ensures clients == old(clients)[c := Idle]
      ensures queue == old(queue) + [old(clients[c].entry)] && accepted == old(accepted) + [old(clients[c].entry)]
    {
      StepKeepsInv(Now(), Push(c));
      var entry := clients[c].entry;
      queue, accepted := queue + [entry], accepted + [entry];
      clients := clients[c := Idle];
    }

    // -------------------------------------------------------------- flush, destructor

    method BeginFlush(c: nat) returns (target: nat)
      requires Valid() && c < |clients| && clients[c].Idle? && closing.Open?
      modifies this`clients, this`pending, this`marks
      ensures Valid() && Made(old(Now()), Flush(c))
      ensures target == pending == old(pending) + 1 && clients == old(clients)[c := Flushing(target)]
      ensures |marks| == target && marks[target - 1] == |accepted|
    {
      StepKeepsInv(Now(), Action<M>.Flush(c));
      marks := marks + [|accepted|];
      pending := pending + 1;
      target := pending;
      clients := clients[c := Flushing(target)];
    }

    method EndFlush(c: nat)
      requires Valid() && c < |clients| && clients[c].Flushing? && done >= clients[c].target
      modifies this`clients
      ensures Valid() && Made(old(Now()), FlushReturn(c))
      ensures clients == old(clients)[c := Idle]
    {
      StepKeepsInv(Now(), Action<M>.FlushReturn(c));
      clients := clients[c := Idle];
    }

    method SetMinLevel(level: Level)
      requires Valid()
      modifies this`minLevel
      ensures Valid() && Made(old(Now()), SetLevel(level))
      ensures minLevel == level
    {
      StepKeepsInv(Now(), Action<M>.SetLevel(level));
      minLevel := level;
    }

    method BeginClose() returns (target: nat)
      requires Valid() && closing.Open? && forall c :: 0 <= c < |clients| ==> clients[c].Idle?
      modifies this`closing, this`pending, this`marks
      ensures Valid() && Made(old(Now()), Close)
      ensures target == pending == old(pending) + 1 && closing == CloserFlushing(target)
      ensures |marks| == target && marks[target - 1] == |accepted|
    {
      StepKeepsInv(Now(), Action<M>.Close);
      marks := marks + [|accepted|];
      pending := pending + 1;
      target := pending;
      closing := CloserFlushing(target);
    }

    method ClearRunning()
      requires Valid() && closing.CloserFlushing? && done >= closing.target
      modifies this`closing, this`running
      ensures Valid() && Made(old(Now()), Stop)
      ensures !running && closing.Joining?
    {
      StepKeepsInv(Now(), Action<M>.Stop);
      running, closing := false, Joining;
    }

    // -------------------------------------------------------------- the drain thread

    method LoadRunning() returns (r: bool)
      requires Valid() && drain.TestRunning?
      modifies this`drain
      ensures Valid() && Made(old(Now()), DrainStep)
      ensures r == running && drain == if r then Collect else TestQueue
    {
      StepKeepsInv(Now(), Action<M>.DrainStep);
      r := running;
      drain := if r then Collect else TestQueue;
    }

    method QueueEmpty() returns (empty: bool)
      requires Valid() && drain.TestQueue?
      modifies this`drain
      ensures Valid() && Made(old(Now()), DrainStep)
      ensures empty == (queue == []) && drain == if empty then Exited else Collect
    {
      StepKeepsInv(Now(), Action<M>.DrainStep);
      empty := queue == [];
      drain := if empty then Exited else Collect;
    }

    /** The first critical section of an iteration: swap the batch out, note the generation. */
    method SwapBatch() returns (batch: seq<Entry<M>>, generation: nat)
      requires Valid() && drain.Collect?
      modifies this`drain, this`queue
      ensures Valid() && Made(old(Now()), DrainStep)
      ensures batch == old(queue) && queue == [] && generation == pending && drain == Sinking(batch, generation)
      ensures |marks| == generation && forall g :: 0 <= g < generation ==> marks[g] <= |sunk| + |batch|
    {
      StepKeepsInv(Now(), Action<M>.DrainStep);
      batch, queue := queue, [];
      generation := pending;
      drain := Sinking(batch, generation);
    }

    method Sink(entry: Entry<M>)
      requires Valid() && drain.Sinking? && drain.rest != [] && drain.rest[0] == entry
      modifies this`drain, this`sunk
      ensures Valid() && Made(old(Now()), DrainStep)
      ensures drain == Sinking(old(drain.rest[1..]), old(drain.target)) && sunk == old(sunk) + [entry]
    {
      StepKeepsInv(Now(), Action<M>.DrainStep);
      sunk := sunk + [entry];
      drain := Sinking(drain.rest[1..], drain.target);
    }

    /** The second critical section: report the generation done. */
    method Signal(generation: nat)
      requires Valid() && drain == Sinking([], generation)
      modifies this`drain, this`done
      ensures Valid() && Made(old(Now()), DrainStep)
      ensures drain.TestRunning? && done == generation <= |marks|
      ensures forall g :: 0 <= g < generation ==> marks[g] <= |sunk|
    {
      StepKeepsInv(Now(), Action<M>.DrainStep);
      done := generation;
      drain := TestRunning;
    }

    method DrainOnce()
      requires Valid() && !drain.Exited?
      modifies this
      ensures Valid() && Made(old(Now()), DrainStep)
    {
      match drain {
        case TestRunning => var _ := LoadRunning();
        case TestQueue => var _ := QueueEmpty();
        case Collect => var _, _ := SwapBatch();
        case Sinking(rest, target) => if rest != [] { Sink(rest[0]); } else { Signal(target); }
      }
    }

    // -------------------------------------------------------------- interference

    method Perform(a: Action<M>)
      requires Valid() && CanAct(a)
      modifies this
      ensures Valid() && Made(old(Now()), a)
    {
      match a {
        case Log(c, entry) => var _ := TestLevel(c, entry);
        case Push(c) => PushBack(c);
        case Flush(c) => var _ := BeginFlush(c);
        case FlushReturn(c) => EndFlush(c);
        case SetLevel(level) => SetMinLevel(level);
        case DrainStep => DrainOnce();
        case Close => var _ := BeginClose();
        case Stop => ClearRunning();
      }
    }

    /** `log` is the run that led here from `base`. */
    ghost predicate Ran(base: State<M>, log: seq<Action<M>>)
      reads this
    {
      Legal(base, log) && Now() == Exec(base, log)
    }

    /** Other threads take the steps `others`, as far as each is possible when its turn comes and is
        not one of the caller's own. */
    method Interfere(role: Role, others: seq<Action<M>>, ghost base: State<M>, ghost log: seq<Action<M>>)
      returns (ghost log': seq<Action<M>>)
      requires Valid() && Ran(base, log)
      modifies this
      ensures Valid() && Ran(base, log') && log' == log + Played(old(Now()), role, others)
      ensures Now() == Exec(old(Now()), Played(old(Now()), role, others))
    {
      ghost var s := Now();
      for i := 0 to |others|
        invariant Valid() && Now() == Exec(s, Played(s, role, others[..i]))
      {
        var a := others[i];
        PlayedNext(s, role, others, i);
        ghost var before := Played(s, role, others[..i]);
        if !Mine(role, a) && CanAct(a) {
          OneMore(s, before, a);
          Perform(a);
        }
      }
      assert others[..|others|] == others;
      RunsCompose(base, log, Played(s, role, others));
      log' := log + Played(s, role, others);
    }

    // -------------------------------------------------------------- flush

    /** `flush` called by client `c`. It returns only when everything accepted before it took its
        generation has been sunk; it goes on waiting if `env` ends first, which is before the drain
        thread has made the steps it needs. `windows` is how many windows of `env` were played. */
    method FlushAll(c: nat, env: seq<seq<Action<M>>>)
      returns (returned: bool, windows: nat, ghost log: seq<Action<M>>)
      requires Valid() && c < |clients| && clients[c].Idle? && closing.Open?
      modifies this
      ensures Valid() && Enabled(old(Now()), Flush(c)) && Ran(Next(old(Now()), Action<M>.Flush(c)), log)
      ensures windows <= |env| && (!returned ==> windows == |env|)
      ensures var waited := Waited(Next(old(Now()), Action<M>.Flush(c)), Client(c), env, windows);
              log == if returned then waited + [FlushReturn(c)] else waited
      ensures returned ==> old(accepted) <= sunk && c < |clients| && clients[c].Idle?
      ensures !returned ==> c < |clients| && clients[c] == Flushing(old(pending) + 1) && done < clients[c].target
      ensures !returned ==> var s1 := Next(old(Now()), Action<M>.Flush(c));
                            DrainCount(log) < |Rest(s1)| + |s1.queue| + 5 + DelayCount(s1, log, s1.pending)
    {
      ghost var s0 := Now();
      StepKeepsInv(s0, Action<M>.Flush(c));
      var target := BeginFlush(c);
      ghost var base := Now();
      windows, log := AwaitGeneration(c, env);
      if done < target { return false, windows, log; }
      FlushCovers(s0, c, log);
      OneMore(base, log, FlushReturn(c));
      EndFlush(c);
      log := log + [FlushReturn(c)];
      returned := true;
    }

    /** The wait in `flush`: until the generation is done, or no window is left. */
    method AwaitGeneration(c: nat, env: seq<seq<Action<M>>>) returns (windows: nat, ghost log: seq<Action<M>>)
      requires Valid() && c < |clients| && clients[c].Flushing?
      modifies this
      ensures Valid() && windows <= |env| && Ran(old(Now()), log)
      ensures log == Waited(old(Now()), Client(c), env, windows) && StaysInFlush(c, log)
      ensures c < |clients| && clients[c] == old(clients[c])
      ensures done < clients[c].target ==> windows == |env|
      ensures done < clients[c].target ==>
                DrainCount(log) < |Rest(old(Now()))| + |old(queue)| + 5 + DelayCount(old(Now()), log, old(pending))
    {
      ghost var base := Now();
      log, windows := [], 0;
      while done < clients[c].target && windows < |env|
        invariant Valid() && Ran(base, log) && HasWaited(base, Client(c), env, windows, log)
        invariant c < |clients| && clients[c] == old(clients[c])
        decreases |env| - windows
      {
        WaitsOn(base, Client(c), env, windows, log);
        log := Interfere(Client(c), env[windows], base, log);
        windows := windows + 1;
      }
      if DrainCount(log) >= |Rest(base)| + |base.queue| + 5 + DelayCount(base, log, base.pending) {
        FlushServed(base, c, log);
      }
    }

    // -------------------------------------------------------------- drain_loop

    /** The drain thread has made `n` steps since `base`, and `k` windows of `env` were played. */
    ghost predicate AtStep(base: State<M>, env: seq<seq<Action<M>>>, n: nat, k: nat, log: seq<Action<M>>)
      reads this
    {
      Ran(base, log) && OnSchedule(base, env, n, log) && k == Used(env, n)
    }

    /** ... and one window more; the drain thread's next step will complete the run `log`. */
    ghost predicate BeforeStep(base: State<M>, env: seq<seq<Action<M>>>, n: nat, k: nat, log: seq<Action<M>>)
      reads this
    {
      && Legal(base, log) && Exec(base, log) == Drained(Now())
      && OnSchedule(base, env, n + 1, log) && k == Used(env, n + 1)
    }

    /** Between two operations of the drain thread, the next window of `env` opens. */
    method Pause(env: seq<seq<Action<M>>>, k: nat, ghost base: State<M>, ghost n: nat, ghost log: seq<Action<M>>)
      returns (k': nat, ghost log': seq<Action<M>>)
      requires Valid() && AtStep(base, env, n, k, log) && !drain.Exited?
      modifies this
      ensures Valid() && BeforeStep(base, env, n, k', log') && drain == old(drain)
      ensures k <= k' <= |env| && (k < |env| ==> k < k')
      ensures k == |env| ==> Now() == old(Now())
    {
      k', log' := k, log;
      ghost var s := Now();
      if k < |env| {
        log' := Interfere(DrainThread, env[k], base, log);
        k' := k + 1;
      }
      ghost var played := if n < |env| then Played(s, DrainThread, env[n]) else [];
      assert Now() == Exec(s, played);
      ScheduleGoesOn(base, env, n, log, played);
      log' := log + played + [DrainStep];
    }

    /** A window, then the load of `running_`. */
    method NextLoadRunning(env: seq<seq<Action<M>>>, k: nat, ghost base: State<M>, ghost n: nat,
                           ghost log: seq<Action<M>>)
      returns (r: bool, k': nat, ghost log': seq<Action<M>>)
      requires Valid() && AtStep(base, env, n, k, log) && drain.TestRunning?
      modifies this
      ensures Valid() && AtStep(base, env, n + 1, k', log') && drain == if r then Collect else TestQueue
      ensures k <= k' <= |env| && (k < |env| ==> k < k')
      ensures r == running && (k == |env| ==> queue == old(queue) && running == old(running))
    {
      k', log' := Pause(env, k, base, n, log);
      r := LoadRunning();
    }

    /** A window, then the test of the queue. */
    method NextQueueEmpty(env: seq<seq<Action<M>>>, k: nat, ghost base: State<M>, ghost n: nat,
                          ghost log: seq<Action<M>>)
      returns (empty: bool, k': nat, ghost log': seq<Action<M>>)
      requires Valid() && AtStep(base, env, n, k, log) && drain.TestQueue?
      modifies this
      ensures Valid() && AtStep(base, env, n + 1, k', log') && drain == if empty then Exited else Collect
      ensures k <= k' <= |env| && (k < |env| ==> k < k')
      ensures empty == (queue == []) && (k == |env| ==> queue == old(queue) && running == old(running))
    {
      k', log' := Pause(env, k, base, n, log);
      empty := QueueEmpty();
    }

    /** A window, then the swap. */
    method NextSwap(env: seq<seq<Action<M>>>, k: nat, ghost base: State<M>, ghost n: nat,
                    ghost log: seq<Action<M>>)
      returns (batch: seq<Entry<M>>, generation: nat, k': nat, ghost log': seq<Action<M>>)
      requires Valid() && AtStep(base, env, n, k, log) && drain.Collect?
      modifies this
      ensures Valid() && AtStep(base, env, n + 1, k', log') && drain == Sinking(batch, generation)
      ensures k <= k' <= |env| && (k < |env| ==> k < k')
      ensures queue == [] && (k == |env| ==> running == old(running))
    {
      k', log' := Pause(env, k, base, n, log);
      batch, generation := SwapBatch();
    }

    /** A window, then one entry goes to the sink. */
    method NextSink(entry: Entry<M>, env: seq<seq<Action<M>>>, k: nat, ghost base: State<M>, ghost n: nat,
                    ghost log: seq<Action<M>>)
      returns (k': nat, ghost log': seq<Action<M>>)
      requires Valid() && AtStep(base, env, n, k, log)
      requires drain.Sinking? && drain.rest != [] && drain.rest[0] == entry
      modifies this
      ensures Valid() && AtStep(base, env, n + 1, k', log')
      ensures drain == Sinking(old(drain.rest[1..]), old(drain.target))
      ensures k <= k' <= |env| && (k < |env| ==> k < k')
      ensures k == |env| ==> queue == old(queue) && running == old(running)
    {
      k', log' := Pause(env, k, base, n, log);
      Sink(entry);
    }

    /** A window, then the signal. */
    method NextSignal(generation: nat, env: seq<seq<Action<M>>>, k: nat, ghost base: State<M>, ghost n: nat,
                      ghost log: seq<Action<M>>)
      returns (k': nat, ghost log': seq<Action<M>>)
      requires Valid() && AtStep(base, env, n, k, log) && drain == Sinking([], generation)
      modifies this
      ensures Valid() && AtStep(base, env, n + 1, k', log') && drain.TestRunning?
      ensures k <= k' <= |env| && (k < |env| ==> k < k')
      ensures k == |env| ==> queue == old(queue) && running == old(running)
    {
      k', log' := Pause(env, k, base, n, log);
      Signal(generation);
    }

    /** The loop over the batch, outside the lock. */
    method SinkBatch(batch: seq<Entry<M>>, generation: nat, env: seq<seq<Action<M>>>, k: nat,
                     ghost base: State<M>, ghost n: nat, ghost log: seq<Action<M>>)
      returns (k': nat, ghost n': nat, ghost log': seq<Action<M>>)
      requires Valid() && AtStep(base, env, n, k, log) && drain == Sinking(batch, generation)
      modifies this
      ensures Valid() && AtStep(base, env, n', k', log') && drain == Sinking([], generation)
      ensures k <= k' <= |env| && (k == |env| ==> queue == old(queue) && running == old(running))
    {
      k', n', log' := k, n, log;
      for i := 0 to |batch|
        invariant Valid() && AtStep(base, env, n', k', log') && drain == Sinking(batch[i..], generation)
        invariant k <= k' <= |env| && (k == |env| ==> queue == old(queue) && running == old(running))
      {
        assert batch[i..][1..] == batch[i + 1..];
        k', log' := NextSink(batch[i], env, k', base, n', log');
        n' := n' + 1;
      }
    }

    /** The loop's condition, `running_ || !queue_empty()`. */
    method Condition(env: seq<seq<Action<M>>>, k: nat, ghost base: State<M>, ghost n: nat, ghost log: seq<Action<M>>)
      returns (goesOn: bool, k': nat, ghost n': nat, ghost log': seq<Action<M>>)
      requires Valid() && AtStep(base, env, n, k, log) && drain.TestRunning?
      modifies this
      ensures Valid() && AtStep(base, env, n', k', log') && drain == if goesOn then Collect else Exited
      ensures !goesOn ==> !running && sunk == accepted && queue == []
      ensures k <= k' <= |env| && (k < |env| ==> k < k')
      ensures k == |env| ==> queue == old(queue) && running == old(running)
      ensures k == |env| && goesOn ==> running || queue != []
    {
      var r, empty: bool;
      r, k', log' := NextLoadRunning(env, k, base, n, log);
      n' := n + 1;
      if r { return true, k', n', log'; }
      empty, k', log' := NextQueueEmpty(env, k', base, n', log');
      n' := n' + 1;
      goesOn := !empty;
    }

    /** One turn of the drain loop's body, from the swap to the signal. */
    method Iterate(env: seq<seq<Action<M>>>, k: nat, ghost base: State<M>, ghost n: nat, ghost log: seq<Action<M>>)
      returns (k': nat, ghost n': nat, ghost log': seq<Action<M>>)
      requires Valid() && AtStep(base, env, n, k, log) && drain.Collect?
      modifies this
      ensures Valid() && AtStep(base, env, n', k', log') && drain.TestRunning?
      ensures k <= k' <= |env| && (k < |env| ==> k < k')
      ensures k == |env| ==> queue == [] && running == old(running)
    {
      var batch, generation;
      batch, generation, k', log' := NextSwap(env, k, base, n, log);
      n' := n + 1;
      k', n', log' := SinkBatch(batch, generation, env, k', base, n', log');
      k', log' := NextSignal(generation, env, k', base, n', log');
      n' := n' + 1;
    }

    /** `drain_loop`: one step of its own after each window of `env`, and on until it exits or, with
        no window left, comes to wait again. It exits only with everything sunk and the logger
        stopped. */
    method DrainLoop(env: seq<seq<Action<M>>>) returns (exited: bool, ghost log: seq<Action<M>>)
      requires Valid() && drain.TestRunning?
      modifies this
      ensures Valid() && Ran(old(Now()), log) && log == Drains(old(Now()), env, DrainCount(log))
      ensures exited ==> drain.Exited? && !running && sunk == accepted && queue == []
      ensures !exited ==> running && DrainCount(log) >= |env|
    {
      ghost var base, n := Now(), 0;
      log := [];
      var k: nat := 0;
      while true
        invariant Valid() && AtStep(base, env, n, k, log) && k <= |env| && drain.TestRunning?
        decreases |env| - k, |queue|
      {
        if k == |env| && running { return false, log; }
        var goesOn: bool;
        goesOn, k, n, log := Condition(env, k, base, n, log);
        if !goesOn { return true, log; }
        k, n, log := Iterate(env, k, base, n, log);
      }
    }

    // -------------------------------------------------------------- destructor

    /** The destructor's flush waits. `k` windows are played; it ends early only if served. */
    method AwaitFlush(env: seq<seq<Action<M>>>) returns (k: nat, ghost log: seq<Action<M>>)
      requires Valid() && closing.CloserFlushing?
      modifies this
      ensures Valid() && k <= |env| && Ran(old(Now()), log) && log == Waited(old(Now()), Closer, env, k)
      ensures closing == old(closing) && (done < closing.target ==> k == |env|)
      ensures done < closing.target ==> DrainCount(log) < |Rest(old(Now()))| + |old(queue)| + 5
    {
      ghost var base := Now();
      k, log := 0, [];
      while done < closing.target && k < |env|
        invariant Valid() && Ran(base, log) && HasWaited(base, Closer, env, k, log)
        decreases |env| - k
      {
        WaitsOn(base, Closer, env, k, log);
        log := Interfere(Closer, env[k], base, log);
        k := k + 1;
      }
      if done < closing.target && DrainCount(log) >= |Rest(base)| + |base.queue| + 5 {
        ClosingServed(base, log);
      }
    }

    /** `drain_thread_.join()`. */
    method Join(env: seq<seq<Action<M>>>) returns (k: nat, ghost log: seq<Action<M>>)
      requires Valid() && closing.Joining?
      modifies this
      ensures Valid() && k <= |env| && Ran(old(Now()), log) && log == Waited(old(Now()), Closer, env, k)
      ensures closing.Joining? && (!drain.Exited? ==> k == |env|)
      ensures !drain.Exited? ==> DrainCount(log) < 4
    {
      ghost var base := Now();
      k, log := 0, [];
      while !drain.Exited? && k < |env|
        invariant Valid() && Ran(base, log) && HasWaited(base, Closer, env, k, log)
        decreases |env| - k
      {
        WaitsOn(base, Closer, env, k, log);
        log := Interfere(Closer, env[k], base, log);
        k := k + 1;
      }
      JoinedWithinFour(base, log);
    }

    /** `~Logger`: flush, clear `running_`, wake and join the drain thread. It gets stuck in the
        flush only while the drain thread has not made the steps that the flush needs, and in the
        join only while it has not made four more; `first` and `second` count the windows played
        in either. */
    method Destroy(env: seq<seq<Action<M>>>) returns (joined: bool, first: nat, second: nat)
      requires Valid() && closing.Open? && forall c :: 0 <= c < |clients| ==> clients[c].Idle?
      modifies this
      ensures Valid() && Enabled(old(Now()), Close) && first + second <= |env|
      ensures joined ==> drain.Exited? && !running && sunk == accepted && old(accepted) <= sunk
      ensures !joined ==> first + second == |env|
      ensures var s1 := Next(old(Now()), Action<M>.Close);
              var waited := Waited(s1, Closer, env, first);
              var s2 := Exec(s1, waited);
              if running then
                && !joined && second == 0 && Now() == s2
                && DrainCount(waited) < |Rest(s1)| + |s1.queue| + 5
              else
                && Enabled(s2, Stop)
                && var s3 := Next(s2, Action<M>.Stop);
                   var waited2 := Waited(s3, Closer, env[first..], second);
                   && Now() == Exec(s3, waited2)
                   && (!joined ==> DrainCount(waited2) < 4)
    {
      var target := BeginClose();
      ghost var s1 := Now();
      ghost var log;
      first, log := AwaitFlush(env);
      second := 0;
      RunIsMonotone(s1, log);
      if done < closing.target { return false, first, 0; }
      ClearRunning();
      ghost var s3 := Now();
      second, log := Join(env[first..]);
      RunIsMonotone(s3, log);
      joined := drain.Exited?;
    }
  }
}
