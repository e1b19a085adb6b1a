/** How a worker, or whoever shuts the pool down, shares a run with the other threads: one window of
    a script is played before each of its steps; a worker that is blocked lets windows pass. */
module PoolSchedule {
  import opened Pool
  import opened PoolInvariant
  import opened PoolTheorems

  function WindowAt<V, E>(env: seq<seq<Action<V, E>>>, k: nat): seq<Action<V, E>> {
    if k < |env| then env[k] else []
  }

  function Used<V, E>(env: seq<seq<Action<V, E>>>, n: nat): nat {
    if n < |env| then n else |env|
  }

  /** The steps taken from a window: each one that is possible when its turn comes and is not a
      step of worker `w`. */
  ghost function Played<V, E>(s: State<V, E>, w: nat, others: seq<Action<V, E>>): (played: seq<Action<V, E>>)
    requires Shaped(s)
    ensures Legal(s, played)
    decreases |others|
  {
    if others == [] then []
    else
      var before, a := Played(s, w, others[..|others| - 1]), others[|others| - 1];
      if a == Work(w) || !Enabled(Exec(s, before), a) then before
      else
        OneMore(s, before, a);
        before + [a]
  }

  lemma PlayedNext<V, E>(s: State<V, E>, w: nat, others: seq<Action<V, E>>, i: nat)
    requires Shaped(s) && i < |others|
    ensures var before, a := Played(s, w, others[..i]), others[i];
            var skipped := a == Work(w) || !Enabled(Exec(s, before), a);
            Played(s, w, others[..i + 1]) == (if skipped then before else before + [a])
  {
    assert others[..i + 1][..i] == others[..i];
  }

  lemma {:induction false} PlayedSparesWorker<V, E>(s: State<V, E>, w: nat, others: seq<Action<V, E>>)
    requires Shaped(s) && w < |s.workers|
    ensures Exec(s, Played(s, w, others)).workers[w] == s.workers[w]
    decreases |others|
  {
    if others != [] {
      var before, a := Played(s, w, others[..|others| - 1]), others[|others| - 1];
      PlayedSparesWorker(s, w, others[..|others| - 1]);
      if a != Work(w) && Enabled(Exec(s, before), a) {
        OneMore(s, before, a);
        OthersLeaveWorker(Exec(s, before), a, w);
      }
    }
  }

  // ---------------------------------------------------------------- a worker

  /** The state after the first `n` attempts of worker `w` to make a step; an attempt fails if the
      worker is blocked after its window. */
  ghost function Attempted<V, E>(base: State<V, E>, w: nat, env: seq<seq<Action<V, E>>>, n: nat): (s: State<V, E>)
    requires Shaped(base) && w < |base.workers|
    ensures Shaped(s) && |s.workers| == |base.workers|
  {
    if n == 0 then base else Attempt(Attempted(base, w, env, n - 1), w, WindowAt(env, n - 1))
  }

  /** One window, and the worker's attempt after it. */
  ghost function Attempt<V, E>(s: State<V, E>, w: nat, others: seq<Action<V, E>>): (s': State<V, E>)
    requires Shaped(s) && w < |s.workers|
    ensures Shaped(s') && |s'.workers| == |s.workers|
  {
    var s1 := Exec(s, Played(s, w, others));
    if CanWork(s1, w) then Next(s1, Work(w)) else s1
  }

  /** ... and after the window that follows them. */
  ghost function Windowed<V, E>(base: State<V, E>, w: nat, env: seq<seq<Action<V, E>>>, n: nat): (s: State<V, E>)
    requires Shaped(base) && w < |base.workers|
    ensures Shaped(s) && |s.workers| == |base.workers|
  {
    var s := Attempted(base, w, env, n);
    Exec(s, Played(s, w, WindowAt(env, n)))
  }

  /** `s` is the state after some number of attempts from `base`, which used up `k` windows. */
  ghost predicate OnSchedule<V, E>(base: State<V, E>, w: nat, env: seq<seq<Action<V, E>>>, k: nat, s: State<V, E>) {
    Shaped(base) && w < |base.workers| && exists n: nat :: AfterAttempts(base, w, env, n, k, s)
  }

  ghost predicate AfterAttempts<V, E>(base: State<V, E>, w: nat, env: seq<seq<Action<V, E>>>, n: nat, k: nat,
                                      s: State<V, E>)
    requires Shaped(base) && w < |base.workers|
  {
    s == Attempted(base, w, env, n) && k == Used(env, n)
  }

  /** ... and the window before the next attempt has been played too. */
  ghost predicate WindowOver<V, E>(base: State<V, E>, w: nat, env: seq<seq<Action<V, E>>>, k: nat, s: State<V, E>) {
    Shaped(base) && w < |base.workers| && exists n: nat :: BeforeAttempt(base, w, env, n, k, s)
  }

  ghost predicate BeforeAttempt<V, E>(base: State<V, E>, w: nat, env: seq<seq<Action<V, E>>>, n: nat, k: nat,
                                      s: State<V, E>)
    requires Shaped(base) && w < |base.workers|
  {
    s == Windowed(base, w, env, n) && k == Used(env, n + 1)
  }

  lemma ScheduleStarts<V, E>(base: State<V, E>, w: nat, env: seq<seq<Action<V, E>>>)
    requires Shaped(base) && w < |base.workers|
    ensures OnSchedule(base, w, env, 0, base)
  {
    assert AfterAttempts(base, w, env, 0, 0, base);
  }

  lemma WindowPlayed<V, E>(base: State<V, E>, w: nat, env: seq<seq<Action<V, E>>>, k: nat, s: State<V, E>)
    requires OnSchedule(base, w, env, k, s)
    ensures Shaped(s) && w < |s.workers|
    ensures var s' := if k < |env| then Exec(s, Played(s, w, env[k])) else s;
            WindowOver(base, w, env, if k < |env| then k + 1 else k, s') && s'.workers[w] == s.workers[w]
  {
    var n: nat :| AfterAttempts(base, w, env, n, k, s);
    PlayedSparesWorker(s, w, WindowAt(env, k));
    assert WindowAt(env, k) == WindowAt(env, n);
    var s' := if k < |env| then Exec(s, Played(s, w, env[k])) else s;
    assert BeforeAttempt(base, w, env, n, if k < |env| then k + 1 else k, s');
  }

  lemma AttemptFails<V, E>(base: State<V, E>, w: nat, env: seq<seq<Action<V, E>>>, k: nat, s: State<V, E>)
    requires WindowOver(base, w, env, k, s) && Shaped(s) && w < |s.workers| && !CanWork(s, w)
    ensures OnSchedule(base, w, env, k, s)
  {
    var n: nat :| BeforeAttempt(base, w, env, n, k, s);
    assert AfterAttempts(base, w, env, n + 1, k, s);
  }

  lemma AttemptSucceeds<V, E>(base: State<V, E>, w: nat, env: seq<seq<Action<V, E>>>, k: nat, s: State<V, E>)
    requires WindowOver(base, w, env, k, s) && Shaped(s) && w < |s.workers| && CanWork(s, w)
    ensures OnSchedule(base, w, env, k, Next(s, Work(w)))
  {
    var n: nat :| BeforeAttempt(base, w, env, n, k, s);
    assert AfterAttempts(base, w, env, n + 1, k, Next(s, Work(w)));
  }

  // ---------------------------------------------------------------- shutdown

  /** The state after the queue's shutdown and the stop requests of the first `n` workers, each of
      them after a window. */
  ghost function Stopping<V, E>(base: State<V, E>, env: seq<seq<Action<V, E>>>, n: nat): (s: State<V, E>)
    requires Shaped(base)
    ensures Shaped(s) && |s.workers| == |base.workers|
  {
    if n == 0 then Next(base, ShutDownQueue)
    else
      var s := Stopping(base, env, n - 1);
      var s1 := Exec(s, Played(s, |base.workers|, WindowAt(env, n - 1)));
      if Enabled(s1, RequestStop(n - 1)) then Next(s1, RequestStop(n - 1)) else s1
  }

  lemma StoppingNext<V, E>(base: State<V, E>, env: seq<seq<Action<V, E>>>, n: nat)
    requires Shaped(base)
    requires var s := Stopping(base, env, n);
             var s1 := if n < |env| then Exec(s, Played(s, |base.workers|, env[n])) else s;
             Enabled(s1, RequestStop(n))
    ensures var s := Stopping(base, env, n);
            var s1 := if n < |env| then Exec(s, Played(s, |base.workers|, env[n])) else s;
            Stopping(base, env, n + 1) == Next(s1, RequestStop(n))
  {
  }

  // ---------------------------------------------------------------- schedules are runs

  /** `log` is a run from `base` to `s`. */
  ghost predicate IsRun<V, E>(base: State<V, E>, log: seq<Action<V, E>>, s: State<V, E>) {
    Shaped(base) && Legal(base, log) && Exec(base, log) == s
  }

  lemma {:induction false} AttemptsAreARun<V, E>(base: State<V, E>, w: nat, env: seq<seq<Action<V, E>>>, n: nat)
    returns (log: seq<Action<V, E>>)
    requires Shaped(base) && w < |base.workers|
    ensures IsRun(base, log, Attempted(base, w, env, n))
  {
    if n == 0 {
      log := [];
    } else {
      log := AttemptsAreARun(base, w, env, n - 1);
      log := NextAttemptIsARun(base, w, env, n - 1, log);
    }
  }

  lemma NextAttemptIsARun<V, E>(base: State<V, E>, w: nat, env: seq<seq<Action<V, E>>>, n: nat,
                                log: seq<Action<V, E>>)
    returns (longer: seq<Action<V, E>>)
    requires Shaped(base) && w < |base.workers| && IsRun(base, log, Attempted(base, w, env, n))
    ensures IsRun(base, longer, Attempted(base, w, env, n + 1))
  {
    longer := AttemptIsARun(base, log, w, WindowAt(env, n));
  }

  lemma AttemptIsARun<V, E>(base: State<V, E>, log: seq<Action<V, E>>, w: nat, others: seq<Action<V, E>>)
    returns (longer: seq<Action<V, E>>)
    requires Shaped(base) && w < |base.workers| && Legal(base, log)
    ensures Legal(base, longer) && Exec(base, longer) == Attempt(Exec(base, log), w, others)
  {
    var s := Exec(base, log);
    RunsCompose(base, log, Played(s, w, others));
    longer := log + Played(s, w, others);
    if CanWork(Exec(base, longer), w) {
      OneMore(base, longer, Work(w));
      longer := longer + [Work(w)];
    }
  }

  /** A worker's schedule is a run of the pool, so all that holds of runs holds of it. */
  lemma ScheduleIsARun<V, E>(base: State<V, E>, w: nat, env: seq<seq<Action<V, E>>>, k: nat, s: State<V, E>)
    returns (log: seq<Action<V, E>>)
    requires OnSchedule(base, w, env, k, s)
    ensures IsRun(base, log, s)
  {
    var n: nat :| AfterAttempts(base, w, env, n, k, s);
    log := AttemptsAreARun(base, w, env, n);
  }

  /** ... and so is the shutdown's. */
  lemma {:induction false} StoppingIsARun<V, E>(base: State<V, E>, env: seq<seq<Action<V, E>>>, n: nat)
    returns (log: seq<Action<V, E>>)
    requires Shaped(base)
    ensures IsRun(base, log, Stopping(base, env, n))
  {
    if n == 0 {
      OneMore(base, [], ShutDownQueue);
      log := [] + [ShutDownQueue];
    } else {
      log := StoppingIsARun(base, env, n - 1);
      var s := Stopping(base, env, n - 1);
      var played := Played(s, |base.workers|, WindowAt(env, n - 1));
      RunsCompose(base, log, played);
      log := log + played;
      if Enabled(Exec(s, played), RequestStop(n - 1)) {
        OneMore(base, log, RequestStop(n - 1));
        log := log + [RequestStop(n - 1)];
      }
    }
  }
}
