/** How the thread that owns a CoroTask shares a run with the pool: one window of a script is played
    before each of its steps; while it is blocked it lets windows pass. */
module CoroSchedule {
  import opened CoroProtocol
  import opened CoroTheorems

  /** An action of the thread that owns the CoroTask. */
  predicate Callers(a: Action) { a == Step(0) || a.Get? || a.Resume? }

  function WindowAt(env: seq<seq<Action>>, k: nat): seq<Action> {
    if k < |env| then env[k] else []
  }

  function Used(env: seq<seq<Action>>, n: nat): nat {
    if n < |env| then n else |env|
  }

  /** The steps taken from a window: each one that is possible when its turn comes and is not the
      owner's. */
  ghost function Played<L, V, E>(s: State<L, V, E>, others: seq<Action>): (played: seq<Action>)
    ensures Legal(s, played)
    decreases |others|
  {
    if others == [] then []
    else
      var before, a := Played(s, others[..|others| - 1]), others[|others| - 1];
      if Callers(a) || !Enabled(Exec(s, before), a) then before
      else
        OneMore(s, before, a);
        before + [a]
  }

  lemma PlayedNext<L, V, E>(s: State<L, V, E>, others: seq<Action>, i: nat)
    requires i < |others|
    ensures var before, a := Played(s, others[..i]), others[i];
            var skipped := Callers(a) || !Enabled(Exec(s, before), a);
            Played(s, others[..i + 1]) == (if skipped then before else before + [a])
  {
    assert others[..i + 1][..i] == others[..i];
  }

  /** What the steps of other threads leave to the caller. */
  ghost predicate CallerKept<L, V, E>(s: State<L, V, E>, s': State<L, V, E>) {
    && |s'.threads| == |s.threads| > 0 && s'.threads[0] == s.threads[0]
    && s'.attached == s.attached && (!s.status.NotStarted? ==> !s'.status.NotStarted?)
  }

  lemma WorkerStepKeepsCaller<L, V, E>(s: State<L, V, E>, t: nat)
    requires 0 < t < |s.threads| && CanStep(s, t)
    ensures CallerKept(s, Stepped(s, t))
  {
  }

  lemma OtherStepKeepsCaller<L, V, E>(s: State<L, V, E>, a: Action)
    requires Enabled(s, a) && !Callers(a)
    ensures CallerKept(s, Next(s, a))
  {
    if a.Step? { WorkerStepKeepsCaller(s, a.thread); }
  }

  lemma {:induction false} PlayedKeepsCaller<L, V, E>(s: State<L, V, E>, others: seq<Action>)
    requires |s.threads| > 0
    ensures CallerKept(s, Exec(s, Played(s, others)))
    decreases |others|
  {
    if others != [] {
      var before, a := Played(s, others[..|others| - 1]), others[|others| - 1];
      PlayedKeepsCaller(s, others[..|others| - 1]);
      if !Callers(a) && Enabled(Exec(s, before), a) {
        OneMore(s, before, a);
        OtherStepKeepsCaller(Exec(s, before), a);
      }
    }
  }

  // ---------------------------------------------------------------- the owner's steps

  /** One window, and the owner's attempt to step after it; it fails while the owner is blocked. */
  ghost function Attempt<L, V, E>(s: State<L, V, E>, others: seq<Action>): (s': State<L, V, E>)
    requires |s.threads| > 0
    ensures |s'.threads| == |s.threads|
  {
    var s1 := Exec(s, Played(s, others));
    if CanStep(s1, 0) then Next(s1, Step(0)) else s1
  }

  ghost function Attempted<L, V, E>(base: State<L, V, E>, env: seq<seq<Action>>, n: nat): (s: State<L, V, E>)
    requires |base.threads| > 0
    ensures |s.threads| == |base.threads|
  {
    if n == 0 then base else Attempt(Attempted(base, env, n - 1), WindowAt(env, n - 1))
  }

  /** `s` is the state after some number of attempts from `base`, which used up `k` windows. */
  ghost predicate OnSchedule<L, V, E>(base: State<L, V, E>, env: seq<seq<Action>>, k: nat, s: State<L, V, E>) {
    |base.threads| > 0 && exists n: nat :: AfterAttempts(base, env, n, k, s)
  }

  ghost predicate AfterAttempts<L, V, E>(base: State<L, V, E>, env: seq<seq<Action>>, n: nat, k: nat,
                                         s: State<L, V, E>)
    requires |base.threads| > 0
  {
    s == Attempted(base, env, n) && k == Used(env, n)
  }

  /** ... and the window before the next attempt has been played too. */
  ghost predicate WindowOver<L, V, E>(base: State<L, V, E>, env: seq<seq<Action>>, k: nat, s: State<L, V, E>) {
    |base.threads| > 0 && exists n: nat :: BeforeAttempt(base, env, n, k, s)
  }

  ghost predicate BeforeAttempt<L, V, E>(base: State<L, V, E>, env: seq<seq<Action>>, n: nat, k: nat,
                                         s: State<L, V, E>)
    requires |base.threads| > 0
  {
    && k == Used(env, n + 1)
    && var before := Attempted(base, env, n); s == Exec(before, Played(before, WindowAt(env, n)))
  }

  lemma ScheduleStarts<L, V, E>(base: State<L, V, E>, env: seq<seq<Action>>)
    requires |base.threads| > 0
    ensures OnSchedule(base, env, 0, base)
  {
    assert AfterAttempts(base, env, 0, 0, base);
  }

  lemma WindowPlayed<L, V, E>(base: State<L, V, E>, env: seq<seq<Action>>, k: nat, s: State<L, V, E>)
    requires OnSchedule(base, env, k, s)
    ensures |s.threads| > 0
    ensures var s' := if k < |env| then Exec(s, Played(s, env[k])) else s;
            WindowOver(base, env, if k < |env| then k + 1 else k, s') && CallerKept(s, s')
  {
    var n: nat :| AfterAttempts(base, env, n, k, s);
    assert WindowAt(env, k) == WindowAt(env, n);
    PlayedKeepsCaller(s, WindowAt(env, k));
    var s' := if k < |env| then Exec(s, Played(s, env[k])) else s;
    assert BeforeAttempt(base, env, n, if k < |env| then k + 1 else k, s');
  }

  lemma AttemptFails<L, V, E>(base: State<L, V, E>, env: seq<seq<Action>>, k: nat, s: State<L, V, E>)
    requires WindowOver(base, env, k, s) && |s.threads| > 0 && !CanStep(s, 0)
    ensures OnSchedule(base, env, k, s)
  {
    var n: nat :| BeforeAttempt(base, env, n, k, s);
    assert AfterAttempts(base, env, n + 1, k, s);
  }

  lemma AttemptSucceeds<L, V, E>(base: State<L, V, E>, env: seq<seq<Action>>, k: nat, s: State<L, V, E>)
    requires WindowOver(base, env, k, s) && |s.threads| > 0 && CanStep(s, 0)
    ensures OnSchedule(base, env, k, Next(s, Step(0)))
  {
    var n: nat :| BeforeAttempt(base, env, n, k, s);
    assert AfterAttempts(base, env, n + 1, k, Next(s, Step(0)));
  }

  // ---------------------------------------------------------------- schedules are runs

  lemma {:induction false} AttemptsAreARun<L, V, E>(base: State<L, V, E>, env: seq<seq<Action>>, n: nat)
    returns (log: seq<Action>)
    requires |base.threads| > 0
    ensures Legal(base, log) && Exec(base, log) == Attempted(base, env, n)
  {
    if n == 0 {
      log := [];
    } else {
      log := AttemptsAreARun(base, env, n - 1);
      log := AttemptIsARun(base, log, WindowAt(env, n - 1));
    }
  }

  lemma AttemptIsARun<L, V, E>(base: State<L, V, E>, log: seq<Action>, others: seq<Action>)
    returns (longer: seq<Action>)
    requires |base.threads| > 0 && Legal(base, log)
    ensures Legal(base, longer) && Exec(base, longer) == Attempt(Exec(base, log), others)
  {
    var s := Exec(base, log);
    RunsCompose(base, log, Played(s, others));
    longer := log + Played(s, others);
    if CanStep(Exec(base, longer), 0) {
      OneMore(base, longer, Step(0));
      longer := longer + [Step(0)];
    }
  }

  /** The owner's schedule is a run, so all that holds of runs holds of it. */
  lemma ScheduleIsARun<L, V, E>(base: State<L, V, E>, env: seq<seq<Action>>, k: nat, s: State<L, V, E>)
    returns (log: seq<Action>)
    requires OnSchedule(base, env, k, s)
    ensures Legal(base, log) && Exec(base, log) == s
  {
    var n: nat :| AfterAttempts(base, env, n, k, s);
    log := AttemptsAreARun(base, env, n);
  }
}
