/** How a method of the logger shares a run with the other threads: they take the steps of one
    window of a script after another, and the method takes its own in between. */
module LoggerSchedule {
  import opened LoggerProtocol
  import opened LoggerTheorems

  /** On whose behalf a method runs; the steps that are its own are not left to the others. */
  datatype Role = Client(client: nat) | DrainThread | Closer

  predicate Mine<M>(role: Role, a: Action<M>) {
    match role
    case Client(c) => a.FlushReturn? && a.client == c
    case DrainThread => a.DrainStep?
    case Closer => a.Stop? || a.Close?
  }

  /** The steps taken from a window: each one that is possible when its turn comes and is not the
      method's own. */
  ghost function Played<M>(s: State<M>, role: Role, others: seq<Action<M>>): (played: seq<Action<M>>)
    ensures Legal(s, played)
    decreases |others|
  {
    if others == [] then []
    else
      var before, a := Played(s, role, others[..|others| - 1]), others[|others| - 1];
      if Mine(role, a) || !Enabled(Exec(s, before), a) then before
      else
        OneMore(s, before, a);
        before + [a]
  }

  lemma PlayedNext<M>(s: State<M>, role: Role, others: seq<Action<M>>, i: nat)
    requires i < |others|
    ensures var before, a := Played(s, role, others[..i]), others[i];
            var skipped := Mine(role, a) || !Enabled(Exec(s, before), a);
            Played(s, role, others[..i + 1]) == (if skipped then before else before + [a])
  {
    assert others[..i + 1][..i] == others[..i];
  }

  /** What the others leave alone. */
  lemma {:induction false} PlayedSpares<M>(s: State<M>, role: Role, others: seq<Action<M>>)
    ensures var played := Played(s, role, others);
            && (forall i :: 0 <= i < |played| ==> !Mine(role, played[i]))
            && (role.DrainThread? ==> Exec(s, played).drain == s.drain)
            && (role.Closer? ==> Exec(s, played).closing == s.closing)
            && (role.Client? && role.client < |s.clients| && s.clients[role.client].Flushing? ==>
                  Exec(s, played).clients[role.client] == s.clients[role.client])
    decreases |others|
  {
    if others != [] {
      var before, a := Played(s, role, others[..|others| - 1]), others[|others| - 1];
      PlayedSpares(s, role, others[..|others| - 1]);
      if !Mine(role, a) && Enabled(Exec(s, before), a) { OneMore(s, before, a); }
    }
  }

  function WindowAt<M>(env: seq<seq<Action<M>>>, k: nat): seq<Action<M>> {
    if k < |env| then env[k] else []
  }

  function Used<M>(env: seq<seq<Action<M>>>, n: nat): nat {
    if n < |env| then n else |env|
  }

  // ---------------------------------------------------------------- waiting methods

  /** A method that only waits: the first `n` windows, one after the other. */
  ghost function Waited<M>(base: State<M>, role: Role, env: seq<seq<Action<M>>>, n: nat): (log: seq<Action<M>>)
    requires n <= |env|
    ensures Legal(base, log)
  {
    if n == 0 then []
    else
      var before := Waited(base, role, env, n - 1);
      RunsCompose(base, before, Played(Exec(base, before), role, env[n - 1]));
      before + Played(Exec(base, before), role, env[n - 1])
  }

  /** `log` is the run of the first `k` windows, and the method still waits. */
  ghost predicate HasWaited<M>(base: State<M>, role: Role, env: seq<seq<Action<M>>>, k: nat, log: seq<Action<M>>) {
    && k <= |env| && Legal(base, log) && log == Waited(base, role, env, k)
    && (role.Closer? ==> Exec(base, log).closing == base.closing)
    && (role.Client? ==> StaysInFlush(role.client, log) && SameClient(base, Exec(base, log), role.client))
  }

  ghost predicate SameClient<M>(s: State<M>, s': State<M>, c: nat) {
    |s'.clients| == |s.clients| && (c < |s.clients| && s.clients[c].Flushing? ==> s'.clients[c] == s.clients[c])
  }

  lemma WaitsOn<M>(base: State<M>, role: Role, env: seq<seq<Action<M>>>, k: nat, log: seq<Action<M>>)
    requires HasWaited(base, role, env, k, log) && k < |env|
    ensures HasWaited(base, role, env, k + 1, log + Played(Exec(base, log), role, env[k]))
  {
    var s := Exec(base, log);
    PlayedSpares(s, role, env[k]);
    RunsCompose(base, log, Played(s, role, env[k]));
  }

  // ---------------------------------------------------------------- the drain thread

  /** The drain thread's first `n` steps, each after the next window, if there is one left. */
  ghost function Drains<M>(base: State<M>, env: seq<seq<Action<M>>>, n: nat): (log: seq<Action<M>>)
    ensures Legal(base, log)
    decreases n, 0
  {
    if n == 0 then []
    else
      var before := Paused(base, env, n - 1);
      if Exec(base, before).drain.Exited? then before
      else
        OneMore(base, before, DrainStep);
        before + [DrainStep]
  }

  /** ... and the window after them. */
  ghost function Paused<M>(base: State<M>, env: seq<seq<Action<M>>>, n: nat): (log: seq<Action<M>>)
    ensures Legal(base, log)
    decreases n, 1
  {
    var before := Drains(base, env, n);
    RunsCompose(base, before, Played(Exec(base, before), DrainThread, WindowAt(env, n)));
    before + Played(Exec(base, before), DrainThread, WindowAt(env, n))
  }

  lemma {:induction false} DrainCountAppend<M>(a: seq<Action<M>>, b: seq<Action<M>>)
    ensures DrainCount(a + b) == DrainCount(a) + DrainCount(b)
    decreases |a|
  {
    if a == [] {
      assert a + b == b;
    } else {
      assert (a + b)[0] == a[0] && (a + b)[1..] == a[1..] + b;
      DrainCountAppend(a[1..], b);
    }
  }

  lemma {:induction false} NoDrains<M>(actions: seq<Action<M>>)
    requires forall i :: 0 <= i < |actions| ==> !actions[i].DrainStep?
    ensures DrainCount(actions) == 0
    decreases |actions|
  {
    if actions != [] { NoDrains(actions[1..]); }
  }

  lemma PauseDrainsNothing<M>(base: State<M>, env: seq<seq<Action<M>>>, n: nat)
    ensures DrainCount(Paused(base, env, n)) == DrainCount(Drains(base, env, n))
    ensures Exec(base, Paused(base, env, n)).drain == Exec(base, Drains(base, env, n)).drain
  {
    var before := Drains(base, env, n);
    var played := Played(Exec(base, before), DrainThread, WindowAt(env, n));
    PlayedSpares(Exec(base, before), DrainThread, WindowAt(env, n));
    NoDrains(played);
    DrainCountAppend(before, played);
    RunsCompose(base, before, played);
  }

  /** One more step of the drain thread. */
  lemma DrainsNext<M>(base: State<M>, env: seq<seq<Action<M>>>, n: nat)
    requires !Exec(base, Paused(base, env, n)).drain.Exited?
    ensures Drains(base, env, n + 1) == Paused(base, env, n) + [DrainStep]
    ensures Exec(base, Drains(base, env, n + 1)) == Drained(Exec(base, Paused(base, env, n)))
    ensures DrainCount(Drains(base, env, n + 1)) == DrainCount(Drains(base, env, n)) + 1
  {
    OneMore(base, Paused(base, env, n), DrainStep);
    PauseDrainsNothing(base, env, n);
    DrainCountAppend(Paused(base, env, n), [DrainStep]);
    assert [Action<M>.DrainStep][1..] == [];
  }

  /** `log` is the run of the drain thread's first `n` steps. */
  ghost predicate OnSchedule<M>(base: State<M>, env: seq<seq<Action<M>>>, n: nat, log: seq<Action<M>>) {
    log == Drains(base, env, n) && DrainCount(log) == n
  }

  /** The next window is played, and then the drain thread steps. */
  lemma ScheduleGoesOn<M>(base: State<M>, env: seq<seq<Action<M>>>, n: nat, log: seq<Action<M>>, played: seq<Action<M>>)
    requires Legal(base, log) && OnSchedule(base, env, n, log) && !Exec(base, log).drain.Exited?
    requires played == if n < |env| then Played(Exec(base, log), DrainThread, env[n]) else []
    ensures Legal(base, log + played) && Exec(base, log + played) == Exec(Exec(base, log), played)
    ensures Exec(base, log + played).drain == Exec(base, log).drain
    ensures Legal(base, log + played + [DrainStep]) && OnSchedule(base, env, n + 1, log + played + [DrainStep])
    ensures Exec(base, log + played + [DrainStep]) == Drained(Exec(base, log + played))
  {
    RunsCompose(base, log, played);
    assert log + played == Paused(base, env, n);
    PauseDrainsNothing(base, env, n);
    DrainsNext(base, env, n);
  }

  // ---------------------------------------------------------------- the end of waiting

  lemma {:induction false} NothingPushedWhileClosing<M>(s: State<M>, actions: seq<Action<M>>, target: nat)
    requires Inv(s) && !s.closing.Open? && Legal(s, actions)
    ensures DelayCount(s, actions, target) == 0
    ensures !Exec(s, actions).closing.Open?
    decreases |actions|
  {
    if actions != [] {
      StepKeepsInv(s, actions[0]);
      NothingPushedWhileClosing(Next(s, actions[0]), actions[1..], target);
    }
  }

  lemma {:induction false} CloserWaits<M>(s: State<M>, actions: seq<Action<M>>)
    requires Inv(s) && s.closing.CloserFlushing? && Legal(s, actions)
    ensures var s' := Exec(s, actions); s'.closing.Joining? || s'.closing == s.closing
    decreases |actions|
  {
    if actions != [] {
      var s1 := Next(s, actions[0]);
      StepKeepsInv(s, actions[0]);
      if s1.closing.CloserFlushing? {
        CloserWaits(s1, actions[1..]);
      } else {
        JoiningStays(s1, actions[1..]);
      }
    }
  }

  lemma {:induction false} JoiningStays<M>(s: State<M>, actions: seq<Action<M>>)
    requires s.closing.Joining? && Legal(s, actions)
    ensures Exec(s, actions).closing.Joining?
    decreases |actions|
  {
    if actions != [] { JoiningStays(Next(s, actions[0]), actions[1..]); }
  }

  /** The destructor gets past its flush: in any run, once the drain thread has made as many steps
      as there were entries to sink, and five more, it has cleared running_ or can. */
  lemma CloserIsServed<M>(level: Level, n: nat, before: seq<Action<M>>, after: seq<Action<M>>)
    requires Legal(Initial<M>(level, n), before) && Legal(Exec(Initial<M>(level, n), before), after)
    requires var s := Exec(Initial<M>(level, n), before);
             s.closing.CloserFlushing? && DrainCount(after) >= |Rest(s)| + |s.queue| + 5
    ensures var s' := Exec(Exec(Initial<M>(level, n), before), after);
            s'.closing.Joining? || Enabled(s', Stop)
  {
    RunKeepsInv(Initial<M>(level, n), before);
    ClosingServed(Exec(Initial<M>(level, n), before), after);
  }

  lemma ClosingServed<M>(s: State<M>, actions: seq<Action<M>>)
    requires Inv(s) && s.closing.CloserFlushing? && Legal(s, actions)
    requires DrainCount(actions) >= |Rest(s)| + |s.queue| + 5
    ensures var s' := Exec(s, actions);
            s'.closing.Joining? || (s'.closing == s.closing && s'.done >= s.closing.target)
  {
    NothingPushedWhileClosing(s, actions, s.pending);
    InterleavedServes(s, actions);
    CloserWaits(s, actions);
  }

  /** The drain thread's steps to its exit once running_ is cleared. */
  function StepsToExit<M>(s: State<M>): nat {
    match s.drain
    case Collect => 4
    case Sinking(_, _) => 3
    case TestRunning => 2
    case TestQueue => 1
    case Exited => 0
  }

  lemma {:induction false} JoinedWithin<M>(s: State<M>, actions: seq<Action<M>>)
    requires Inv(s) && s.closing.Joining? && Legal(s, actions) && DrainCount(actions) >= StepsToExit(s)
    ensures Exec(s, actions).drain.Exited?
    decreases |actions|
  {
    if actions != [] {
      var s1 := Next(s, actions[0]);
      assert |s.accepted| == |s.sunk| + |Rest(s)| + |s.queue|;
      StepKeepsInv(s, actions[0]);
      assert StepsToExit(s1) + (if actions[0].DrainStep? then 1 else 0) == StepsToExit(s);
      JoinedWithin(s1, actions[1..]);
    }
  }

  lemma JoinedWithinFour<M>(s: State<M>, actions: seq<Action<M>>)
    requires Inv(s) && s.closing.Joining? && Legal(s, actions)
    ensures DrainCount(actions) >= 4 ==> Exec(s, actions).drain.Exited?
  {
    if DrainCount(actions) >= 4 { JoinedWithin(s, actions); }
  }

  /** ... and then its join ends: in any run, four more steps of the drain thread and it exits. */
  lemma DrainThreadIsJoined<M>(level: Level, n: nat, before: seq<Action<M>>, after: seq<Action<M>>)
    requires Legal(Initial<M>(level, n), before) && Legal(Exec(Initial<M>(level, n), before), after)
    requires Exec(Initial<M>(level, n), before).closing.Joining? && DrainCount(after) >= 4
    ensures var s' := Exec(Exec(Initial<M>(level, n), before), after);
            s'.drain.Exited? && s'.sunk == s'.accepted
  {
    RunKeepsInv(Initial<M>(level, n), before);
    var s := Exec(Initial<M>(level, n), before);
    JoinedWithinFour(s, after);
    RunKeepsInv(s, after);
    JoiningStays(s, after);
  }

  lemma FlushServed<M>(s: State<M>, c: nat, actions: seq<Action<M>>)
    requires Inv(s) && Legal(s, actions) && c < |s.clients| && s.clients[c].Flushing?
    requires DrainCount(actions) >= |Rest(s)| + |s.queue| + 5 + DelayCount(s, actions, s.pending)
    ensures Exec(s, actions).done >= s.clients[c].target
  {
    InterleavedServes(s, actions);
  }

  /** A flush that is under way may return, in any run, once the drain thread has made enough
      steps: those for the entries to sink, five more, and one for each push that came before the
      swap of the serving batch. */
  lemma FlushMayReturn<M>(level: Level, n: nat, before: seq<Action<M>>, c: nat, after: seq<Action<M>>)
    requires Legal(Initial<M>(level, n), before) && Legal(Exec(Initial<M>(level, n), before), after)
    requires var s := Exec(Initial<M>(level, n), before);
             && c < |s.clients| && s.clients[c].Flushing? && StaysInFlush(c, after)
             && DrainCount(after) >= |Rest(s)| + |s.queue| + 5 + DelayCount(s, after, s.pending)
    ensures Enabled(Exec(Exec(Initial<M>(level, n), before), after), FlushReturn(c))
  {
    RunKeepsInv(Initial<M>(level, n), before);
    var s := Exec(Initial<M>(level, n), before);
    InterleavedServes(s, after);
    StillFlushing(s, after, c);
  }
}
