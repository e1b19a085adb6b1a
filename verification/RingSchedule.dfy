/** How a call of one thread shares a run with the other threads: one window of a script is played
    before each of its atomic operations, for as long as the script lasts. */
module RingSchedule {
  import opened RingProtocol
  import opened RingInvariant
  import opened RingFifo
  import opened RingProgress
  import opened RingTrace

  /** What happens between two consecutive atomic operations of one thread: steps of other
      threads (those not enabled when their turn comes are skipped), and whether the operation
      that follows, if it is a CAS, fails spuriously. */
  datatype Window<T> = Window(others: seq<Move<T>>, spurious: bool)

  function Length<T>(env: seq<Window<T>>): nat {
    if env == [] then 0 else |env[0].others| + Length(env[1..])
  }

  function OthersAt<T>(env: seq<Window<T>>, k: nat): seq<Move<T>> {
    if k < |env| then env[k].others else []
  }

  function Used<T>(env: seq<Window<T>>, n: nat): nat {
    if n < |env| then n else |env|
  }

  /** The steps taken from a window: each move of another thread that is possible when its turn
      comes. */
  ghost function Played<T>(s: Ring<T>, t: nat, others: seq<Move<T>>): (played: seq<Move<T>>)
    requires Shaped(s)
    ensures Legal(s, played) && ByOthers(t, played)
    decreases |others|
  {
    if others == [] then []
    else
      var before, m := Played(s, t, others[..|others| - 1]), others[|others| - 1];
      if m.thread == t || !Enabled(Exec(s, before), m) then before
      else
        OneMove(s, before, m);
        before + [m]
  }

  lemma OneMove<T>(s: Ring<T>, log: seq<Move<T>>, m: Move<T>)
    requires Shaped(s) && Legal(s, log) && Enabled(Exec(s, log), m)
    ensures Legal(s, log + [m]) && Exec(s, log + [m]) == Next(Exec(s, log), m)
  {
    assert [m][1..] == [] && Legal(Next(Exec(s, log), m), []);
    RunsCompose(s, log, [m]);
  }

  lemma PlayedNext<T>(s: Ring<T>, t: nat, others: seq<Move<T>>, i: nat)
    requires Shaped(s) && i < |others|
    ensures var before, m := Played(s, t, others[..i]), others[i];
            var skipped := m.thread == t || !Enabled(Exec(s, before), m);
            Played(s, t, others[..i + 1]) == (if skipped then before else before + [m])
  {
    assert others[..i + 1][..i] == others[..i];
  }

  // ---------------------------------------------------------------- the turns of one call

  /** The `n`-th operation of `t` is a CAS, and the script makes it fail. */
  predicate CasFails<T>(s: Ring<T>, t: nat, env: seq<Window<T>>, n: nat)
    requires t < |s.threads|
  {
    n < |env| && env[n].spurious && (s.threads[t].PushClaim? || s.threads[t].PopClaim?)
  }

  /** The thread's next atomic operation; a CAS may be made to fail. */
  function OwnMove<T>(s: Ring<T>, t: nat, env: seq<Window<T>>, n: nat): Move<T>
    requires t < |s.threads|
  {
    Move(t, if CasFails(s, t, env, n) then SpuriousFailure else Advance)
  }

  /** The run of the first `n` operations of thread `t`, until it is at rest. */
  ghost function Turns<T>(base: Ring<T>, t: nat, env: seq<Window<T>>, n: nat): (log: seq<Move<T>>)
    requires Shaped(base) && t < |base.threads|
    ensures Legal(base, log)
    decreases n, 0
  {
    if n == 0 then []
    else
      var before := Windowed(base, t, env, n - 1);
      var s := Exec(base, before);
      if s.threads[t].AtRest() then before
      else
        OneMove(base, before, OwnMove(s, t, env, n - 1));
        before + [OwnMove(s, t, env, n - 1)]
  }

  /** ... and the window after them. */
  ghost function Windowed<T>(base: Ring<T>, t: nat, env: seq<Window<T>>, n: nat): (log: seq<Move<T>>)
    requires Shaped(base) && t < |base.threads|
    ensures Legal(base, log)
    decreases n, 1
  {
    var before := Turns(base, t, env, n);
    RunsCompose(base, before, Played(Exec(base, before), t, OthersAt(env, n)));
    before + Played(Exec(base, before), t, OthersAt(env, n))
  }

  function OwnCount<T>(t: nat, moves: seq<Move<T>>): nat {
    if moves == [] then 0 else (if moves[0].thread == t then 1 else 0) + OwnCount(t, moves[1..])
  }

  lemma {:induction false} OwnCountAppend<T>(t: nat, a: seq<Move<T>>, b: seq<Move<T>>)
    ensures OwnCount(t, a + b) == OwnCount(t, a) + OwnCount(t, b)
    decreases |a|
  {
    if a == [] {
      assert a + b == b;
    } else {
      assert (a + b)[0] == a[0] && (a + b)[1..] == a[1..] + b;
      OwnCountAppend(t, a[1..], b);
    }
  }

  lemma {:induction false} OthersCountZero<T>(t: nat, moves: seq<Move<T>>)
    requires ByOthers(t, moves)
    ensures OwnCount(t, moves) == 0
    decreases |moves|
  {
    if moves != [] { OthersCountZero(t, moves[1..]); }
  }

  /** `log` is the run of the operations that `t` has made since `base`, each after its window; `k`
      windows are used up. */
  ghost predicate OnSchedule<T>(t: nat, base: Ring<T>, env: seq<Window<T>>, k: nat, log: seq<Move<T>>) {
    && Shaped(base) && t < |base.threads|
    && log == Turns(base, t, env, OwnCount(t, log)) && k == Used(env, OwnCount(t, log))
  }

  /** ... and the window before the next one has been played too. */
  ghost predicate WindowOver<T>(t: nat, base: Ring<T>, env: seq<Window<T>>, k: nat, log: seq<Move<T>>) {
    && Shaped(base) && t < |base.threads|
    && log == Windowed(base, t, env, OwnCount(t, log)) && k == Used(env, OwnCount(t, log) + 1)
  }

  /** The window opens. */
  lemma WindowPlayed<T>(t: nat, base: Ring<T>, env: seq<Window<T>>, k: nat, log: seq<Move<T>>, loads: nat,
                        reports: seq<Event<T>>, played: seq<Move<T>>)
    requires During(t, base, log, loads, reports) && OnSchedule(t, base, env, k, log)
    requires played == if k < |env| then Played(Exec(base, log), t, env[k].others) else []
    ensures During(t, base, log + played, loads, reports)
    ensures WindowOver(t, base, env, if k < |env| then k + 1 else k, log + played)
    ensures Exec(base, log + played) == Exec(Exec(base, log), played)
    ensures Exec(base, log + played).threads[t] == Exec(base, log).threads[t]
    ensures OwnCount(t, log + played) == OwnCount(t, log)
  {
    OthersRun(t, base, log, loads, reports, played);
    OthersCountZero(t, played);
    OwnCountAppend(t, log, played);
    assert OthersAt(env, k) == OthersAt(env, OwnCount(t, log));
  }

  lemma TurnsNext<T>(t: nat, base: Ring<T>, env: seq<Window<T>>, n: nat, m: Move<T>)
    requires Shaped(base) && t < |base.threads|
    requires var s := Exec(base, Windowed(base, t, env, n));
             && !s.threads[t].AtRest() && m.thread == t
             && m.action == if CasFails(s, t, env, n) then SpuriousFailure else Advance
    ensures Turns(base, t, env, n + 1) == Windowed(base, t, env, n) + [m]
  {
  }

  lemma OwnCountNext<T>(t: nat, log: seq<Move<T>>, m: Move<T>)
    requires m.thread == t
    ensures OwnCount(t, log + [m]) == OwnCount(t, log) + 1
  {
    OwnCountAppend(t, log, [m]);
    assert [m][1..] == [] && OwnCount(t, [m]) == 1;
  }

  lemma TurnTaken<T>(t: nat, base: Ring<T>, env: seq<Window<T>>, k: nat, log: seq<Move<T>>, m: Move<T>)
    requires Shaped(base) && t < |base.threads| && Legal(base, log)
    requires WindowOver(t, base, env, k, log) && !Exec(base, log).threads[t].AtRest()
    requires m.thread == t
    requires m.action == if CasFails(Exec(base, log), t, env, OwnCount(t, log)) then SpuriousFailure else Advance
    ensures OnSchedule(t, base, env, k, log + [m])
  {
    TurnsNext(t, base, env, OwnCount(t, log), m);
    OwnCountNext(t, log, m);
  }

  /** After its window, an operation that neither loads a sequence nor returns. */
  lemma InnerTurn<T>(t: nat, base: Ring<T>, env: seq<Window<T>>, k: nat, log: seq<Move<T>>, loads: nat, m: Move<T>)
    requires During(t, base, log, loads, []) && WindowOver(t, base, env, k, log)
    requires m.thread == t
    requires m.action == if CasFails(Exec(base, log), t, env, OwnCount(t, log)) then SpuriousFailure else Advance
    requires var pc := Exec(base, log).threads[t];
             !pc.AtRest() && !pc.PushPos? && !pc.PopPos? && !pc.PushFilled? && !pc.PopTaken?
    ensures During(t, base, log + [m], loads, []) && OnSchedule(t, base, env, k, log + [m])
    ensures Exec(base, log + [m]) == Next(Exec(base, log), m)
  {
    InnerStep(t, base, log, loads, m);
    TurnTaken(t, base, env, k, log, m);
  }

  /** ... the load of a slot's sequence. */
  lemma LoadTurn<T>(t: nat, base: Ring<T>, env: seq<Window<T>>, k: nat, log: seq<Move<T>>, loads: nat)
    requires During(t, base, log, loads, []) && WindowOver(t, base, env, k, log)
    requires var pc := Exec(base, log).threads[t]; pc.PushPos? || pc.PopPos?
    ensures var log' := log + [Move(t, Advance)];
            && During(t, base, log', loads + 1, []) && OnSchedule(t, base, env, k, log')
            && Exec(base, log') == Next(Exec(base, log), Move(t, Advance))
  {
    LoadStep(t, base, log, loads);
    TurnTaken(t, base, env, k, log, Move(t, Advance));
  }

  /** ... the sequence store, with which a successful call returns. */
  lemma LastTurn<T>(t: nat, base: Ring<T>, env: seq<Window<T>>, k: nat, log: seq<Move<T>>, loads: nat, e: Event<T>)
    requires During(t, base, log, loads, []) && WindowOver(t, base, env, k, log)
    requires var pc := Exec(base, log).threads[t];
             (pc.PushFilled? && e == Pushed(t, pc.value)) || (pc.PopTaken? && e == Popped(t, pc.value))
    ensures var log' := log + [Move(t, Advance)];
            && During(t, base, log', loads, [e]) && OnSchedule(t, base, env, k, log')
            && Exec(base, log') == Next(Exec(base, log), Move(t, Advance))
  {
    LastStep(t, base, log, loads, e);
    TurnTaken(t, base, env, k, log, Move(t, Advance));
  }
}
