/** Progress of the ring: how often a call can go round its retry loop, and what a thread
    running alone achieves; and the racy size estimate. */
module RingProgress {
  import opened RingProtocol
  import opened RingInvariant
  import opened RingFifo

  // ---------------------------------------------------------------- counters only grow

  lemma StepIsMonotone<T>(s: Ring<T>, m: Move<T>)
    requires Inv(s) && Enabled(s, m)
    ensures s.enqueuePos <= Next(s, m).enqueuePos && s.dequeuePos <= Next(s, m).dequeuePos
    ensures s.claimed <= Next(s, m).claimed
  {
  }

  lemma {:induction false} RunIsMonotone<T>(s: Ring<T>, moves: seq<Move<T>>)
    requires Inv(s) && Legal(s, moves)
    ensures s.enqueuePos <= Exec(s, moves).enqueuePos && s.dequeuePos <= Exec(s, moves).dequeuePos
    ensures s.claimed <= Exec(s, moves).claimed
    decreases |moves|
  {
    if moves != [] {
      StepKeepsInv(s, moves[0]);
      StepIsMonotone(s, moves[0]);
      RunIsMonotone(Next(s, moves[0]), moves[1..]);
    }
  }

  // ---------------------------------------------------------------- retries

  /** A passage through the head of a retry loop: the load of a slot's sequence by `t`. */
  function Passes<T>(t: nat, s: Ring<T>, m: Move<T>): nat
    requires Shaped(s) && Enabled(s, m)
  {
    if m.thread == t && m.action.Advance? && (s.threads[t].PushPos? || s.threads[t].PopPos?) then 1 else 0
  }

  /** A winning CAS by another thread on the counter that `t` is competing for. */
  function Losses<T>(t: nat, s: Ring<T>, m: Move<T>): nat
    requires Shaped(s) && Enabled(s, m) && t < |s.threads|
  {
    if m.thread == t then 0
    else if s.threads[t].InPushLoop() then Next(s, m).enqueuePos - s.enqueuePos
    else if s.threads[t].InPopLoop() then Next(s, m).dequeuePos - s.dequeuePos
    else 0
  }

  function Spurious<T>(t: nat, m: Move<T>): nat {
    if m.thread == t && m.action.SpuriousFailure? then 1 else 0
  }

  datatype Tally = Tally(passes: nat, losses: nat, spurious: nat)

  function Count<T>(t: nat, s: Ring<T>, moves: seq<Move<T>>): Tally
    requires Shaped(s) && Legal(s, moves) && t < |s.threads|
    decreases |moves|
  {
    if moves == [] then Tally(0, 0, 0)
    else
      var m := moves[0];
      var rest := Count(t, Next(s, m), moves[1..]);
      Tally(Passes(t, s, m) + rest.passes, Losses(t, s, m) + rest.losses, Spurious(t, m) + rest.spurious)
  }

  /** `t` stays inside one call: it starts nothing. */
  predicate SameCall<T>(t: nat, moves: seq<Move<T>>) {
    forall i :: 0 <= i < |moves| && moves[i].thread == t ==> !moves[i].action.StartPush? && !moves[i].action.StartPop?
  }

  /** How far behind the counter `t`'s position is, plus one if it is about to pass the loop
      head: what `t` may still spend without losing to anybody. */
  function Lag<T>(t: nat, s: Ring<T>): int
    requires t < |s.threads|
  {
    match s.threads[t]
    case PushPos(_, pos) => s.enqueuePos - pos + 1
    case PushStale(_, pos) => s.enqueuePos - pos
    case PushClaim(_, pos) => s.enqueuePos - pos
    case PopPos(pos) => s.dequeuePos - pos + 1
    case PopStale(pos) => s.dequeuePos - pos
    case PopClaim(pos) => s.dequeuePos - pos
    case _ => 0
  }

  /** Every retry strictly raises the local position: a step of `t` that passes the loop head
      uses up lag, and lag is only gained from a loss or a spurious failure. */
  lemma StepUsesLag<T>(t: nat, s: Ring<T>, m: Move<T>)
    requires Inv(s) && Enabled(s, m) && t < |s.threads|
    requires m.thread == t ==> !m.action.StartPush? && !m.action.StartPop?
    ensures Passes(t, s, m) + Lag(t, Next(s, m)) <= Lag(t, s) + Losses(t, s, m) + Spurious(t, m)
  {
    KnowPc(s, t);
    if m.thread != t { assert Next(s, m).threads[t] == s.threads[t]; }
  }

  lemma LagIsNonNegative<T>(t: nat, s: Ring<T>)
    requires Inv(s) && t < |s.threads|
    ensures Lag(t, s) >= 0
  {
    KnowPc(s, t);
  }

  lemma {:induction false} PassesAreBounded<T>(t: nat, s: Ring<T>, moves: seq<Move<T>>)
    requires Inv(s) && Legal(s, moves) && t < |s.threads| && SameCall(t, moves)
    ensures var c := Count(t, s, moves); c.passes <= Lag(t, s) + c.losses + c.spurious
    decreases |moves|
  {
    LagIsNonNegative(t, s);
    if moves != [] {
      var m, rest := moves[0], moves[1..];
      assert forall i :: 0 <= i < |rest| ==> rest[i] == moves[i + 1];
      StepKeepsInv(s, m);
      StepUsesLag(t, s, m);
      PassesAreBounded(t, Next(s, m), rest);
    }
  }

  /** The retry bound. A call, from its first load of the position on, loads a sequence at most
      once more than it loses to other threads' winning CASes on the same counter and fails
      spuriously, whatever else happens in between. */
  lemma RetriesAreBounded<T>(t: nat, s: Ring<T>, start: Move<T>, moves: seq<Move<T>>)
    requires Inv(s) && Enabled(s, start) && start.thread == t && (start.action.StartPush? || start.action.StartPop?)
    requires Legal(Next(s, start), moves) && SameCall(t, moves)
    ensures var c := Count(t, Next(s, start), moves); c.passes <= 1 + c.losses + c.spurious
  {
    StepKeepsInv(s, start);
    PassesAreBounded(t, Next(s, start), moves);
  }

  // ---------------------------------------------------------------- running alone

  /** `t` takes up to `steps` steps by itself, without spurious failures. */
  function Alone<T>(s: Ring<T>, t: nat, steps: nat): (s': Ring<T>)
    requires Shaped(s) && t < |s.threads|
    ensures Shaped(s') && |s'.threads| == |s.threads|
    decreases steps
  {
    if steps == 0 || s.threads[t].AtRest() then s else Alone(Advanced(s, t), t, steps - 1)
  }

  function PassesAlone<T>(s: Ring<T>, t: nat, steps: nat): nat
    requires Shaped(s) && t < |s.threads|
    decreases steps
  {
    if steps == 0 || s.threads[t].AtRest() then 0
    else (if s.threads[t].PushPos? || s.threads[t].PopPos? then 1 else 0) + PassesAlone(Advanced(s, t), t, steps - 1)
  }

  /** Steps a thread still needs when nobody interferes. */
  function StepsAlone<T>(s: Ring<T>, t: nat): nat
    requires t < |s.threads|
  {
    match s.threads[t]
    case PushPos(_, pos) => if pos == s.enqueuePos then 4 else 6
    case PushStale(_, _) => 5
    case PushClaim(_, pos) => if pos == s.enqueuePos then 3 else 5
    case PushOwn(_, _) => 2
    case PushFilled(_, _) => 1
    case PopPos(pos) => if pos == s.dequeuePos then 4 else 6
    case PopStale(_) => 5
    case PopClaim(pos) => if pos == s.dequeuePos then 3 else 5
    case PopOwn(_) => 2
    case PopTaken(_, _) => 1
    case _ => 0
  }

  function PassesLeft<T>(s: Ring<T>, t: nat): nat
    requires t < |s.threads|
  {
    match s.threads[t]
    case PushPos(_, pos) => if pos == s.enqueuePos then 1 else 2
    case PushStale(_, _) => 1
    case PushClaim(_, pos) => if pos == s.enqueuePos then 0 else 1
    case PopPos(pos) => if pos == s.dequeuePos then 1 else 2
    case PopStale(_) => 1
    case PopClaim(pos) => if pos == s.dequeuePos then 0 else 1
    case _ => 0
  }

  lemma AloneStep<T>(s: Ring<T>, t: nat)
    requires Inv(s) && t < |s.threads| && !s.threads[t].AtRest()
    ensures var s' := Advanced(s, t);
            && Inv(s') && StepsAlone(s', t) < StepsAlone(s, t)
            && (if s.threads[t].PushPos? || s.threads[t].PopPos? then 1 else 0) + PassesLeft(s', t) <= PassesLeft(s, t)
  {
    StepKeepsInv(s, Move(t, Advance));
    KnowPc(s, t);
    assert Enabled(s, Move(t, Advance));
    if s.threads[t].PushPos? && s.threads[t].pos == s.enqueuePos {
      assert TicketOk(s, s.dequeuePos);
      if s.enqueuePos < s.dequeuePos + s.capacity { assert TicketOk(s, s.enqueuePos); }
    } else if s.threads[t].PopPos? && s.threads[t].pos == s.dequeuePos {
      assert TicketOk(s, s.dequeuePos);
    }
  }

  lemma {:induction false} AloneFinishesWithin<T>(s: Ring<T>, t: nat, steps: nat)
    requires Inv(s) && t < |s.threads| && StepsAlone(s, t) <= steps
    ensures Alone(s, t, steps).threads[t].AtRest()
    ensures PassesAlone(s, t, steps) <= PassesLeft(s, t)
    decreases steps
  {
    if !s.threads[t].AtRest() {
      AloneStep(s, t);
      AloneFinishesWithin(Advanced(s, t), t, steps - 1);
    }
  }

  /** From any reachable state, whatever the other threads were in the middle of, a thread
      running alone finishes its call within six atomic steps and two passes of the loop. */
  lemma AloneFinishes<T>(s: Ring<T>, n: nat, moves: seq<Move<T>>, t: nat)
    requires Initial(s, n) && Legal(s, moves) && t < n
    ensures Alone(Exec(s, moves), t, 6).threads[t].AtRest()
    ensures PassesAlone(Exec(s, moves), t, 6) <= 2
  {
    InitialInv(s, n);
    RunKeepsInv(s, moves);
    AloneFinishesWithin(Exec(s, moves), t, 6);
  }

  // ---------------------------------------------------------------- size_approx

  /** `size_approx` loads enqueue_pos_, then dequeue_pos_; `between` is whatever other threads
      did in between. The estimate never exceeds the capacity, nor the number of items there
      were at the first load. */
  lemma SizeEstimateIsBounded<T>(s: Ring<T>, n: nat, before: seq<Move<T>>, between: seq<Move<T>>)
    requires Initial(s, n) && Legal(s, before) && Legal(Exec(s, before), between)
    ensures var s1 := Exec(s, before); var s2 := Exec(s1, between);
            Inv(s1) && Inv(s2) &&
            var estimate := if s1.enqueuePos >= s2.dequeuePos then s1.enqueuePos - s2.dequeuePos else 0;
            estimate <= |Items(s1)| <= s.capacity
  {
    InitialInv(s, n);
    RunKeepsInv(s, before);
    RunKeepsInv(Exec(s, before), between);
    RunIsMonotone(Exec(s, before), between);
  }
}
