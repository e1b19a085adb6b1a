/** `LockFreeQueue`: the ring as an object whose arrays and counters are updated in place, with
    `try_push` and `try_pop` as the retry loops of the source. */
module LockFree {
  import opened Words
  import opened RingProtocol
  import opened RingInvariant
  import opened RingFifo
  import opened RingProgress
  import opened RingWords
  import opened RingTrace
  import opened RingSchedule

  class LockFreeQueue<T(0)> {
    const capacity: nat
    const mask: nat
    const sequence: array<nat>
    const data: array<T>
    var enqueuePos: nat
    var dequeuePos: nat
    var threads: seq<Pc<T>>  // where each thread that uses the queue stands
    ghost var claimed: seq<T>

    ghost function State(): Ring<T>
      reads this, sequence, data
    {
      Ring(capacity, sequence[..], data[..], enqueuePos, dequeuePos, threads, claimed)
    }

    ghost predicate Valid()
      reads this, sequence, data
    {
      && sequence as object != data as object
      && IsPow2(capacity) && mask == capacity - 1
      && Inv(State()) && Ceiling(State())
    }

    /** All that the 64-bit code itself needs: power-of-two capacity and everything a word. */
    ghost predicate OnWords()
      reads this, sequence, data
    {
      sequence as object != data as object && mask == capacity - 1 && Wordy(State())
    }

    /** Below 2^63 the code makes the protocol's steps. */
    ghost predicate Safe()
      reads this, sequence, data
    {
      Valid() && Fits(State())
    }

    constructor (minCapacity: nat, n: nat)
      requires minCapacity <= SIGN
      ensures Valid() && fresh(sequence) && fresh(data)
      ensures Initial(State(), n) && enqueuePos == 0 && dequeuePos == 0 && sequence.Length == capacity
      ensures (forall i :: 0 <= i < capacity ==> sequence[i] == i) && threads == seq(n, _ => Idle)
      ensures capacity >= 2 && capacity >= minCapacity
      ensures forall k: nat :: Pow2(k) >= 2 && Pow2(k) >= minCapacity ==> capacity <= Pow2(k)
    {
      var c := RoundUpPow2(minCapacity);
      capacity := c;
      mask := c - 1;
      sequence := new nat[c];
      data := new T[c];
      enqueuePos, dequeuePos := 0, 0;
      threads := seq(n, _ => Idle);
      claimed := [];
      new;
      for i := 0 to capacity
        invariant forall j :: 0 <= j < i ==> sequence[j] == j
        invariant enqueuePos == 0 && dequeuePos == 0 && claimed == [] && threads == seq(n, _ => Idle)
      {
        sequence[i] := i;
      }
      InitialInv(State(), n);
    }

    predicate CanMove(m: Move<T>)
      reads this, sequence, data
      ensures CanMove(m) == Enabled(State(), m)
    {
      && m.thread < |threads|
      && var pc := threads[m.thread];
         match m.action
         case StartPush(_) => pc.AtRest()
         case StartPop => pc.AtRest()
         case Advance => !pc.AtRest()
         case SpuriousFailure => pc.PushClaim? || pc.PopClaim?
    }

    /** A step has just been made: the invariant follows from the protocol. */
    ghost predicate Made(s: Ring<T>, m: Move<T>)
      reads this, sequence, data
    {
      Shaped(s) && Enabled(s, m) && State() == Next(s, m)
    }

    /** The step `m` of the 64-bit code has just been made. */
    ghost predicate WordMade(s: Ring<T>, m: Move<T>)
      reads this, sequence, data
    {
      Wordy(s) && Enabled(s, m) && State() == WordNext(s, m)
    }

    // -------------------------------------------------------------- atomic operations

    method LoadEnqueuePos(t: nat, value: T) returns (pos: nat)
      requires Valid() && t < |threads| && threads[t].AtRest()
      modifies this`threads
      ensures Valid() && Made(old(State()), Move(t, StartPush(value)))
      ensures pos == enqueuePos && threads == old(threads)[t := PushPos(value, pos)]
    {
      ghost var s, m := State(), Move(t, StartPush(value));
      pos := enqueuePos;
      threads := threads[t := PushPos(value, pos)];
      StepKeepsInv(s, m);
      StepKeepsCeiling(s, m);
    }

    method LoadSequenceForPush(t: nat, pos: nat) returns (diff: int)
      requires OnWords() && t < |threads| && threads[t].PushPos? && threads[t].pos == pos
      modifies this`threads
      ensures OnWords() && WordMade(old(State()), Move(t, Advance))
      ensures old(Safe()) ==> Valid() && Made(old(State()), Move(t, Advance))
      ensures pos % capacity < sequence.Length
      ensures diff == Signed(sequence[pos % capacity]) - Signed(pos)
      ensures threads == old(threads)[t := threads[t]]
      ensures threads[t] == if diff == 0 then PushClaim(old(threads[t].value), pos)
                            else if diff < 0 then PushDone(old(threads[t].value), false)
                            else PushStale(old(threads[t].value), pos)
    {
      ghost var s, m := State(), Move(t, Advance);
      AtomicStep(s, m);
      IndexIsSlot(pos, capacity);
      var loaded := sequence[BitAnd(pos, mask)];
      diff := Diff(loaded, pos);
      var value := threads[t].value;
      threads := threads[t := if diff == 0 then PushClaim(value, pos)
                              else if diff < 0 then PushDone(value, false)
                              else PushStale(value, pos)];
    }

    /** `enqueue_pos_.compare_exchange_weak(pos, pos + 1)`: on failure the current position is
        handed back. */
    method CasEnqueuePos(t: nat, pos: nat, spurious: bool) returns (won: bool, seen: nat)
      requires OnWords() && t < |threads| && threads[t].PushClaim? && threads[t].pos == pos
      modifies this`threads, this`enqueuePos, this`claimed
      ensures OnWords() && WordMade(old(State()), Move(t, if spurious then SpuriousFailure else Advance))
      ensures old(Safe()) ==> Valid() && Made(old(State()), Move(t, if spurious then SpuriousFailure else Advance))
      ensures won == (!spurious && old(enqueuePos) == pos)
      ensures enqueuePos == if won then Wrap(pos + 1) else old(enqueuePos)
      ensures claimed == if won then old(claimed) + [old(threads[t].value)] else old(claimed)
      ensures threads == old(threads)[t := threads[t]]
      ensures threads[t] == if won then PushOwn(old(threads[t].value), pos) else PushPos(old(threads[t].value), seen)
      ensures !won ==> seen == enqueuePos == old(enqueuePos)
      ensures enqueuePos <= old(enqueuePos) + 1
    {
      ghost var s, m := State(), Move(t, if spurious then SpuriousFailure else Advance);
      AtomicStep(s, m);
      var value := threads[t].value;
      seen := enqueuePos;
      won := !spurious && enqueuePos == pos;
      if won {
        enqueuePos := Wrap(pos + 1);
        claimed := claimed + [value];
        threads := threads[t := PushOwn(value, pos)];
      } else {
        threads := threads[t := PushPos(value, seen)];
      }
    }

    method ReloadEnqueuePos(t: nat) returns (pos: nat)
      requires Valid() && t < |threads| && threads[t].PushStale?
      modifies this`threads
      ensures Valid() && Made(old(State()), Move(t, Advance))
      ensures pos == enqueuePos && threads == old(threads)[t := PushPos(old(threads[t].value), pos)]
    {
      ghost var s, m := State(), Move(t, Advance);
      pos := enqueuePos;
      threads := threads[t := PushPos(threads[t].value, pos)];
      StepKeepsInv(s, m);
      StepKeepsCeiling(s, m);
    }

    method MoveIn(t: nat, pos: nat, value: T)
      requires OnWords() && t < |threads| && threads[t] == PushOwn(value, pos)
      modifies this`threads, data
      ensures OnWords() && WordMade(old(State()), Move(t, Advance))
      ensures old(Safe()) ==> Valid() && Made(old(State()), Move(t, Advance))
      ensures threads == old(threads)[t := PushFilled(value, pos)]
      ensures pos % capacity < data.Length && data[..] == old(data[..])[pos % capacity := value]
    {
      ghost var s, m := State(), Move(t, Advance);
      AtomicStep(s, m);
      IndexIsSlot(pos, capacity);
      data[BitAnd(pos, mask)] := value;
      threads := threads[t := PushFilled(value, pos)];
      assert State() == WordNext(s, m);
    }

    method Publish(t: nat, pos: nat)
      requires OnWords() && t < |threads| && threads[t].PushFilled? && threads[t].pos == pos
      modifies this`threads, sequence
      ensures OnWords() && WordMade(old(State()), Move(t, Advance))
      ensures old(Safe()) ==> Valid() && Made(old(State()), Move(t, Advance))
      ensures threads == old(threads)[t := PushDone(old(threads[t].value), true)]
      ensures pos % capacity < sequence.Length
      ensures sequence[..] == old(sequence[..])[pos % capacity := Wrap(pos + 1)]
    {
      ghost var s, m := State(), Move(t, Advance);
      AtomicStep(s, m);
      IndexIsSlot(pos, capacity);
      sequence[BitAnd(pos, mask)] := Wrap(pos + 1);
      threads := threads[t := PushDone(threads[t].value, true)];
      assert State() == WordNext(s, m);
    }

    method LoadDequeuePos(t: nat) returns (pos: nat)
      requires Valid() && t < |threads| && threads[t].AtRest()
      modifies this`threads
      ensures Valid() && Made(old(State()), Move(t, StartPop))
      ensures pos == dequeuePos && threads == old(threads)[t := PopPos(pos)]
    {
      ghost var s, m := State(), Move(t, StartPop);
      pos := dequeuePos;
      threads := threads[t := PopPos(pos)];
      StepKeepsInv(s, m);
      StepKeepsCeiling(s, m);
    }

    method LoadSequenceForPop(t: nat, pos: nat) returns (diff: int)
      requires OnWords() && t < |threads| && threads[t] == PopPos(pos)
      modifies this`threads
      ensures OnWords() && WordMade(old(State()), Move(t, Advance))
      ensures old(Safe()) ==> Valid() && Made(old(State()), Move(t, Advance))
      ensures pos % capacity < sequence.Length
      ensures diff == Signed(sequence[pos % capacity]) - Signed(Wrap(pos + 1))
      ensures threads == old(threads)[t := threads[t]]
      ensures threads[t] == if diff == 0 then PopClaim(pos) else if diff < 0 then PopEmpty else PopStale(pos)
    {
      ghost var s, m := State(), Move(t, Advance);
      AtomicStep(s, m);
      IndexIsSlot(pos, capacity);
      var loaded := sequence[BitAnd(pos, mask)];
      diff := Diff(loaded, Wrap(pos + 1));
      threads := threads[t := if diff == 0 then PopClaim(pos) else if diff < 0 then PopEmpty else PopStale(pos)];
    }

    method CasDequeuePos(t: nat, pos: nat, spurious: bool) returns (won: bool, seen: nat)
      requires OnWords() && t < |threads| && threads[t] == PopClaim(pos)
      modifies this`threads, this`dequeuePos
      ensures OnWords() && WordMade(old(State()), Move(t, if spurious then SpuriousFailure else Advance))
      ensures old(Safe()) ==> Valid() && Made(old(State()), Move(t, if spurious then SpuriousFailure else Advance))
      ensures won == (!spurious && old(dequeuePos) == pos)
      ensures dequeuePos == if won then Wrap(pos + 1) else old(dequeuePos)
      ensures threads == old(threads)[t := threads[t]]
      ensures threads[t] == if won then PopOwn(pos) else PopPos(seen)
      ensures !won ==> seen == dequeuePos == old(dequeuePos)
    {
      ghost var s, m := State(), Move(t, if spurious then SpuriousFailure else Advance);
      AtomicStep(s, m);
      seen := dequeuePos;
      won := !spurious && dequeuePos == pos;
      if won {
        dequeuePos := Wrap(pos + 1);
        threads := threads[t := PopOwn(pos)];
      } else {
        threads := threads[t := PopPos(seen)];
      }
    }

    method ReloadDequeuePos(t: nat) returns (pos: nat)
      requires Valid() && t < |threads| && threads[t].PopStale?
      modifies this`threads
      ensures Valid() && Made(old(State()), Move(t, Advance))
      ensures pos == dequeuePos && threads == old(threads)[t := PopPos(pos)]
    {
      ghost var s, m := State(), Move(t, Advance);
      pos := dequeuePos;
      threads := threads[t := PopPos(pos)];
      StepKeepsInv(s, m);
      StepKeepsCeiling(s, m);
    }

    method MoveOut(t: nat, pos: nat) returns (value: T)
      requires OnWords() && t < |threads| && threads[t] == PopOwn(pos)
      modifies this`threads
      ensures OnWords() && WordMade(old(State()), Move(t, Advance))
      ensures old(Safe()) ==> Valid() && Made(old(State()), Move(t, Advance))
      ensures threads == old(threads)[t := PopTaken(pos, value)]
      ensures pos % capacity < data.Length && value == data[pos % capacity]
    {
      ghost var s, m := State(), Move(t, Advance);
      AtomicStep(s, m);
      IndexIsSlot(pos, capacity);
      value := data[BitAnd(pos, mask)];
      threads := threads[t := PopTaken(pos, value)];
    }

    method Release(t: nat, pos: nat)
      requires OnWords() && t < |threads| && threads[t].PopTaken? && threads[t].pos == pos
      modifies this`threads, sequence
      ensures OnWords() && WordMade(old(State()), Move(t, Advance))
      ensures old(Safe()) ==> Valid() && Made(old(State()), Move(t, Advance))
      ensures threads == old(threads)[t := PopFound(old(threads[t].value))]
      ensures pos % capacity < sequence.Length
      ensures sequence[..] == old(sequence[..])[pos % capacity := Wrap(pos + capacity)]
    {
      ghost var s, m := State(), Move(t, Advance);
      AtomicStep(s, m);
      IndexIsSlot(pos, capacity);
      sequence[BitAnd(pos, mask)] := Wrap(pos + capacity);
      threads := threads[t := PopFound(threads[t].value)];
      assert State() == WordNext(s, m);
    }

    // -------------------------------------------------------------- interference

    /** One step of any thread. */
    method Perform(m: Move<T>)
      requires Valid() && Fits(State()) && CanMove(m)
      modifies this`threads, this`enqueuePos, this`dequeuePos, this`claimed, sequence, data
      ensures Valid() && Made(old(State()), m)
      ensures enqueuePos <= old(enqueuePos) + 1
    {
      FittingIsWordy(State());
      var t := m.thread;
      match m.action {
        case StartPush(item) => var _ := LoadEnqueuePos(t, item);
        case StartPop => var _ := LoadDequeuePos(t);
        case SpuriousFailure =>
          match threads[t] {
            case PushClaim(_, pos) => var _, _ := CasEnqueuePos(t, pos, true);
            case PopClaim(pos) => var _, _ := CasDequeuePos(t, pos, true);
          }
        case Advance =>
          match threads[t] {
            case PushPos(_, pos) => var _ := LoadSequenceForPush(t, pos);
            case PushStale(_, _) => var _ := ReloadEnqueuePos(t);
            case PushClaim(_, pos) => var _, _ := CasEnqueuePos(t, pos, false);
            case PushOwn(value, pos) => MoveIn(t, pos, value);
            case PushFilled(_, pos) => Publish(t, pos);
            case PopPos(pos) => var _ := LoadSequenceForPop(t, pos);
            case PopStale(_) => var _ := ReloadDequeuePos(t);
            case PopClaim(pos) => var _, _ := CasDequeuePos(t, pos, false);
            case PopOwn(pos) => var _ := MoveOut(t, pos);
            case PopTaken(pos, _) => Release(t, pos);
          }
      }
    }

    /** The other threads take the steps `others`, as far as each is possible when its turn
        comes, while `t` does nothing. */
    method Interfere(t: nat, others: seq<Move<T>>)
      requires Valid() && t < |threads| && enqueuePos + capacity + |others| < SIGN
      modifies this`threads, this`enqueuePos, this`dequeuePos, this`claimed, sequence, data
      ensures Valid() && State() == Exec(old(State()), Played(old(State()), t, others))
      ensures old(enqueuePos) <= enqueuePos <= old(enqueuePos) + |others|
    {
      ghost var s := State();
      for i := 0 to |others|
        invariant Valid() && Inv(s) && State() == Exec(s, Played(s, t, others[..i]))
        invariant enqueuePos <= old(enqueuePos) + i
      {
        PlayedNext(s, t, others, i);
        if others[i].thread != t && CanMove(others[i]) {
          OneMove(s, Played(s, t, others[..i]), others[i]);
          Perform(others[i]);
        }
      }
      assert others[..|others|] == others;
      RunIsMonotone(s, Played(s, t, others));
    }

    /** Enough headroom below 2^63 for every claim that the rest of `env` and `own` further
        claims of this thread could make. */
    predicate Room(env: seq<Window<T>>, k: nat, own: nat)
      requires k <= |env|
      reads this
    {
      enqueuePos + capacity + Length(env[k..]) + own < SIGN
    }

    /** The point between two atomic operations of `t`: the next window of `env` opens. */
    method Pause(t: nat, env: seq<Window<T>>, k: nat, ghost own: nat,
                 ghost base: Ring<T>, ghost log: seq<Move<T>>, ghost loads: nat, ghost reports: seq<Event<T>>)
      returns (k': nat, ghost log': seq<Move<T>>)
      requires Valid() && k <= |env| && Room(env, k, own)
      requires During(t, base, log, loads, reports) && State() == Exec(base, log) && t < |threads|
      requires OnSchedule(t, base, env, k, log)
      modifies this`threads, this`enqueuePos, this`dequeuePos, this`claimed, sequence, data
      ensures Valid() && k <= k' <= |env| && Room(env, k', own)
      ensures During(t, base, log', loads, reports) && State() == Exec(base, log')
      ensures WindowOver(t, base, env, k', log') && OwnCount(t, log') == OwnCount(t, log)
      ensures t < |threads| == |old(threads)| && threads[t] == old(threads[t]) && enqueuePos >= old(enqueuePos)
      ensures k < |env| ==> k' > k
      ensures k == |env| ==> State() == old(State())
      ensures OnWords() && Safe()
    {
      ghost var played := if k < |env| then Played(State(), t, env[k].others) else [];
      WindowPlayed(t, base, env, k, log, loads, reports, played);
      log' := log + played;
      if k < |env| {
        assert env[k..][0] == env[k] && env[k..][1..] == env[k + 1..];
        Interfere(t, env[k].others);
        k' := k + 1;
      } else {
        k' := k;
      }
      FittingIsWordy(State());
    }

    // -------------------------------------------------------------- try_push and try_pop

    /** Interference, then the load of the slot's sequence. */
    method NextPushLoad(t: nat, pos: nat, env: seq<Window<T>>, k: nat,
                        ghost base: Ring<T>, ghost log: seq<Move<T>>, ghost loads: nat)
      returns (diff: int, k': nat, ghost log': seq<Move<T>>)
      requires Valid() && k <= |env| && Room(env, k, 1) && t < |threads|
      requires During(t, base, log, loads, []) && State() == Exec(base, log) && OnSchedule(t, base, env, k, log)
      requires threads[t].PushPos? && threads[t].pos == pos
      modifies this`threads, this`enqueuePos, this`dequeuePos, this`claimed, sequence, data
      ensures Valid() && k <= k' <= |env| && Room(env, k', 1) && t < |threads| == |old(threads)|
      ensures During(t, base, log', loads + 1, []) && State() == Exec(base, log')
      ensures OnSchedule(t, base, env, k', log')
      ensures threads[t] == if diff == 0 then PushClaim(old(threads[t].value), pos)
                            else if diff < 0 then PushDone(old(threads[t].value), false)
                            else PushStale(old(threads[t].value), pos)
      ensures k == |env| ==> enqueuePos == old(enqueuePos)
      ensures k < |env| ==> k' > k
      ensures diff > 0 ==> pos < enqueuePos
      ensures diff < 0 ==> ToldFull(State())
    {
      ghost var log1;
      k', log1 := Pause(t, env, k, 1, base, log, loads, []);
      LoadTurn(t, base, env, k', log1, loads);
      FullAnswer(State(), t);
      diff := LoadSequenceForPush(t, pos);
      log' := log1 + [Move(t, Advance)];
    }

    /** Interference, then the CAS. */
    method NextPushCas(t: nat, pos: nat, env: seq<Window<T>>, k: nat,
                       ghost base: Ring<T>, ghost log: seq<Move<T>>, ghost loads: nat)
      returns (won: bool, seen: nat, k': nat, ghost log': seq<Move<T>>)
      requires Valid() && k <= |env| && Room(env, k, 1) && t < |threads|
      requires During(t, base, log, loads, []) && State() == Exec(base, log) && OnSchedule(t, base, env, k, log)
      requires threads[t].PushClaim? && threads[t].pos == pos
      modifies this`threads, this`enqueuePos, this`dequeuePos, this`claimed, sequence, data
      ensures Valid() && k <= k' <= |env| && Room(env, k', 0) && t < |threads| == |old(threads)|
      ensures During(t, base, log', loads, []) && State() == Exec(base, log')
      ensures OnSchedule(t, base, env, k', log')
      ensures threads[t] == if won then PushOwn(old(threads[t].value), pos) else PushPos(old(threads[t].value), seen)
      ensures !won ==> seen == enqueuePos && Room(env, k', 1)
      ensures k < |env| ==> k' > k
      ensures k < |env| && env[k].spurious ==> !won
      ensures k == |env| && !won ==> pos < enqueuePos == old(enqueuePos)
    {
      ClaimIsNotAhead(State(), t);
      var spurious := k < |env| && env[k].spurious;
      ghost var log1;
      k', log1 := Pause(t, env, k, 1, base, log, loads, []);
      ghost var m: Move<T> := Move(t, if spurious then SpuriousFailure else Advance);
      InnerTurn(t, base, env, k', log1, loads, m);
      won, seen := CasEnqueuePos(t, pos, spurious);
      log' := log1 + [m];
    }

    /** Interference, then the reload of a stale position. */
    method NextPushReload(t: nat, env: seq<Window<T>>, k: nat,
                          ghost base: Ring<T>, ghost log: seq<Move<T>>, ghost loads: nat)
      returns (pos: nat, k': nat, ghost log': seq<Move<T>>)
      requires Valid() && k <= |env| && Room(env, k, 1) && t < |threads|
      requires During(t, base, log, loads, []) && State() == Exec(base, log) && OnSchedule(t, base, env, k, log)
      requires threads[t].PushStale?
      modifies this`threads, this`enqueuePos, this`dequeuePos, this`claimed, sequence, data
      ensures Valid() && k <= k' <= |env| && Room(env, k', 1) && t < |threads| == |old(threads)|
      ensures During(t, base, log', loads, []) && State() == Exec(base, log')
      ensures OnSchedule(t, base, env, k', log')
      ensures threads[t] == PushPos(old(threads[t].value), pos) && pos == enqueuePos
      ensures k < |env| ==> k' > k
      ensures k == |env| ==> enqueuePos == old(enqueuePos)
    {
      ghost var log1;
      k', log1 := Pause(t, env, k, 1, base, log, loads, []);
      InnerTurn(t, base, env, k', log1, loads, Move(t, Advance));
      pos := ReloadEnqueuePos(t);
      log' := log1 + [Move(t, Advance)];
    }

    /** Interference, then the winner of the CAS moves the value in. */
    method NextMoveIn(t: nat, pos: nat, value: T, env: seq<Window<T>>, k: nat,
                      ghost base: Ring<T>, ghost log: seq<Move<T>>, ghost loads: nat)
      returns (k': nat, ghost log': seq<Move<T>>)
      requires Valid() && k <= |env| && Room(env, k, 0) && t < |threads|
      requires During(t, base, log, loads, []) && State() == Exec(base, log) && OnSchedule(t, base, env, k, log)
      requires threads[t] == PushOwn(value, pos)
      modifies this`threads, this`enqueuePos, this`dequeuePos, this`claimed, sequence, data
      ensures Valid() && k <= k' <= |env| && Room(env, k', 0) && t < |threads| == |old(threads)|
      ensures During(t, base, log', loads, []) && State() == Exec(base, log')
      ensures OnSchedule(t, base, env, k', log')
      ensures threads[t] == PushFilled(value, pos)
    {
      ghost var log1;
      k', log1 := Pause(t, env, k, 0, base, log, loads, []);
      InnerTurn(t, base, env, k', log1, loads, Move(t, Advance));
      MoveIn(t, pos, value);
      log' := log1 + [Move(t, Advance)];
    }

    /** Interference, then it publishes the value. */
    method NextPublish(t: nat, pos: nat, value: T, env: seq<Window<T>>, k: nat,
                       ghost base: Ring<T>, ghost log: seq<Move<T>>, ghost loads: nat)
      returns (ghost log': seq<Move<T>>)
      requires Valid() && k <= |env| && Room(env, k, 0) && t < |threads|
      requires During(t, base, log, loads, []) && State() == Exec(base, log) && OnSchedule(t, base, env, k, log)
      requires threads[t] == PushFilled(value, pos)
      modifies this`threads, this`enqueuePos, this`dequeuePos, this`claimed, sequence, data
      ensures Valid() && t < |threads| && threads[t] == PushDone(value, true)
      ensures During(t, base, log', loads, [Pushed(t, value)]) && State() == Exec(base, log')
      ensures OnSchedule(t, base, env, Used(env, OwnCount(t, log')), log')
    {
      var k', log1 := Pause(t, env, k, 0, base, log, loads, []);
      LastTurn(t, base, env, k', log1, loads, Pushed(t, value));
      Publish(t, pos);
      log' := log1 + [Move(t, Advance)];
    }

    /** The winner of the CAS fills its slot and publishes it. */
    method FinishPush(t: nat, pos: nat, value: T, env: seq<Window<T>>, k: nat,
                      ghost s0: Ring<T>, ghost log: seq<Move<T>>, ghost loads: nat)
      returns (ghost log': seq<Move<T>>)
      requires Valid() && k <= |env| && Room(env, k, 0) && t < |threads| && threads[t] == PushOwn(value, pos)
      requires Inv(s0) && Enabled(s0, Move(t, StartPush(value)))
      requires var base := Next(s0, Move(t, StartPush(value)));
               During(t, base, log, loads, []) && State() == Exec(base, log) && OnSchedule(t, base, env, k, log)
      modifies this`threads, this`enqueuePos, this`dequeuePos, this`claimed, sequence, data
      ensures Valid() && t < |threads| && threads[t] == PushDone(value, true)
      ensures CallMade(s0, Move(t, StartPush(value)), log', loads, [Pushed(t, value)])
      ensures State() == Exec(Next(s0, Move(t, StartPush(value))), log')
      ensures log' == Turns(Next(s0, Move(t, StartPush(value))), t, env, OwnCount(t, log'))
    {
      ghost var base := Next(s0, Move(t, StartPush(value)));
      var k';
      k', log' := NextMoveIn(t, pos, value, env, k, base, log, loads);
      log' := NextPublish(t, pos, value, env, k', base, log', loads);
      CallEnds(s0, Move(t, StartPush(value)), log', loads, [Pushed(t, value)]);
    }

    /** `try_push` called by thread `t`, with `env` running in between. The result is true
        exactly when this call appended `value` to the queue, once; it is false only if, at its
        last load, the ticket one lap behind the current position had not been released, and then
        the queue is full unless a consumer is inside that ticket's slot. The
        loop is entered at most once more than the call lost the race or failed spuriously. */
    method TryPush(t: nat, value: T, env: seq<Window<T>>)
      returns (ok: bool, loads: nat, ghost log: seq<Move<T>>)
      requires Valid() && t < |threads| && threads[t].AtRest() && Room(env, 0, 1)
      modifies this`threads, this`enqueuePos, this`dequeuePos, this`claimed, sequence, data
      ensures Valid() && t < |threads| && threads[t] == PushDone(value, ok)
      ensures CallMade(old(State()), Move(t, StartPush(value)), log, loads, if ok then [Pushed(t, value)] else [])
      ensures State() == Exec(Next(old(State()), Move(t, StartPush(value))), log)
      ensures log == Turns(Next(old(State()), Move(t, StartPush(value))), t, env, OwnCount(t, log))
      ensures !ok ==> ToldFull(State())
    {
      ghost var s0 := State();
      var pos: nat := LoadEnqueuePos(t, value);
      ghost var base := State();
      log, loads := [], 0;
      var k: nat := 0;
      assert env[0..] == env;
      while true
        invariant Valid() && k <= |env| && Room(env, k, 1) && t < |threads|
        invariant During(t, base, log, loads, []) && State() == Exec(base, log) && OnSchedule(t, base, env, k, log)
        invariant threads[t] == PushPos(value, pos) && pos <= enqueuePos
        decreases |env| - k, enqueuePos - pos
      {
        var diff: int;
        diff, k, log := NextPushLoad(t, pos, env, k, base, log, loads);
        loads := loads + 1;
        if diff == 0 {
          var won, seen: nat;
          won, seen, k, log := NextPushCas(t, pos, env, k, base, log, loads);
          if won {
            log := FinishPush(t, pos, value, env, k, s0, log, loads);
            return true, loads, log;
          }
          pos := seen;
        } else if diff < 0 {
          CallEnds(s0, Move(t, StartPush(value)), log, loads, []);
          return false, loads, log;
        } else {
          pos, k, log := NextPushReload(t, env, k, base, log, loads);
        }
      }
    }

    /** Interference, then the load of the slot's sequence. */
    method NextPopLoad(t: nat, pos: nat, env: seq<Window<T>>, k: nat,
                       ghost base: Ring<T>, ghost log: seq<Move<T>>, ghost loads: nat)
      returns (diff: int, k': nat, ghost log': seq<Move<T>>)
      requires Valid() && k <= |env| && Room(env, k, 1) && t < |threads|
      requires During(t, base, log, loads, []) && State() == Exec(base, log) && OnSchedule(t, base, env, k, log)
      requires threads[t] == PopPos(pos)
      modifies this`threads, this`enqueuePos, this`dequeuePos, this`claimed, sequence, data
      ensures Valid() && k <= k' <= |env| && Room(env, k', 1) && t < |threads| == |old(threads)|
      ensures During(t, base, log', loads + 1, []) && State() == Exec(base, log')
      ensures OnSchedule(t, base, env, k', log')
      ensures threads[t] == if diff == 0 then PopClaim(pos) else if diff < 0 then PopEmpty else PopStale(pos)
      ensures k == |env| ==> dequeuePos == old(dequeuePos)
      ensures k < |env| ==> k' > k
      ensures diff > 0 ==> pos < dequeuePos
      ensures diff < 0 ==> ToldEmpty(State())
    {
      ghost var log1;
      k', log1 := Pause(t, env, k, 1, base, log, loads, []);
      LoadTurn(t, base, env, k', log1, loads);
      EmptyAnswer(State(), t);
      diff := LoadSequenceForPop(t, pos);
      log' := log1 + [Move(t, Advance)];
    }

    /** Interference, then the CAS. */
    method NextPopCas(t: nat, pos: nat, env: seq<Window<T>>, k: nat,
                      ghost base: Ring<T>, ghost log: seq<Move<T>>, ghost loads: nat)
      returns (won: bool, seen: nat, k': nat, ghost log': seq<Move<T>>)
      requires Valid() && k <= |env| && Room(env, k, 1) && t < |threads|
      requires During(t, base, log, loads, []) && State() == Exec(base, log) && OnSchedule(t, base, env, k, log)
      requires threads[t] == PopClaim(pos)
      modifies this`threads, this`enqueuePos, this`dequeuePos, this`claimed, sequence, data
      ensures Valid() && k <= k' <= |env| && Room(env, k', 1) && t < |threads| == |old(threads)|
      ensures During(t, base, log', loads, []) && State() == Exec(base, log')
      ensures OnSchedule(t, base, env, k', log')
      ensures threads[t] == if won then PopOwn(pos) else PopPos(seen)
      ensures !won ==> seen == dequeuePos
      ensures k < |env| ==> k' > k
      ensures k < |env| && env[k].spurious ==> !won
      ensures k == |env| && !won ==> pos < dequeuePos == old(dequeuePos)
    {
      ClaimIsNotAhead(State(), t);
      var spurious := k < |env| && env[k].spurious;
      ghost var log1;
      k', log1 := Pause(t, env, k, 1, base, log, loads, []);
      ghost var m: Move<T> := Move(t, if spurious then SpuriousFailure else Advance);
      InnerTurn(t, base, env, k', log1, loads, m);
      won, seen := CasDequeuePos(t, pos, spurious);
      log' := log1 + [m];
    }

    /** Interference, then the reload of a stale position. */
    method NextPopReload(t: nat, env: seq<Window<T>>, k: nat,
                         ghost base: Ring<T>, ghost log: seq<Move<T>>, ghost loads: nat)
      returns (pos: nat, k': nat, ghost log': seq<Move<T>>)
      requires Valid() && k <= |env| && Room(env, k, 1) && t < |threads|
      requires During(t, base, log, loads, []) && State() == Exec(base, log) && OnSchedule(t, base, env, k, log)
      requires threads[t].PopStale?
      modifies this`threads, this`enqueuePos, this`dequeuePos, this`claimed, sequence, data
      ensures Valid() && k <= k' <= |env| && Room(env, k', 1) && t < |threads| == |old(threads)|
      ensures During(t, base, log', loads, []) && State() == Exec(base, log')
      ensures OnSchedule(t, base, env, k', log')
      ensures threads[t] == PopPos(pos) && pos == dequeuePos
      ensures k < |env| ==> k' > k
      ensures k == |env| ==> dequeuePos == old(dequeuePos)
    {
      ghost var log1;
      k', log1 := Pause(t, env, k, 1, base, log, loads, []);
      InnerTurn(t, base, env, k', log1, loads, Move(t, Advance));
      pos := ReloadDequeuePos(t);
      log' := log1 + [Move(t, Advance)];
    }

    /** Interference, then the winner of the CAS moves the value out. */
    method NextMoveOut(t: nat, pos: nat, env: seq<Window<T>>, k: nat,
                       ghost base: Ring<T>, ghost log: seq<Move<T>>, ghost loads: nat)
      returns (value: T, k': nat, ghost log': seq<Move<T>>)
      requires Valid() && k <= |env| && Room(env, k, 1) && t < |threads|
      requires During(t, base, log, loads, []) && State() == Exec(base, log) && OnSchedule(t, base, env, k, log)
      requires threads[t] == PopOwn(pos)
      modifies this`threads, this`enqueuePos, this`dequeuePos, this`claimed, sequence, data
      ensures Valid() && k <= k' <= |env| && Room(env, k', 1) && t < |threads| == |old(threads)|
      ensures During(t, base, log', loads, []) && State() == Exec(base, log')
      ensures OnSchedule(t, base, env, k', log')
      ensures threads[t] == PopTaken(pos, value)
    {
      ghost var log1;
      k', log1 := Pause(t, env, k, 1, base, log, loads, []);
      InnerTurn(t, base, env, k', log1, loads, Move(t, Advance));
      value := MoveOut(t, pos);
      log' := log1 + [Move(t, Advance)];
    }

    /** Interference, then it gives the slot back for the next lap. */
    method NextRelease(t: nat, pos: nat, value: T, env: seq<Window<T>>, k: nat,
                       ghost base: Ring<T>, ghost log: seq<Move<T>>, ghost loads: nat)
      returns (ghost log': seq<Move<T>>)
      requires Valid() && k <= |env| && Room(env, k, 1) && t < |threads|
      requires During(t, base, log, loads, []) && State() == Exec(base, log) && OnSchedule(t, base, env, k, log)
      requires threads[t] == PopTaken(pos, value)
      modifies this`threads, this`enqueuePos, this`dequeuePos, this`claimed, sequence, data
      ensures Valid() && t < |threads| && threads[t] == PopFound(value)
      ensures During(t, base, log', loads, [Popped(t, value)]) && State() == Exec(base, log')
      ensures OnSchedule(t, base, env, Used(env, OwnCount(t, log')), log')
    {
      var k', log1 := Pause(t, env, k, 1, base, log, loads, []);
      LastTurn(t, base, env, k', log1, loads, Popped(t, value));
      Release(t, pos);
      log' := log1 + [Move(t, Advance)];
    }

    /** The winner of the CAS empties its slot and releases it. */
    method FinishPop(t: nat, pos: nat, env: seq<Window<T>>, k: nat,
                     ghost s0: Ring<T>, ghost log: seq<Move<T>>, ghost loads: nat)
      returns (value: T, ghost log': seq<Move<T>>)
      requires Valid() && k <= |env| && Room(env, k, 1) && t < |threads| && threads[t] == PopOwn(pos)
      requires Inv(s0) && Enabled(s0, Move(t, StartPop))
      requires var base := Next(s0, Move(t, StartPop));
               During(t, base, log, loads, []) && State() == Exec(base, log) && OnSchedule(t, base, env, k, log)
      modifies this`threads, this`enqueuePos, this`dequeuePos, this`claimed, sequence, data
      ensures Valid() && t < |threads| && threads[t] == PopFound(value)
      ensures CallMade(s0, Move(t, StartPop), log', loads, [Popped(t, value)])
      ensures State() == Exec(Next(s0, Move(t, StartPop)), log')
      ensures log' == Turns(Next(s0, Move(t, StartPop)), t, env, OwnCount(t, log'))
    {
      ghost var base := Next(s0, Move(t, StartPop));
      var k';
      value, k', log' := NextMoveOut(t, pos, env, k, base, log, loads);
      log' := NextRelease(t, pos, value, env, k', base, log', loads);
      CallEnds(s0, Move(t, StartPop), log', loads, [Popped(t, value)]);
    }

    /** `try_pop` called by thread `t`, with `env` running in between. A value is returned
        exactly when this call removed it from the head of the queue, once; nothing is returned
        only if, at its last load, the ticket at the head had not been published, and then the
        queue is empty unless a producer is inside that ticket's slot. */
    method TryPop(t: nat, env: seq<Window<T>>)
      returns (found: bool, value: T, loads: nat, ghost log: seq<Move<T>>)
      requires Valid() && t < |threads| && threads[t].AtRest() && Room(env, 0, 1)
      modifies this`threads, this`enqueuePos, this`dequeuePos, this`claimed, sequence, data
      ensures Valid() && t < |threads| && threads[t] == if found then PopFound(value) else PopEmpty
      ensures CallMade(old(State()), Move(t, StartPop), log, loads, if found then [Popped(t, value)] else [])
      ensures State() == Exec(Next(old(State()), Move(t, StartPop)), log)
      ensures log == Turns(Next(old(State()), Move(t, StartPop)), t, env, OwnCount(t, log))
      ensures !found ==> ToldEmpty(State())
    {
      ghost var s0 := State();
      var pos: nat := LoadDequeuePos(t);
      ghost var base := State();
      log, loads := [], 0;
      var k: nat := 0;
      assert env[0..] == env;
      while true
        invariant Valid() && k <= |env| && Room(env, k, 1) && t < |threads|
        invariant During(t, base, log, loads, []) && State() == Exec(base, log) && OnSchedule(t, base, env, k, log)
        invariant threads[t] == PopPos(pos) && pos <= dequeuePos
        decreases |env| - k, dequeuePos - pos
      {
        var diff: int;
        diff, k, log := NextPopLoad(t, pos, env, k, base, log, loads);
        loads := loads + 1;
        if diff == 0 {
          var won, seen: nat;
          won, seen, k, log := NextPopCas(t, pos, env, k, base, log, loads);
          if won {
            value, log := FinishPop(t, pos, env, k, s0, log, loads);
            return true, value, loads, log;
          }
          pos := seen;
        } else if diff < 0 {
          CallEnds(s0, Move(t, StartPop), log, loads, []);
          return false, *, loads, log;
        } else {
          pos, k, log := NextPopReload(t, env, k, base, log, loads);
        }
      }
    }

    /** `size_approx` called by thread `t`: the two loads, with the first window of `env` played in
        between. The size is the first load minus the second. */
    method SizeApprox(t: nat, env: seq<Window<T>>) returns (size: nat)
      requires Valid() && t < |threads| && Room(env, 0, 0)
      modifies this`threads, this`enqueuePos, this`dequeuePos, this`claimed, sequence, data
      ensures Valid() && Inv(old(State()))
      ensures env != [] ==> State() == Exec(old(State()), Played(old(State()), t, env[0].others))
      ensures env == [] ==> State() == old(State())
      ensures size == if old(enqueuePos) >= dequeuePos then old(enqueuePos) - dequeuePos else 0
      ensures size <= |Items(old(State()))| <= capacity
      ensures env == [] ==> size == |Items(old(State()))|
    {
      ghost var s := State();
      var enq := enqueuePos;
      if env != [] {
        Interfere(t, env[0].others);
        RunIsMonotone(s, Played(s, t, env[0].others));
      }
      var deq := dequeuePos;
      size := if enq >= deq then enq - deq else 0;
    }
  }
}
