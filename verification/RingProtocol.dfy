/** The bounded ring as a step system: any number of threads run `try_push` and `try_pop`, one
    atomic operation (or one data move) at a time, in any order. Positions and sequence numbers
    are unbounded here; module `RingWords` relates them to 64-bit words. */
module RingProtocol {
  import Words

  /** Where a thread stands inside its call, with the locals it holds there. */
  datatype Pc<T> =
    | Idle
    | PushPos(value: T, pos: nat)     // has a position; next: load the slot's sequence
    | PushStale(value: T, pos: nat)   // saw a later sequence; next: reload the position
    | PushClaim(value: T, pos: nat)   // saw sequence == pos; next: CAS
    | PushOwn(value: T, pos: nat)     // won the CAS; next: move the value in
    | PushFilled(value: T, pos: nat)  // value in place; next: store sequence pos + 1
    | PushDone(value: T, ok: bool)
    | PopPos(pos: nat)
    | PopStale(pos: nat)
    | PopClaim(pos: nat)              // saw sequence == pos + 1; next: CAS
    | PopOwn(pos: nat)                // won the CAS; next: move the value out
    | PopTaken(pos: nat, value: T)    // next: store sequence pos + capacity
    | PopFound(value: T)
    | PopEmpty
  {
    predicate AtRest() { Idle? || PushDone? || PopFound? || PopEmpty? }

    predicate OwnsPush(u: nat) { (PushOwn? || PushFilled?) && pos == u }

    predicate OwnsPop(u: nat) { (PopOwn? || PopTaken?) && pos == u }

    predicate InPushLoop() { PushPos? || PushStale? || PushClaim? }

    predicate InPopLoop() { PopPos? || PopStale? || PopClaim? }
  }

  /** `claimed` is a history variable: the value of ticket `u`, recorded when a producer's CAS
      wins position `u`. No step's outcome depends on it. */
  datatype Ring<T> = Ring(
    capacity: nat,
    sequence: seq<nat>,
    data: seq<T>,
    enqueuePos: nat,
    dequeuePos: nat,
    threads: seq<Pc<T>>,
    claimed: seq<T>)

  datatype Action<T> =
    | StartPush(item: T)   // call try_push(item): load enqueue_pos_
    | StartPop             // call try_pop(): load dequeue_pos_
    | Advance              // the thread's next atomic operation
    | SpuriousFailure      // compare_exchange_weak fails although the positions agree

  datatype Move<T> = Move(thread: nat, action: Action<T>)

  /** The buffer index of position `u`: `u` modulo the capacity, by repeated subtraction. */
  function Slot(u: nat, capacity: nat): (i: nat)
    requires capacity >= 1
    ensures i < capacity
  {
    if u < capacity then u else Slot(u - capacity, capacity)
  }

  predicate Shaped<T>(s: Ring<T>) {
    s.capacity >= 1 && |s.sequence| == s.capacity && |s.data| == s.capacity
  }

  predicate Enabled<T>(s: Ring<T>, m: Move<T>) {
    && m.thread < |s.threads|
    && var pc := s.threads[m.thread];
       match m.action
       case StartPush(_) => pc.AtRest()
       case StartPop => pc.AtRest()
       case Advance => !pc.AtRest()
       case SpuriousFailure => pc.PushClaim? || pc.PopClaim?
  }

  function SetPc<T>(s: Ring<T>, t: nat, pc: Pc<T>): Ring<T>
    requires t < |s.threads|
  {
    s.(threads := s.threads[t := pc])
  }

  /** The branch on `diff` after loading a slot's sequence in `try_push`. */
  function PushBranch<T>(value: T, pos: nat, sequence: nat): Pc<T> {
    if sequence == pos then PushClaim(value, pos)
    else if sequence < pos then PushDone(value, false)
    else PushStale(value, pos)
  }

  function PopBranch<T>(pos: nat, sequence: nat): Pc<T> {
    if sequence == pos + 1 then PopClaim(pos)
    else if sequence < pos + 1 then PopEmpty
    else PopStale(pos)
  }

  function Next<T>(s: Ring<T>, m: Move<T>): (s': Ring<T>)
    requires Shaped(s) && Enabled(s, m)
    ensures Shaped(s') && s'.capacity == s.capacity && |s'.threads| == |s.threads|
  {
    var t := m.thread;
    match m.action
    case StartPush(item) => SetPc(s, t, PushPos(item, s.enqueuePos))
    case StartPop => SetPc(s, t, PopPos(s.dequeuePos))
    case SpuriousFailure =>
      (match s.threads[t]
       case PushClaim(value, pos) => SetPc(s, t, PushPos(value, s.enqueuePos))
       case _ => SetPc(s, t, PopPos(s.dequeuePos)))
    case Advance => Advanced(s, t)
  }

  function Advanced<T>(s: Ring<T>, t: nat): (s': Ring<T>)
    requires Shaped(s) && t < |s.threads|
    ensures Shaped(s') && s'.capacity == s.capacity && |s'.threads| == |s.threads|
  {
    match s.threads[t]
    case PushPos(value, pos) =>
      SetPc(s, t, PushBranch(value, pos, s.sequence[Slot(pos, s.capacity)]))
    case PushStale(value, _) => SetPc(s, t, PushPos(value, s.enqueuePos))
    case PushClaim(value, pos) =>
      if s.enqueuePos == pos then
        SetPc(s, t, PushOwn(value, pos)).(enqueuePos := pos + 1, claimed := s.claimed + [value])
      else
        SetPc(s, t, PushPos(value, s.enqueuePos))
    case PushOwn(value, pos) =>
      SetPc(s, t, PushFilled(value, pos)).(data := s.data[Slot(pos, s.capacity) := value])
    case PushFilled(value, pos) =>
      SetPc(s, t, PushDone(value, true)).(sequence := s.sequence[Slot(pos, s.capacity) := pos + 1])
    case PopPos(pos) =>
      SetPc(s, t, PopBranch(pos, s.sequence[Slot(pos, s.capacity)]))
    case PopStale(_) => SetPc(s, t, PopPos(s.dequeuePos))
    case PopClaim(pos) =>
      if s.dequeuePos == pos then
        SetPc(s, t, PopOwn(pos)).(dequeuePos := pos + 1)
      else
        SetPc(s, t, PopPos(s.dequeuePos))
    case PopOwn(pos) => SetPc(s, t, PopTaken(pos, s.data[Slot(pos, s.capacity)]))
    case PopTaken(pos, value) =>
      SetPc(s, t, PopFound(value)).(sequence := s.sequence[Slot(pos, s.capacity) := pos + s.capacity])
    case _ => s
  }

  /** What the constructor leaves behind, with `n` threads that have not called anything yet.
      The initial contents of the data cells do not matter. */
  ghost predicate Initial<T>(s: Ring<T>, n: nat) {
    && Shaped(s) && s.capacity >= 2
    && (forall i :: 0 <= i < s.capacity ==> s.sequence[i] == i)
    && s.enqueuePos == 0 && s.dequeuePos == 0 && s.claimed == []
    && |s.threads| == n && forall t :: 0 <= t < n ==> s.threads[t] == Idle
  }

  /** A run: every move is enabled where it is made. */
  predicate Legal<T>(s: Ring<T>, moves: seq<Move<T>>)
    requires Shaped(s)
    decreases |moves|
  {
    moves == [] || (Enabled(s, moves[0]) && Legal(Next(s, moves[0]), moves[1..]))
  }

  function Exec<T>(s: Ring<T>, moves: seq<Move<T>>): (s': Ring<T>)
    requires Shaped(s) && Legal(s, moves)
    ensures Shaped(s') && s'.capacity == s.capacity && |s'.threads| == |s.threads|
    decreases |moves|
  {
    if moves == [] then s else Exec(Next(s, moves[0]), moves[1..])
  }

  /** Runs compose. */
  lemma {:induction false} RunsCompose<T>(s: Ring<T>, before: seq<Move<T>>, after: seq<Move<T>>)
    requires Shaped(s) && Legal(s, before) && Legal(Exec(s, before), after)
    ensures Legal(s, before + after) && Exec(s, before + after) == Exec(Exec(s, before), after)
    decreases |before|
  {
    if before == [] {
      assert before + after == after;
    } else {
      RunsCompose(Next(s, before[0]), before[1..], after);
      assert (before + after)[0] == before[0] && (before + after)[1..] == before[1..] + after;
    }
  }

  // ---------------------------------------------------------------- slots

  /** Two positions less than a lap apart never share a slot. */
  lemma {:induction false} SlotsApart(u: nat, v: nat, capacity: nat)
    requires capacity >= 1 && u < v < u + capacity
    ensures Slot(u, capacity) != Slot(v, capacity)
    decreases v
  {
    if u >= capacity {
      SlotsApart(u - capacity, v - capacity, capacity);
    }
  }

  lemma {:induction false} SlotIsRemainder(u: nat, capacity: nat)
    requires capacity >= 1
    ensures Slot(u, capacity) == u % capacity
  {
    if u >= capacity {
      SlotIsRemainder(u - capacity, capacity);
      var q, r := (u - capacity) / capacity, (u - capacity) % capacity;
      assert u == capacity * (q + 1) + r;
      Words.RemainderUnique(u, capacity, q + 1, r);
    } else {
      Words.RemainderUnique(u, capacity, 0, u);
    }
  }
}
