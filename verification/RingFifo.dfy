/** Every run of the ring is linearizable: it simulates a bounded FIFO queue, and each
    successful call takes effect at its CAS. Failed calls have an exact meaning too. */
module RingFifo {
  import opened RingProtocol
  import opened RingInvariant
  import Sequences

  /** The abstract queue: the values of the tickets claimed by producers and not yet by
      consumers. */
  function Items<T>(s: Ring<T>): seq<T>
    requires s.dequeuePos <= s.enqueuePos <= |s.claimed|
  {
    s.claimed[s.dequeuePos..s.enqueuePos]
  }

  datatype Event<T> = Pushed(thread: nat, value: T) | Popped(thread: nat, value: T)

  datatype Fifo<T> = Impossible | Holding(items: seq<T>)

  /** The reference: a FIFO queue that holds at most `capacity` values. */
  function FifoStep<T(==)>(capacity: nat, q: seq<T>, e: Event<T>): Fifo<T> {
    match e
    case Pushed(_, value) => if |q| < capacity then Holding(q + [value]) else Impossible
    case Popped(_, value) => if |q| > 0 && q[0] == value then Holding(q[1..]) else Impossible
  }

  function FifoRun<T(==)>(capacity: nat, q: seq<T>, events: seq<Event<T>>): Fifo<T>
    decreases |events|
  {
    if events == [] then Holding(q)
    else match FifoStep(capacity, q, events[0])
         case Impossible => Impossible
         case Holding(q') => FifoRun(capacity, q', events[1..])
  }

  /** The effect of a step on the abstract queue, if it has one: a winning CAS. */
  function Effect<T>(s: Ring<T>, m: Move<T>): seq<Event<T>>
    requires Shaped(s) && Enabled(s, m) && s.dequeuePos <= s.enqueuePos <= |s.claimed|
  {
    if !m.action.Advance? then []
    else match s.threads[m.thread]
         case PushClaim(value, pos) => if pos == s.enqueuePos then [Pushed(m.thread, value)] else []
         case PopClaim(pos) =>
           if pos == s.dequeuePos < s.enqueuePos then [Popped(m.thread, s.claimed[pos])] else []
         case _ => []
  }

  /** What a step reports to the caller: the successful return of try_push or try_pop. */
  function Report<T>(s: Ring<T>, m: Move<T>): seq<Event<T>>
    requires Shaped(s) && Enabled(s, m)
  {
    if !m.action.Advance? then []
    else match s.threads[m.thread]
         case PushFilled(value, _) => [Pushed(m.thread, value)]
         case PopTaken(_, value) => [Popped(m.thread, value)]
         case _ => []
  }

  ghost function Effects<T>(s: Ring<T>, moves: seq<Move<T>>): seq<Event<T>>
    requires Inv(s) && Legal(s, moves)
    decreases |moves|
  {
    if moves == [] then []
    else
      StepKeepsInv(s, moves[0]);
      Effect(s, moves[0]) + Effects(Next(s, moves[0]), moves[1..])
  }

  function Reports<T>(s: Ring<T>, moves: seq<Move<T>>): seq<Event<T>>
    requires Shaped(s) && Legal(s, moves)
    decreases |moves|
  {
    if moves == [] then []
    else Report(s, moves[0]) + Reports(Next(s, moves[0]), moves[1..])
  }

  function OfThread<T>(t: nat, events: seq<Event<T>>): seq<Event<T>> {
    if events == [] then []
    else (if events[0].thread == t then [events[0]] else []) + OfThread(t, events[1..])
  }

  /** The effect a thread has already had inside its current call but not yet returned from. */
  function Pending<T>(s: Ring<T>, t: nat): seq<Event<T>>
    requires t < |s.threads|
  {
    match s.threads[t]
    case PushOwn(value, _) => [Pushed(t, value)]
    case PushFilled(value, _) => [Pushed(t, value)]
    case PopOwn(pos) => if pos < |s.claimed| then [Popped(t, s.claimed[pos])] else []
    case PopTaken(_, value) => [Popped(t, value)]
    case _ => []
  }

  // ---------------------------------------------------------------- simulation

  /** One step of the ring is at most one step of the bounded FIFO: a winning push CAS appends
      its value, a winning pop CAS removes the head, everything else leaves the queue alone. */
  lemma StepSimulatesFifo<T>(s: Ring<T>, m: Move<T>)
    requires Inv(s) && Enabled(s, m)
    ensures Inv(Next(s, m))
    ensures FifoRun(s.capacity, Items(s), Effect(s, m)) == Holding(Items(Next(s, m)))
  {
    StepKeepsInv(s, m);
    var s' := Next(s, m);
    var pc := s.threads[m.thread];
    if m.action.Advance? && pc.PushClaim? && pc.pos == s.enqueuePos {
      WinPushHasRoom(s, m.thread);
      assert Items(s') == Items(s) + [pc.value];
    } else if m.action.Advance? && pc.PopClaim? && pc.pos == s.dequeuePos {
      WinPopHasHead(s, m.thread);
      assert Items(s') == Items(s)[1..];
    } else {
      assert Items(s') == Items(s);
    }
  }

  lemma {:induction false} FifoRunComposes<T>(capacity: nat, q: seq<T>, a: seq<Event<T>>, b: seq<Event<T>>)
    requires FifoRun(capacity, q, a).Holding?
    ensures FifoRun(capacity, q, a + b) == FifoRun(capacity, FifoRun(capacity, q, a).items, b)
    decreases |a|
  {
    if a == [] {
      assert a + b == b;
    } else {
      assert (a + b)[0] == a[0] && (a + b)[1..] == a[1..] + b;
      FifoRunComposes(capacity, FifoStep(capacity, q, a[0]).items, a[1..], b);
    }
  }

  /** Every run simulates the bounded FIFO, event by event. */
  lemma {:induction false} RunSimulatesFifo<T>(s: Ring<T>, moves: seq<Move<T>>)
    requires Inv(s) && Legal(s, moves)
    ensures Inv(Exec(s, moves))
    ensures FifoRun(s.capacity, Items(s), Effects(s, moves)) == Holding(Items(Exec(s, moves)))
    ensures |Items(Exec(s, moves))| <= s.capacity
    decreases |moves|
  {
    if moves != [] {
      StepSimulatesFifo(s, moves[0]);
      RunSimulatesFifo(Next(s, moves[0]), moves[1..]);
      FifoRunComposes(s.capacity, Items(s), Effect(s, moves[0]), Effects(Next(s, moves[0]), moves[1..]));
    }
  }

  // ---------------------------------------------------------------- reports match effects

  lemma {:induction false} OfThreadComposes<T>(t: nat, a: seq<Event<T>>, b: seq<Event<T>>)
    ensures OfThread(t, a + b) == OfThread(t, a) + OfThread(t, b)
  {
    if a == [] {
      assert a + b == b;
    } else {
      assert (a + b)[0] == a[0] && (a + b)[1..] == a[1..] + b;
      OfThreadComposes(t, a[1..], b);
      var first := if a[0].thread == t then [a[0]] else [];
      assert OfThread(t, a + b) == first + OfThread(t, a[1..] + b);
      assert first + (OfThread(t, a[1..]) + OfThread(t, b)) == (first + OfThread(t, a[1..])) + OfThread(t, b);
    }
  }

  /** Within one step a thread's pending effect and its effect add up to what it reports and
      what stays pending: it reports exactly the effect it had. */
  lemma StepBalances<T>(s: Ring<T>, m: Move<T>, t: nat)
    requires Inv(s) && Enabled(s, m) && t < |s.threads|
    ensures Pending(s, t) + OfThread(t, Effect(s, m)) == OfThread(t, Report(s, m)) + Pending(Next(s, m), t)
  {
    if t == m.thread {
      OwnStepBalances(s, m);
      OwnEvents(s, m);
    } else {
      OtherPendingKept(s, m, t);
      OtherEvents(s, m, t);
    }
  }

  /** A step has no events of another thread. */
  lemma OtherEvents<T>(s: Ring<T>, m: Move<T>, t: nat)
    requires Inv(s) && Enabled(s, m) && t != m.thread
    ensures OfThread(t, Effect(s, m)) == [] && OfThread(t, Report(s, m)) == []
  {
    var e, r := Effect(s, m), Report(s, m);
    if e != [] { assert e[1..] == [] && e[0].thread == m.thread; }
    if r != [] { assert r[1..] == [] && r[0].thread == m.thread; }
  }

  lemma OtherPendingKept<T>(s: Ring<T>, m: Move<T>, t: nat)
    requires Inv(s) && Enabled(s, m) && t < |s.threads| && t != m.thread
    ensures Pending(Next(s, m), t) == Pending(s, t)
  {
    KnowPc(s, t);
    var s' := Next(s, m);
    assert s'.threads[t] == s.threads[t];
    assert s.claimed <= s'.claimed;
  }

  lemma OwnEvents<T>(s: Ring<T>, m: Move<T>)
    requires Inv(s) && Enabled(s, m)
    ensures OfThread(m.thread, Effect(s, m)) == Effect(s, m)
    ensures OfThread(m.thread, Report(s, m)) == Report(s, m)
  {
  }

  lemma OwnStepBalances<T>(s: Ring<T>, m: Move<T>)
    requires Inv(s) && Enabled(s, m)
    ensures var t := m.thread;
            Pending(s, t) + Effect(s, m) == Report(s, m) + Pending(Next(s, m), t)
  {
    var t := m.thread;
    KnowPc(s, t);
    if m.action.Advance? && s.threads[t].PopClaim? && s.threads[t].pos == s.dequeuePos {
      WinPopHasHead(s, t);
    }
  }

  lemma {:induction false} RunBalances<T>(s: Ring<T>, moves: seq<Move<T>>, t: nat)
    requires Inv(s) && Legal(s, moves) && t < |s.threads|
    ensures Pending(s, t) + OfThread(t, Effects(s, moves))
         == OfThread(t, Reports(s, moves)) + Pending(Exec(s, moves), t)
    decreases |moves|
  {
    if moves != [] {
      var m, rest := moves[0], moves[1..];
      StepKeepsInv(s, m);
      var s' := Next(s, m);
      StepBalances(s, m, t);
      RunBalances(s', rest, t);
      OfThreadComposes(t, Effect(s, m), Effects(s', rest));
      OfThreadComposes(t, Report(s, m), Reports(s', rest));
      Sequences.Regroup(Pending(s, t), OfThread(t, Effect(s, m)), OfThread(t, Effects(s', rest)),
                        OfThread(t, Report(s, m)), Pending(s', t), OfThread(t, Reports(s', rest)),
                        Pending(Exec(s', rest), t));
    }
  }

  /** Linearizability. For any number of threads and any interleaving from a fresh ring, the
      winning CASes form a legal history of the bounded FIFO ending in the current contents,
      and each thread's successful returns are, in order and value for value, its winning
      CASes, except for the one call it may still be inside. Since this holds after every
      prefix of a run, an operation takes effect between its call and its return. */
  lemma Linearizable<T>(s: Ring<T>, n: nat, moves: seq<Move<T>>)
    requires Initial(s, n) && Legal(s, moves)
    ensures Inv(s) && Inv(Exec(s, moves))
    ensures FifoRun(s.capacity, [], Effects(s, moves)) == Holding(Items(Exec(s, moves)))
    ensures forall t :: 0 <= t < n ==>
      && OfThread(t, Effects(s, moves)) == OfThread(t, Reports(s, moves)) + Pending(Exec(s, moves), t)
      && |Pending(Exec(s, moves), t)| <= 1
  {
    InitialInv(s, n);
    RunSimulatesFifo(s, moves);
    assert Items(s) == [];
    forall t | 0 <= t < n
      ensures OfThread(t, Effects(s, moves)) == OfThread(t, Reports(s, moves)) + Pending(Exec(s, moves), t)
    {
      RunBalances(s, moves, t);
      assert [] + OfThread(t, Effects(s, moves)) == OfThread(t, Effects(s, moves));
    }
  }

  // ---------------------------------------------------------------- tickets and exclusion

  /** At most one thread may touch a slot's data at any time. */
  lemma DataHasOneOwner<T>(s: Ring<T>, n: nat, moves: seq<Move<T>>, t: nat, k: nat, u: nat, v: nat)
    requires Initial(s, n) && Legal(s, moves)
    requires t < n && k < n && t != k
    requires var s' := Exec(s, moves);
             && (s'.threads[t].OwnsPush(u) || s'.threads[t].OwnsPop(u))
             && (s'.threads[k].OwnsPush(v) || s'.threads[k].OwnsPop(v))
    ensures Slot(u, s.capacity) != Slot(v, s.capacity)
  {
    InitialInv(s, n);
    RunKeepsInv(s, moves);
    OtherOwnerElsewhere(Exec(s, moves), t, k);
  }

  /** A producer's CAS on a position succeeds only if the slot's sequence is still the one it
      saw, however stale that read is, and only after the ticket one lap earlier was released. */
  lemma StalePushReadIsHarmless<T>(s: Ring<T>, n: nat, moves: seq<Move<T>>, t: nat)
    requires Initial(s, n) && Legal(s, moves) && t < n
    requires Exec(s, moves).threads[t].PushClaim?
    requires Exec(s, moves).threads[t].pos == Exec(s, moves).enqueuePos
    ensures var s' := Exec(s, moves); var pos := s'.enqueuePos;
            && SeqAt(s', pos) == pos
            && (pos >= s.capacity ==> Released(s', pos - s.capacity))
  {
    InitialInv(s, n);
    RunKeepsInv(s, moves);
    var s' := Exec(s, moves);
    var pos := s'.enqueuePos;
    KnowPc(s', t);
    WinPushHasRoom(s', t);
    if pos >= s.capacity && PopOwned(s', pos - s.capacity) {
      var k :| 0 <= k < |s'.threads| && s'.threads[k].OwnsPop(pos - s.capacity);
      KnowPc(s', k);
    }
  }

  lemma StalePopReadIsHarmless<T>(s: Ring<T>, n: nat, moves: seq<Move<T>>, t: nat)
    requires Initial(s, n) && Legal(s, moves) && t < n
    requires Exec(s, moves).threads[t].PopClaim?
    requires Exec(s, moves).threads[t].pos == Exec(s, moves).dequeuePos
    ensures var s' := Exec(s, moves); var pos := s'.dequeuePos;
            SeqAt(s', pos) == pos + 1 && Published(s', pos)
  {
    InitialInv(s, n);
    RunKeepsInv(s, moves);
    var s' := Exec(s, moves);
    var pos := s'.dequeuePos;
    KnowPc(s', t);
    WinPopHasHead(s', t);
  }

  // ---------------------------------------------------------------- the meaning of failure

  /** try_push answers "full" at its load of the sequence exactly when its position is the
      current one and the ticket a lap earlier has not been given back. */
  lemma PushFailsExactly<T>(s: Ring<T>, t: nat)
    requires Inv(s) && t < |s.threads| && s.threads[t].PushPos?
    ensures var pos := s.threads[t].pos;
            Advanced(s, t).threads[t] == PushDone(s.threads[t].value, false) <==>
            pos == s.enqueuePos && pos >= s.capacity && !Released(s, pos - s.capacity)
  {
    var pos := s.threads[t].pos;
    KnowPc(s, t);
    if pos == s.enqueuePos {
      assert TicketOk(s, s.dequeuePos);
      if pos < s.dequeuePos + s.capacity {
        assert TicketOk(s, pos);
        if pos >= s.capacity && PopOwned(s, pos - s.capacity) {
          var k :| 0 <= k < |s.threads| && s.threads[k].OwnsPop(pos - s.capacity);
          KnowPc(s, k);
        }
      }
    }
  }

  /** try_pop answers "empty" at its load of the sequence exactly when its position is the
      current one and that ticket has not been published. */
  lemma PopFailsExactly<T>(s: Ring<T>, t: nat)
    requires Inv(s) && t < |s.threads| && s.threads[t].PopPos?
    ensures var pos := s.threads[t].pos;
            Advanced(s, t).threads[t].PopEmpty? <==> pos == s.dequeuePos && !Published(s, pos)
  {
    var pos := s.threads[t].pos;
    KnowPc(s, t);
    if pos == s.dequeuePos {
      assert TicketOk(s, pos);
      if PushOwned(s, pos) {
        var k :| 0 <= k < |s.threads| && s.threads[k].OwnsPush(pos);
        KnowPc(s, k);
      }
    }
  }

  /** When "full" is the right answer. At the current position, try_push answers "full" exactly
      when the queue is full, if and only if no consumer is still inside the slot it needs: the
      ticket a lap earlier is not between its CAS and its release. Whatever else is in flight,
      on other slots, does not matter. */
  lemma PushAnswersFullExactly<T>(s: Ring<T>, t: nat)
    requires Inv(s) && t < |s.threads| && s.threads[t].PushPos? && s.threads[t].pos == s.enqueuePos
    ensures (Advanced(s, t).threads[t].PushDone? <==> |Items(s)| == s.capacity)
       <==> !(s.enqueuePos >= s.capacity && PopOwned(s, s.enqueuePos - s.capacity))
  {
    PushFailsExactly(s, t);
    if s.enqueuePos >= s.capacity && PopOwned(s, s.enqueuePos - s.capacity) {
      var k :| 0 <= k < |s.threads| && s.threads[k].OwnsPop(s.enqueuePos - s.capacity);
      KnowPc(s, k);
    }
  }

  /** When "empty" is the right answer. At the current position, try_pop answers "empty" exactly
      when the queue is empty, if and only if no producer is still inside the head's slot. */
  lemma PopAnswersEmptyExactly<T>(s: Ring<T>, t: nat)
    requires Inv(s) && t < |s.threads| && s.threads[t].PopPos? && s.threads[t].pos == s.dequeuePos
    ensures (Advanced(s, t).threads[t].PopEmpty? <==> |Items(s)| == 0) <==> !PushOwned(s, s.dequeuePos)
  {
    PopFailsExactly(s, t);
    if PushOwned(s, s.dequeuePos) {
      var k :| 0 <= k < |s.threads| && s.threads[k].OwnsPush(s.dequeuePos);
      KnowPc(s, k);
    }
  }

  /** A stale position never gives an answer: the call goes round its loop again. */
  lemma StalePositionRetries<T>(s: Ring<T>, t: nat)
    requires Inv(s) && t < |s.threads|
    ensures s.threads[t].PushPos? && s.threads[t].pos != s.enqueuePos ==> !Advanced(s, t).threads[t].PushDone?
    ensures s.threads[t].PopPos? && s.threads[t].pos != s.dequeuePos ==> !Advanced(s, t).threads[t].PopEmpty?
  {
    if s.threads[t].PushPos? { PushFailsExactly(s, t); }
    if s.threads[t].PopPos? { PopFailsExactly(s, t); }
  }

  /** No call is between its winning CAS and its sequence store. */
  ghost predicate NothingInFlight<T>(s: Ring<T>) {
    forall t :: 0 <= t < |s.threads| ==>
      var pc := s.threads[t]; !pc.PushOwn? && !pc.PushFilled? && !pc.PopOwn? && !pc.PopTaken?
  }

  /** Then a call at the current position fails exactly when the queue is full or empty. */
  lemma QuietFailureIsFullOrEmpty<T>(s: Ring<T>, t: nat)
    requires Inv(s) && NothingInFlight(s) && t < |s.threads|
    ensures s.threads[t].PushPos? && s.threads[t].pos == s.enqueuePos ==>
      (Advanced(s, t).threads[t].PushDone? <==> |Items(s)| == s.capacity)
    ensures s.threads[t].PopPos? && s.threads[t].pos == s.dequeuePos ==>
      (Advanced(s, t).threads[t].PopEmpty? <==> |Items(s)| == 0)
  {
    if s.threads[t].PushPos? && s.threads[t].pos == s.enqueuePos { PushAnswersFullExactly(s, t); }
    if s.threads[t].PopPos? && s.threads[t].pos == s.dequeuePos { PopAnswersEmptyExactly(s, t); }
  }

  /** What holds when a push has just been told "full": the ticket a lap behind the next one is not
      released, and the queue is full unless a consumer is inside that ticket's slot. */
  ghost predicate ToldFull<T>(s: Ring<T>) {
    && s.capacity <= s.enqueuePos && !Released(s, s.enqueuePos - s.capacity)
    && (s.enqueuePos - s.dequeuePos == s.capacity <==> !PopOwned(s, s.enqueuePos - s.capacity))
  }

  /** What holds when a pop has just been told "empty": the head ticket is not published, and the
      queue is empty unless a producer is inside that ticket's slot. */
  ghost predicate ToldEmpty<T>(s: Ring<T>) {
    !Published(s, s.dequeuePos) && (s.enqueuePos == s.dequeuePos <==> !PushOwned(s, s.dequeuePos))
  }

  /** What a "full" answer says once it has been given, and when it is the truth: the step changed
      only `t`. */
  lemma FullAnswer<T>(s: Ring<T>, t: nat)
    requires Inv(s) && t < |s.threads| && s.threads[t].PushPos?
    ensures var s' := Advanced(s, t);
            s'.threads[t].PushDone? ==> ToldFull(s')
    ensures Advanced(s, t).threads[t].PushStale? ==> s.threads[t].pos < s.enqueuePos
  {
    PushLoadKeepsInv(s, t);
    KnowPc(Advanced(s, t), t);
    var s' := Advanced(s, t);
    PushFailsExactly(s, t);
    OwnersKept(s, s', t);
    OwnersKept(s', s, t);
    if s'.threads[t].PushDone? { PushAnswersFullExactly(s, t); }
  }

  lemma EmptyAnswer<T>(s: Ring<T>, t: nat)
    requires Inv(s) && t < |s.threads| && s.threads[t].PopPos?
    ensures var s' := Advanced(s, t);
            s'.threads[t].PopEmpty? ==> ToldEmpty(s')
    ensures Advanced(s, t).threads[t].PopStale? ==> s.threads[t].pos < s.dequeuePos
  {
    PopLoadKeepsInv(s, t);
    KnowPc(Advanced(s, t), t);
    var s' := Advanced(s, t);
    PopFailsExactly(s, t);
    OwnersKept(s, s', t);
    OwnersKept(s', s, t);
    if s'.threads[t].PopEmpty? { PopAnswersEmptyExactly(s, t); }
  }
}
