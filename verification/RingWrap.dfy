/** What happens to the 64-bit ring when its positions reach 2^63: a run whose every subtraction is
    defined, up to a load whose subtraction overflows. C++ leaves that step undefined; the two
    obvious readings of it differ, and only one gives the right answer. */
module RingWrap {
  import opened Words
  import opened RingProtocol
  import opened RingInvariant
  import opened RingWords
  import RingWitness

  // ---------------------------------------------------------------- runs of the 64-bit code

  lemma {:induction false} WordRunsCompose<T>(s: Ring<T>, a: seq<Move<T>>, b: seq<Move<T>>)
    requires WordLegal(s, a) && WordLegal(WordExec(s, a), b)
    ensures WordLegal(s, a + b) && WordExec(s, a + b) == WordExec(WordExec(s, a), b)
    decreases |a|
  {
    if a == [] {
      assert a + b == b;
    } else {
      assert (a + b)[0] == a[0] && (a + b)[1..] == a[1..] + b;
      WordRunsCompose(WordNext(s, a[0]), a[1..], b);
    }
  }

  /** The subtraction made by the step `m`, if it makes one, is defined. */
  ghost predicate StepDefined<T>(s: Ring<T>, m: Move<T>)
    requires Wordy(s) && Enabled(s, m)
  {
    assert WordyPc(s.threads[m.thread]);
    m.action.Advance? ==>
      match s.threads[m.thread]
      case PushPos(_, pos) => Defined(Diff(s.sequence[Slot(pos, s.capacity)], pos))
      case PopPos(pos) => Defined(Diff(s.sequence[Slot(pos, s.capacity)], Wrap(pos + 1)))
      case _ => true
  }

  ghost predicate RunDefined<T>(s: Ring<T>, moves: seq<Move<T>>)
    requires WordLegal(s, moves)
    decreases |moves|
  {
    moves == [] || (StepDefined(s, moves[0]) && RunDefined(WordNext(s, moves[0]), moves[1..]))
  }

  lemma {:induction false} DefinedRunsCompose<T>(s: Ring<T>, a: seq<Move<T>>, b: seq<Move<T>>)
    requires WordLegal(s, a) && RunDefined(s, a) && WordLegal(WordExec(s, a), b) && RunDefined(WordExec(s, a), b)
    ensures WordLegal(s, a + b) && RunDefined(s, a + b)
    decreases |a|
  {
    WordRunsCompose(s, a, b);
    if a == [] {
      assert a + b == b;
    } else {
      assert (a + b)[0] == a[0] && (a + b)[1..] == a[1..] + b;
      DefinedRunsCompose(WordNext(s, a[0]), a[1..], b);
    }
  }

  lemma WordOneMore<T>(s: Ring<T>, log: seq<Move<T>>, m: Move<T>) returns (longer: seq<Move<T>>)
    requires WordLegal(s, log) && RunDefined(s, log)
    requires Wordy(WordExec(s, log)) && Enabled(WordExec(s, log), m) && StepDefined(WordExec(s, log), m)
    ensures WordLegal(s, longer) && RunDefined(s, longer)
    ensures WordExec(s, longer) == WordNext(WordExec(s, log), m) && Wordy(WordExec(s, longer))
  {
    var s1 := WordExec(s, log);
    var s2 := WordNext(s1, m);
    assert [m][1..] == [] && WordLegal(s2, []) && WordLegal(s1, [m]);
    assert WordExec(s2, []) == s2 && WordExec(s1, [m]) == s2;
    assert RunDefined(s2, []) && RunDefined(s1, [m]);
    WordRunsCompose(s, log, [m]);
    DefinedRunsCompose(s, log, [m]);
    WordStepKeepsWordy(s1, m);
    longer := log + [m];
  }

  /** The only thread is between calls; `e` and `d` are the counters of a ring of two slots. */
  ghost predicate Resting(s: Ring<int>, e: nat, d: nat) {
    && Wordy(s) && s.capacity == 2 && s.enqueuePos == e && s.dequeuePos == d
    && |s.threads| == 1 && s.threads[0].AtRest()
  }

  /** Empty, after `n` pushes and `n` pops. */
  ghost predicate EmptyAt(s: Ring<int>, n: nat) {
    Resting(s, n, n) && s.sequence[n % 2] == n && s.sequence[(n + 1) % 2] == n + 1
  }

  ghost predicate OneItemAt(s: Ring<int>, n: nat) {
    Resting(s, n + 1, n) && s.sequence[n % 2] == n + 1 && s.sequence[(n + 1) % 2] == n + 1
  }

  lemma IndexOfTwo(n: nat)
    ensures Index(n, 2) == Slot(n, 2) == n % 2
  {
    assert Pow2(1) == 2;
    IndexIsSlot(n, 2);
  }

  lemma Parity(n: nat)
    ensures (n + 1) % 2 == 1 - n % 2 && (n + 2) % 2 == n % 2
  {
  }

  lemma ClaimForPush(s: Ring<int>, log: seq<Move<int>>, n: nat) returns (longer: seq<Move<int>>)
    requires WordLegal(s, log) && RunDefined(s, log) && EmptyAt(WordExec(s, log), n) && n <= SIGN - 2
    ensures WordLegal(s, longer) && RunDefined(s, longer)
    ensures WordExec(s, longer) == WordExec(s, log).(enqueuePos := n + 1, threads := [PushOwn(0, n)],
                                                      claimed := WordExec(s, log).claimed + [0])
    ensures Wordy(WordExec(s, longer))
  {
    IndexOfTwo(n);
    var r := WordExec(s, log);
    longer := WordOneMore(s, log, Move(0, StartPush(0)));
    assert WordExec(s, longer) == r.(threads := [PushPos(0, n)]);
    longer := WordOneMore(s, longer, Move(0, Advance));
    assert WordExec(s, longer) == r.(threads := [PushClaim(0, n)]);
    longer := WordOneMore(s, longer, Move(0, Advance));
    assert WordExec(s, longer).threads == [PushOwn(0, n)];
  }

  lemma PushOne(s: Ring<int>, log: seq<Move<int>>, n: nat) returns (longer: seq<Move<int>>)
    requires WordLegal(s, log) && RunDefined(s, log) && EmptyAt(WordExec(s, log), n) && n <= SIGN - 2
    ensures WordLegal(s, longer) && RunDefined(s, longer) && OneItemAt(WordExec(s, longer), n)
  {
    IndexOfTwo(n);
    Parity(n);
    longer := ClaimForPush(s, log, n);
    longer := WordOneMore(s, longer, Move(0, Advance));
    longer := WordOneMore(s, longer, Move(0, Advance));
  }

  lemma ClaimForPop(s: Ring<int>, log: seq<Move<int>>, n: nat) returns (longer: seq<Move<int>>)
    requires WordLegal(s, log) && RunDefined(s, log) && OneItemAt(WordExec(s, log), n) && n <= SIGN - 2
    ensures WordLegal(s, longer) && RunDefined(s, longer)
    ensures WordExec(s, longer) == WordExec(s, log).(dequeuePos := n + 1, threads := [PopOwn(n)])
    ensures Wordy(WordExec(s, longer))
  {
    IndexOfTwo(n);
    var r := WordExec(s, log);
    longer := WordOneMore(s, log, Move(0, StartPop));
    assert WordExec(s, longer) == r.(threads := [PopPos(n)]);
    assert Diff(n + 1, Wrap(n + 1)) == 0;
    longer := WordOneMore(s, longer, Move(0, Advance));
    assert WordExec(s, longer) == r.(threads := [PopClaim(n)]);
    longer := WordOneMore(s, longer, Move(0, Advance));
    assert WordExec(s, longer).threads == [PopOwn(n)];
  }

  lemma PopOne(s: Ring<int>, log: seq<Move<int>>, n: nat) returns (longer: seq<Move<int>>)
    requires WordLegal(s, log) && RunDefined(s, log) && OneItemAt(WordExec(s, log), n) && n <= SIGN - 2
    ensures WordLegal(s, longer) && RunDefined(s, longer) && EmptyAt(WordExec(s, longer), n + 1)
  {
    IndexOfTwo(n);
    Parity(n);
    longer := ClaimForPop(s, log, n);
    longer := WordOneMore(s, longer, Move(0, Advance));
    longer := WordOneMore(s, longer, Move(0, Advance));
  }

  lemma FreshIsEmpty()
    ensures EmptyAt(RingWitness.Fresh(2, 1), 0)
  {
    assert Pow2(1) == 2;
  }

  lemma OneRound(s: Ring<int>, log: seq<Move<int>>, n: nat) returns (longer: seq<Move<int>>)
    requires WordLegal(s, log) && RunDefined(s, log) && EmptyAt(WordExec(s, log), n) && n <= SIGN - 2
    ensures WordLegal(s, longer) && RunDefined(s, longer) && EmptyAt(WordExec(s, longer), n + 1)
  {
    longer := PushOne(s, log, n);
    longer := PopOne(s, longer, n);
  }

  /** A run of `n` pushes and pops, every subtraction defined. */
  ghost predicate CountsTo(log: seq<Move<int>>, n: nat) {
    && WordLegal(RingWitness.Fresh(2, 1), log) && RunDefined(RingWitness.Fresh(2, 1), log)
    && EmptyAt(WordExec(RingWitness.Fresh(2, 1), log), n)
  }

  lemma {:induction false} CountTo(n: nat) returns (log: seq<Move<int>>)
    requires n < SIGN
    ensures CountsTo(log, n)
    decreases n
  {
    if n == 0 {
      FreshIsEmpty();
      log := [];
    } else {
      log := CountTo(n - 1);
      log := OneRound(RingWitness.Fresh(2, 1), log, n - 1);
    }
  }

  // ---------------------------------------------------------------- the load that overflows

  /** The 64-bit code of thread `t` running by itself for `steps` steps. */
  ghost function WordAlone<T>(s: Ring<T>, t: nat, steps: nat): (s': Ring<T>)
    requires Wordy(s) && t < |s.threads|
    ensures |s'.threads| == |s.threads|
    decreases steps
  {
    if steps == 0 || s.threads[t].AtRest() then s
    else
      WordsStayInRing(s, Move(t, Advance));
      WordStepKeepsWordy(s, Move(t, Advance));
      WordAlone(WordNext(s, Move(t, Advance)), t, steps - 1)
  }

  /** A pop at position 2^63 - 1 of an empty ring: pos + 1 is negative as a signed word. If the
      difference is read as exact, the slot looks taken rather than empty, and the reload brings
      the same position. */
  ghost predicate Spins(s: Ring<int>) {
    && Wordy(s) && s.capacity == 2 && |s.threads| == 1
    && s.enqueuePos == s.dequeuePos == SIGN - 1 && s.sequence[1] == SIGN - 1
    && (s.threads[0] == PopPos(SIGN - 1) || s.threads[0] == PopStale(SIGN - 1))
  }

  lemma SpinStep(s: Ring<int>)
    requires Spins(s)
    ensures Spins(WordNext(s, Move(0, Advance)))
  {
    IndexOfTwo(SIGN - 1);
    WordStepKeepsWordy(s, Move(0, Advance));
  }

  lemma {:induction false} SpinsForever(s: Ring<int>, steps: nat)
    requires Spins(s)
    ensures Spins(WordAlone(s, 0, steps))
    decreases steps
  {
    if steps > 0 {
      SpinStep(s);
      SpinsForever(WordNext(s, Move(0, Advance)), steps - 1);
    }
  }

  /** There is a run of 2^63 - 1 pushes and as many pops, in which every subtraction is defined,
      up to a pop of the empty queue by the only thread whose subtraction overflows. On a machine
      that wraps, the difference is -1 and the pop answers "empty", as it should; read as exact,
      it is 2^64 - 1, and the pop never returns, however many steps it takes. */
  lemma PopAtTheBoundaryOverflows() returns (log: seq<Move<int>>)
    ensures WordLegal(RingWitness.Fresh(2, 1), log) && RunDefined(RingWitness.Fresh(2, 1), log)
    ensures var s := WordExec(RingWitness.Fresh(2, 1), log);
            && Wordy(s) && |s.threads| == 1 && s.capacity == 2
            && s.enqueuePos == s.dequeuePos == SIGN - 1 && s.threads[0] == PopPos(SIGN - 1)
            && !StepDefined(s, Move(0, Advance))
            && WrappedDiff(s.sequence[Slot(SIGN - 1, 2)], SIGN) == -1
            && Diff(s.sequence[Slot(SIGN - 1, 2)], SIGN) == WORD - 1
            && forall steps: nat :: !WordAlone(s, 0, steps).threads[0].AtRest()
  {
    log := CountTo(SIGN - 1);
    log := StartSpinning(RingWitness.Fresh(2, 1), log);
    var s := WordExec(RingWitness.Fresh(2, 1), log);
    SlotIsRemainder(SIGN - 1, 2);
    NeverAtRest(s);
  }

  lemma StartSpinning(s: Ring<int>, log: seq<Move<int>>) returns (longer: seq<Move<int>>)
    requires WordLegal(s, log) && RunDefined(s, log) && EmptyAt(WordExec(s, log), SIGN - 1)
    ensures WordLegal(s, longer) && RunDefined(s, longer) && Spins(WordExec(s, longer))
    ensures WordExec(s, longer).threads[0] == PopPos(SIGN - 1)
  {
    longer := WordOneMore(s, log, Move(0, StartPop));
  }

  lemma NeverAtRest(s: Ring<int>)
    requires Spins(s)
    ensures forall steps: nat :: !WordAlone(s, 0, steps).threads[0].AtRest()
  {
    forall steps: nat
      ensures !WordAlone(s, 0, steps).threads[0].AtRest()
    {
      SpinsForever(s, steps);
    }
  }
}
