/** The ring's operations as the code performs them, on 64-bit words: masked indices, signed
    differences and wrapping additions. While the positions stay below 2^63 they take exactly
    the steps of the unbounded protocol. */
module RingWords {
  import opened Words
  import opened RingProtocol
  import opened RingInvariant
  import RingProgress

  function Index(pos: nat, capacity: nat): nat
    requires capacity >= 1
  {
    BitAnd(pos, capacity - 1)
  }

  /** `static_cast<ptrdiff_t>(a) - static_cast<ptrdiff_t>(b)`. Beyond 64 bits the subtraction is
      kept exact: its sign is what the code branches on. */
  function Diff(a: nat, b: nat): int
    requires a < WORD && b < WORD
  {
    Signed(a) - Signed(b)
  }

  function WordPushBranch<T>(value: T, pos: nat, sequence: nat): Pc<T>
    requires pos < WORD && sequence < WORD
  {
    var diff := Diff(sequence, pos);
    if diff == 0 then PushClaim(value, pos)
    else if diff < 0 then PushDone(value, false)
    else PushStale(value, pos)
  }

  function WordPopBranch<T>(pos: nat, sequence: nat): Pc<T>
    requires pos < WORD && sequence < WORD
  {
    var diff := Diff(sequence, Wrap(pos + 1));
    if diff == 0 then PopClaim(pos)
    else if diff < 0 then PopEmpty
    else PopStale(pos)
  }

  /** Masking is indexing modulo the capacity, for every word. */
  lemma IndexIsSlot(pos: nat, capacity: nat)
    requires IsPow2(capacity)
    ensures capacity >= 1 && Index(pos, capacity) == Slot(pos, capacity) == pos % capacity
  {
    var k: nat :| capacity == Pow2(k);
    MaskIsRemainder(pos, k);
    SlotIsRemainder(pos, capacity);
  }

  /** The C++ subtraction of two ptrdiff_t values has this result; outside, it overflows and is
      undefined. */
  predicate Defined(diff: int) { -SIGN <= diff < SIGN }

  /** The signed comparison decides as the unbounded one exactly when the loaded sequence and the
      position lie on the same side of 2^63. For a sequence and a position less than 2^63 apart,
      that is also exactly when the subtraction is defined at all. */
  lemma PushBranchAgreesExactly<T>(value: T, pos: nat, sequence: nat)
    requires pos < WORD && sequence < WORD
    ensures WordPushBranch(value, pos, sequence) == PushBranch(value, pos, sequence)
       <==> (pos < SIGN <==> sequence < SIGN)
    ensures Defined(sequence - pos) ==>
              (Defined(Diff(sequence, pos)) <==> (pos < SIGN <==> sequence < SIGN))
  {
  }

  lemma PopBranchAgreesExactly<T>(pos: nat, sequence: nat)
    requires pos < WORD && sequence < WORD
    ensures WordPopBranch<T>(pos, sequence) == PopBranch<T>(pos, sequence)
       <==> (pos + 1 < SIGN <==> sequence < SIGN)
    ensures pos + 1 < WORD && Defined(sequence - (pos + 1)) ==>
              (Defined(Diff(sequence, Wrap(pos + 1))) <==> (pos + 1 < SIGN <==> sequence < SIGN))
  {
  }

  /** The difference as a machine gives it whose signed subtraction wraps. */
  function WrappedDiff(a: nat, b: nat): int
    requires a < WORD && b < WORD
  {
    Signed(Wrap(Signed(a) - Signed(b)))
  }

  /** Such a machine finds the true distance of two words exactly when they are less than 2^63
      apart, on whichever sides of 2^63 they lie. */
  lemma WrappedDiffExactly(a: nat, b: nat)
    requires a < WORD && b < WORD
    ensures WrappedDiff(a, b) == a - b <==> Defined(a - b)
  {
  }

  /** All positions and sequences are words, so the code can hold them. */
  ghost predicate Wordy<T>(s: Ring<T>) {
    && Shaped(s) && IsPow2(s.capacity)
    && s.enqueuePos < WORD && s.dequeuePos < WORD
    && (forall i :: 0 <= i < |s.sequence| ==> s.sequence[i] < WORD)
    && (forall t :: 0 <= t < |s.threads| ==> WordyPc(s.threads[t]))
  }

  predicate WordyPc<T>(pc: Pc<T>) {
    match pc
    case PushPos(_, pos) => pos < WORD
    case PushStale(_, pos) => pos < WORD
    case PushClaim(_, pos) => pos < WORD
    case PushOwn(_, pos) => pos < WORD
    case PushFilled(_, pos) => pos < WORD
    case PopPos(pos) => pos < WORD
    case PopStale(pos) => pos < WORD
    case PopClaim(pos) => pos < WORD
    case PopOwn(pos) => pos < WORD
    case PopTaken(pos, _) => pos < WORD
    case _ => true
  }

  lemma IndexInRange<T>(s: Ring<T>, pos: nat)
    requires Shaped(s) && IsPow2(s.capacity)
    ensures Index(pos, s.capacity) < s.capacity
  {
    IndexIsSlot(pos, s.capacity);
  }

  /** One atomic operation of `t` on words. */
  ghost function WordAdvanced<T>(s: Ring<T>, t: nat): Ring<T>
    requires Wordy(s) && t < |s.threads|
  {
    match s.threads[t]
    case PushPos(value, pos) =>
      IndexInRange(s, pos);
      SetPc(s, t, WordPushBranch(value, pos, s.sequence[Index(pos, s.capacity)]))
    case PushStale(value, _) => SetPc(s, t, PushPos(value, s.enqueuePos))
    case PushClaim(value, pos) =>
      if s.enqueuePos == pos then
        SetPc(s, t, PushOwn(value, pos)).(enqueuePos := Wrap(pos + 1), claimed := s.claimed + [value])
      else
        SetPc(s, t, PushPos(value, s.enqueuePos))
    case PushOwn(value, pos) =>
      IndexInRange(s, pos);
      SetPc(s, t, PushFilled(value, pos)).(data := s.data[Index(pos, s.capacity) := value])
    case PushFilled(value, pos) =>
      IndexInRange(s, pos);
      SetPc(s, t, PushDone(value, true)).(sequence := s.sequence[Index(pos, s.capacity) := Wrap(pos + 1)])
    case PopPos(pos) =>
      IndexInRange(s, pos);
      SetPc(s, t, WordPopBranch(pos, s.sequence[Index(pos, s.capacity)]))
    case PopStale(_) => SetPc(s, t, PopPos(s.dequeuePos))
    case PopClaim(pos) =>
      if s.dequeuePos == pos then
        SetPc(s, t, PopOwn(pos)).(dequeuePos := Wrap(pos + 1))
      else
        SetPc(s, t, PopPos(s.dequeuePos))
    case PopOwn(pos) =>
      IndexInRange(s, pos);
      SetPc(s, t, PopTaken(pos, s.data[Index(pos, s.capacity)]))
    case PopTaken(pos, value) =>
      IndexInRange(s, pos);
      SetPc(s, t, PopFound(value)).(sequence := s.sequence[Index(pos, s.capacity) := Wrap(pos + s.capacity)])
    case _ => s
  }

  ghost function WordNext<T>(s: Ring<T>, m: Move<T>): Ring<T>
    requires Wordy(s) && Enabled(s, m)
  {
    if m.action.Advance? then WordAdvanced(s, m.thread) else Next(s, m)
  }

  /** No sequence has run ahead of the next free lap. */
  ghost predicate Ceiling<T>(s: Ring<T>) {
    forall i :: 0 <= i < |s.sequence| ==> s.sequence[i] <= s.enqueuePos + s.capacity
  }

  lemma StepKeepsCeiling<T>(s: Ring<T>, m: Move<T>)
    requires Inv(s) && Ceiling(s) && Enabled(s, m)
    ensures Ceiling(Next(s, m))
  {
    KnowPc(s, m.thread);
  }

  /** The positions are small enough for 64-bit code. */
  predicate Fits<T>(s: Ring<T>) { s.enqueuePos + s.capacity < SIGN }

  lemma FittingIsWordy<T>(s: Ring<T>)
    requires Inv(s) && Ceiling(s) && Fits(s) && IsPow2(s.capacity)
    ensures Wordy(s)
  {
    forall t | 0 <= t < |s.threads|
      ensures WordyPc(s.threads[t])
    {
      KnowPc(s, t);
    }
  }

  /** The condition under which a thread's next operation does on words what it does on unbounded
      numbers: both operands of the comparison on one side of 2^63, and no addition that wraps. */
  ghost predicate StepFits<T>(s: Ring<T>, t: nat)
    requires Wordy(s) && t < |s.threads|
  {
    match s.threads[t]
    case PushPos(_, pos) => pos < SIGN <==> s.sequence[Slot(pos, s.capacity)] < SIGN
    case PushClaim(_, pos) => s.enqueuePos == pos ==> pos + 1 < WORD
    case PushFilled(_, pos) => pos + 1 < WORD
    case PopPos(pos) => pos + 1 < SIGN <==> s.sequence[Slot(pos, s.capacity)] < SIGN
    case PopClaim(pos) => s.dequeuePos == pos ==> pos + 1 < WORD
    case PopTaken(pos, _) => pos + s.capacity < WORD
    case _ => true
  }

  lemma WordPushAgreesExactly<T>(s: Ring<T>, t: nat)
    requires Wordy(s) && t < |s.threads|
    requires var pc := s.threads[t]; pc.InPushLoop() || pc.PushOwn? || pc.PushFilled?
    ensures WordAdvanced(s, t) == Advanced(s, t) <==> StepFits(s, t)
  {
    var pc := s.threads[t];
    assert WordyPc(pc);
    IndexIsSlot(pc.pos, s.capacity);
    var w, a := WordAdvanced(s, t), Advanced(s, t);
    if pc.PushPos? {
      PushBranchAgreesExactly(pc.value, pc.pos, s.sequence[Slot(pc.pos, s.capacity)]);
      assert w == a <==> w.threads[t] == a.threads[t];
    } else if pc.PushClaim? {
      assert w == a <==> w.enqueuePos == a.enqueuePos;
    } else if pc.PushFilled? {
      var i := Slot(pc.pos, s.capacity);
      assert w == a <==> w.sequence[i] == a.sequence[i];
    }
  }

  lemma WordPopAgreesExactly<T>(s: Ring<T>, t: nat)
    requires Wordy(s) && t < |s.threads|
    requires var pc := s.threads[t]; pc.InPopLoop() || pc.PopOwn? || pc.PopTaken?
    ensures WordAdvanced(s, t) == Advanced(s, t) <==> StepFits(s, t)
  {
    var pc := s.threads[t];
    assert WordyPc(pc);
    IndexIsSlot(pc.pos, s.capacity);
    var w, a := WordAdvanced(s, t), Advanced(s, t);
    if pc.PopPos? {
      PopBranchAgreesExactly<T>(pc.pos, s.sequence[Slot(pc.pos, s.capacity)]);
      assert w == a <==> w.threads[t] == a.threads[t];
    } else if pc.PopClaim? {
      assert w == a <==> w.dequeuePos == a.dequeuePos;
    } else if pc.PopTaken? {
      var i := Slot(pc.pos, s.capacity);
      assert w == a <==> w.sequence[i] == a.sequence[i];
    }
  }

  /** Fixed-width refinement, one step, exactly: on any words, the 64-bit operation takes the
      protocol's branch and stores the protocol's values if and only if the step fits. */
  lemma WordStepAgreesExactly<T>(s: Ring<T>, m: Move<T>)
    requires Wordy(s) && Enabled(s, m)
    ensures WordNext(s, m) == Next(s, m) <==> (m.action.Advance? ==> StepFits(s, m.thread))
  {
    if m.action.Advance? {
      var pc := s.threads[m.thread];
      if pc.InPushLoop() || pc.PushOwn? || pc.PushFilled? {
        WordPushAgreesExactly(s, m.thread);
      } else {
        WordPopAgreesExactly(s, m.thread);
      }
    }
  }

  /** Fixed-width refinement, one step: below 2^63 every step fits. */
  lemma WordStepRefines<T>(s: Ring<T>, m: Move<T>)
    requires Inv(s) && Ceiling(s) && Fits(s) && IsPow2(s.capacity) && Enabled(s, m)
    ensures Wordy(s) && WordNext(s, m) == Next(s, m)
  {
    FittingIsWordy(s);
    KnowPc(s, m.thread);
    WordStepAgreesExactly(s, m);
  }

  /** Words stay words, wherever the positions are. */
  lemma WordsStayInThread<T>(s: Ring<T>, m: Move<T>)
    requires Wordy(s) && Enabled(s, m)
    ensures WordyPc(WordNext(s, m).threads[m.thread])
  {
    assert WordyPc(s.threads[m.thread]);
  }

  lemma WordsStayInRing<T>(s: Ring<T>, m: Move<T>)
    requires Wordy(s) && Enabled(s, m)
    ensures var s' := WordNext(s, m);
            && Shaped(s') && s'.capacity == s.capacity && s'.enqueuePos < WORD && s'.dequeuePos < WORD
            && |s'.threads| == |s.threads| && (forall i :: 0 <= i < |s'.sequence| ==> s'.sequence[i] < WORD)
            && (forall k :: 0 <= k < |s.threads| && k != m.thread ==> s'.threads[k] == s.threads[k])
  {
    var pc := s.threads[m.thread];
    if !pc.AtRest() { IndexInRange(s, pc.pos); }
  }

  lemma WordStepKeepsWordy<T>(s: Ring<T>, m: Move<T>)
    requires Wordy(s) && Enabled(s, m)
    ensures Wordy(WordNext(s, m))
  {
    WordsStayInThread(s, m);
    WordsStayInRing(s, m);
    forall k | 0 <= k < |s.threads|
      ensures WordyPc(WordNext(s, m).threads[k])
    {
      if k != m.thread { assert WordyPc(s.threads[k]); }
    }
  }

  /** One atomic operation of the 64-bit code: it stays on words, and below 2^63 it is the
      protocol's step and keeps what the protocol keeps. */
  lemma AtomicStep<T>(s: Ring<T>, m: Move<T>)
    requires Wordy(s) && Enabled(s, m)
    ensures Wordy(WordNext(s, m))
    ensures Inv(s) && Ceiling(s) && Fits(s) ==>
      WordNext(s, m) == Next(s, m) && Inv(WordNext(s, m)) && Ceiling(WordNext(s, m))
  {
    WordStepKeepsWordy(s, m);
    if Inv(s) && Ceiling(s) && Fits(s) {
      WordStepRefines(s, m);
      StepKeepsInv(s, m);
      StepKeepsCeiling(s, m);
    }
  }

  ghost predicate WordLegal<T>(s: Ring<T>, moves: seq<Move<T>>)
    decreases |moves|
  {
    moves == [] || (Wordy(s) && Enabled(s, moves[0]) && WordLegal(WordNext(s, moves[0]), moves[1..]))
  }

  ghost function WordExec<T>(s: Ring<T>, moves: seq<Move<T>>): Ring<T>
    requires WordLegal(s, moves)
    decreases |moves|
  {
    if moves == [] then s else WordExec(WordNext(s, moves[0]), moves[1..])
  }

  /** Fixed-width refinement, whole runs: as long as `enqueue_pos_ + capacity_` is still below
      2^63 at the end, every run of the 64-bit code is the run of the protocol. */
  lemma {:induction false} WordRunRefines<T>(s: Ring<T>, moves: seq<Move<T>>)
    requires Inv(s) && Ceiling(s) && IsPow2(s.capacity) && Legal(s, moves)
    requires Fits(Exec(s, moves))
    ensures WordLegal(s, moves) && WordExec(s, moves) == Exec(s, moves)
    decreases |moves|
  {
    if moves != [] {
      var m := moves[0];
      RingProgress.RunIsMonotone(s, moves);
      WordStepRefines(s, m);
      StepKeepsInv(s, m);
      StepKeepsCeiling(s, m);
      WordRunRefines(Next(s, m), moves[1..]);
    }
  }
}
