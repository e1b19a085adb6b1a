/** The ticket invariant of the ring and its preservation by every step of every thread. */
module RingInvariant {
  import opened RingProtocol

  function SeqAt<T>(s: Ring<T>, u: nat): nat
    requires Shaped(s)
  {
    s.sequence[Slot(u, s.capacity)]
  }

  function DataAt<T>(s: Ring<T>, u: nat): T
    requires Shaped(s)
  {
    s.data[Slot(u, s.capacity)]
  }

  ghost predicate PushOwned<T>(s: Ring<T>, u: nat) {
    exists t :: 0 <= t < |s.threads| && s.threads[t].OwnsPush(u)
  }

  ghost predicate PopOwned<T>(s: Ring<T>, u: nat) {
    exists t :: 0 <= t < |s.threads| && s.threads[t].OwnsPop(u)
  }

  /** Ticket `u` has been stored by its producer: its sequence was bumped to `u + 1`. */
  ghost predicate Published<T>(s: Ring<T>, u: nat) {
    u < s.enqueuePos && !PushOwned(s, u)
  }

  /** Ticket `u` has been given back by its consumer: its slot may be reused. */
  ghost predicate Released<T>(s: Ring<T>, u: nat) {
    u < s.dequeuePos && !PopOwned(s, u)
  }

  ghost predicate Counters<T>(s: Ring<T>) {
    && Shaped(s) && s.capacity >= 2
    && s.dequeuePos <= s.enqueuePos <= s.dequeuePos + s.capacity
    && |s.claimed| == s.enqueuePos
  }

  /** The slot of ticket `u`, one of the next `capacity` tickets to be consumed. A claimed
      ticket is either published or still owned by its producer; an unclaimed one is either
      free or still owned by the consumer of the previous lap. */
  ghost predicate TicketOk<T>(s: Ring<T>, u: nat)
    requires Counters(s)
  {
    if u < s.enqueuePos then
      || (SeqAt(s, u) == u + 1 && DataAt(s, u) == s.claimed[u])
      || (SeqAt(s, u) == u && PushOwned(s, u))
    else
      || SeqAt(s, u) == u
      || (u >= s.capacity && SeqAt(s, u) == u - s.capacity + 1 && PopOwned(s, u - s.capacity))
  }

  ghost predicate Tickets<T>(s: Ring<T>)
    requires Counters(s)
  {
    forall u :: s.dequeuePos <= u < s.dequeuePos + s.capacity ==> TicketOk(s, u)
  }

  /** Sequences only grow, so a claimed ticket bounds its slot's sequence for ever. */
  ghost predicate Floors<T>(s: Ring<T>)
    requires Counters(s)
  {
    && (forall u: nat :: u < s.enqueuePos ==> s.sequence[Slot(u, s.capacity)] >= u)
    && (forall u: nat :: u < s.dequeuePos ==> s.sequence[Slot(u, s.capacity)] >= u + 1)
  }

  /** What each program counter knows. A thread that saw its slot ready still sees it ready for
      as long as its position is the current one: stale reads are harmless. */
  ghost predicate PcOk<T>(s: Ring<T>, pc: Pc<T>)
    requires Counters(s)
  {
    match pc
    case PushPos(_, pos) => pos <= s.enqueuePos
    case PushStale(_, pos) => pos < s.enqueuePos
    case PushClaim(_, pos) => pos <= s.enqueuePos && (pos == s.enqueuePos ==> SeqAt(s, pos) == pos)
    case PushOwn(value, pos) =>
      s.dequeuePos <= pos < s.enqueuePos && SeqAt(s, pos) == pos && s.claimed[pos] == value
    case PushFilled(value, pos) =>
      && s.dequeuePos <= pos < s.enqueuePos && SeqAt(s, pos) == pos && s.claimed[pos] == value
      && DataAt(s, pos) == value
    case PopPos(pos) => pos <= s.dequeuePos
    case PopStale(pos) => pos < s.dequeuePos
    case PopClaim(pos) => pos <= s.dequeuePos && (pos == s.dequeuePos ==> SeqAt(s, pos) == pos + 1)
    case PopOwn(pos) =>
      && pos < s.dequeuePos && s.enqueuePos <= pos + s.capacity && SeqAt(s, pos) == pos + 1
      && DataAt(s, pos) == s.claimed[pos]
    case PopTaken(pos, value) =>
      && pos < s.dequeuePos && s.enqueuePos <= pos + s.capacity && SeqAt(s, pos) == pos + 1
      && value == s.claimed[pos]
    case _ => true
  }

  ghost predicate Pcs<T>(s: Ring<T>)
    requires Counters(s)
  {
    forall t :: 0 <= t < |s.threads| ==> PcOk(s, s.threads[t])
  }

  /** No ticket has two producers or two consumers. */
  ghost predicate Exclusive<T>(s: Ring<T>) {
    forall t, t', u: nat :: 0 <= t < |s.threads| && 0 <= t' < |s.threads| && t != t' ==>
      && !(s.threads[t].OwnsPush(u) && s.threads[t'].OwnsPush(u))
      && !(s.threads[t].OwnsPop(u) && s.threads[t'].OwnsPop(u))
  }

  ghost predicate Inv<T>(s: Ring<T>) {
    Counters(s) && Tickets(s) && Floors(s) && Pcs(s) && Exclusive(s)
  }

  /** The part of the invariant about one thread, without unfolding it. */
  lemma KnowPc<T>(s: Ring<T>, t: nat)
    requires Inv(s) && t < |s.threads|
    ensures PcOk(s, s.threads[t])
  {
  }

  lemma ClaimIsNotAhead<T>(s: Ring<T>, t: nat)
    requires Inv(s) && t < |s.threads|
    ensures s.threads[t].PushClaim? ==> s.threads[t].pos <= s.enqueuePos
    ensures s.threads[t].PopClaim? ==> s.threads[t].pos <= s.dequeuePos
  {
    KnowPc(s, t);
  }

  lemma InitialInv<T>(s: Ring<T>, n: nat)
    requires Initial(s, n)
    ensures Inv(s)
  {
  }

  /** Moving one thread's program counter between positions where it owns nothing. */
  lemma LocalMoveKeepsInv<T>(s: Ring<T>, t: nat, pc: Pc<T>)
    requires Inv(s) && t < |s.threads|
    requires !s.threads[t].PushOwn? && !s.threads[t].PushFilled?
    requires !s.threads[t].PopOwn? && !s.threads[t].PopTaken?
    requires !pc.PushOwn? && !pc.PushFilled? && !pc.PopOwn? && !pc.PopTaken?
    requires PcOk(s, pc)
    ensures Inv(SetPc(s, t, pc))
  {
    var s' := SetPc(s, t, pc);
    OwnersKept(s, s', t);
    forall u | s.dequeuePos <= u < s.dequeuePos + s.capacity
      ensures TicketOk(s', u)
    {
      assert TicketOk(s, u);
    }
  }

  /** Ownership facts survive a step of `t` for every ticket that `t` keeps or never had. */
  lemma OwnersKept<T>(s: Ring<T>, s': Ring<T>, t: nat)
    requires t < |s.threads| && |s'.threads| == |s.threads|
    requires forall k :: 0 <= k < |s.threads| && k != t ==> s'.threads[k] == s.threads[k]
    ensures forall u: nat ::
              PushOwned(s, u) && (s.threads[t].OwnsPush(u) ==> s'.threads[t].OwnsPush(u)) ==> PushOwned(s', u)
    ensures forall u: nat ::
              PopOwned(s, u) && (s.threads[t].OwnsPop(u) ==> s'.threads[t].OwnsPop(u)) ==> PopOwned(s', u)
  {
    forall u: nat | PushOwned(s, u) && (s.threads[t].OwnsPush(u) ==> s'.threads[t].OwnsPush(u))
      ensures PushOwned(s', u)
    {
      var k :| 0 <= k < |s.threads| && s.threads[k].OwnsPush(u);
      assert s'.threads[k].OwnsPush(u);
    }
    forall u: nat | PopOwned(s, u) && (s.threads[t].OwnsPop(u) ==> s'.threads[t].OwnsPop(u))
      ensures PopOwned(s', u)
    {
      var k :| 0 <= k < |s.threads| && s.threads[k].OwnsPop(u);
      assert s'.threads[k].OwnsPop(u);
    }
  }

  /** A thread that takes no new ticket leaves ownership exclusive. */
  lemma ExclusiveKept<T>(s: Ring<T>, s': Ring<T>, t: nat)
    requires Exclusive(s) && t < |s.threads| && |s'.threads| == |s.threads|
    requires forall k :: 0 <= k < |s.threads| && k != t ==> s'.threads[k] == s.threads[k]
    requires forall u: nat :: s'.threads[t].OwnsPush(u) ==> s.threads[t].OwnsPush(u)
    requires forall u: nat :: s'.threads[t].OwnsPop(u) ==> s.threads[t].OwnsPop(u)
    ensures Exclusive(s')
  {
    forall i, j, u: nat | 0 <= i < |s.threads| && 0 <= j < |s.threads| && i != j
      ensures !(s'.threads[i].OwnsPush(u) && s'.threads[j].OwnsPush(u))
      ensures !(s'.threads[i].OwnsPop(u) && s'.threads[j].OwnsPop(u))
    {
      assert s'.threads[i].OwnsPush(u) ==> s.threads[i].OwnsPush(u);
      assert s'.threads[j].OwnsPush(u) ==> s.threads[j].OwnsPush(u);
      assert s'.threads[i].OwnsPop(u) ==> s.threads[i].OwnsPop(u);
      assert s'.threads[j].OwnsPop(u) ==> s.threads[j].OwnsPop(u);
    }
  }

  lemma PushLoadKeepsInv<T>(s: Ring<T>, t: nat)
    requires Inv(s) && t < |s.threads| && s.threads[t].PushPos?
    ensures Inv(Advanced(s, t))
  {
    var pos := s.threads[t].pos;
    if pos == s.enqueuePos && pos < s.dequeuePos + s.capacity {
      assert TicketOk(s, pos);
    } else if pos == s.enqueuePos {
      assert TicketOk(s, s.dequeuePos);
      assert Slot(pos, s.capacity) == Slot(s.dequeuePos, s.capacity);
    }
    LocalMoveKeepsInv(s, t, Advanced(s, t).threads[t]);
  }

  lemma PopLoadKeepsInv<T>(s: Ring<T>, t: nat)
    requires Inv(s) && t < |s.threads| && s.threads[t].PopPos?
    ensures Inv(Advanced(s, t))
  {
    assert TicketOk(s, s.dequeuePos);
    LocalMoveKeepsInv(s, t, Advanced(s, t).threads[t]);
  }

  // ---------------------------------------------------------------- a producer wins its CAS

  ghost predicate WinsPush<T>(s: Ring<T>, t: nat) {
    Inv(s) && t < |s.threads| && s.threads[t].PushClaim? && s.threads[t].pos == s.enqueuePos
  }

  /** The ring cannot be full when a producer's CAS succeeds: a full ring's next slot is that
      of the oldest ticket, whose sequence differs. */
  lemma WinPushHasRoom<T>(s: Ring<T>, t: nat)
    requires WinsPush(s, t)
    ensures s.enqueuePos < s.dequeuePos + s.capacity
    ensures Counters(Advanced(s, t)) && Floors(Advanced(s, t))
  {
    assert TicketOk(s, s.dequeuePos);
  }

  lemma WinPushTickets<T>(s: Ring<T>, t: nat)
    requires WinsPush(s, t) && Counters(Advanced(s, t))
    ensures Tickets(Advanced(s, t))
  {
    var s' := Advanced(s, t);
    OwnersKept(s, s', t);
    assert PushOwned(s', s.enqueuePos) by { assert s'.threads[t].OwnsPush(s.enqueuePos); }
    forall u | s'.dequeuePos <= u < s'.dequeuePos + s'.capacity
      ensures TicketOk(s', u)
    {
      assert TicketOk(s, u);
    }
  }

  lemma WinPushPcs<T>(s: Ring<T>, t: nat)
    requires WinsPush(s, t) && Counters(Advanced(s, t))
    ensures Pcs(Advanced(s, t))
  {
    var s' := Advanced(s, t);
    forall k | 0 <= k < |s'.threads|
      ensures PcOk(s', s'.threads[k])
    {
      KnowPc(s, k);
    }
  }

  /** Nobody owned the new ticket: all owned ones are older. */
  lemma WinPushExclusive<T>(s: Ring<T>, t: nat)
    requires WinsPush(s, t) && Counters(Advanced(s, t))
    ensures Exclusive(Advanced(s, t))
  {
    var s' := Advanced(s, t);
    forall k | 0 <= k < |s.threads|
      ensures !s.threads[k].OwnsPush(s.enqueuePos)
    {
      KnowPc(s, k);
    }
  }

  lemma WinPushKeepsInv<T>(s: Ring<T>, t: nat)
    requires WinsPush(s, t)
    ensures Inv(Advanced(s, t))
  {
    WinPushHasRoom(s, t);
    WinPushTickets(s, t);
    WinPushPcs(s, t);
    WinPushExclusive(s, t);
  }

  // ---------------------------------------------------------------- a consumer wins its CAS

  ghost predicate WinsPop<T>(s: Ring<T>, t: nat) {
    Inv(s) && t < |s.threads| && s.threads[t].PopClaim? && s.threads[t].pos == s.dequeuePos
  }

  /** The ring cannot be empty when a consumer's CAS succeeds, and the head is published. */
  lemma WinPopHasHead<T>(s: Ring<T>, t: nat)
    requires WinsPop(s, t)
    ensures s.dequeuePos < s.enqueuePos && DataAt(s, s.dequeuePos) == s.claimed[s.dequeuePos]
    ensures Counters(Advanced(s, t)) && Floors(Advanced(s, t))
  {
    assert TicketOk(s, s.dequeuePos);
  }

  lemma WinPopTickets<T>(s: Ring<T>, t: nat)
    requires WinsPop(s, t) && Counters(Advanced(s, t))
    ensures Tickets(Advanced(s, t))
  {
    var s' := Advanced(s, t);
    OwnersKept(s, s', t);
    assert PopOwned(s', s.dequeuePos) by { assert s'.threads[t].OwnsPop(s.dequeuePos); }
    forall u | s'.dequeuePos <= u < s'.dequeuePos + s'.capacity
      ensures TicketOk(s', u)
    {
      if u < s.dequeuePos + s.capacity { assert TicketOk(s, u); }
    }
  }

  lemma WinPopPcs<T>(s: Ring<T>, t: nat)
    requires WinsPop(s, t) && Counters(Advanced(s, t))
    requires s.dequeuePos < s.enqueuePos && DataAt(s, s.dequeuePos) == s.claimed[s.dequeuePos]
    ensures Pcs(Advanced(s, t))
  {
    var s' := Advanced(s, t);
    forall k | 0 <= k < |s'.threads|
      ensures PcOk(s', s'.threads[k])
    {
      KnowPc(s, k);
    }
  }

  /** Nobody owned the new ticket: all owned ones are older. */
  lemma WinPopExclusive<T>(s: Ring<T>, t: nat)
    requires WinsPop(s, t) && Counters(Advanced(s, t))
    ensures Exclusive(Advanced(s, t))
  {
    var s' := Advanced(s, t);
    forall k | 0 <= k < |s.threads|
      ensures !s.threads[k].OwnsPop(s.dequeuePos)
    {
      KnowPc(s, k);
    }
  }

  lemma WinPopKeepsInv<T>(s: Ring<T>, t: nat)
    requires WinsPop(s, t)
    ensures Inv(Advanced(s, t))
  {
    WinPopHasHead(s, t);
    WinPopTickets(s, t);
    WinPopPcs(s, t);
    WinPopExclusive(s, t);
  }

  // ---------------------------------------------------------------- the winner uses its slot

  /** Two slots owned at once, or owned and seen ready, are different slots. `pos` is a ticket
      whose owner may touch the slot; `u` is any ticket whose slot must not be disturbed. */
  ghost predicate NearTickets<T>(s: Ring<T>, pos: nat, u: nat) {
    u < pos < u + s.capacity || pos < u < pos + s.capacity
  }

  lemma NearSlotsDiffer<T>(s: Ring<T>, pos: nat, u: nat)
    requires Shaped(s) && NearTickets(s, pos, u)
    ensures Slot(pos, s.capacity) != Slot(u, s.capacity)
  {
    if u < pos { SlotsApart(u, pos, s.capacity); } else { SlotsApart(pos, u, s.capacity); }
  }

  /** Every other owner's slot is not the slot of the ticket `pos` that `t` owns. */
  lemma OtherOwnerElsewhere<T>(s: Ring<T>, t: nat, k: nat)
    requires Inv(s) && t < |s.threads| && k < |s.threads| && k != t
    requires s.threads[t].PushOwn? || s.threads[t].PushFilled? || s.threads[t].PopOwn? || s.threads[t].PopTaken?
    requires s.threads[k].PushOwn? || s.threads[k].PushFilled? || s.threads[k].PopOwn? || s.threads[k].PopTaken?
    ensures Slot(s.threads[t].pos, s.capacity) != Slot(s.threads[k].pos, s.capacity)
  {
    var pos, u := s.threads[t].pos, s.threads[k].pos;
    KnowPc(s, t);
    KnowPc(s, k);
    assert s.threads[t].OwnsPush(pos) || s.threads[t].OwnsPop(pos);
    if pos != u { NearSlotsDiffer(s, pos, u); }
  }

  lemma FillKeepsInv<T>(s: Ring<T>, t: nat)
    requires Inv(s) && t < |s.threads| && s.threads[t].PushOwn?
    ensures Inv(Advanced(s, t))
  {
    var s' := Advanced(s, t);
    ExclusiveKept(s, s', t);
    forall k | 0 <= k < |s'.threads|
      ensures PcOk(s', s'.threads[k])
    {
      KnowPc(s, k);
      if k != t && s.threads[k].PopOwn? { OtherOwnerElsewhere(s, t, k); }
      if k != t && s.threads[k].PushFilled? { OtherOwnerElsewhere(s, t, k); }
    }
    FillTickets(s, t);
  }

  lemma FillTickets<T>(s: Ring<T>, t: nat)
    requires Inv(s) && t < |s.threads| && s.threads[t].PushOwn?
    ensures Tickets(Advanced(s, t))
  {
    var s' := Advanced(s, t);
    var pos := s.threads[t].pos;
    OwnersKept(s, s', t);
    forall u | s'.dequeuePos <= u < s'.dequeuePos + s'.capacity
      ensures TicketOk(s', u)
    {
      assert TicketOk(s, u);
      if u != pos { NearSlotsDiffer(s, pos, u); }
    }
  }

  lemma TakeKeepsInv<T>(s: Ring<T>, t: nat)
    requires Inv(s) && t < |s.threads| && s.threads[t].PopOwn?
    ensures Inv(Advanced(s, t))
  {
    var s' := Advanced(s, t);
    OwnersKept(s, s', t);
    ExclusiveKept(s, s', t);
    forall u | s'.dequeuePos <= u < s'.dequeuePos + s'.capacity
      ensures TicketOk(s', u)
    {
      assert TicketOk(s, u);
    }
    forall k | 0 <= k < |s'.threads|
      ensures PcOk(s', s'.threads[k])
    {
      KnowPc(s, k);
    }
  }

  // ---------------------------------------------------------------- the winner bumps the sequence

  /** Any other thread that saw a slot ready at the current position is looking elsewhere. */
  lemma ReadersElsewhere<T>(s: Ring<T>, t: nat, k: nat)
    requires Inv(s) && t < |s.threads| && k < |s.threads|
    requires s.threads[t].PushFilled? || s.threads[t].PopTaken?
    requires s.threads[k].PushClaim? ==> s.threads[k].pos == s.enqueuePos
    requires s.threads[k].PopClaim? ==> s.threads[k].pos == s.dequeuePos
    requires s.threads[k].PushClaim? || s.threads[k].PopClaim?
    ensures Slot(s.threads[t].pos, s.capacity) != Slot(s.threads[k].pos, s.capacity)
  {
    KnowPc(s, t);
    KnowPc(s, k);
    assert TicketOk(s, s.dequeuePos);
    var pos, u := s.threads[t].pos, s.threads[k].pos;
    if NearTickets(s, pos, u) { NearSlotsDiffer(s, pos, u); }
  }

  ghost predicate Bumps<T>(s: Ring<T>, t: nat) {
    Inv(s) && t < |s.threads| && (s.threads[t].PushFilled? || s.threads[t].PopTaken?)
  }

  lemma BumpPcs<T>(s: Ring<T>, t: nat)
    requires Bumps(s, t)
    ensures Counters(Advanced(s, t)) && Pcs(Advanced(s, t))
  {
    var s' := Advanced(s, t);
    forall k | 0 <= k < |s'.threads|
      ensures PcOk(s', s'.threads[k])
    {
      KnowPc(s, k);
      if k != t {
        var pc := s.threads[k];
        if pc.PushOwn? || pc.PushFilled? || pc.PopOwn? || pc.PopTaken? {
          OtherOwnerElsewhere(s, t, k);
        } else if (pc.PushClaim? && pc.pos == s.enqueuePos) || (pc.PopClaim? && pc.pos == s.dequeuePos) {
          ReadersElsewhere(s, t, k);
        }
      }
    }
  }

  lemma PublishTickets<T>(s: Ring<T>, t: nat)
    requires Bumps(s, t) && s.threads[t].PushFilled?
    ensures Tickets(Advanced(s, t)) && Floors(Advanced(s, t))
  {
    var s' := Advanced(s, t);
    var pos := s.threads[t].pos;
    OwnersKept(s, s', t);
    forall u | s'.dequeuePos <= u < s'.dequeuePos + s'.capacity
      ensures TicketOk(s', u)
    {
      assert TicketOk(s, u);
      if u != pos { NearSlotsDiffer(s, pos, u); }
    }
  }

  lemma ReleaseTickets<T>(s: Ring<T>, t: nat)
    requires Bumps(s, t) && s.threads[t].PopTaken?
    ensures Tickets(Advanced(s, t)) && Floors(Advanced(s, t))
  {
    var s' := Advanced(s, t);
    var pos := s.threads[t].pos;
    OwnersKept(s, s', t);
    assert Slot(pos + s.capacity, s.capacity) == Slot(pos, s.capacity);
    forall u | s'.dequeuePos <= u < s'.dequeuePos + s'.capacity
      ensures TicketOk(s', u)
    {
      assert TicketOk(s, u);
      if u != pos + s.capacity { NearSlotsDiffer(s, pos + s.capacity, u); }
    }
  }

  lemma BumpKeepsInv<T>(s: Ring<T>, t: nat)
    requires Bumps(s, t)
    ensures Inv(Advanced(s, t))
  {
    BumpPcs(s, t);
    ExclusiveKept(s, Advanced(s, t), t);
    if s.threads[t].PushFilled? { PublishTickets(s, t); } else { ReleaseTickets(s, t); }
  }

  // ---------------------------------------------------------------- every step, every run

  /** The ticket invariant is kept by every step of every thread. */
  lemma StepKeepsInv<T>(s: Ring<T>, m: Move<T>)
    requires Inv(s) && Enabled(s, m)
    ensures Inv(Next(s, m))
  {
    var t := m.thread;
    var pc := s.threads[t];
    KnowPc(s, t);
    if m.action.Advance? && !LocalStep(s, t) {
      match pc {
        case PushClaim(_, _) => WinPushKeepsInv(s, t);
        case PushOwn(_, _) => FillKeepsInv(s, t);
        case PopClaim(_) => WinPopKeepsInv(s, t);
        case PopOwn(_) => TakeKeepsInv(s, t);
        case _ => BumpKeepsInv(s, t);
      }
    } else if m.action.Advance? && pc.PushPos? {
      PushLoadKeepsInv(s, t);
    } else if m.action.Advance? && pc.PopPos? {
      PopLoadKeepsInv(s, t);
    } else {
      LocalMoveKeepsInv(s, t, Next(s, m).threads[t]);
    }
  }

  /** Steps that change nothing but the thread's own program counter. */
  predicate LocalStep<T>(s: Ring<T>, t: nat)
    requires t < |s.threads|
  {
    match s.threads[t]
    case PushClaim(_, pos) => pos != s.enqueuePos
    case PopClaim(pos) => pos != s.dequeuePos
    case PushOwn(_, _) => false
    case PushFilled(_, _) => false
    case PopOwn(_) => false
    case PopTaken(_, _) => false
    case _ => true
  }

  /** ... and so by every run. */
  lemma {:induction false} RunKeepsInv<T>(s: Ring<T>, moves: seq<Move<T>>)
    requires Inv(s) && Legal(s, moves)
    ensures Inv(Exec(s, moves))
    decreases |moves|
  {
    if moves != [] {
      StepKeepsInv(s, moves[0]);
      RunKeepsInv(Next(s, moves[0]), moves[1..]);
    }
  }
}
