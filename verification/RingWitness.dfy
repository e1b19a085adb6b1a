/** Concrete runs of the ring that show where a plausible claim about it is false. */
module RingWitness {
  import opened RingProtocol
  import opened RingInvariant
  import opened RingFifo

  function Threads(n: nat): seq<Pc<int>> { seq(n, _ => Idle) }

  function Fresh(capacity: nat, n: nat): Ring<int> {
    Ring(capacity, seq(capacity, i => i), seq(capacity, _ => 0), 0, 0, Threads(n), [])
  }

  lemma OneMore(s: Ring<int>, moves: seq<Move<int>>, m: Move<int>)
    requires Shaped(s) && Legal(s, moves) && Enabled(Exec(s, moves), m)
    ensures Legal(s, moves + [m]) && Exec(s, moves + [m]) == Next(Exec(s, moves), m)
  {
    RunsCompose(s, moves, [m]);
  }

  /** Thread `t` repeats its next atomic operation `count` times. */
  lemma Go(s: Ring<int>, moves: seq<Move<int>>, t: nat) returns (longer: seq<Move<int>>)
    requires Shaped(s) && Legal(s, moves) && t < |s.threads| && !Exec(s, moves).threads[t].AtRest()
    ensures Legal(s, longer) && Exec(s, longer) == Advanced(Exec(s, moves), t)
  {
    OneMore(s, moves, Move(t, Advance));
    longer := moves + [Move(t, Advance)];
  }

  lemma Call(s: Ring<int>, moves: seq<Move<int>>, m: Move<int>) returns (longer: seq<Move<int>>)
    requires Shaped(s) && Legal(s, moves) && Enabled(Exec(s, moves), m) && !m.action.Advance?
    ensures Legal(s, longer) && Exec(s, longer) == Next(Exec(s, moves), m)
  {
    OneMore(s, moves, m);
    longer := moves + [m];
  }

  /** A push by `t` that meets a ready slot, as far as its winning CAS. */
  lemma ClaimForPush(s: Ring<int>, moves: seq<Move<int>>, t: nat, v: int) returns (longer: seq<Move<int>>)
    requires Shaped(s) && Legal(s, moves)
    requires var r := Exec(s, moves); t < |r.threads| && r.threads[t].AtRest() && SeqAt(r, r.enqueuePos) == r.enqueuePos
    ensures Legal(s, longer)
    ensures var r := Exec(s, moves);
            Exec(s, longer) == r.(enqueuePos := r.enqueuePos + 1, claimed := r.claimed + [v],
                                  threads := r.threads[t := PushOwn(v, r.enqueuePos)])
  {
    longer := Call(s, moves, Move(t, StartPush(v)));
    longer := Go(s, longer, t);
    longer := Go(s, longer, t);
  }

  /** ... and as far as its return. */
  lemma CompletePush(s: Ring<int>, moves: seq<Move<int>>, t: nat, v: int) returns (longer: seq<Move<int>>)
    requires Shaped(s) && Legal(s, moves)
    requires var r := Exec(s, moves); t < |r.threads| && r.threads[t].AtRest() && SeqAt(r, r.enqueuePos) == r.enqueuePos
    ensures Legal(s, longer)
    ensures var r := Exec(s, moves); var i := Slot(r.enqueuePos, r.capacity);
            Exec(s, longer) == r.(enqueuePos := r.enqueuePos + 1, claimed := r.claimed + [v],
                                  threads := r.threads[t := PushDone(v, true)],
                                  data := r.data[i := v], sequence := r.sequence[i := r.enqueuePos + 1])
  {
    var u := Exec(s, moves).enqueuePos;
    longer := ClaimForPush(s, moves, t, v);
    longer := Go(s, longer, t);
    assert Exec(s, longer).threads[t] == PushFilled(v, u);
    longer := Go(s, longer, t);
  }

  lemma ClaimForPop(s: Ring<int>, moves: seq<Move<int>>, t: nat) returns (longer: seq<Move<int>>)
    requires Shaped(s) && Legal(s, moves)
    requires var r := Exec(s, moves);
             t < |r.threads| && r.threads[t].AtRest() && SeqAt(r, r.dequeuePos) == r.dequeuePos + 1
    ensures Legal(s, longer)
    ensures var r := Exec(s, moves);
            Exec(s, longer) == r.(dequeuePos := r.dequeuePos + 1, threads := r.threads[t := PopOwn(r.dequeuePos)])
  {
    longer := Call(s, moves, Move(t, StartPop));
    longer := Go(s, longer, t);
    longer := Go(s, longer, t);
  }

  lemma StalledPush() returns (moves: seq<Move<int>>)
    ensures Legal(Fresh(2, 3), moves)
    ensures Exec(Fresh(2, 3), moves)
         == Ring(2, [0, 2], [0, 8], 2, 0, [PushOwn(7, 0), PushDone(8, true), Idle], [7, 8])
  {
    moves := ClaimForPush(Fresh(2, 3), [], 0, 7);
    moves := CompletePush(Fresh(2, 3), moves, 1, 8);
  }

  lemma StalledPop() returns (moves: seq<Move<int>>)
    ensures Legal(Fresh(2, 3), moves)
    ensures Exec(Fresh(2, 3), moves)
         == Ring(2, [1, 2], [7, 8], 2, 1, [PushDone(8, true), PopOwn(0), Idle], [7, 8])
  {
    moves := CompletePush(Fresh(2, 3), [], 0, 7);
    moves := CompletePush(Fresh(2, 3), moves, 0, 8);
    moves := ClaimForPop(Fresh(2, 3), moves, 1);
  }

  /** "Empty" does not mean that the queue is empty, nor even that no push has returned: thread 0
      has claimed ticket 0 and stalls, thread 1's push of 8 has returned true, and thread 2 is
      told that the queue is empty. */
  lemma EmptyAnswerOverACompletedPush() returns (moves: seq<Move<int>>)
    ensures Initial(Fresh(2, 3), 3) && Legal(Fresh(2, 3), moves)
    ensures var s := Exec(Fresh(2, 3), moves);
            && s.threads == [PushOwn(7, 0), PushDone(8, true), PopEmpty]
            && Inv(s) && Items(s) == [7, 8]
  {
    var s0 := Fresh(2, 3);
    moves := StalledPush();
    moves := Call(s0, moves, Move(2, StartPop));
    moves := Go(s0, moves, 2);
    InitialInv(s0, 3);
    RunKeepsInv(s0, moves);
  }

  /** "Full" does not mean that the queue holds `capacity` values: with one value left, the
      consumer of ticket 0 has not released its slot and a push is told that the queue is full. */
  lemma FullAnswerBelowCapacity() returns (moves: seq<Move<int>>)
    ensures Initial(Fresh(2, 3), 3) && Legal(Fresh(2, 3), moves)
    ensures var s := Exec(Fresh(2, 3), moves);
            && s.threads == [PushDone(8, true), PopOwn(0), PushDone(9, false)]
            && Inv(s) && Items(s) == [8]
  {
    var s0 := Fresh(2, 3);
    moves := StalledPop();
    moves := Call(s0, moves, Move(2, StartPush(9)));
    moves := Go(s0, moves, 2);
    InitialInv(s0, 3);
    RunKeepsInv(s0, moves);
  }

  /** Why the capacity must be at least 2: with one slot, "published" and "free for the next
      lap" are the same sequence number, and a producer and a consumer own the slot at once. */
  lemma CapacityOneLosesExclusion() returns (moves: seq<Move<int>>)
    ensures Shaped(Fresh(1, 3)) && Legal(Fresh(1, 3), moves)
    ensures Exec(Fresh(1, 3), moves).threads == [PushDone(7, true), PushOwn(8, 1), PopOwn(0)]
    ensures Slot(0, 1) == Slot(1, 1)
  {
    var s0 := Fresh(1, 3);
    moves := CompletePush(s0, [], 0, 7);
    moves := ClaimForPop(s0, moves, 2);
    moves := ClaimForPush(s0, moves, 1, 8);
  }
}
