/** What every step of the pool keeps: FIFO order, one holder per running task, correct
    results, and the order of shutdown. */
module PoolInvariant {
  import opened Outcomes
  import opened Pool

  /** The number of tasks taken from the queue so far. */
  function Taken<V, E>(s: State<V, E>): int { |s.accepted| - |s.queue| }

  /** The queue holds exactly the youngest tickets, in order; the others were popped in order. */
  ghost predicate FifoOrder<V, E>(s: State<V, E>) {
    && Taken(s) >= 0 && |s.popped| == Taken(s)
    && (forall i :: 0 <= i < |s.queue| ==> s.queue[i] == Taken(s) + i)
    && (forall i :: 0 <= i < |s.popped| ==> s.popped[i] == i)
    && (forall t :: t in s.moved ==> t < |s.accepted|)
  }

  ghost predicate Held<V, E>(s: State<V, E>, t: nat) {
    exists w :: 0 <= w < |s.workers| && s.workers[w].Holds(t)
  }

  /** Each ticket is in one place: queued, held by one worker, or finished. */
  ghost predicate OnePlace<V, E>(s: State<V, E>)
    requires Shaped(s)
  {
    && (forall w :: 0 <= w < |s.workers| && (s.workers[w].Holding? || s.workers[w].InBody?) ==>
          s.workers[w].ticket < Taken(s) && s.futures[s.workers[w].ticket].None?)
    && (forall w, w', t: nat :: 0 <= w < w' < |s.workers| ==>
          !(s.workers[w].Holds(t) && s.workers[w'].Holds(t)))
    && (forall t :: 0 <= t < Taken(s) && s.futures[t].None? ==> Held(s, t))
    && (forall t: nat :: Taken(s) <= t < |s.futures| ==> s.futures[t].None?)
  }

  /** Shutdown comes before stop, stop before draining, and only an empty queue lets a worker go. */
  ghost predicate ShutdownOrder<V, E>(s: State<V, E>)
    requires Shaped(s)
  {
    && (forall w :: 0 <= w < |s.stop| && s.stop[w] ==> s.shutdown)
    && (forall w :: 0 <= w < |s.workers| ==>
          var pc := s.workers[w];
          (pc.DrainTop? || pc.Exited? || ((pc.Holding? || pc.InBody?) && pc.draining)) ==> s.stop[w])
    && (forall w :: 0 <= w < |s.workers| && s.workers[w].Exited? ==> s.queue == [])
  }

  /** Results are the tasks' meanings, whoever computed them and when. */
  ghost predicate Results<V, E>(s: State<V, E>)
    requires Shaped(s)
  {
    && (forall t :: 0 <= t < |s.futures| && s.futures[t].Some? ==> s.futures[t].value == Meaning(s.accepted, t))
    && (forall w :: 0 <= w < |s.workers| && s.workers[w].InBody? ==>
          s.workers[w].outcome == Meaning(s.accepted, s.workers[w].ticket))
  }

  /** Each future is set once, and each body is entered at most once, after its predecessor's,
      and exactly when there is no exception to let through. */
  ghost predicate Histories<V, E>(s: State<V, E>)
    requires Shaped(s)
  {
    FinishedHistory(s) && EnteredHistory(s)
  }

  ghost predicate FinishedHistory<V, E>(s: State<V, E>)
    requires Shaped(s)
  {
    && (forall i, j :: 0 <= i < j < |s.finished| ==> s.finished[i] != s.finished[j])
    && (forall t :: t in s.finished <==> 0 <= t < |s.futures| && s.futures[t].Some?)
  }

  ghost predicate EnteredHistory<V, E>(s: State<V, E>)
    requires Shaped(s)
  {
    && (forall i, j :: 0 <= i < j < |s.entered| ==> s.entered[i] != s.entered[j])
    && (forall i :: 0 <= i < |s.entered| ==> EnteredOk(s, s.entered[i]))
    && (forall w :: 0 <= w < |s.workers| && s.workers[w].Holding? ==> s.workers[w].ticket !in s.entered)
    && (forall w :: 0 <= w < |s.workers| && s.workers[w].InBody? ==> s.workers[w].ticket in s.entered)
    && (forall t :: 0 <= t < |s.futures| && s.futures[t].Some? && BodyRuns(s.accepted, t) ==> t in s.entered)
  }

  /** A continuation's future is set after its predecessor's. */
  ghost predicate AfterPredecessor<V, E>(s: State<V, E>, t: nat)
    requires Shaped(s)
  {
    t < |s.futures| && s.futures[t].Some? && s.accepted[t].Then? ==> s.futures[s.accepted[t].pred].Some?
  }

  ghost predicate FinishedInOrder<V, E>(s: State<V, E>)
    requires Shaped(s)
  {
    forall t: nat :: AfterPredecessor(s, t)
  }

  /** A continuation's body is entered after its predecessor's. */
  ghost predicate EnteredInOrder<V, E>(s: State<V, E>)
    requires Shaped(s)
  {
    forall j :: 0 <= j < |s.entered| && s.entered[j] < |s.accepted| && s.accepted[s.entered[j]].Then? ==>
      s.accepted[s.entered[j]].pred in s.entered[..j]
  }

  /** An entered ticket was taken; its predecessor had finished with a value. */
  ghost predicate EnteredOk<V, E>(s: State<V, E>, t: nat)
    requires Shaped(s)
  {
    && t < Taken(s) && t < |s.accepted| && BodyRuns(s.accepted, t)
    && (s.accepted[t].Then? ==> s.futures[s.accepted[t].pred].Some?)
  }

  ghost predicate Inv<V, E>(s: State<V, E>) {
    && Shaped(s) && FifoOrder(s) && OnePlace(s) && ShutdownOrder(s) && Results(s) && Histories(s)
    && EnteredInOrder(s) && FinishedInOrder(s)
  }

  lemma InitialInv<V, E>(n: nat)
    ensures Inv<V, E>(Initial(n))
  {
  }

  // ---------------------------------------------------------------- submissions and shutdown

  ghost predicate Accepts<V, E>(s: State<V, E>, task: Task<V, E>) {
    Inv(s) && !s.shutdown && (task.Then? ==> task.pred < |s.accepted|)
  }

  /** A new ticket does not change what the old ones mean. */
  lemma AcceptKeepsMeanings<V, E>(s: State<V, E>, task: Task<V, E>)
    requires Accepts(s, task)
    ensures Linked(s.accepted) && Linked(s.accepted + [task])
    ensures forall t: nat :: t < |s.accepted| ==>
      && Meaning(s.accepted + [task], t) == Meaning(s.accepted, t)
      && BodyRuns(s.accepted + [task], t) == BodyRuns(s.accepted, t)
  {
    forall t: nat | t < |s.accepted|
      ensures Meaning(s.accepted + [task], t) == Meaning(s.accepted, t)
      ensures BodyRuns(s.accepted + [task], t) == BodyRuns(s.accepted, t)
    {
      MeaningIsStable(s.accepted, [task], t);
    }
  }

  lemma AcceptKeepsPlaces<V, E>(s: State<V, E>, task: Task<V, E>)
    requires Accepts(s, task)
    ensures var s' := Accept(s, task); Shaped(s') && FifoOrder(s') && OnePlace(s') && ShutdownOrder(s')
  {
    var s' := Accept(s, task);
    forall t | 0 <= t < Taken(s') && s'.futures[t].None?
      ensures Held(s', t)
    {
      assert Held(s, t);
    }
  }

  lemma AcceptKeepsInv<V, E>(s: State<V, E>, task: Task<V, E>)
    requires Accepts(s, task)
    ensures Inv(Accept(s, task))
  {
    AcceptKeepsMeanings(s, task);
    AcceptKeepsPlaces(s, task);
    forall t: nat
      ensures AfterPredecessor(Accept(s, task), t)
    {
      assert AfterPredecessor(s, t);
    }
  }

  lemma ControlKeepsInv<V, E>(s: State<V, E>, a: Action<V, E>)
    requires Inv(s) && Enabled(s, a) && (a.ShutDownQueue? || a.RequestStop?)
    ensures Inv(Next(s, a))
  {
    var s' := Next(s, a);
    forall t | 0 <= t < Taken(s') && s'.futures[t].None?
      ensures Held(s', t)
    {
      assert Held(s, t);
    }
    SameFuturesKeepOrder(s, s');
  }

  // ---------------------------------------------------------------- worker steps

  /** Other workers keep holding what they hold. */
  lemma HeldByOthers<V, E>(s: State<V, E>, s': State<V, E>, w: nat)
    requires w < |s.workers| == |s'.workers|
    requires forall k :: 0 <= k < |s.workers| && k != w ==> s'.workers[k] == s.workers[k]
    ensures forall t: nat :: Held(s, t) && (s.workers[w].Holds(t) ==> s'.workers[w].Holds(t)) ==> Held(s', t)
  {
    forall t: nat | Held(s, t) && (s.workers[w].Holds(t) ==> s'.workers[w].Holds(t))
      ensures Held(s', t)
    {
      var k :| 0 <= k < |s.workers| && s.workers[k].Holds(t);
      assert s'.workers[k].Holds(t);
    }
  }

  ghost predicate Steps<V, E>(s: State<V, E>, w: nat) {
    Inv(s) && w < |s.workers| && CanWork(s, w)
  }

  lemma LoopStepKeepsInv<V, E>(s: State<V, E>, w: nat)
    requires Steps(s, w)
    requires s.workers[w].Top? || ((s.workers[w].Waiting? || s.workers[w].DrainTop?) && s.queue == [])
    ensures Inv(Worked(s, w))
  {
    LoopStepKeepsPlaces(s, w);
    LoopStepKeepsHistories(s, w);
    SameFuturesKeepOrder(s, Worked(s, w));
  }

  lemma LoopStepKeepsPlaces<V, E>(s: State<V, E>, w: nat)
    requires Steps(s, w)
    requires s.workers[w].Top? || ((s.workers[w].Waiting? || s.workers[w].DrainTop?) && s.queue == [])
    ensures var s' := Worked(s, w); FifoOrder(s') && OnePlace(s') && ShutdownOrder(s')
  {
    HeldByOthers(s, Worked(s, w), w);
  }

  lemma LoopStepKeepsHistories<V, E>(s: State<V, E>, w: nat)
    requires Steps(s, w)
    requires s.workers[w].Top? || ((s.workers[w].Waiting? || s.workers[w].DrainTop?) && s.queue == [])
    ensures var s' := Worked(s, w); Results(s') && Histories(s') && EnteredInOrder(s')
  {
    var s' := Worked(s, w);
    forall i | 0 <= i < |s'.entered|
      ensures EnteredOk(s', s'.entered[i])
    {
      assert EnteredOk(s, s.entered[i]);
    }
  }

  ghost predicate Pops<V, E>(s: State<V, E>, w: nat) {
    Steps(s, w) && (s.workers[w].Waiting? || s.workers[w].DrainTop?) && s.queue != []
  }

  lemma PopKeepsPlaces<V, E>(s: State<V, E>, w: nat)
    requires Pops(s, w)
    ensures var s' := Worked(s, w); FifoOrder(s') && OnePlace(s')
  {
    var s' := Worked(s, w);
    HeldByOthers(s, s', w);
    assert s'.workers[w].Holds(s.queue[0]);
    assert Held(s', s.queue[0]);
  }

  lemma PopKeepsInv<V, E>(s: State<V, E>, w: nat)
    requires Pops(s, w)
    ensures Inv(Worked(s, w))
  {
    PopKeepsPlaces(s, w);
    SameFuturesKeepOrder(s, Worked(s, w));
  }

  ghost predicate Enters<V, E>(s: State<V, E>, w: nat) {
    && Steps(s, w) && s.workers[w].Holding?
    && var t := s.workers[w].ticket; s.accepted[t].Then? ==> s.futures[s.accepted[t].pred].value.Value?
  }

  /** A body is entered with what its task means. */
  lemma EnterIs<V, E>(s: State<V, E>, w: nat) returns (o: Outcome<V, E>)
    requires Enters(s, w)
    ensures var pc := s.workers[w];
            && Worked(s, w) == Enter(s, w, pc.ticket, o, pc.draining)
            && o == Meaning(s.accepted, pc.ticket) && EnteredOk(s, pc.ticket)
  {
    o := Worked(s, w).workers[w].outcome;
    if s.accepted[s.workers[w].ticket].Then? {
      var pred := s.accepted[s.workers[w].ticket].pred;
      assert s.futures[pred].value == Meaning(s.accepted, pred);
    }
  }

  lemma EnterKeepsPlaces<V, E>(s: State<V, E>, w: nat, o: Outcome<V, E>)
    requires Inv(s) && w < |s.workers| && s.workers[w].Holding?
    ensures var pc := s.workers[w]; var s' := Enter(s, w, pc.ticket, o, pc.draining);
            Shaped(s') && FifoOrder(s') && OnePlace(s') && ShutdownOrder(s')
  {
    HeldByOthers(s, Enter(s, w, s.workers[w].ticket, o, s.workers[w].draining), w);
  }

  lemma EnterKeepsHistories<V, E>(s: State<V, E>, w: nat, o: Outcome<V, E>)
    requires Inv(s) && w < |s.workers| && s.workers[w].Holding?
    requires o == Meaning(s.accepted, s.workers[w].ticket) && EnteredOk(s, s.workers[w].ticket)
    ensures var pc := s.workers[w]; var s' := Enter(s, w, pc.ticket, o, pc.draining); Results(s') && Histories(s')
  {
    var s' := Enter(s, w, s.workers[w].ticket, o, s.workers[w].draining);
    forall i | 0 <= i < |s'.entered|
      ensures EnteredOk(s', s'.entered[i])
    {
      if i < |s.entered| { assert EnteredOk(s, s.entered[i]); }
    }
  }

  lemma EnterKeepsOrder<V, E>(s: State<V, E>, w: nat)
    requires Enters(s, w)
    ensures EnteredInOrder(Worked(s, w))
  {
    var s' := Worked(s, w);
    var t := s.workers[w].ticket;
    if s.accepted[t].Then? {
      var pred := s.accepted[t].pred;
      assert s.futures[pred].value == Meaning(s.accepted, pred);
      assert BodyRuns(s.accepted, pred);
      assert pred in s.entered;
    }
    forall j | 0 <= j < |s'.entered| && s'.entered[j] < |s'.accepted| && s'.accepted[s'.entered[j]].Then?
      ensures s'.accepted[s'.entered[j]].pred in s'.entered[..j]
    {
      assert s'.entered[..j] == s.entered[..j];
      if j == |s.entered| { assert s.entered[..j] == s.entered; }
    }
  }

  lemma EnterKeepsInv<V, E>(s: State<V, E>, w: nat)
    requires Enters(s, w)
    ensures Inv(Worked(s, w))
  {
    var o := EnterIs(s, w);
    EnterKeepsPlaces(s, w, o);
    EnterKeepsHistories(s, w, o);
    EnterKeepsOrder(s, w);
    SameFuturesKeepOrder(s, Worked(s, w));
  }

  ghost predicate Finishes<V, E>(s: State<V, E>, w: nat) {
    && Steps(s, w)
    && (s.workers[w].InBody? ||
        (s.workers[w].Holding? && var t := s.workers[w].ticket;
         s.accepted[t].Then? && s.futures[s.accepted[t].pred].value.Threw?))
  }

  /** What either way of finishing comes to. */
  lemma FinishIs<V, E>(s: State<V, E>, w: nat) returns (o: Outcome<V, E>)
    requires Finishes(s, w)
    ensures var pc := s.workers[w];
            && Worked(s, w) == Finish(s, w, pc.ticket, o, pc.draining)
            && o == Meaning(s.accepted, pc.ticket)
            && (BodyRuns(s.accepted, pc.ticket) ==> pc.ticket in s.entered)
            && (s.accepted[pc.ticket].Then? ==> s.futures[s.accepted[pc.ticket].pred].Some?)
  {
    var pc := s.workers[w];
    o := Worked(s, w).futures[pc.ticket].value;
    if pc.Holding? {
      var pred := s.accepted[pc.ticket].pred;
      assert s.futures[pred].value == Meaning(s.accepted, pred);
    } else {
      EnteredWasReady(s, pc.ticket);
    }
  }

  lemma EnteredWasReady<V, E>(s: State<V, E>, t: nat)
    requires Inv(s) && t in s.entered
    ensures EnteredOk(s, t)
  {
  }

  lemma FinishKeepsPlaces<V, E>(s: State<V, E>, w: nat, o: Outcome<V, E>)
    requires Inv(s) && w < |s.workers| && (s.workers[w].InBody? || s.workers[w].Holding?)
    ensures var pc := s.workers[w]; OnePlace(Finish(s, w, pc.ticket, o, pc.draining))
  {
    HeldByOthers(s, Finish(s, w, s.workers[w].ticket, o, s.workers[w].draining), w);
  }

  lemma FinishKeepsShutdownOrder<V, E>(s: State<V, E>, w: nat, o: Outcome<V, E>)
    requires Inv(s) && w < |s.workers| && (s.workers[w].InBody? || s.workers[w].Holding?)
    ensures var pc := s.workers[w]; var s' := Finish(s, w, pc.ticket, o, pc.draining);
            Shaped(s') && FifoOrder(s') && ShutdownOrder(s') && EnteredInOrder(s')
  {
  }

  lemma FinishKeepsResults<V, E>(s: State<V, E>, w: nat, o: Outcome<V, E>)
    requires Inv(s) && w < |s.workers| && (s.workers[w].InBody? || s.workers[w].Holding?)
    requires o == Meaning(s.accepted, s.workers[w].ticket)
    ensures var pc := s.workers[w]; Results(Finish(s, w, pc.ticket, o, pc.draining))
  {
  }

  lemma FinishKeepsFinished<V, E>(s: State<V, E>, w: nat, o: Outcome<V, E>)
    requires Inv(s) && w < |s.workers| && (s.workers[w].InBody? || s.workers[w].Holding?)
    ensures var pc := s.workers[w]; FinishedHistory(Finish(s, w, pc.ticket, o, pc.draining))
  {
  }

  lemma FinishKeepsEntered<V, E>(s: State<V, E>, w: nat, o: Outcome<V, E>)
    requires Inv(s) && w < |s.workers| && (s.workers[w].InBody? || s.workers[w].Holding?)
    requires BodyRuns(s.accepted, s.workers[w].ticket) ==> s.workers[w].ticket in s.entered
    ensures var pc := s.workers[w]; EnteredHistory(Finish(s, w, pc.ticket, o, pc.draining))
  {
    var s' := Finish(s, w, s.workers[w].ticket, o, s.workers[w].draining);
    forall i | 0 <= i < |s'.entered|
      ensures EnteredOk(s', s'.entered[i])
    {
      assert EnteredOk(s, s.entered[i]);
    }
  }

  lemma FinishKeepsOrder<V, E>(s: State<V, E>, w: nat, o: Outcome<V, E>)
    requires Inv(s) && w < |s.workers| && (s.workers[w].InBody? || s.workers[w].Holding?)
    requires var t := s.workers[w].ticket; s.accepted[t].Then? ==> s.futures[s.accepted[t].pred].Some?
    ensures var pc := s.workers[w]; FinishedInOrder(Finish(s, w, pc.ticket, o, pc.draining))
  {
    forall t: nat
      ensures AfterPredecessor(Finish(s, w, s.workers[w].ticket, o, s.workers[w].draining), t)
    {
      assert AfterPredecessor(s, t);
    }
  }

  /** Steps that set no future and accept nothing keep the order of futures. */
  lemma SameFuturesKeepOrder<V, E>(s: State<V, E>, s': State<V, E>)
    requires Inv(s) && Shaped(s') && s'.futures == s.futures && s'.accepted == s.accepted
    ensures FinishedInOrder(s')
  {
    forall t: nat
      ensures AfterPredecessor(s', t)
    {
      assert AfterPredecessor(s, t);
    }
  }

  lemma FinishKeepsInv<V, E>(s: State<V, E>, w: nat)
    requires Finishes(s, w)
    ensures Inv(Worked(s, w))
  {
    var o := FinishIs(s, w);
    FinishKeepsShutdownOrder(s, w, o);
    FinishKeepsPlaces(s, w, o);
    FinishKeepsResults(s, w, o);
    FinishKeepsFinished(s, w, o);
    FinishKeepsEntered(s, w, o);
    FinishKeepsOrder(s, w, o);
  }

  // ---------------------------------------------------------------- every step, every run

  lemma StepKeepsInv<V, E>(s: State<V, E>, a: Action<V, E>)
    requires Inv(s) && Enabled(s, a)
    ensures Inv(Next(s, a))
  {
    match a {
      case Submit(body) => if !s.shutdown { AcceptKeepsInv(s, Root(body)); }
      case Attach(pred, continuation) =>
        var s1 := s.(moved := s.moved + {pred});
        MovedKeepsInv(s, s1.moved);
        if !s.shutdown { AcceptKeepsInv(s1, Then(pred, continuation)); }
      case Get(t) => MovedKeepsInv(s, s.moved + {t});
      case Work(w) =>
        match s.workers[w] {
          case Holding(t, _) =>
            if s.accepted[t].Then? && s.futures[s.accepted[t].pred].value.Threw? {
              FinishKeepsInv(s, w);
            } else {
              EnterKeepsInv(s, w);
            }
          case InBody(_, _, _) => FinishKeepsInv(s, w);
          case Top => LoopStepKeepsInv(s, w);
          case Waiting => if s.queue != [] { PopKeepsInv(s, w); } else { LoopStepKeepsInv(s, w); }
          case DrainTop => if s.queue != [] { PopKeepsInv(s, w); } else { LoopStepKeepsInv(s, w); }
          case Exited =>
        }
      case _ => ControlKeepsInv(s, a);
    }
  }

  lemma MovedKeepsInv<V, E>(s: State<V, E>, moved: set<nat>)
    requires Inv(s) && forall t :: t in moved ==> t < |s.accepted|
    ensures Inv(s.(moved := moved))
  {
    var s' := s.(moved := moved);
    forall t | 0 <= t < Taken(s') && s'.futures[t].None?
      ensures Held(s', t)
    {
      assert Held(s, t);
    }
    SameFuturesKeepOrder(s, s');
  }

  lemma {:induction false} RunKeepsInv<V, E>(s: State<V, E>, actions: seq<Action<V, E>>)
    requires Inv(s) && Legal(s, actions)
    ensures Inv(Exec(s, actions))
    decreases |actions|
  {
    if actions != [] {
      StepKeepsInv(s, actions[0]);
      RunKeepsInv(Next(s, actions[0]), actions[1..]);
    }
  }
}
