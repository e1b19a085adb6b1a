/** `PriorityScheduler` as an object. Every method is one critical section; `lanes` is the
    four-queue reference run alongside. */
module PrioritySchedulers {
  import opened Outcomes
  import opened Words
  import opened Scheduling

  /** The scheduler and the reference agree for as long as every push was `inOrder`. */
  ghost predicate Agrees<X>(s: Scheduler<X>, f: Lanes<X>, inOrder: bool) {
    Four(f) && s.stopped == f.stopped && (inOrder ==> Related(s, f))
  }

  lemma PushKeepsAgreement<X>(s: Scheduler<X>, f: Lanes<X>, inOrder: bool, func: X, p: Priority)
    requires Agrees(s, f, inOrder)
    ensures Agrees(Next(s, Push(func, p)).0, LanesNext(f, Push(func, p)).0, inOrder && PushInOrder(f, Push(func, p)))
  {
    if inOrder && PushInOrder(f, Push(func, p)) { PushRefines(s, f, func, p); }
  }

  lemma EnqueueKeepsAgreement<X>(s: Scheduler<X>, f: Lanes<X>, inOrder: bool, func: X, p: Priority, s': Scheduler<X>)
    requires Agrees(s, f, inOrder) && !s.stopped
    requires s' == s.(queue := s.queue + multiset{PriorityTask(func, p, s.nextSeq)}, nextSeq := Wrap(s.nextSeq + 1))
    ensures Agrees(s', LanesNext(f, Push(func, p)).0, inOrder && PushInOrder(f, Push(func, p)))
  {
    PushKeepsAgreement(s, f, inOrder, func, p);
  }

  lemma PopKeepsAgreement<X>(s: Scheduler<X>, f: Lanes<X>, inOrder: bool, t: PriorityTask<X>, s': Scheduler<X>)
    requires Agrees(s, f, inOrder) && IsTop(s.queue, t) && s' == s.(queue := s.queue - multiset{t})
    ensures Agrees(s', LanesNext(f, Pop).0, inOrder)
    ensures inOrder ==> LanesNext(f, Pop).1 == Popped(Some(t))
  {
    if inOrder { PopAnyTop(s, f, t); }
  }

  lemma NothingKeepsAgreement<X>(s: Scheduler<X>, f: Lanes<X>, inOrder: bool)
    requires Agrees(s, f, inOrder) && s.queue == multiset{}
    ensures Agrees(s, LanesNext(f, Pop).0, inOrder)
    ensures inOrder ==> LanesNext(f, Pop).1 == Popped(None)
  {
    if inOrder { PopNothing(s, f); }
  }

  class PriorityScheduler<X(==)> {
    var queue: multiset<PriorityTask<X>>
    var nextSeq: nat
    var stopped: bool
    ghost var lanes: Lanes<X>
    ghost var inOrder: bool  // every push so far was

    ghost function Now(): Scheduler<X>
      reads this
    {
      Scheduler(queue, nextSeq, stopped)
    }

    ghost predicate Valid()
      reads this
    {
      Agrees(Now(), lanes, inOrder)
    }

    constructor ()
      ensures Valid() && Now() == Fresh() && lanes == Empty() && inOrder
      ensures queue == multiset{} && nextSeq == 0 && !stopped
    {
      queue, nextSeq, stopped := multiset{}, 0, false;
      lanes, inOrder := Empty(), true;
    }

    method Push(func: X, priority: Priority) returns (ok: bool)
      requires Valid()
      modifies this
      ensures Valid() && lanes == LanesNext(old(lanes), Scheduling.Push(func, priority)).0
      ensures Four(old(lanes)) && inOrder == (old(inOrder) && PushInOrder(old(lanes), Scheduling.Push(func, priority)))
      ensures (Now(), Answer<X>.Pushed(ok)) == Next(old(Now()), Scheduling.Push(func, priority))
      ensures ok == !old(stopped) && stopped == old(stopped)
      ensures !ok ==> queue == old(queue) && nextSeq == old(nextSeq)
      ensures ok ==> queue == old(queue) + multiset{PriorityTask(func, priority, old(nextSeq))}
      ensures ok ==> nextSeq == (old(nextSeq) + 1) % 0x1_0000_0000_0000_0000
      ensures ok ==> forall b :: Awake(b)
    {
      if stopped {
        PushKeepsAgreement(Now(), lanes, inOrder, func, priority);
        return false;
      }
      Enqueue(func, priority);
      ok := true;
    }

    method Enqueue(func: X, priority: Priority)
      requires Valid() && !stopped
      modifies this`queue, this`nextSeq, this`lanes, this`inOrder
      ensures Valid() && lanes == LanesNext(old(lanes), Scheduling.Push(func, priority)).0
      ensures Four(old(lanes)) && inOrder == (old(inOrder) && PushInOrder(old(lanes), Scheduling.Push(func, priority)))
      ensures queue == old(queue) + multiset{PriorityTask(func, priority, old(nextSeq))}
      ensures nextSeq == Wrap(old(nextSeq) + 1)
    {
      ghost var s, f, before := Now(), lanes, inOrder;
      inOrder := inOrder && PushInOrder(lanes, Scheduling.Push(func, priority));
      lanes := LanesNext(lanes, Scheduling.Push(func, priority)).0;
      queue := queue + multiset{PriorityTask(func, priority, nextSeq)};
      nextSeq := Wrap(nextSeq + 1);
      EnqueueKeepsAgreement(s, f, before, func, priority, Now());
    }

    /** `queue_.top()`, of which the container promises no more. */
    method HeapTop() returns (top: PriorityTask<X>)
      requires queue != multiset{}
      ensures IsTop(queue, top)
    {
      TopExists(queue);
      top :| top in queue && forall o | o in queue :: !Less(top, o);
    }

    method Remove(top: PriorityTask<X>)
      requires Valid() && IsTop(queue, top)
      modifies this`queue, this`lanes
      ensures Valid() && lanes == LanesNext(old(lanes), Pop).0
      ensures queue == old(queue) - multiset{top}
      ensures inOrder ==> Popped(Some(top)) == LanesNext(old(lanes), Pop).1
    {
      ghost var s, f := Now(), lanes;
      lanes := LanesNext(lanes, Pop).0;
      queue := queue - multiset{top};
      PopKeepsAgreement(s, f, inOrder, top, Now());
    }

    /** `top` and `pop`: whichever maximal task the heap holds at its root. While every push was in
        order, that is the head of the first non-empty reference queue. */
    method TryPop() returns (task: Option<PriorityTask<X>>)
      requires Valid()
      modifies this`queue, this`lanes
      ensures Valid() && lanes == LanesNext(old(lanes), Pop).0
      ensures old(queue) == multiset{} ==> task == None && queue == multiset{}
      ensures old(queue) != multiset{} ==>
        && task.Some? && task.value in old(queue) && ServedFirst(old(queue), task.value)
        && queue == old(queue) - multiset{task.value}
      ensures inOrder ==> Popped(task) == LanesNext(old(lanes), Pop).1
    {
      if queue == multiset{} {
        NothingKeepsAgreement(Now(), lanes, inOrder);
        lanes := LanesNext(lanes, Pop).0;
        return None;
      }
      var top := HeapTop();
      TopIsServedFirst(queue, top);
      Remove(top);
      task := Some(top);
    }

    /** What the wait in `wait_and_pop` waits for. */
    predicate Awake(stopRequested: bool)
      reads this
    {
      queue != multiset{} || stopped || stopRequested
    }

    /** `wait_and_pop` from the moment its wait ends; the reason why it ended does not matter. */
    method WaitAndPop(stopRequested: bool) returns (task: Option<PriorityTask<X>>)
      requires Valid() && Awake(stopRequested)
      modifies this`queue, this`lanes
      ensures Valid() && lanes == LanesNext(old(lanes), Pop).0
      ensures old(queue) == multiset{} ==> task == None && queue == multiset{}
      ensures old(queue) != multiset{} ==>
        && task.Some? && task.value in old(queue) && ServedFirst(old(queue), task.value)
        && queue == old(queue) - multiset{task.value}
      ensures inOrder ==> Popped(task) == LanesNext(old(lanes), Pop).1
    {
      task := TryPop();
    }

    method Shutdown()
      requires Valid()
      modifies this`stopped, this`lanes
      ensures forall b :: Awake(b)
      ensures Valid() && stopped && queue == old(queue) && lanes == LanesNext(old(lanes), Scheduling.Shutdown).0
    {
      stopped := true;
      lanes := LanesNext(lanes, Scheduling.Shutdown).0;
    }
  }
}
