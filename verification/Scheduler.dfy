/** `PriorityScheduler`: a priority queue ordered by `operator<` with a sequence tie-break,
    against four FIFO queues scanned from Critical to Low. */
module Scheduling {
  import opened Outcomes
  import opened Words
  import Sequences

  datatype Priority = Low | Normal | High | Critical
  {
    function Rank(): nat {
      match this
      case Low => 0
      case Normal => 1
      case High => 2
      case Critical => 3
    }
  }

  datatype PriorityTask<X> = PriorityTask(func: X, priority: Priority, sequence: nat)

  /** `operator<`: lower priority first, and within a priority the later sequence first. */
  predicate Less<X>(a: PriorityTask<X>, b: PriorityTask<X>) {
    if a.priority != b.priority then a.priority.Rank() < b.priority.Rank()
    else a.sequence > b.sequence
  }

  /** On tasks with distinct sequences, `operator<` is a strict total order. */
  lemma LessIsStrictTotalOrder<X>(a: PriorityTask<X>, b: PriorityTask<X>, c: PriorityTask<X>)
    ensures !Less(a, a)
    ensures Less(a, b) && Less(b, c) ==> Less(a, c)
    ensures a.sequence != b.sequence ==> (Less(a, b) <==> !Less(b, a))
  {
  }

  /** `p` is to be served before `q`: Critical first, then High, Normal, Low. */
  predicate Outranks(p: Priority, q: Priority) {
    match p
    case Critical => !q.Critical?
    case High => q.Normal? || q.Low?
    case Normal => q.Low?
    case Low => false
  }

  /** No task in `q` is to be served before `t`: none outranks it, and none of its own priority
      has an earlier sequence. */
  ghost predicate ServedFirst<X>(q: multiset<PriorityTask<X>>, t: PriorityTask<X>) {
    forall o :: o in q ==> !Outranks(o.priority, t.priority) && (o.priority == t.priority ==> t.sequence <= o.sequence)
  }

  /** What the heap puts on top is what is to be served first, and nothing else. */
  lemma TopIsServedFirst<X>(q: multiset<PriorityTask<X>>, t: PriorityTask<X>)
    ensures IsTop(q, t) <==> t in q && ServedFirst(q, t)
  {
    if IsTop(q, t) {
      forall o | o in q
        ensures !Outranks(o.priority, t.priority) && (o.priority == t.priority ==> t.sequence <= o.sequence)
      {
        assert !Less(t, o);
      }
    }
  }

  // ---------------------------------------------------------------- the scheduler

  /** `queue` is the contents of the std::priority_queue, whose order is not visible. */
  datatype Scheduler<X(==)> = Scheduler(queue: multiset<PriorityTask<X>>, nextSeq: nat, stopped: bool)

  datatype Op<X> = Push(func: X, priority: Priority) | Pop | Shutdown

  datatype Answer<X> = Pushed(ok: bool) | Popped(task: Option<PriorityTask<X>>) | Quiet

  /** What `priority_queue::top` promises: an element that is not less than any other. */
  ghost predicate IsTop<X>(q: multiset<PriorityTask<X>>, t: PriorityTask<X>) {
    t in q && forall o :: o in q ==> !Less(t, o)
  }

  lemma {:induction false} TopExists<X>(q: multiset<PriorityTask<X>>)
    requires q != multiset{}
    ensures exists t :: IsTop(q, t)
    decreases |q|
  {
    var a :| a in q;
    var rest := q - multiset{a};
    assert q == rest + multiset{a};
    if rest == multiset{} {
      assert IsTop(q, a);
    } else {
      TopExists(rest);
      var t :| IsTop(rest, t);
      var best := if Less(t, a) then a else t;
      forall o | o in q
        ensures !Less(best, o)
      {
        if o != a { assert o in rest; }
        LessIsStrictTotalOrder(t, a, o);
      }
      assert IsTop(q, best);
    }
  }

  ghost function Top<X>(q: multiset<PriorityTask<X>>): (t: PriorityTask<X>)
    requires q != multiset{}
    ensures IsTop(q, t)
  {
    TopExists(q);
    var t :| IsTop(q, t);
    t
  }

  ghost function Next<X>(s: Scheduler<X>, op: Op<X>): (Scheduler<X>, Answer<X>) {
    match op
    case Push(func, priority) =>
      if s.stopped then (s, Pushed(false))
      else (s.(queue := s.queue + multiset{PriorityTask(func, priority, s.nextSeq)},
               nextSeq := Wrap(s.nextSeq + 1)), Pushed(true))
    case Pop =>
      if s.queue == multiset{} then (s, Popped(None))
      else (s.(queue := s.queue - multiset{Top(s.queue)}), Popped(Some(Top(s.queue))))
    case Shutdown => (s.(stopped := true), Quiet)
  }

  ghost function Run<X>(s: Scheduler<X>, ops: seq<Op<X>>): (Scheduler<X>, seq<Answer<X>>)
    decreases |ops|
  {
    if ops == [] then (s, [])
    else
      var (s1, a) := Next(s, ops[0]);
      var (s2, rest) := Run(s1, ops[1..]);
      (s2, [a] + rest)
  }

  // ---------------------------------------------------------------- the reference

  /** Four FIFO queues, one per rank. Tasks carry the 64-bit number of the accepted push as a tag
      that no operation looks at. */
  datatype Lanes<X> = Lanes(lanes: seq<seq<PriorityTask<X>>>, stopped: bool, pushes: nat)

  predicate Four<X>(f: Lanes<X>) { |f.lanes| == 4 }

  /** The first non-empty queue, scanned from Critical to Low. */
  function First<X>(f: Lanes<X>): Option<nat>
    requires Four(f)
  {
    if f.lanes[3] != [] then Some(3)
    else if f.lanes[2] != [] then Some(2)
    else if f.lanes[1] != [] then Some(1)
    else if f.lanes[0] != [] then Some(0)
    else None
  }

  function LanesNext<X>(f: Lanes<X>, op: Op<X>): (r: (Lanes<X>, Answer<X>))
    requires Four(f)
    ensures Four(r.0)
  {
    match op
    case Push(func, p) =>
      if f.stopped then (f, Pushed(false))
      else
        var r := p.Rank();
        (f.(lanes := f.lanes[r := f.lanes[r] + [PriorityTask(func, p, Wrap(f.pushes))]],
            pushes := f.pushes + 1), Pushed(true))
    case Pop =>
      (match First(f)
       case None => (f, Popped(None))
       case Some(r) => (f.(lanes := f.lanes[r := f.lanes[r][1..]]), Popped(Some(f.lanes[r][0]))))
    case Shutdown => (f.(stopped := true), Quiet)
  }

  function LanesRun<X>(f: Lanes<X>, ops: seq<Op<X>>): (r: (Lanes<X>, seq<Answer<X>>))
    requires Four(f)
    ensures Four(r.0)
    decreases |ops|
  {
    if ops == [] then (f, [])
    else
      var (f1, a) := LanesNext(f, ops[0]);
      var (f2, rest) := LanesRun(f1, ops[1..]);
      (f2, [a] + rest)
  }

  function Empty<X>(): Lanes<X> { Lanes([[], [], [], []], false, 0) }

  // ---------------------------------------------------------------- refinement

  /** `a` comes out before `b`, or there is no telling them apart. */
  ghost predicate Before<X>(a: PriorityTask<X>, b: PriorityTask<X>) {
    a == b || Less(b, a)
  }

  /** A lane in which age is order. */
  ghost predicate LaneOk<X>(lane: seq<PriorityTask<X>>) {
    forall i, j :: 0 <= i < j < |lane| ==> Before(lane[i], lane[j])
  }

  ghost function Bag<X>(lanes: seq<seq<PriorityTask<X>>>): multiset<PriorityTask<X>>
    requires |lanes| == 4
  {
    multiset(lanes[0]) + multiset(lanes[1]) + multiset(lanes[2]) + multiset(lanes[3])
  }

  lemma BagUpdate<X>(lanes: seq<seq<PriorityTask<X>>>, r: nat, lane: seq<PriorityTask<X>>)
    requires |lanes| == 4 && r < 4
    ensures Bag(lanes[r := lane]) + multiset(lanes[r]) == Bag(lanes) + multiset(lane)
  {
  }

  /** A task is in the bag exactly if it is in some lane. */
  lemma InBag<X>(lanes: seq<seq<PriorityTask<X>>>, t: PriorityTask<X>)
    requires |lanes| == 4
    ensures t in Bag(lanes) <==> exists r :: 0 <= r < 4 && t in lanes[r]
  {
    assert t in lanes[0] || t in lanes[1] || t in lanes[2] || t in lanes[3] <==> t in Bag(lanes);
  }

  ghost predicate Ranked<X>(lane: seq<PriorityTask<X>>, rank: nat) {
    forall i :: 0 <= i < |lane| ==> lane[i].priority.Rank() == rank
  }

  ghost predicate Sorted<X>(f: Lanes<X>) {
    Four(f) && forall r :: 0 <= r < 4 ==> Ranked(f.lanes[r], r)
  }

  ghost predicate AgeOrdered<X>(f: Lanes<X>) {
    Four(f) && forall r :: 0 <= r < 4 ==> LaneOk(f.lanes[r])
  }

  ghost predicate Related<X>(s: Scheduler<X>, f: Lanes<X>) {
    && Sorted(f) && AgeOrdered(f) && s.queue == Bag(f.lanes)
    && s.stopped == f.stopped && s.nextSeq == Wrap(f.pushes)
  }

  lemma RankOf<X>(f: Lanes<X>, r: nat, t: PriorityTask<X>)
    requires Sorted(f) && r < 4 && t in f.lanes[r]
    ensures t.priority.Rank() == r && t in Bag(f.lanes)
    ensures AgeOrdered(f) ==> Before(f.lanes[r][0], t)
  {
    assert Ranked(f.lanes[r], r);
    InBag(f.lanes, t);
    if AgeOrdered(f) { assert LaneOk(f.lanes[r]); }
  }

  /** The head of the first non-empty lane is the only top of the bag. */
  lemma HeadIsTop<X>(s: Scheduler<X>, f: Lanes<X>, t: PriorityTask<X>)
    requires Related(s, f) && IsTop(s.queue, t)
    ensures First(f).Some? && t == f.lanes[First(f).value][0]
  {
    var q := LaneOf(f.lanes, t);
    RankOf(f, q, t);
    var r := First(f).value;
    var head := f.lanes[r][0];
    RankOf(f, r, head);
    assert !Less(t, head);
  }

  lemma LaneOf<X>(lanes: seq<seq<PriorityTask<X>>>, t: PriorityTask<X>) returns (r: nat)
    requires |lanes| == 4 && t in Bag(lanes)
    ensures r < 4 && t in lanes[r]
  {
    InBag(lanes, t);
    r :| 0 <= r < 4 && t in lanes[r];
  }

  /** Taking any top of the heap is taking the head of the first non-empty queue. */
  lemma PopAnyTop<X>(s: Scheduler<X>, f: Lanes<X>, t: PriorityTask<X>)
    requires Related(s, f) && IsTop(s.queue, t)
    ensures LanesNext(f, Pop).1 == Popped(Some(t))
    ensures Related(s.(queue := s.queue - multiset{t}), LanesNext(f, Pop).0)
  {
    HeadIsTop(s, f, t);
    LanesTake(f, First(f).value);
    BagTake(f.lanes, First(f).value);
  }

  lemma PopNothing<X>(s: Scheduler<X>, f: Lanes<X>)
    requires Related(s, f) && s.queue == multiset{}
    ensures LanesNext(f, Pop) == (f, Popped(None))
  {
    EmptyBag(f.lanes);
  }

  lemma PopRefines<X>(s: Scheduler<X>, f: Lanes<X>)
    requires Related(s, f)
    ensures Next(s, Pop).1 == LanesNext(f, Pop).1
    ensures Related(Next(s, Pop).0, LanesNext(f, Pop).0)
  {
    if s.queue == multiset{} {
      PopNothing(s, f);
    } else {
      PopAnyTop(s, f, Top(s.queue));
    }
  }

  lemma EmptyBag<X>(lanes: seq<seq<PriorityTask<X>>>)
    requires |lanes| == 4 && Bag(lanes) == multiset{}
    ensures forall r :: 0 <= r < 4 ==> lanes[r] == []
  {
    forall r | 0 <= r < 4
      ensures lanes[r] == []
    {
      if lanes[r] != [] {
        assert lanes[r][0] in lanes[r];
        InBag(lanes, lanes[r][0]);
      }
    }
  }

  lemma CancelCommon<Y>(a: multiset<Y>, b: multiset<Y>, h: Y, common: multiset<Y>)
    requires a + (multiset{h} + common) == b + common
    ensures a == b - multiset{h}
  {
    assert (a + multiset{h}) + common == b + common;
    assert forall y :: ((a + multiset{h}) + common)[y] == (a + multiset{h})[y] + common[y];
    assert a + multiset{h} == b;
  }

  lemma BagTake<X>(lanes: seq<seq<PriorityTask<X>>>, r: nat)
    requires |lanes| == 4 && r < 4 && lanes[r] != []
    ensures Bag(lanes[r := lanes[r][1..]]) == Bag(lanes) - multiset{lanes[r][0]}
  {
    var lane := lanes[r];
    BagUpdate(lanes, r, lane[1..]);
    assert lane == [lane[0]] + lane[1..];
    assert multiset(lane) == multiset{lane[0]} + multiset(lane[1..]);
    CancelCommon(Bag(lanes[r := lane[1..]]), Bag(lanes), lane[0], multiset(lane[1..]));
  }

  lemma LanesTake<X>(f: Lanes<X>, r: nat)
    requires Sorted(f) && r < 4 && f.lanes[r] != []
    ensures var g := f.(lanes := f.lanes[r := f.lanes[r][1..]]); Sorted(g) && (AgeOrdered(f) ==> AgeOrdered(g))
  {
    assert Ranked(f.lanes[r], r);
    assert Ranked(f.lanes[r][1..], r);
    if AgeOrdered(f) {
      assert LaneOk(f.lanes[r]);
      assert LaneOk(f.lanes[r][1..]);
    }
  }

  /** Appending to a lane keeps age and order together exactly when everything waiting in it comes
      before the new task. */
  lemma AppendKeepsOrderExactly<X>(lane: seq<PriorityTask<X>>, t: PriorityTask<X>)
    requires LaneOk(lane)
    ensures LaneOk(lane + [t]) <==> forall i :: 0 <= i < |lane| ==> Before(lane[i], t)
  {
    if LaneOk(lane + [t]) {
      forall i | 0 <= i < |lane|
        ensures Before(lane[i], t)
      {
        assert (lane + [t])[i] == lane[i] && (lane + [t])[|lane|] == t;
      }
    }
  }

  lemma BagPush<X>(lanes: seq<seq<PriorityTask<X>>>, r: nat, t: PriorityTask<X>)
    requires |lanes| == 4 && r < 4
    ensures Bag(lanes[r := lanes[r] + [t]]) == Bag(lanes) + multiset{t}
  {
    BagUpdate(lanes, r, lanes[r] + [t]);
  }

  /** What a caller can check before a push: the counter's value is above the sequences of all
      tasks that wait at this priority (or the task is the same as the one it ties with). */
  ghost predicate PushInOrder<X>(f: Lanes<X>, op: Op<X>)
    requires Four(f)
  {
    op.Push? && !f.stopped ==>
      forall w :: w in f.lanes[op.priority.Rank()] ==> Before(w, PriorityTask(op.func, op.priority, Wrap(f.pushes)))
  }

  lemma LanesPush<X>(f: Lanes<X>, func: X, p: Priority)
    requires Sorted(f) && AgeOrdered(f) && !f.stopped
    ensures var g := LanesNext(f, Push(func, p)).0; Sorted(g) && (AgeOrdered(g) <==> PushInOrder(f, Push(func, p)))
  {
    var r, t := p.Rank(), PriorityTask(func, p, Wrap(f.pushes));
    var g := LanesNext(f, Push(func, p)).0;
    assert Ranked(f.lanes[r], r);
    assert LaneOk(f.lanes[r]);
    assert forall q :: 0 <= q < 4 && q != r ==> g.lanes[q] == f.lanes[q];
    assert g.lanes[r] == f.lanes[r] + [t];
    AppendKeepsOrderExactly(f.lanes[r], t);
    assert (forall w :: w in f.lanes[r] ==> Before(w, t)) <==> LaneOk(g.lanes[r]);
  }

  lemma PushRefines<X>(s: Scheduler<X>, f: Lanes<X>, func: X, p: Priority)
    requires Related(s, f) && PushInOrder(f, Push(func, p))
    ensures Next(s, Push(func, p)).1 == LanesNext(f, Push(func, p)).1
    ensures Related(Next(s, Push(func, p)).0, LanesNext(f, Push(func, p)).0)
  {
    if !f.stopped {
      PushKeepsBag(s, f, func, p);
      LanesPush(f, func, p);
    }
  }

  lemma PushKeepsBag<X>(s: Scheduler<X>, f: Lanes<X>, func: X, p: Priority)
    requires Four(f) && s.queue == Bag(f.lanes) && s.nextSeq == Wrap(f.pushes) && !f.stopped && !s.stopped
    ensures Next(s, Push(func, p)).0.queue == Bag(LanesNext(f, Push(func, p)).0.lanes)
    ensures Next(s, Push(func, p)).0.nextSeq == Wrap(LanesNext(f, Push(func, p)).0.pushes)
  {
    BagPush(f.lanes, p.Rank(), PriorityTask(func, p, Wrap(f.pushes)));
    WrapSteps(f.pushes);
  }

  /** Every accepted push of the run finds its priority's waiting tasks below the counter. */
  ghost predicate InOrder<X>(f: Lanes<X>, ops: seq<Op<X>>)
    requires Four(f)
    decreases |ops|
  {
    ops == [] || (PushInOrder(f, ops[0]) && InOrder(LanesNext(f, ops[0]).0, ops[1..]))
  }

  lemma {:induction false} RunRefines<X>(s: Scheduler<X>, f: Lanes<X>, ops: seq<Op<X>>)
    requires Related(s, f) && InOrder(f, ops)
    ensures Run(s, ops).1 == LanesRun(f, ops).1
    ensures Related(Run(s, ops).0, LanesRun(f, ops).0)
    decreases |ops|
  {
    if ops != [] {
      match ops[0] {
        case Push(func, p) => PushRefines(s, f, func, p);
        case Pop => PopRefines(s, f);
        case Shutdown =>
      }
      RunRefines(Next(s, ops[0]).0, LanesNext(f, ops[0]).0, ops[1..]);
    }
  }

  ghost function Fresh<X>(): Scheduler<X> { Scheduler(multiset{}, 0, false) }

  /** For every sequence of operations in which no push falls behind a task waiting at its
      priority, the scheduler answers exactly as the four FIFO queues do. */
  lemma SchedulerIsFourFifos<X>(ops: seq<Op<X>>)
    requires InOrder(Empty<X>(), ops)
    ensures Run(Fresh<X>(), ops).1 == LanesRun(Empty<X>(), ops).1
    ensures Related(Run(Fresh<X>(), ops).0, LanesRun(Empty<X>(), ops).0)
  {
    RunRefines(Fresh<X>(), Empty<X>(), ops);
  }

  /** In every run, in order or not, a pop gives nothing exactly if nothing waits, and otherwise
      a waiting task that no other waiting task is to be served before. */
  lemma PopServesFirst<X>(ops: seq<Op<X>>)
    ensures var s := Run(Fresh<X>(), ops).0;
            match Next(s, Pop).1
            case Popped(None) => s.queue == multiset{}
            case Popped(Some(t)) => t in s.queue && ServedFirst(s.queue, t)
            case _ => false
  {
    var s := Run(Fresh<X>(), ops).0;
    if s.queue != multiset{} { TopIsServedFirst(s.queue, Top(s.queue)); }
  }

  // ---------------------------------------------------------------- when the order is lost

  /** Popping until the end, the scheduler hands out what the four queues do, whichever maximal
      element its heap holds at the root each time. */
  ghost predicate DrainsAlike<X>(q: multiset<PriorityTask<X>>, f: Lanes<X>)
    requires Four(f)
    decreases |q|
  {
    if q == multiset{} then First(f).None?
    else forall t :: t in q && IsTop(q, t) ==>
      LanesNext(f, Pop).1 == Popped(Some(t)) && DrainsAlike(q - multiset{t}, LanesNext(f, Pop).0)
  }

  lemma {:induction false} OrderedDrainsAlike<X>(q: multiset<PriorityTask<X>>, f: Lanes<X>)
    requires Sorted(f) && AgeOrdered(f) && q == Bag(f.lanes)
    ensures DrainsAlike(q, f)
    decreases |q|
  {
    var s := Scheduler(q, Wrap(f.pushes), f.stopped);
    if q == multiset{} {
      PopNothing(s, f);
    } else {
      forall t | t in q && IsTop(q, t)
        ensures LanesNext(f, Pop).1 == Popped(Some(t)) && DrainsAlike(q - multiset{t}, LanesNext(f, Pop).0)
      {
        PopAnyTop(s, f, t);
        OrderedDrainsAlike(q - multiset{t}, LanesNext(f, Pop).0);
      }
    }
  }

  lemma TiedIsTop<X>(q: multiset<PriorityTask<X>>, t: PriorityTask<X>, x: PriorityTask<X>)
    requires IsTop(q, t) && x in q && x.priority == t.priority && x.sequence == t.sequence
    ensures IsTop(q, x)
  {
    forall o | o in q
      ensures !Less(x, o)
    {
      assert !Less(t, o);
    }
  }

  /** If the head of the first queue is the only top, everything behind it comes after it. */
  lemma OnlyTopIsBefore<X>(f: Lanes<X>, r: nat, x: PriorityTask<X>)
    requires Sorted(f) && r < 4 && f.lanes[r] != [] && x in f.lanes[r]
    requires forall t :: IsTop(Bag(f.lanes), t) <==> t == f.lanes[r][0]
    ensures Before(f.lanes[r][0], x)
  {
    var head := f.lanes[r][0];
    RankOf(f, r, head);
    RankOf(f, r, x);
    assert IsTop(Bag(f.lanes), head);
    assert !Less(head, x);
    if x.sequence == head.sequence { TiedIsTop(Bag(f.lanes), head, x); }
  }

  lemma {:induction false} DrainsAlikeIsOrdered<X>(q: multiset<PriorityTask<X>>, f: Lanes<X>)
    requires Sorted(f) && q == Bag(f.lanes) && DrainsAlike(q, f)
    ensures AgeOrdered(f)
    decreases |q|
  {
    if q == multiset{} {
      EmptyBag(f.lanes);
    } else {
      TopExists(q);
      var top :| IsTop(q, top);
      var r := First(f).value;
      var lane := f.lanes[r];
      assert top == lane[0];
      LanesTake(f, r);
      BagTake(f.lanes, r);
      var g := LanesNext(f, Pop).0;
      DrainsAlikeIsOrdered(q - multiset{top}, g);
      assert LaneOk(g.lanes[r]);
      forall x | x in lane
        ensures Before(lane[0], x)
      {
        OnlyTopIsBefore(f, r, x);
      }
      HeadAndTail(lane);
      OtherLanes(f, g, r);
    }
  }

  lemma HeadAndTail<X>(lane: seq<PriorityTask<X>>)
    requires lane != [] && LaneOk(lane[1..]) && forall x :: x in lane ==> Before(lane[0], x)
    ensures LaneOk(lane)
  {
    forall i, j | 0 <= i < j < |lane|
      ensures Before(lane[i], lane[j])
    {
      if i > 0 { assert lane[i] == lane[1..][i - 1] && lane[j] == lane[1..][j - 1]; }
    }
  }

  lemma OtherLanes<X>(f: Lanes<X>, g: Lanes<X>, r: nat)
    requires Four(f) && AgeOrdered(g) && r < 4 && LaneOk(f.lanes[r])
    requires g.lanes == f.lanes[r := g.lanes[r]]
    ensures AgeOrdered(f)
  {
    forall q | 0 <= q < 4
      ensures LaneOk(f.lanes[q])
    {
      if q != r { assert g.lanes[q] == f.lanes[q] && LaneOk(g.lanes[q]); }
    }
  }

  /** The exact condition. After a push, draining the scheduler still gives what the four queues
      give if and only if the push was in order. */
  lemma PushDrainsAlikeExactly<X>(s: Scheduler<X>, f: Lanes<X>, func: X, p: Priority)
    requires Related(s, f) && !s.stopped
    ensures DrainsAlike(Next(s, Push(func, p)).0.queue, LanesNext(f, Push(func, p)).0)
       <==> PushInOrder(f, Push(func, p))
  {
    var q, g := Next(s, Push(func, p)).0.queue, LanesNext(f, Push(func, p)).0;
    PushKeepsBag(s, f, func, p);
    LanesPush(f, func, p);
    if AgeOrdered(g) { OrderedDrainsAlike(q, g); }
    if DrainsAlike(q, g) { DrainsAlikeIsOrdered(q, g); }
  }

  /** At every moment of the run, draining the scheduler would give what the four queues give. */
  ghost predicate AlwaysAlike<X>(s: Scheduler<X>, f: Lanes<X>, ops: seq<Op<X>>)
    requires Four(f)
    decreases |ops|
  {
    && DrainsAlike(s.queue, f)
    && (ops == [] || AlwaysAlike(Next(s, ops[0]).0, LanesNext(f, ops[0]).0, ops[1..]))
  }

  lemma {:induction false} AlikeExactly<X>(s: Scheduler<X>, f: Lanes<X>, ops: seq<Op<X>>)
    requires Related(s, f)
    ensures AlwaysAlike(s, f, ops) <==> InOrder(f, ops)
    decreases |ops|
  {
    OrderedDrainsAlike(s.queue, f);
    if ops != [] {
      var s', f' := Next(s, ops[0]).0, LanesNext(f, ops[0]).0;
      match ops[0] {
        case Push(func, p) => if !s.stopped { PushDrainsAlikeExactly(s, f, func, p); }
        case Pop => PopRefines(s, f);
        case Shutdown =>
      }
      if PushInOrder(f, ops[0]) {
        if ops[0].Push? { PushRefines(s, f, ops[0].func, ops[0].priority); }
        AlikeExactly(s', f', ops[1..]);
      } else {
        assert !DrainsAlike(s'.queue, f');
      }
    }
  }

  /** Over whole runs: the scheduler never departs from the four FIFO queues if and only if every
      push was in order. */
  lemma SchedulerIsFourFifosExactly<X>(ops: seq<Op<X>>)
    ensures AlwaysAlike(Fresh<X>(), Empty<X>(), ops) <==> InOrder(Empty<X>(), ops)
  {
    AlikeExactly(Fresh<X>(), Empty<X>(), ops);
  }

  /** All tags are below the number of pushes, as they are until the counter wraps. */
  ghost predicate TagsBelow<X>(f: Lanes<X>) {
    Sorted(f) && forall r, i :: 0 <= r < 4 && 0 <= i < |f.lanes[r]| ==> f.lanes[r][i].sequence < f.pushes
  }

  lemma UnwrappedStep<X>(f: Lanes<X>, op: Op<X>)
    requires TagsBelow(f) && LanesNext(f, op).0.pushes <= WORD
    ensures PushInOrder(f, op) && TagsBelow(LanesNext(f, op).0)
  {
    match op {
      case Push(func, p) => if !f.stopped { UnwrappedPush(f, func, p); }
      case Pop => if First(f).Some? { LanesTake(f, First(f).value); }
      case Shutdown =>
    }
  }

  lemma UnwrappedPush<X>(f: Lanes<X>, func: X, p: Priority)
    requires TagsBelow(f) && f.pushes < WORD && !f.stopped
    ensures PushInOrder(f, Push(func, p)) && TagsBelow(LanesNext(f, Push(func, p)).0)
  {
    var r := p.Rank();
    assert Ranked(f.lanes[r], r);
    forall w | w in f.lanes[r]
      ensures Before(w, PriorityTask(func, p, Wrap(f.pushes)))
    {
      RankOf(f, r, w);
    }
    var g := LanesNext(f, Push(func, p)).0;
    forall q | 0 <= q < 4
      ensures Ranked(g.lanes[q], q)
    {
      assert Ranked(f.lanes[q], q);
    }
  }

  lemma {:induction false} PushesOnlyGrow<X>(f: Lanes<X>, ops: seq<Op<X>>)
    requires Four(f)
    ensures f.pushes <= LanesRun(f, ops).0.pushes
    decreases |ops|
  {
    if ops != [] { PushesOnlyGrow(LanesNext(f, ops[0]).0, ops[1..]); }
  }

  lemma {:induction false} UnwrappedRunInOrder<X>(f: Lanes<X>, ops: seq<Op<X>>)
    requires TagsBelow(f) && LanesRun(f, ops).0.pushes <= WORD
    ensures InOrder(f, ops)
    decreases |ops|
  {
    if ops != [] {
      PushesOnlyGrow(LanesNext(f, ops[0]).0, ops[1..]);
      UnwrappedStep(f, ops[0]);
      UnwrappedRunInOrder(LanesNext(f, ops[0]).0, ops[1..]);
    }
  }

  /** In particular the condition holds in every run that accepts at most 2^64 pushes. */
  lemma InOrderUntilWrap<X>(ops: seq<Op<X>>)
    requires LanesRun(Empty<X>(), ops).0.pushes <= WORD
    ensures InOrder(Empty<X>(), ops)
  {
    UnwrappedRunInOrder(Empty<X>(), ops);
  }

  // ---------------------------------------------------------------- what that means for tasks

  /** The tasks of rank `r` among the accepted pushes, oldest first; `pushes` numbers them. */
  function AcceptedAt<X>(ops: seq<Op<X>>, answers: seq<Answer<X>>, r: nat, pushes: nat): seq<PriorityTask<X>>
    requires |ops| == |answers|
    decreases |ops|
  {
    if ops == [] then []
    else if ops[0].Push? && answers[0] == Pushed(true) then
      (if ops[0].priority.Rank() == r then [PriorityTask(ops[0].func, ops[0].priority, Wrap(pushes))] else [])
      + AcceptedAt(ops[1..], answers[1..], r, pushes + 1)
    else AcceptedAt(ops[1..], answers[1..], r, pushes)
  }

  /** The tasks of rank `r` that were handed out, in order. */
  function HandedOutAt<X>(answers: seq<Answer<X>>, r: nat): seq<PriorityTask<X>> {
    if answers == [] then []
    else (if answers[0].Popped? && answers[0].task.Some? && answers[0].task.value.priority.Rank() == r
          then [answers[0].task.value] else [])
         + HandedOutAt(answers[1..], r)
  }

  lemma {:induction false} AnswersMatch<X>(f: Lanes<X>, ops: seq<Op<X>>)
    requires Four(f)
    ensures |LanesRun(f, ops).1| == |ops|
    decreases |ops|
  {
    if ops != [] { AnswersMatch(LanesNext(f, ops[0]).0, ops[1..]); }
  }

  function Accepts<X>(op: Op<X>, a: Answer<X>, r: nat, pushes: nat): seq<PriorityTask<X>> {
    if op.Push? && a == Pushed(true) && op.priority.Rank() == r
    then [PriorityTask(op.func, op.priority, Wrap(pushes))] else []
  }

  function HandsOut<X>(a: Answer<X>, r: nat): seq<PriorityTask<X>> {
    if a.Popped? && a.task.Some? && a.task.value.priority.Rank() == r then [a.task.value] else []
  }

  lemma StepConserves<X>(f: Lanes<X>, op: Op<X>, r: nat)
    requires Sorted(f) && r < 4
    ensures var (f1, a) := LanesNext(f, op);
            f.lanes[r] + Accepts(op, a, r, f.pushes) == HandsOut(a, r) + f1.lanes[r] && Sorted(f1)
            && f1.pushes == if op.Push? && a == Pushed(true) then f.pushes + 1 else f.pushes
  {
    match op {
      case Push(func, p) =>
      case Pop => PopConserves(f, r);
      case Shutdown =>
    }
  }

  lemma PopConserves<X>(f: Lanes<X>, r: nat)
    requires Sorted(f) && r < 4
    ensures var (f1, a) := LanesNext(f, Pop);
            f.lanes[r] == HandsOut(a, r) + f1.lanes[r] && Sorted(f1)
  {
  }

  lemma FirstAnswer<X>(ops: seq<Op<X>>, a: Answer<X>, rest: seq<Answer<X>>, r: nat, pushes: nat, pushes': nat)
    requires |ops| == 1 + |rest|
    requires pushes' == if ops[0].Push? && a == Pushed(true) then pushes + 1 else pushes
    ensures AcceptedAt(ops, [a] + rest, r, pushes)
         == Accepts(ops[0], a, r, pushes) + AcceptedAt(ops[1..], rest, r, pushes')
    ensures HandedOutAt([a] + rest, r) == HandsOut(a, r) + HandedOutAt(rest, r)
  {
    assert ([a] + rest)[1..] == rest;
  }

  lemma {:induction false} LanesConserve<X>(f: Lanes<X>, ops: seq<Op<X>>, r: nat)
    requires Sorted(f) && r < 4 && |LanesRun(f, ops).1| == |ops|
    ensures f.lanes[r] + AcceptedAt(ops, LanesRun(f, ops).1, r, f.pushes)
         == HandedOutAt(LanesRun(f, ops).1, r) + LanesRun(f, ops).0.lanes[r]
    decreases |ops|
  {
    if ops != [] {
      var (f1, a) := LanesNext(f, ops[0]);
      var (f2, rest) := LanesRun(f1, ops[1..]);
      StepConserves(f, ops[0], r);
      AnswersMatch(f1, ops[1..]);
      LanesConserve(f1, ops[1..], r);
      FirstAnswer(ops, a, rest, r, f.pushes, f1.pushes);
      Sequences.Regroup(f.lanes[r], Accepts(ops[0], a, r, f.pushes), AcceptedAt(ops[1..], rest, r, f1.pushes),
                        HandsOut(a, r), f1.lanes[r], HandedOutAt(rest, r), f2.lanes[r]);
    }
  }

  lemma EachLaneIsFifo<X>(ops: seq<Op<X>>, r: nat)
    requires r < 4
    ensures var answers := LanesRun(Empty<X>(), ops).1;
            && |answers| == |ops|
            && HandedOutAt(answers, r) <= AcceptedAt(ops, answers, r, 0)
  {
    var f := Empty<X>();
    assert f.lanes[r] == [];
    AnswersMatch(f, ops);
    LanesConserve(f, ops, r);
    var answers := LanesRun(f, ops).1;
    assert f.lanes[r] + AcceptedAt(ops, answers, r, 0) == AcceptedAt(ops, answers, r, 0);
  }

  /** Within a level the scheduler is FIFO and hands every accepted task out at most once: what
      it has handed out is a prefix of what it accepted, in push order. */
  lemma EachLevelIsFifo<X>(ops: seq<Op<X>>, r: nat)
    requires r < 4 && InOrder(Empty<X>(), ops)
    ensures var answers := Run(Fresh<X>(), ops).1;
            && |answers| == |ops|
            && HandedOutAt(answers, r) <= AcceptedAt(ops, answers, r, 0)
  {
    SchedulerIsFourFifos(ops);
    EachLaneIsFifo(ops, r);
  }

  // ---------------------------------------------------------------- the sequence counter wraps

  lemma {:induction false} RunsCompose<X>(s: Scheduler<X>, a: seq<Op<X>>, b: seq<Op<X>>)
    ensures var (s1, x) := Run(s, a); var (s2, y) := Run(s1, b); Run(s, a + b) == (s2, x + y)
    decreases |a|
  {
    if a == [] {
      assert a + b == b;
      assert [] + Run(s, b).1 == Run(s, b).1;
    } else {
      assert (a + b)[0] == a[0] && (a + b)[1..] == a[1..] + b;
      RunsCompose(Next(s, a[0]).0, a[1..], b);
      var x, y := Run(Next(s, a[0]).0, a[1..]).1, Run(Run(Next(s, a[0]).0, a[1..]).0, b).1;
      assert [Next(s, a[0]).1] + (x + y) == ([Next(s, a[0]).1] + x) + y;
    }
  }

  lemma OneMore<X>(s: Scheduler<X>, ops: seq<Op<X>>, op: Op<X>)
    ensures var (s1, x) := Run(s, ops); var (s2, a) := Next(s1, op); Run(s, ops + [op]) == (s2, x + [a])
  {
    RunsCompose(s, ops, [op]);
    var s1 := Run(s, ops).0;
    assert Run(Next(s1, op).0, [op][1..]) == (Next(s1, op).0, []);
    assert [Next(s1, op).1] + [] == [Next(s1, op).1];
  }

  /** Pushing and popping `n` times leaves the scheduler empty with the counter at `n`. */
  lemma {:induction false} CountTo<X>(x: X, p: Priority, n: nat) returns (ops: seq<Op<X>>)
    requires n < WORD
    ensures Run(Fresh<X>(), ops).0 == Scheduler(multiset{}, n, false)
    decreases n
  {
    if n == 0 {
      ops := [];
    } else {
      var before := CountTo(x, p, n - 1);
      var s: Scheduler<X> := Scheduler(multiset{}, n - 1, false);
      OneMore(Fresh<X>(), before, Push(x, p));
      var s1 := Next(s, Push(x, p)).0;
      OneMore(Fresh<X>(), before + [Push(x, p)], Pop);
      var t := PriorityTask(x, p, n - 1);
      assert s1.queue == multiset{t};
      assert Top(s1.queue) == t;
      assert s1.queue - multiset{t} == multiset{};
      ops := before + [Push(x, p)] + [Pop];
    }
  }

  /** The order can be lost: there is a run with 2^64 + 1 accepted pushes in which, of two waiting
      tasks of one priority, the younger comes out first, because the counter started again at
      0 between them. */
  lemma WrapBreaksFifo<X>(x: X, older: X, younger: X, p: Priority) returns (ops: seq<Op<X>>)
    ensures var s := Run(Fresh<X>(), ops).0;
            var (s1, _) := Next(s, Push(older, p));
            var (s2, _) := Next(s1, Push(younger, p));
            Next(s2, Pop).1 == Popped(Some(PriorityTask(younger, p, 0)))
  {
    ops := CountTo(x, p, WORD - 1);
    var a, b := PriorityTask(older, p, WORD - 1), PriorityTask(younger, p, 0);
    var q := multiset{} + multiset{a} + multiset{b};
    var t := Top(q);
    assert t == a || t == b;
    assert b in q && Less(a, b);
  }
}
