/** `Pipeline`: stages composed into one closure that runs as a single task, against the same
    stages as a chain of `.then()` tasks. */
module Pipelines {
  import opened Outcomes
  import opened Pool
  import opened PoolInvariant
  import opened PoolTheorems
  import opened Chains
  import opened ThreadPools

  /** The closure built by `then`: it captures the previous chain, if there is one, the initial
      value, and the stage. */
  datatype Closure<!V, E> = Closure(prev: Option<Closure<V, E>>, initial: V, stage: Stage<V, E>)
  {
    function Depth(): nat
    {
      1 + (match prev case None => 0 case Some(p) => p.Depth())
    }
  }

  /** The outcome of calling a closure, with the numbers of the stages whose bodies ran. */
  datatype Trace<+V, +E> = Trace(outcome: Outcome<V, E>, ran: seq<nat>)

  /** Calling the closure: the previous chain first, else the initial value; then the stage. An
      exception in the previous chain leaves the closure at once. */
  function Call<V, E>(c: Closure<V, E>): Trace<V, E> {
    match c.prev
    case None => Trace(c.stage(c.initial), [1])
    case Some(p) =>
      var before := Call(p);
      match before.outcome
      case Value(intermediate) => Trace(c.stage(intermediate), before.ran + [c.Depth()])
      case Threw(e) => before
  }

  /** `c` is the closure for running `stages` on `x`. The initial value captured by later stages
      is whatever the moved-from or default-constructed member held: it is never used. */
  ghost predicate Composes<V, E>(c: Option<Closure<V, E>>, x: V, stages: seq<Stage<V, E>>)
    decreases |stages|
  {
    match c
    case None => stages == []
    case Some(k) =>
      && stages != [] && k.stage == stages[|stages| - 1]
      && Composes(k.prev, x, stages[..|stages| - 1])
      && (k.prev == None ==> k.initial == x)
  }

  function Run<V, E>(c: Option<Closure<V, E>>, initial: V): Trace<V, E> {
    match c
    case None => Trace(Value(initial), [])
    case Some(k) => Call(k)
  }

  function Numbers(n: nat): seq<nat> { seq(n, i => i + 1) }

  /** The fused closure means the fold of its stages, and runs exactly the stages before the
      first exception, in order. */
  lemma {:induction false} FusedMeaning<V, E>(k: Closure<V, E>, x: V, stages: seq<Stage<V, E>>)
    requires Composes(Some(k), x, stages)
    ensures Call(k).outcome == Fold(Value(x), stages)
    ensures k.Depth() == |stages|
    ensures Call(k).ran == Numbers(|Call(k).ran|)
    ensures |Call(k).ran| + 1 == Bodies(Outcome<V, E>.Value(x), stages)
    ensures Call(k).outcome.Value? ==> |Call(k).ran| == |stages|
    decreases |stages|
  {
    var init := stages[..|stages| - 1];
    BodiesInRange(Outcome<V, E>.Value(x), stages);
    BodiesInRange(Outcome<V, E>.Value(x), init);
    match k.prev {
      case None =>
        assert init == [];
      case Some(p) =>
        FusedMeaning(p, x, init);
    }
  }

  lemma RunMeaning<V, E>(c: Option<Closure<V, E>>, x: V, stages: seq<Stage<V, E>>)
    requires Composes(c, x, stages)
    ensures Run(c, x).outcome == Fold(Value(x), stages)
    ensures Run(c, x).ran == Numbers(|Run(c, x).ran|)
    ensures |Run(c, x).ran| + 1 == Bodies(Outcome<V, E>.Value(x), stages) <= |stages| + 1
  {
    BodiesInRange(Outcome<V, E>.Value(x), stages);
    match c {
      case None =>
      case Some(k) => FusedMeaning(k, x, stages);
    }
  }

  /** Fusion. Take any pipeline and the AsyncResult chain with the same initial value and stages,
      on the same pool, in any run in which the pipeline's one task and the chain's last task
      have both finished. Their futures hold the same value or exception, and the pipeline ran
      the same stages as the chain, in the same order: its stage `i` is the chain's ticket `i`,
      ticket 0 being the task that produces the initial value. */
  lemma Fusion<V, E>(n: nat, actions: seq<Action<V, E>>, c: Option<Closure<V, E>>, x: V, stages: seq<Stage<V, E>>,
                     fused: nat, tickets: seq<nat>)
    requires Legal(Initial<V, E>(n), actions) && Composes(c, x, stages)
    requires var s := Exec(Initial<V, E>(n), actions);
             && IsChain(s.accepted, Value(x), stages, tickets)
             && fused < |s.accepted| && s.accepted[fused] == Root(Run(c, x).outcome)
             && s.futures[fused].Some? && s.futures[tickets[|tickets| - 1]].Some?
    ensures var s := Exec(Initial<V, E>(n), actions); var ran := Run(c, x).ran;
            && s.futures[fused] == s.futures[tickets[|tickets| - 1]]
            && |ran| + 1 <= |tickets|
            && (forall i :: 0 <= i < |ran| ==> ran[i] == i + 1)
            && Only(s.entered, tickets) == tickets[..|ran| + 1]
  {
    Reached(n, actions);
    var s := Exec(Initial<V, E>(n), actions);
    ChainResult(n, actions, Value(x), stages, tickets);
    RunMeaning(c, x, stages);
    FusedResult(s, c, x, fused);
  }

  lemma FusedResult<V, E>(s: State<V, E>, c: Option<Closure<V, E>>, x: V, fused: nat)
    requires Inv(s) && fused < |s.accepted| && s.accepted[fused] == Root(Run(c, x).outcome) && s.futures[fused].Some?
    ensures s.futures[fused].value == Run(c, x).outcome
  {
    assert Linked(s.accepted);
  }

  // ---------------------------------------------------------------- the builder object

  class Pipeline<!V(0), E> {
    const pool: ThreadPool<V, E>
    var initial: V
    var chain: Option<Closure<V, E>>
    ghost var source: V                      // the value given to `create`
    ghost var stages: seq<Stage<V, E>>       // the stages added since
    ghost var consumed: bool                 // moved from by `then` or `run`

    ghost predicate Valid()
      reads this
    {
      !consumed ==> Composes(chain, source, stages) && (chain == None ==> initial == source)
    }

    constructor Create(pool: ThreadPool<V, E>, initial: V)
      ensures Valid() && !consumed && stages == [] && source == initial && this.pool == pool
    {
      this.pool, this.initial, chain := pool, initial, None;
      source, stages, consumed := initial, [], false;
    }

    /** The private constructor with `set_chain`: the initial value is default-constructed. */
    constructor FromChain(pool: ThreadPool<V, E>, k: Closure<V, E>, ghost source: V, ghost stages: seq<Stage<V, E>>)
      requires Composes(Some(k), source, stages)
      ensures Valid() && !consumed && this.stages == stages && this.source == source && this.pool == pool
    {
      this.pool, chain := pool, Some(k);
      initial := *;
      this.source, this.stages, consumed := source, stages, false;
    }

    /** `then` moves the chain and the initial value into the new pipeline's closure; what they
        leave behind is unspecified. */
    method Then(f: Stage<V, E>) returns (next: Pipeline<V, E>)
      requires Valid() && !consumed
      modifies this
      ensures Valid() && consumed
      ensures fresh(next) && next.Valid() && !next.consumed && next.pool == pool
      ensures next.source == old(source) && next.stages == old(stages) + [f]
    {
      var prevChain, prevInitial := chain, initial;
      var k := Closure(prevChain, prevInitial, f);
      ghost var more := stages + [f];
      assert more[..|more| - 1] == stages;
      next := new Pipeline.FromChain(pool, k, source, more);
      chain, initial := *, *;
      consumed := true;
    }

    /** `run` submits the whole chain as one task, with or without stages. */
    method Run() returns (ticket: Option<nat>)
      requires Valid() && !consumed && pool.Valid()
      modifies this, pool`accepted, pool`futures, pool.queue
      ensures Valid() && consumed && pool.Valid()
      ensures pool.Now() == Next(old(pool.Now()), Submit(Fold(Outcome<V, E>.Value(old(source)), old(stages))))
      ensures ticket == if old(pool.queue.shutdown) then None else Some(old(|pool.accepted|))
      ensures ticket.Some? ==> pool.accepted[ticket.value] == Root(Fold(Value(old(source)), old(stages)))
    {
      var body;
      if chain.Some? {
        FusedMeaning(chain.value, source, stages);
        body := Call(chain.value).outcome;
        chain := *;
      } else {
        body := Value(initial);
        initial := *;
      }
      consumed := true;
      ticket := pool.Submit(body);
    }
  }
}
