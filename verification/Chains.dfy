/** Chains of `.then()`: the result of a chain is the fold of its stages in the exception monad,
    whatever the number of workers and the interleaving; and the stage bodies that run are the
    ones before the first exception, in chain order. */
module Chains {
  import opened Outcomes
  import opened Pool
  import opened PoolInvariant
  import opened PoolTheorems

  type Stage<!V, E> = V -> Outcome<V, E>

  /** The chain `submit_async(first).then(stages[0]). ... .then(stages[n - 1])`, evaluated by
      hand. */
  ghost function Fold<V, E>(first: Outcome<V, E>, stages: seq<Stage<V, E>>): Outcome<V, E>
    decreases |stages|
  {
    if stages == [] then first
    else match Fold(first, stages[..|stages| - 1])
         case Value(v) => stages[|stages| - 1](v)
         case Threw(e) => Threw(e)
  }

  /** How many bodies run: the first one, and each continuation that is given a value. */
  ghost function Bodies<V, E>(first: Outcome<V, E>, stages: seq<Stage<V, E>>): nat
    decreases |stages|
  {
    if stages == [] then 1
    else
      var init := stages[..|stages| - 1];
      Bodies(first, init) + (if Fold(first, init).Value? then 1 else 0)
  }

  /** `tickets` are the tasks that the calls of a chain submitted. */
  ghost predicate IsChain<V, E>(tasks: seq<Task<V, E>>, first: Outcome<V, E>, stages: seq<Stage<V, E>>,
                                tickets: seq<nat>) {
    && |tickets| == |stages| + 1
    && (forall i :: 0 <= i < |tickets| ==> tickets[i] < |tasks|)
    && tasks[tickets[0]] == Root(first)
    && (forall i {:trigger stages[i]} :: 0 <= i < |stages| ==> tasks[tickets[i + 1]] == Then(tickets[i], stages[i]))
  }

  lemma {:induction false} ChainMeaning<V, E>(tasks: seq<Task<V, E>>, first: Outcome<V, E>,
                                              stages: seq<Stage<V, E>>, tickets: seq<nat>, i: nat)
    requires Linked(tasks) && IsChain(tasks, first, stages, tickets) && i < |tickets|
    ensures Meaning(tasks, tickets[i]) == Fold(first, stages[..i])
    ensures i > 0 ==> (BodyRuns(tasks, tickets[i]) <==> Fold(first, stages[..i - 1]).Value?)
  {
    if i > 0 {
      ChainMeaning(tasks, first, stages, tickets, i - 1);
      assert tasks[tickets[i]] == Then(tickets[i - 1], stages[i - 1]);
      assert stages[..i][..i - 1] == stages[..i - 1];
    }
  }

  /** An accepted `then` on the last AsyncResult of a chain makes the chain one stage longer; and
      no other submission disturbs a chain. */
  lemma ChainGrows<V, E>(s: State<V, E>, a: Action<V, E>, first: Outcome<V, E>, stages: seq<Stage<V, E>>,
                         tickets: seq<nat>)
    requires Inv(s) && IsChain(s.accepted, first, stages, tickets) && Enabled(s, a)
    ensures IsChain(Next(s, a).accepted, first, stages, tickets)
    ensures a.Attach? && a.pred == tickets[|tickets| - 1] && !s.shutdown ==>
      IsChain(Next(s, a).accepted, first, stages + [a.continuation], tickets + [|s.accepted|])
  {
    assert s.accepted <= Next(s, a).accepted;
    if a.Attach? && a.pred == tickets[|tickets| - 1] && !s.shutdown {
      GrownChain(Next(s, a).accepted, first, stages, tickets, a.continuation, |s.accepted|);
    }
  }

  lemma GrownChain<V, E>(tasks: seq<Task<V, E>>, first: Outcome<V, E>, stages: seq<Stage<V, E>>,
                         tickets: seq<nat>, f: Stage<V, E>, t: nat)
    requires IsChain(tasks, first, stages, tickets)
    requires t < |tasks| && tasks[t] == Then(tickets[|tickets| - 1], f)
    ensures IsChain(tasks, first, stages + [f], tickets + [t])
  {
    var more, longer := stages + [f], tickets + [t];
    forall i {:trigger more[i]} | 0 <= i < |more|
      ensures tasks[longer[i + 1]] == Then(longer[i], more[i])
    {
      if i < |stages| { assert more[i] == stages[i]; }
    }
  }

  /** After the first exception no later stage is given a value. */
  lemma {:induction false} ExceptionsPersist<V, E>(first: Outcome<V, E>, stages: seq<Stage<V, E>>, i: nat, j: nat)
    requires i <= j <= |stages| && Fold(first, stages[..i]).Threw?
    ensures Fold(first, stages[..j]) == Fold(first, stages[..i])
    decreases j
  {
    if i < j {
      ExceptionsPersist(first, stages, i, j - 1);
      assert stages[..j][..j - 1] == stages[..j - 1];
    }
  }

  /** The bodies that run are an initial segment of the chain. */
  lemma {:induction false} BodiesAreAPrefix<V, E>(first: Outcome<V, E>, stages: seq<Stage<V, E>>, i: nat)
    requires 1 <= i <= |stages|
    ensures Fold(first, stages[..i - 1]).Value? <==> i < Bodies(first, stages)
    ensures 1 <= Bodies(first, stages) <= |stages| + 1
    decreases |stages|
  {
    var n := |stages|;
    var init := stages[..n - 1];
    assert Bodies(first, stages) == Bodies(first, init) + (if Fold(first, init).Value? then 1 else 0);
    if i < n {
      BodiesAreAPrefix(first, init, i);
      assert init[..i - 1] == stages[..i - 1];
      if Fold(first, init).Value? && Fold(first, stages[..i - 1]).Threw? {
        ExceptionsPersist(first, stages, i - 1, n - 1);
      }
    } else if n > 1 {
      BodiesAreAPrefix(first, init, n - 1);
      assert init[..n - 2] == stages[..n - 2];
      if Fold(first, stages[..n - 2]).Threw? {
        ExceptionsPersist(first, stages, n - 2, n - 1);
      }
    }
  }

  // ---------------------------------------------------------------- execution order

  /** The entries of `log` that belong to `tickets`, in order. */
  function Only(log: seq<nat>, tickets: seq<nat>): seq<nat> {
    if log == [] then []
    else Only(log[..|log| - 1], tickets) + (if log[|log| - 1] in tickets then [log[|log| - 1]] else [])
  }

  lemma OnlyNext(log: seq<nat>, k: nat, tickets: seq<nat>)
    requires 0 < k <= |log|
    ensures Only(log[..k], tickets)
         == Only(log[..k - 1], tickets) + (if log[k - 1] in tickets then [log[k - 1]] else [])
  {
    assert log[..k][..k - 1] == log[..k - 1];
  }

  lemma {:induction false} OnlyKeepsMembers(log: seq<nat>, tickets: seq<nat>, t: nat)
    ensures t in Only(log, tickets) <==> t in log && t in tickets
  {
    if log != [] {
      OnlyKeepsMembers(log[..|log| - 1], tickets, t);
      assert log == log[..|log| - 1] + [log[|log| - 1]];
    }
  }

  lemma {:induction false} TicketsIncrease<V, E>(tasks: seq<Task<V, E>>, first: Outcome<V, E>,
                                                 stages: seq<Stage<V, E>>, tickets: seq<nat>, i: nat, j: nat)
    requires Linked(tasks) && IsChain(tasks, first, stages, tickets) && i < j < |tickets|
    ensures tickets[i] < tickets[j]
    decreases j
  {
    assert tasks[tickets[j]] == Then(tickets[j - 1], stages[j - 1]);
    if i < j - 1 { TicketsIncrease(tasks, first, stages, tickets, i, j - 1); }
  }

  lemma TicketsDistinct<V, E>(tasks: seq<Task<V, E>>, first: Outcome<V, E>, stages: seq<Stage<V, E>>,
                              tickets: seq<nat>, i: nat, j: nat)
    requires Linked(tasks) && IsChain(tasks, first, stages, tickets) && i < |tickets| && j < |tickets|
    ensures tickets[i] == tickets[j] ==> i == j
  {
    if i < j { TicketsIncrease(tasks, first, stages, tickets, i, j); }
    if j < i { TicketsIncrease(tasks, first, stages, tickets, j, i); }
  }

  /** In every prefix of the history of entered bodies, the chain's entries are a prefix of the
      chain. */
  lemma EnteredInChainOrder<V, E>(s: State<V, E>, first: Outcome<V, E>, stages: seq<Stage<V, E>>,
                                  tickets: seq<nat>, k: nat)
    returns (c: nat)
    requires Inv(s) && IsChain(s.accepted, first, stages, tickets) && k <= |s.entered|
    ensures c <= |tickets| && Only(s.entered[..k], tickets) == tickets[..c]
  {
    assert Linked(s.accepted);
    forall m | 0 <= m < |s.entered|
      ensures InTurn(tickets, s.entered[..m], s.entered[m])
    {
      EnteredInTurn(s, first, stages, tickets, m);
    }
    c := PrefixInOrder(s.accepted, first, stages, tickets, s.entered, k);
  }

  lemma {:induction false} PrefixInOrder<V, E>(tasks: seq<Task<V, E>>, first: Outcome<V, E>, stages: seq<Stage<V, E>>,
                                               tickets: seq<nat>, log: seq<nat>, k: nat)
    returns (c: nat)
    requires Linked(tasks) && IsChain(tasks, first, stages, tickets) && k <= |log|
    requires forall m :: 0 <= m < |log| ==> InTurn(tickets, log[..m], log[m])
    ensures c <= |tickets| && Only(log[..k], tickets) == tickets[..c]
    decreases k
  {
    if k == 0 {
      c := 0;
    } else {
      c := PrefixInOrder(tasks, first, stages, tickets, log, k - 1);
      OnlyNext(log, k, tickets);
      if log[k - 1] in tickets {
        NextIsEntered(tasks, first, stages, tickets, log[..k - 1], log[k - 1], c);
        c := c + 1;
      }
    }
  }

  /** Entry `t` comes after its predecessor in the chain, and for the first time. */
  ghost predicate InTurn(tickets: seq<nat>, before: seq<nat>, t: nat) {
    t !in before && forall i :: 0 < i < |tickets| && tickets[i] == t ==> tickets[i - 1] in before
  }

  lemma EnteredInTurn<V, E>(s: State<V, E>, first: Outcome<V, E>, stages: seq<Stage<V, E>>, tickets: seq<nat>, k: nat)
    requires Inv(s) && IsChain(s.accepted, first, stages, tickets) && k < |s.entered|
    ensures Linked(s.accepted) && InTurn(tickets, s.entered[..k], s.entered[k])
  {
    EnteredOnce(s, k);
    forall i | 0 < i < |tickets| && tickets[i] == s.entered[k]
      ensures tickets[i - 1] in s.entered[..k]
    {
      PredecessorEntered(s, first, stages, tickets, k, i);
    }
  }

  lemma NextIsEntered<V, E>(tasks: seq<Task<V, E>>, first: Outcome<V, E>, stages: seq<Stage<V, E>>,
                            tickets: seq<nat>, before: seq<nat>, t: nat, c: nat)
    requires Linked(tasks) && IsChain(tasks, first, stages, tickets)
    requires c <= |tickets| && Only(before, tickets) == tickets[..c]
    requires t in tickets && InTurn(tickets, before, t)
    ensures c < |tickets| && tickets[..c + 1] == tickets[..c] + [t]
  {
    var i: nat :| i < |tickets| && tickets[i] == t;
    NextTicket(tasks, first, stages, tickets, before, c, i);
  }

  lemma NextTicket<V, E>(tasks: seq<Task<V, E>>, first: Outcome<V, E>, stages: seq<Stage<V, E>>, tickets: seq<nat>,
                         before: seq<nat>, c: nat, i: nat)
    requires Linked(tasks) && IsChain(tasks, first, stages, tickets)
    requires c <= |tickets| && Only(before, tickets) == tickets[..c]
    requires i < |tickets| && tickets[i] !in before && (i > 0 ==> tickets[i - 1] in before)
    ensures i == c
  {
    OnlyKeepsMembers(before, tickets, tickets[i]);
    if i > 0 { OnlyKeepsMembers(before, tickets, tickets[i - 1]); }
    NextInChain(tasks, first, stages, tickets, c, i);
  }

  lemma PrefixMember(tickets: seq<nat>, c: nat, i: nat)
    requires c <= |tickets| && i < |tickets|
    ensures i < c ==> tickets[i] in tickets[..c]
  {
    if i < c { assert tickets[..c][i] == tickets[i]; }
  }

  lemma PredecessorEntered<V, E>(s: State<V, E>, first: Outcome<V, E>, stages: seq<Stage<V, E>>,
                                 tickets: seq<nat>, k: nat, i: nat)
    requires Inv(s) && IsChain(s.accepted, first, stages, tickets)
    requires k < |s.entered| && 0 < i < |tickets| && s.entered[k] == tickets[i]
    ensures tickets[i - 1] in s.entered[..k]
  {
    assert s.accepted[tickets[i]] == Then(tickets[i - 1], stages[i - 1]);
  }

  lemma EnteredOnce<V, E>(s: State<V, E>, k: nat)
    requires Inv(s) && k < |s.entered|
    ensures s.entered[k] !in s.entered[..k]
  {
  }

  /** A ticket of the chain that is not among the first `c`, while its predecessor is, is the next. */
  lemma NextInChain<V, E>(tasks: seq<Task<V, E>>, first: Outcome<V, E>, stages: seq<Stage<V, E>>, tickets: seq<nat>,
                          c: nat, i: nat)
    requires Linked(tasks) && IsChain(tasks, first, stages, tickets)
    requires c <= |tickets| && i < |tickets| && tickets[i] !in tickets[..c]
    requires i > 0 ==> tickets[i - 1] in tickets[..c]
    ensures i == c
  {
    PrefixMember(tickets, c, i);
    if i > 0 {
      var j: nat :| j < c && tickets[j] == tickets[i - 1];
      TicketsDistinct(tasks, first, stages, tickets, i - 1, j);
    }
  }

  // ---------------------------------------------------------------- the chain theorem

  /** A finished chain has finished from its start. */
  lemma {:induction false} ChainFinished<V, E>(s: State<V, E>, first: Outcome<V, E>, stages: seq<Stage<V, E>>,
                                               tickets: seq<nat>, i: nat)
    requires Inv(s) && IsChain(s.accepted, first, stages, tickets) && i < |tickets|
    requires s.futures[tickets[|tickets| - 1]].Some?
    ensures s.futures[tickets[i]].Some?
    decreases |tickets| - i
  {
    if i + 1 < |tickets| {
      ChainFinished(s, first, stages, tickets, i + 1);
      assert AfterPredecessor(s, tickets[i + 1]);
      assert s.accepted[tickets[i + 1]] == Then(tickets[i], stages[i]);
    }
  }

  lemma FinishedChain<V, E>(s: State<V, E>, first: Outcome<V, E>, stages: seq<Stage<V, E>>, tickets: seq<nat>)
    requires Inv(s) && IsChain(s.accepted, first, stages, tickets) && s.futures[tickets[|tickets| - 1]].Some?
    ensures s.futures[tickets[|tickets| - 1]].value == Fold(first, stages)
  {
    var last := |tickets| - 1;
    assert Linked(s.accepted);
    ChainMeaning(s.accepted, first, stages, tickets, last);
    assert stages[..last] == stages;
  }

  lemma FinishedChainBodies<V, E>(s: State<V, E>, first: Outcome<V, E>, stages: seq<Stage<V, E>>, tickets: seq<nat>)
    requires Inv(s) && IsChain(s.accepted, first, stages, tickets) && s.futures[tickets[|tickets| - 1]].Some?
    ensures 1 <= Bodies(first, stages) <= |tickets|
    ensures Only(s.entered, tickets) == tickets[..Bodies(first, stages)]
  {
    var c := EnteredInChainOrder(s, first, stages, tickets, |s.entered|);
    assert s.entered[..|s.entered|] == s.entered;
    BodiesInRange(first, stages);
    if c < |tickets| { EnteredIffItRuns(s, first, stages, tickets, c, c); }
    if Bodies(first, stages) < |tickets| { EnteredIffItRuns(s, first, stages, tickets, c, Bodies(first, stages)); }
  }

  /** Schedule independence. In any run of a pool of any size in which the last task of a chain
      has finished, its future holds the fold of the stages, and exactly the bodies before the
      first exception were entered, once each and in chain order. */
  lemma ChainResult<V, E>(n: nat, actions: seq<Action<V, E>>, first: Outcome<V, E>, stages: seq<Stage<V, E>>,
                          tickets: seq<nat>)
    requires Legal(Initial<V, E>(n), actions)
    requires var s := Exec(Initial<V, E>(n), actions);
             IsChain(s.accepted, first, stages, tickets) && s.futures[tickets[|tickets| - 1]].Some?
    ensures var s := Exec(Initial<V, E>(n), actions);
            && s.futures[tickets[|tickets| - 1]].value == Fold(first, stages)
            && 1 <= Bodies(first, stages) <= |tickets|
            && Only(s.entered, tickets) == tickets[..Bodies(first, stages)]
  {
    Reached(n, actions);
    FinishedChain(Exec(Initial<V, E>(n), actions), first, stages, tickets);
    FinishedChainBodies(Exec(Initial<V, E>(n), actions), first, stages, tickets);
  }

  lemma BodiesInRange<V, E>(first: Outcome<V, E>, stages: seq<Stage<V, E>>)
    ensures 1 <= Bodies(first, stages) <= |stages| + 1
  {
    if |stages| > 0 { BodiesAreAPrefix(first, stages, 1); }
  }

  lemma RunsIffBeforeThrow<V, E>(tasks: seq<Task<V, E>>, first: Outcome<V, E>, stages: seq<Stage<V, E>>,
                                 tickets: seq<nat>, i: nat)
    requires Linked(tasks) && IsChain(tasks, first, stages, tickets) && i < |tickets|
    ensures BodyRuns(tasks, tickets[i]) <==> i < Bodies(first, stages)
  {
    BodiesInRange(first, stages);
    ChainMeaning(tasks, first, stages, tickets, i);
    if i > 0 { BodiesAreAPrefix(first, stages, i); }
  }

  lemma EnteredIffItRuns<V, E>(s: State<V, E>, first: Outcome<V, E>, stages: seq<Stage<V, E>>,
                               tickets: seq<nat>, c: nat, i: nat)
    requires Inv(s) && IsChain(s.accepted, first, stages, tickets) && i < |tickets|
    requires s.futures[tickets[|tickets| - 1]].Some?
    requires c <= |tickets| && Only(s.entered, tickets) == tickets[..c]
    ensures i < c <==> i < Bodies(first, stages)
  {
    InPrefix(s, first, stages, tickets, c, i);
    ChainFinished(s, first, stages, tickets, i);
    EnteredIffBodyRuns(s, tickets[i]);
    RunsIffBeforeThrow(s.accepted, first, stages, tickets, i);
  }

  lemma EnteredIffBodyRuns<V, E>(s: State<V, E>, t: nat)
    requires Inv(s) && t < |s.futures| && s.futures[t].Some?
    ensures t in s.entered <==> BodyRuns(s.accepted, t)
  {
    if t in s.entered { assert EnteredOk(s, t); }
  }

  lemma InPrefix<V, E>(s: State<V, E>, first: Outcome<V, E>, stages: seq<Stage<V, E>>, tickets: seq<nat>,
                       c: nat, i: nat)
    requires Inv(s) && IsChain(s.accepted, first, stages, tickets) && i < |tickets|
    requires c <= |tickets| && Only(s.entered, tickets) == tickets[..c]
    ensures i < c <==> tickets[i] in s.entered
  {
    OnlyKeepsMembers(s.entered, tickets, tickets[i]);
    PrefixMember(tickets, c, i);
    if tickets[i] in tickets[..c] {
      var j: nat :| j < c && tickets[j] == tickets[i];
      TicketsDistinct(s.accepted, first, stages, tickets, i, j);
    }
  }
}
