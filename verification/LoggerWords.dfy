/** The logger's generation counters as the 64-bit words they are. Until the counter wraps, after
    2^64 flushes, the logger takes exactly the steps of the unbounded protocol; then it does not. */
module LoggerWords {
  import opened Words
  import opened LoggerProtocol
  import opened LoggerTheorems

  /** `++flush_gen_pending_`. */
  function WordGeneration<M>(s: State<M>): State<M> {
    s.(pending := Wrap(s.pending + 1), marks := s.marks + [|s.accepted|])
  }

  function WordNext<M>(s: State<M>, a: Action<M>): State<M>
    requires Enabled(s, a)
  {
    match a
    case Flush(c) => SetClient(WordGeneration(s), c, Flushing(Wrap(s.pending + 1)))
    case Close => WordGeneration(s).(closing := CloserFlushing(Wrap(s.pending + 1)))
    case _ => Next(s, a)
  }

  predicate WordLegal<M>(s: State<M>, actions: seq<Action<M>>)
    decreases |actions|
  {
    actions == [] || (Enabled(s, actions[0]) && WordLegal(WordNext(s, actions[0]), actions[1..]))
  }

  function WordExec<M>(s: State<M>, actions: seq<Action<M>>): State<M>
    requires WordLegal(s, actions)
    decreases |actions|
  {
    if actions == [] then s else WordExec(WordNext(s, actions[0]), actions[1..])
  }

  lemma WordStepRefines<M>(s: State<M>, a: Action<M>)
    requires Enabled(s, a) && Next(s, a).pending < WORD
    ensures WordNext(s, a) == Next(s, a)
  {
  }

  /** Fixed-width refinement: every run that takes fewer than 2^64 generations is the protocol's. */
  lemma {:induction false} WordRunRefines<M>(s: State<M>, actions: seq<Action<M>>)
    requires Inv(s) && Legal(s, actions) && Exec(s, actions).pending < WORD
    ensures WordLegal(s, actions) && WordExec(s, actions) == Exec(s, actions)
    decreases |actions|
  {
    if actions != [] {
      StepKeepsInv(s, actions[0]);
      RunIsMonotone(Next(s, actions[0]), actions[1..]);
      WordStepRefines(s, actions[0]);
      WordRunRefines(Next(s, actions[0]), actions[1..]);
    }
  }

  /** So the flush guarantee holds for the 64-bit logger in every such run. */
  lemma WordFlushGuarantee<M>(level: Level, n: nat, before: seq<Action<M>>, c: nat, after: seq<Action<M>>)
    requires Legal(Initial<M>(level, n), before)
    requires var s0 := Exec(Initial<M>(level, n), before);
             && Enabled(s0, Flush(c))
             && var s1 := Next(s0, Action<M>.Flush(c));
                Legal(s1, after) && StaysInFlush(c, after) && Exec(s1, after).pending < WORD
    ensures var s0 := Exec(Initial<M>(level, n), before);
            && WordLegal(Initial<M>(level, n), before) && WordExec(Initial<M>(level, n), before) == s0
            && WordLegal(WordNext(s0, Action<M>.Flush(c)), after)
            && var s2 := WordExec(WordNext(s0, Action<M>.Flush(c)), after);
               Enabled(s2, FlushReturn(c)) ==> s0.accepted <= s2.sunk
  {
    var s0 := Exec(Initial<M>(level, n), before);
    RunKeepsInv(Initial<M>(level, n), before);
    WordFlushCovers(s0, c, after);
    WordRunRefines(Initial<M>(level, n), before);
  }

  lemma WordFlushCovers<M>(s0: State<M>, c: nat, after: seq<Action<M>>)
    requires Inv(s0) && Enabled(s0, Flush(c))
    requires var s1 := Next(s0, Action<M>.Flush(c));
             Legal(s1, after) && StaysInFlush(c, after) && Exec(s1, after).pending < WORD
    ensures s0.pending < WORD && WordLegal(WordNext(s0, Action<M>.Flush(c)), after)
    ensures var s2 := WordExec(WordNext(s0, Action<M>.Flush(c)), after);
            Enabled(s2, FlushReturn(c)) ==> s0.accepted <= s2.sunk
  {
    var s1 := Next(s0, Action<M>.Flush(c));
    StepKeepsInv(s0, Action<M>.Flush(c));
    RunIsMonotone(s1, after);
    WordStepRefines(s0, Action<M>.Flush(c));
    WordRunRefines(s1, after);
    FlushCovers(s0, c, after);
  }

  /** Whether `flush_gen_done_ >= target` on words is right, for generations less than 2^64 apart:
      exactly if the counter has not wrapped between them. */
  lemma GenerationsCompareExactly(done: nat, target: nat)
    requires done < target + WORD && target < done + WORD
    ensures (Wrap(done) >= Wrap(target) <==> done >= target) <==> done / WORD == target / WORD
  {
    Laps(done);
    Laps(target);
    assert done / WORD < target / WORD ==> target / WORD == done / WORD + 1;
    assert target / WORD < done / WORD ==> done / WORD == target / WORD + 1;
  }

  lemma Laps(x: nat)
    ensures x == WORD * (x / WORD) + Wrap(x)
  {
  }

  // ---------------------------------------------------------------- runs of any length

  function EraseClient<M>(c: Client<M>): Client<M> {
    match c
    case Flushing(target) => Flushing(Wrap(target))
    case _ => c
  }

  function EraseDrain<M>(d: Drain<M>): Drain<M> {
    match d
    case Sinking(rest, target) => Sinking(rest, Wrap(target))
    case _ => d
  }

  function EraseClosing(c: Closing): Closing {
    match c
    case CloserFlushing(target) => CloserFlushing(Wrap(target))
    case _ => c
  }

  /** The 64-bit state of which `s` is the shadow with unbounded generations. */
  function Erase<M>(s: State<M>): State<M> {
    s.(pending := Wrap(s.pending), done := Wrap(s.done), drain := EraseDrain(s.drain),
       clients := seq(|s.clients|, i requires 0 <= i < |s.clients| => EraseClient(s.clients[i])),
       closing := EraseClosing(s.closing))
  }

  /** The shadow of a 64-bit step. It is the words that decide which steps are possible. */
  function ShadowNext<M>(s: State<M>, a: Action<M>): State<M>
    requires Enabled(Erase(s), a)
  {
    match a
    case FlushReturn(c) => SetClient(s, c, Idle)
    case Close => TakeGeneration(s).(closing := CloserFlushing(s.pending + 1))
    case Stop => s.(running := false, closing := Joining)
    case _ => Next(s, a)
  }

  lemma EraseSetClient<M>(s: State<M>, c: nat, pc: Client<M>)
    requires c < |s.clients|
    ensures Erase(SetClient(s, c, pc)) == SetClient(Erase(s), c, EraseClient(pc))
  {
    assert Erase(SetClient(s, c, pc)).clients == Erase(s).clients[c := EraseClient(pc)];
  }

  lemma ShadowStep<M>(s: State<M>, a: Action<M>)
    requires Enabled(Erase(s), a)
    ensures Erase(ShadowNext(s, a)) == WordNext(Erase(s), a)
  {
    match a {
      case Log(c, entry) => EraseSetClient(s, c, Passed(entry));
      case Push(c) => EraseSetClient(s, c, Idle);
      case Flush(c) =>
        ShadowGeneration(s);
        EraseSetClient(TakeGeneration(s), c, Flushing(s.pending + 1));
      case FlushReturn(c) => EraseSetClient(s, c, Idle);
      case DrainStep => ShadowDrain(s);
      case Close => ShadowGeneration(s);
      case Stop => assert Erase(ShadowNext(s, a)).clients == Erase(s).clients;
      case SetLevel(_) => assert Erase(ShadowNext(s, a)).clients == Erase(s).clients;
    }
  }

  lemma ShadowGeneration<M>(s: State<M>)
    ensures Erase(TakeGeneration(s)) == WordGeneration(Erase(s))
    ensures Wrap(Wrap(s.pending) + 1) == Wrap(s.pending + 1)
    ensures Erase(TakeGeneration(s).(closing := CloserFlushing(s.pending + 1)))
         == WordGeneration(Erase(s)).(closing := CloserFlushing(Wrap(s.pending + 1)))
  {
    WrapSteps(s.pending);
    assert Erase(TakeGeneration(s)).clients == Erase(s).clients;
  }

  lemma ShadowDrain<M>(s: State<M>)
    requires !s.drain.Exited?
    ensures Erase(Drained(s)) == Drained(Erase(s))
  {
    assert Erase(Drained(s)).clients == Erase(s).clients;
  }

  ghost function ShadowExec<M>(s: State<M>, actions: seq<Action<M>>): State<M>
    requires WordLegal(Erase(s), actions)
    decreases |actions|
  {
    if actions == [] then s
    else
      ShadowStep(s, actions[0]);
      ShadowExec(ShadowNext(s, actions[0]), actions[1..])
  }

  lemma ShadowStepKeeps<M>(s: State<M>, a: Action<M>)
    requires Conserved(s) && Generations(s) && Enabled(Erase(s), a)
    ensures Conserved(ShadowNext(s, a)) && Generations(ShadowNext(s, a))
  {
    match a {
      case DrainStep => DrainKeepsCounts(s);
      case Push(c) =>
        assert ShadowNext(s, a).accepted == s.sunk + Rest(s) + (s.queue + [s.clients[c].entry]);
      case _ =>
    }
  }

  /** Every run of the 64-bit logger has a shadow. */
  lemma {:induction false} WordRunHasShadow<M>(s: State<M>, actions: seq<Action<M>>)
    requires Conserved(s) && Generations(s) && WordLegal(Erase(s), actions)
    ensures var s' := ShadowExec(s, actions);
            WordExec(Erase(s), actions) == Erase(s') && Conserved(s') && Generations(s')
    decreases |actions|
  {
    if actions != [] {
      ShadowStep(s, actions[0]);
      ShadowStepKeeps(s, actions[0]);
      WordRunHasShadow(ShadowNext(s, actions[0]), actions[1..]);
    }
  }

  /** Two counts against their words. */
  lemma WordsMislead(done: nat, target: nat)
    ensures done < target && Wrap(done) >= Wrap(target)
       <==> done / WORD < target / WORD && Wrap(done) >= Wrap(target)
    ensures done >= target && Wrap(done) < Wrap(target)
       <==> done / WORD > target / WORD && Wrap(done) < Wrap(target)
  {
    Laps(done);
    Laps(target);
  }

  /** What a flush is worth in runs of any length. Let `s` be the shadow of a state that the 64-bit
      logger reaches, in which client `c` waits for generation T. If generation T is really done,
      everything accepted before the flush took it has been sunk. The flush may return although it
      is not done exactly if the counter wrapped between them and the words happen to compare that
      way; and it is held up although it is done exactly in the opposite case. */
  lemma WordFlushExactly<M>(level: Level, n: nat, actions: seq<Action<M>>, c: nat)
    requires WordLegal(Erase(Initial<M>(level, n)), actions)
    requires var s := ShadowExec(Initial<M>(level, n), actions); c < |s.clients| && s.clients[c].Flushing?
    ensures var s := ShadowExec(Initial<M>(level, n), actions);
            var w := WordExec(Erase(Initial<M>(level, n)), actions);
            var target := s.clients[c].target;
            && w == Erase(s) && 1 <= target <= |s.marks|
            && (s.done >= target ==>
                  s.marks[target - 1] <= |s.accepted| && s.accepted[..s.marks[target - 1]] <= s.sunk)
            && (Enabled(w, FlushReturn(c)) && s.done < target
                <==> s.done / WORD < target / WORD && Wrap(s.done) >= Wrap(target))
            && (!Enabled(w, FlushReturn(c)) && s.done >= target
                <==> s.done / WORD > target / WORD && Wrap(s.done) < Wrap(target))
  {
    WordRunHasShadow(Initial<M>(level, n), actions);
    var s := ShadowExec(Initial<M>(level, n), actions);
    WordsMislead(s.done, s.clients[c].target);
  }

  lemma InitialIsItsShadow<M>(level: Level, n: nat)
    ensures Erase(Initial<M>(level, n)) == Initial<M>(level, n)
  {
    assert Erase(Initial<M>(level, n)).clients == Initial<M>(level, n).clients;
  }

  // ---------------------------------------------------------------- after the wrap

  /** Between flushes, with `g` generations taken and served and nothing logged. */
  function Between(g: nat): State<int> {
    State(Info, [], g, g, true, TestRunning, [Idle], Open, [], [], seq(g, _ => 0))
  }

  /** One flush by client 0, served by one drain iteration. */
  lemma OneFlush(s: State<int>, log: seq<Action<int>>, g: nat) returns (longer: seq<Action<int>>)
    requires Legal(s, log) && Exec(s, log) == Between(g)
    ensures Legal(s, longer) && Exec(s, longer) == Between(g + 1)
  {
    OneMore(s, log, Flush(0));
    longer := log + [Flush(0)];
    assert seq(g, _ => 0) + [0] == seq(g + 1, _ => 0);
    longer := DrainOnce(s, longer);
    longer := DrainOnce(s, longer);
    longer := DrainOnce(s, longer);
    OneMore(s, longer, FlushReturn(0));
    longer := longer + [FlushReturn(0)];
    assert Exec(s, longer).clients == [Idle];
  }

  lemma DrainOnce(s: State<int>, log: seq<Action<int>>) returns (longer: seq<Action<int>>)
    requires Legal(s, log) && !Exec(s, log).drain.Exited?
    ensures Legal(s, longer) && Exec(s, longer) == Drained(Exec(s, log))
  {
    OneMore(s, log, DrainStep);
    longer := log + [DrainStep];
  }

  lemma {:induction false} FlushTo(g: nat) returns (log: seq<Action<int>>)
    ensures Legal(Initial<int>(Info, 1), log) && Exec(Initial<int>(Info, 1), log) == Between(g)
    decreases g
  {
    if g == 0 {
      log := [];
      assert Initial<int>(Info, 1) == Between(0);
    } else {
      log := FlushTo(g - 1);
      log := OneFlush(Initial<int>(Info, 1), log, g - 1);
    }
  }

  lemma {:induction false} WordRunsCompose<M>(s: State<M>, a: seq<Action<M>>, b: seq<Action<M>>)
    requires WordLegal(s, a) && WordLegal(WordExec(s, a), b)
    ensures WordLegal(s, a + b) && WordExec(s, a + b) == WordExec(WordExec(s, a), b)
    decreases |a|
  {
    if a == [] {
      assert a + b == b;
    } else {
      assert (a + b)[0] == a[0] && (a + b)[1..] == a[1..] + b;
      WordRunsCompose(WordNext(s, a[0]), a[1..], b);
    }
  }

  /** The guarantee is lost at the wrap: after 2^64 - 1 served flushes, an entry is logged and
      flushed, the flush takes generation 0, and it may return at once with nothing sunk. */
  lemma WrapBreaksFlush() returns (log: seq<Action<int>>)
    ensures WordLegal(Initial<int>(Info, 1), log)
    ensures var s := WordExec(Initial<int>(Info, 1), log);
            && s.accepted == [Entry(Info, 7)] && s.sunk == []
            && Enabled(s, Flush(0)) && Enabled(WordNext(s, Action<int>.Flush(0)), FlushReturn(0))
  {
    var s0 := Initial<int>(Info, 1);
    var before := FlushTo(WORD - 1);
    RunKeepsInv(s0, []);
    WordRunRefines(s0, before);
    var rest := LogOne(WORD - 1, Entry(Info, 7));
    WordRunsCompose(s0, before, rest);
    log := before + rest;
    assert Wrap(WORD) == 0;
  }

  lemma LogOne(g: nat, e: Entry<int>) returns (rest: seq<Action<int>>)
    requires e.level == Info
    ensures WordLegal(Between(g), rest)
    ensures WordExec(Between(g), rest) == Between(g).(queue := [e], accepted := [e])
  {
    var s := Between(g);
    var s1 := WordNext(s, Log(0, e));
    var s2 := WordNext(s1, Push(0));
    assert s2 == s.(queue := [e], accepted := [e]) by { assert s2.clients == [Idle]; }
    rest := [Action.Log(0, e), Push(0)];
    assert rest[1..] == [Push(0)] && rest[1..][1..] == [];
    assert WordLegal(s2, []) && WordLegal(s1, rest[1..]);
    assert WordExec(s2, []) == s2 && WordExec(s1, rest[1..]) == s2;
  }
}
