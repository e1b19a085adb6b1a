/** The asynchronous logger as a step system: any number of threads log and flush, one drain
    thread swaps batches out under the lock and feeds them to the sink outside it. */
module LoggerProtocol {

  datatype Level = Trace | Debug | Info | Warn | Error | Fatal
  {
    function Rank(): nat {
      match this
      case Trace => 0
      case Debug => 1
      case Info => 2
      case Warn => 3
      case Error => 4
      case Fatal => 5
    }
  }

  /** An entry of level `level` passes the threshold: it is not below it in the order Trace, Debug,
      Info, Warn, Error, Fatal. */
  predicate Admits(threshold: Level, level: Level) {
    match threshold
    case Trace => true
    case Debug => !level.Trace?
    case Info => !level.Trace? && !level.Debug?
    case Warn => level.Warn? || level.Error? || level.Fatal?
    case Error => level.Error? || level.Fatal?
    case Fatal => level.Fatal?
  }

  datatype Entry<M> = Entry(level: Level, message: M)

  datatype Client<M> =
    | Idle
    | Passed(entry: Entry<M>)   // in log(): above the threshold; next: push under the lock
    | Flushing(target: nat)     // in flush(): waiting for flush_gen_done_ >= target

  datatype Drain<M> =
    | TestRunning
    | TestQueue
    | Collect                              // in wait_for, which may time out at any moment
    | Sinking(rest: seq<Entry<M>>, target: nat)  // batch entries still to sink; then signal
    | Exited

  /** The destructor: flush, then clear `running_`, then join. */
  datatype Closing = Open | CloserFlushing(target: nat) | Joining

  /** `sunk` is what the sink was given; `accepted` (the pushes in lock order) and `marks` (for
      each flush generation, how many pushes preceded it) are history. */
  datatype State<M> = State(
    minLevel: Level,
    queue: seq<Entry<M>>,
    pending: nat,      // flush_gen_pending_
    done: nat,         // flush_gen_done_
    running: bool,
    drain: Drain<M>,
    clients: seq<Client<M>>,
    closing: Closing,
    sunk: seq<Entry<M>>,
    accepted: seq<Entry<M>>,
    marks: seq<nat>)

  datatype Action<M> =
    | Log(client: nat, entry: Entry<M>)   // call log(): the level test
    | Push(client: nat)
    | Flush(client: nat)                  // call flush(): take a generation
    | FlushReturn(client: nat)
    | SetLevel(level: Level)
    | DrainStep
    | Close                               // ~Logger: its flush takes a generation
    | Stop                                // ... has waited; clears running_

  /** Logging and flushing while the destructor runs is outside the logger's contract. */
  predicate Enabled<M>(s: State<M>, a: Action<M>) {
    match a
    case Log(c, _) => c < |s.clients| && s.clients[c].Idle? && s.closing.Open?
    case Push(c) => c < |s.clients| && s.clients[c].Passed?
    case Flush(c) => c < |s.clients| && s.clients[c].Idle? && s.closing.Open?
    case FlushReturn(c) => c < |s.clients| && s.clients[c].Flushing? && s.done >= s.clients[c].target
    case SetLevel(_) => true
    case DrainStep => !s.drain.Exited?
    case Close => s.closing.Open? && forall c :: 0 <= c < |s.clients| ==> s.clients[c].Idle?
    case Stop => s.closing.CloserFlushing? && s.done >= s.closing.target
  }

  function SetClient<M>(s: State<M>, c: nat, pc: Client<M>): State<M>
    requires c < |s.clients|
  {
    s.(clients := s.clients[c := pc])
  }

  /** One step of `drain_loop`. */
  function Drained<M>(s: State<M>): State<M> {
    match s.drain
    case TestRunning => s.(drain := if s.running then Collect else TestQueue)
    case TestQueue => s.(drain := if s.queue == [] then Exited else Collect)
    case Collect => s.(drain := Sinking(s.queue, s.pending), queue := [])
    case Sinking(rest, target) =>
      if rest != [] then s.(drain := Sinking(rest[1..], target), sunk := s.sunk + [rest[0]])
      else s.(drain := TestRunning, done := target)
    case Exited => s
  }

  function TakeGeneration<M>(s: State<M>): State<M> {
    s.(pending := s.pending + 1, marks := s.marks + [|s.accepted|])
  }

  function Next<M>(s: State<M>, a: Action<M>): (s': State<M>)
    requires Enabled(s, a)
    ensures |s'.clients| == |s.clients|
  {
    match a
    case Log(c, entry) => if entry.level.Rank() < s.minLevel.Rank() then s else SetClient(s, c, Passed(entry))
    case Push(c) =>
      var entry := s.clients[c].entry;
      SetClient(s, c, Idle).(queue := s.queue + [entry], accepted := s.accepted + [entry])
    case Flush(c) => SetClient(TakeGeneration(s), c, Flushing(s.pending + 1))
    case FlushReturn(c) => SetClient(s, c, Idle)
    case SetLevel(level) => s.(minLevel := level)
    case DrainStep => Drained(s)
    case Close => TakeGeneration(s).(closing := CloserFlushing(s.pending + 1))
    case Stop => s.(running := false, closing := Joining)
  }

  function Initial<M>(minLevel: Level, n: nat): State<M> {
    State(minLevel, [], 0, 0, true, TestRunning, seq(n, _ => Idle), Open, [], [], [])
  }

  predicate Legal<M>(s: State<M>, actions: seq<Action<M>>)
    decreases |actions|
  {
    actions == [] || (Enabled(s, actions[0]) && Legal(Next(s, actions[0]), actions[1..]))
  }

  function Exec<M>(s: State<M>, actions: seq<Action<M>>): (s': State<M>)
    requires Legal(s, actions)
    ensures |s'.clients| == |s.clients|
    decreases |actions|
  {
    if actions == [] then s else Exec(Next(s, actions[0]), actions[1..])
  }

  lemma {:induction false} RunsCompose<M>(s: State<M>, a: seq<Action<M>>, b: seq<Action<M>>)
    requires Legal(s, a) && Legal(Exec(s, a), b)
    ensures Legal(s, a + b) && Exec(s, a + b) == Exec(Exec(s, a), b)
    decreases |a|
  {
    if a == [] {
      assert a + b == b;
    } else {
      assert (a + b)[0] == a[0] && (a + b)[1..] == a[1..] + b;
      RunsCompose(Next(s, a[0]), a[1..], b);
    }
  }

  lemma OneMore<M>(s: State<M>, log: seq<Action<M>>, a: Action<M>)
    requires Legal(s, log) && Enabled(Exec(s, log), a)
    ensures Legal(s, log + [a]) && Exec(s, log + [a]) == Next(Exec(s, log), a)
  {
    RunsCompose(s, log, [a]);
  }
}
