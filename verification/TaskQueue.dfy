/** `TaskQueue`: a FIFO queue under a mutex with a shutdown flag. Every method is one critical
    section. */
module TaskQueues {
  import opened Outcomes

  class TaskQueue<X> {
    var tasks: seq<X>
    var shutdown: bool

    constructor ()
      ensures tasks == [] && !shutdown
    {
      tasks, shutdown := [], false;
    }

    /** Refused, without any effect, once the queue has been shut down. */
    method Push(task: X) returns (accepted: bool)
      modifies this
      ensures accepted == !old(shutdown) && shutdown == old(shutdown)
      ensures tasks == if accepted then old(tasks) + [task] else old(tasks)
      ensures accepted ==> forall b :: Awake(b)
    {
      if shutdown { return false; }
      tasks := tasks + [task];
      accepted := true;
    }

    /** The oldest task, or nothing. */
    method TryPop() returns (task: Option<X>)
      modifies this
      ensures shutdown == old(shutdown)
      ensures old(tasks) == [] ==> task == None && tasks == []
      ensures old(tasks) != [] ==> task == Some(old(tasks)[0]) && tasks == old(tasks)[1..]
    {
      if tasks == [] { return None; }
      task := Some(tasks[0]);
      tasks := tasks[1..];
    }

    /** What `cv_.wait(lock, stoken, pred)` waits for. */
    predicate Awake(stopRequested: bool)
      reads this
    {
      tasks != [] || shutdown || stopRequested
    }

    /** `wait_and_pop` from the moment its wait ends. The wait returns its predicate's value, so
        a task is taken even when it was a stop request that ended it. */
    method WaitAndPop(stopRequested: bool) returns (task: Option<X>)
      requires Awake(stopRequested)
      modifies this
      ensures shutdown == old(shutdown)
      ensures old(tasks) == [] ==> task == None && tasks == []
      ensures old(tasks) != [] ==> task == Some(old(tasks)[0]) && tasks == old(tasks)[1..]
    {
      var gotWork := tasks != [] || shutdown;
      if !gotWork || tasks == [] { return None; }
      task := Some(tasks[0]);
      tasks := tasks[1..];
    }

    method Shutdown()
      modifies this
      ensures shutdown && tasks == old(tasks)
      ensures forall b :: Awake(b)
    {
      shutdown := true;
    }
  }
}
