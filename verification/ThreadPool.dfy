/** The thread pool object: every method is what one thread does under the mutex. */
module ThreadPool {
  import opened PoolMachine
  import opened PoolSafety

  /** `Thread_Pool`, with the states its threads are in. Every method is one
      critical section; `started` numbers the jobs the workers hold. */
  class ThreadPool {
    var workers: seq<Worker>
    var waiters: seq<Waiter>
    var queue: seq<Job>
    var queued: int
    var active: int
    var stop: bool
    var started: seq<Job>
    ghost var accepted: seq<Job>
    ghost var finished: set<nat>

    ghost function Now(): Pool
      reads this
    {
      Pool(workers, waiters, queue, queued, active, stop, accepted, started, finished)
    }

    /** `thread_pool_init`, once its workers are up. */
    constructor (n: nat, m: nat)
      ensures Now() == Init(n, m) && Inv(Now())
    {
      workers, waiters := seq(n, i => Ready), seq(m, i => Outside);
      queue, queued, active, stop := [], 0, 0, false;
      accepted, started, finished := [], [], {};
      new;
      InitInv(n, m);
    }

    method SignalWork(wake: nat)
      modifies this`workers
      ensures workers == Signal(old(workers), wake)
    {
      if wake < |workers| && workers[wake].Asleep? {
        workers := workers[wake := Ready];
      }
    }

    method SignalIdleWaiter(wake: nat)
      modifies this`waiters
      ensures waiters == SignalIdle(old(waiters), wake)
    {
      if wake < |waiters| && waiters[wake].Blocked? {
        waiters := waiters[wake := Testing];
      }
    }

    /** `worker_loop`, from the lock to the job, the wait, or the exit. */
    method WorkerEnters(w: nat)
      requires Inv(Now()) && Enabled(Now(), Take(w))
      modifies this
      ensures Inv(Now()) && Now() == Apply(old(Now()), Take(w))
    {
      TakeInv(Now(), w);
      if queue == [] && !stop {
        workers := workers[w := Asleep];
      } else if queue == [] {
        workers := workers[w := Gone];
      } else {
        workers := workers[w := Busy(|started|)];
        started := started + [queue[0]];
        queue := queue[1..];
        queued := queued - 1;
        active := active + 1;
      }
    }

    /** `worker_loop`, after the job's function returned. */
    method WorkerFinishes(w: nat, wake: nat)
      requires Inv(Now()) && Enabled(Now(), Finish(w, wake))
      modifies this
      ensures Inv(Now()) && Now() == Apply(old(Now()), Finish(w, wake))
    {
      FinishInv(Now(), w, wake);
      finished := finished + {workers[w].ticket};
      workers := workers[w := Ready];
      active := active - 1;
      if queued == 0 && active == 0 {
        SignalIdleWaiter(wake);
      }
    }

    /** `thread_pool_submit`. */
    method AddJob(job: Job, wake: nat) returns (rc: int)
      requires Inv(Now()) && Enabled(Now(), Submit(job, wake))
      modifies this
      ensures Inv(Now()) && Now() == Apply(old(Now()), Submit(job, wake))
      ensures rc == if old(stop) then -1 else 0
    {
      SubmitInv(Now(), job, wake);
      if stop {
        return -1;
      }
      queue := queue + [job];
      queued := queued + 1;
      accepted := accepted + [job];
      SignalWork(wake);
      rc := 0;
    }

    /** The test in `thread_pool_wait`; true lets the caller go. */
    method WaitTest(v: nat) returns (done: bool)
      requires Inv(Now()) && Enabled(Now(), Test(v))
      modifies this
      ensures Inv(Now()) && Now() == Apply(old(Now()), Test(v))
      ensures done ==> forall t: nat :: t < |accepted| ==> t in finished
    {
      IdleInv(Now(), Test(v));
      done := !(queued > 0 || active > 0);
      if done {
        WaitMeansDone(Now(), v);
      }
      waiters := waiters[v := if done then Outside else Blocked];
    }

    /** `cond_broadcast(&work)`. */
    method WakeAll()
      modifies this`workers
      ensures workers == Broadcast(old(workers))
    {
      var i := 0;
      while i < |workers|
        invariant i <= |workers| == |old(workers)|
        invariant forall j :: 0 <= j < |workers| ==>
                    workers[j] == if j < i then Broadcast(old(workers))[j] else old(workers)[j]
      {
        if workers[i].Asleep? {
          workers := workers[i := Ready];
        }
        i := i + 1;
      }
    }

    /** `thread_pool_free`, up to joining the workers. */
    method Shutdown()
      requires Inv(Now())
      modifies this
      ensures Inv(Now()) && Now() == Apply(old(Now()), Stop)
    {
      StopInv(Now());
      stop := true;
      WakeAll();
    }
  }
}
