/** Stopping the thread pool, and how many waiting threads it serves. */
module PoolProgress {
  import opened PoolMachine
  import opened PoolSafety

  // ---------------------------------------------------------------------
  // Stopping
  // ---------------------------------------------------------------------

  function Drain(w: Worker): nat {
    match w
    case Ready => 1
    case Busy(_) => 2
    case _ => 0
  }

  /** The work a stopped pool still has to do. */
  function Remaining(p: Pool): nat {
    3 * |p.queue| + Sum(p.workers, Drain)
  }

  predicate ByWorker(s: Step) { s.Take? || s.Finish? }

  /** A pool that has been stopped never starts again, takes no job, and gets
      strictly closer to its end with every step of a worker. */
  lemma StoppedStep(p: Pool, s: Step)
    requires Inv(p) && p.stop && Enabled(p, s)
    ensures var r := Apply(p, s);
            && r.stop && r.accepted == p.accepted
            && (if ByWorker(s) then Remaining(r) < Remaining(p) else Remaining(r) == Remaining(p))
  {
    match s
    case Take(w) => SumUpdate(p.workers, w, Apply(p, s).workers[w], Drain);
    case Finish(w, wake) => SumUpdate(p.workers, w, Ready, Drain);
    case Stop => assert Broadcast(p.workers) == p.workers;
    case _ =>
  }

  function WorkerSteps(steps: seq<Step>): nat {
    if steps == [] then 0 else (if ByWorker(steps[0]) then 1 else 0) + WorkerSteps(steps[1..])
  }

  /** After stop no run has more worker steps than `Remaining` allows. */
  lemma {:induction false} StoppedRun(p: Pool, steps: seq<Step>)
    requires Inv(p) && p.stop && Legal(p, steps)
    ensures var r := Run(p, steps);
            Inv(r) && r.stop && r.accepted == p.accepted && Remaining(r) + WorkerSteps(steps) <= Remaining(p)
    decreases |steps|
  {
    if steps != [] {
      StepInv(p, steps[0]);
      StoppedStep(p, steps[0]);
      StoppedRun(Apply(p, steps[0]), steps[1..]);
    }
  }

  ghost predicate AllGone(p: Pool) {
    forall w :: 0 <= w < |p.workers| ==> p.workers[w].Gone?
  }

  /** Until every worker is gone some worker can move; once they are, everything
      accepted has been run. So joining the workers terminates, with nothing left
      to free in the queue. */
  lemma StoppedProgress(p: Pool)
    requires Inv(p) && p.stop && p.workers != []
    ensures !AllGone(p) ==> exists s :: ByWorker(s) && Enabled(p, s)
    ensures AllGone(p) ==> p.queue == [] && forall t: nat :: t < |p.accepted| ==> t in p.finished
  {
    if AllGone(p) {
      assert p.workers[0].Gone?;
      assert p.accepted == p.started;
    } else {
      var w :| 0 <= w < |p.workers| && !p.workers[w].Gone?;
      if p.workers[w].Ready? {
        assert Enabled(p, Take(w));
      } else {
        var wake := if exists v :: 0 <= v < |p.waiters| && p.waiters[v].Blocked?
                    then var v :| 0 <= v < |p.waiters| && p.waiters[v].Blocked?; v else 0;
        assert Enabled(p, Finish(w, wake)) && ByWorker(Finish(w, wake));
      }
    }
  }

  // ---------------------------------------------------------------------
  // How many waiters one signal serves
  // ---------------------------------------------------------------------

  /** Two callers in `thread_pool_wait` while one job runs. */
  function TwoWaiters(job: Job): seq<Step> {
    [Submit(job, 0), Take(0), Wait(0), Wait(1), Test(0), Test(1), Finish(0, 0)]
  }

  lemma TwoWaitersStrand(n: nat, m: nat, job: Job)
    requires n >= 1 && m >= 2
    ensures Legal(Init(n, m), TwoWaiters(job)) && Stranded(Run(Init(n, m), TwoWaiters(job)))
  {
    var s := TwoWaiters(job);
    var p0 := Init(n, m);
    var p1 := Enqueue(p0, job, 0);
    var p2 := TakeJob(p1, 0);
    var p3 := Apply(p2, Wait(0));
    var p4 := Apply(p3, Wait(1));
    var p5 := Apply(p4, Test(0));
    var p6 := Apply(p5, Test(1));
    assert p6.waiters[0].Blocked? && p6.waiters[1].Blocked? && p6.workers[0].Busy?;
    var p7 := FinishJob(p6, 0, 0);
    assert p7.queued == 0 && p7.active == 0 && p7.waiters[1].Blocked?;
    Unroll(p6, [Finish(0, 0)]);
    Unroll(p5, [Test(1), Finish(0, 0)]);
    Unroll(p4, [Test(0), Test(1), Finish(0, 0)]);
    Unroll(p3, [Wait(1), Test(0), Test(1), Finish(0, 0)]);
    Unroll(p2, [Wait(0), Wait(1), Test(0), Test(1), Finish(0, 0)]);
    Unroll(p1, [Take(0), Wait(0), Wait(1), Test(0), Test(1), Finish(0, 0)]);
    Unroll(p0, s);
  }

  lemma Unroll(p: Pool, steps: seq<Step>)
    requires steps != [] && Enabled(p, steps[0]) && Legal(Apply(p, steps[0]), steps[1..])
    ensures Legal(p, steps) && Run(p, steps) == Run(Apply(p, steps[0]), steps[1..])
  {
  }

  ghost predicate NeverStranded(p: Pool) {
    forall steps :: Legal(p, steps) ==> !Stranded(Run(p, steps))
  }

  /** Waiting never hangs on an idle pool exactly when at most one thread waits. */
  lemma OneWaiterOnly(n: nat, m: nat)
    requires n >= 1
    ensures NeverStranded(Init(n, m)) <==> m <= 1
  {
    if m <= 1 {
      var p := Init(n, m);
      InitInv(n, m);
      forall steps | Legal(p, steps)
        ensures !Stranded(Run(p, steps))
      {
        EveryRun(p, steps);
        WaitersKept(p, steps);
      }
    } else {
      TwoWaitersStrand(n, m, 0);
      var steps := TwoWaiters(0);
      assert Legal(Init(n, m), steps) && Stranded(Run(Init(n, m), steps));
    }
  }

  lemma {:induction false} WaitersKept(p: Pool, steps: seq<Step>)
    requires Legal(p, steps)
    ensures |Run(p, steps).waiters| == |p.waiters| && |Run(p, steps).workers| == |p.workers|
    decreases |steps|
  {
    if steps != [] {
      WaitersKept(Apply(p, steps[0]), steps[1..]);
    }
  }

  // ---------------------------------------------------------------------
  // Waiting ends
  // ---------------------------------------------------------------------

  /** Neither a new job nor the end of the pool. */
  predicate Quiet(s: Step) { !s.Submit? && !s.Stop? }

  predicate AllQuiet(steps: seq<Step>) {
    forall i :: 0 <= i < |steps| ==> Quiet(steps[i])
  }

  function Spurious(steps: seq<Step>): nat {
    if steps == [] then 0 else (if steps[0].SpuriousWork? then 1 else 0) + Spurious(steps[1..])
  }

  /** While no job comes in, worker steps use the work up; only a spurious wake-up
      adds to it, and no more than the step it makes possible. */
  lemma QuietStep(p: Pool, s: Step)
    requires Inv(p) && Enabled(p, s) && Quiet(s)
    ensures Remaining(Apply(p, s)) + (if ByWorker(s) then 1 else 0)
            <= Remaining(p) + (if s.SpuriousWork? then 1 else 0)
  {
    match s
    case Take(w) => SumUpdate(p.workers, w, Apply(p, s).workers[w], Drain);
    case Finish(w, wake) => SumUpdate(p.workers, w, Ready, Drain);
    case SpuriousWork(w) => SumUpdate(p.workers, w, Ready, Drain);
    case _ =>
  }

  /** So a run without new jobs has a bounded number of worker steps. */
  lemma {:induction false} QuietRun(p: Pool, steps: seq<Step>)
    requires Inv(p) && Legal(p, steps) && AllQuiet(steps)
    ensures Inv(Run(p, steps))
    ensures Remaining(Run(p, steps)) + WorkerSteps(steps) <= Remaining(p) + Spurious(steps)
    decreases |steps|
  {
    if steps != [] {
      StepInv(p, steps[0]);
      QuietStep(p, steps[0]);
      QuietRun(Apply(p, steps[0]), steps[1..]);
    }
  }

  ghost predicate WorkersRest(p: Pool) {
    forall s :: ByWorker(s) ==> !Enabled(p, s)
  }

  /** When no worker has a step left, everything accepted has been run, and with at most
      one waiting thread that thread is on its way out: its next test lets it go. */
  lemma RestedMeansReleased(p: Pool, v: nat)
    requires Inv(p) && WorkersRest(p) && p.workers != [] && |p.waiters| <= 1 && v < |p.waiters|
    ensures p.queue == [] && p.active == 0 && !p.waiters[v].Blocked?
    ensures p.waiters[v].Testing? ==> Apply(p, Test(v)).waiters[v].Outside?
  {
    forall w | 0 <= w < |p.workers|
      ensures !p.workers[w].Ready? && !p.workers[w].Busy?
    {
      assert !Enabled(p, Take(w));
      if p.workers[w].Busy? {
        var wake := if p.waiters[0].Blocked? then 0 else |p.waiters|;
        assert PicksIdle(p.waiters, wake);
        assert Enabled(p, Finish(w, wake));
      }
    }
    if p.queue != [] {
      SomeoneAwake(p);
    }
    if p.active > 0 {
      var i := SumPositive(p.workers, IsBusy);
    }
  }
}
