/** What the thread pool keeps. */
module PoolSafety {
  // What every critical section keeps, and what the pool's callers can rely on.

  import opened PoolMachine

  // ---------------------------------------------------------------------
  // Counting workers
  // ---------------------------------------------------------------------

  function Sum(ws: seq<Worker>, weight: Worker -> nat): nat {
    if ws == [] then 0 else weight(ws[0]) + Sum(ws[1..], weight)
  }

  lemma {:induction false} SumUpdate(ws: seq<Worker>, i: nat, x: Worker, weight: Worker -> nat)
    requires i < |ws|
    ensures Sum(ws[i := x], weight) == Sum(ws, weight) - weight(ws[i]) + weight(x)
    ensures Sum(ws, weight) >= weight(ws[i])
  {
    if i == 0 {
      assert ws[i := x][1..] == ws[1..];
    } else {
      assert ws[i := x][1..] == ws[1..][i - 1 := x];
      SumUpdate(ws[1..], i - 1, x, weight);
    }
  }

  lemma {:induction false} SumPositive(ws: seq<Worker>, weight: Worker -> nat) returns (i: nat)
    requires Sum(ws, weight) > 0
    ensures i < |ws| && weight(ws[i]) > 0
  {
    if weight(ws[0]) > 0 {
      i := 0;
    } else {
      i := SumPositive(ws[1..], weight);
      i := i + 1;
    }
  }

  function IsReady(w: Worker): nat { if w.Ready? then 1 else 0 }
  function IsBusy(w: Worker): nat { if w.Busy? then 1 else 0 }

  function Awake(p: Pool): nat { Sum(p.workers, IsReady) }

  // ---------------------------------------------------------------------
  // Invariants
  // ---------------------------------------------------------------------

  /** The counters are right, and the queue is what was accepted but not started. */
  ghost predicate Counted(p: Pool) {
    && p.accepted == p.started + p.queue
    && p.queued == |p.queue|
    && p.active == Sum(p.workers, IsBusy)
  }

  /** Every started job is finished or in the hands of one worker. */
  ghost predicate Ticketed(p: Pool) {
    && (forall t :: t in p.finished ==> t < |p.started|)
    && (forall w :: 0 <= w < |p.workers| && p.workers[w].Busy? ==>
          p.workers[w].ticket < |p.started| && p.workers[w].ticket !in p.finished)
    && (forall w, x :: 0 <= w < x < |p.workers| && p.workers[w].Busy? && p.workers[x].Busy? ==>
          p.workers[w].ticket != p.workers[x].ticket)
    && (forall t: nat :: t < |p.started| ==> t in p.finished || Held(p, t))
  }

  ghost predicate Held(p: Pool, t: nat) {
    exists w :: 0 <= w < |p.workers| && p.workers[w] == Busy(t)
  }

  /** No wake-up is lost: while a worker sleeps, as many others are awake and
      looking for work as there are jobs waiting. Workers leave only when stopped
      with nothing queued, and none sleeps then. */
  ghost predicate Attended(p: Pool) {
    && (forall w :: 0 <= w < |p.workers| && p.workers[w].Asleep? ==> |p.queue| <= Awake(p) && !p.stop)
    && (forall w :: 0 <= w < |p.workers| && p.workers[w].Gone? ==> p.stop && p.queue == [])
  }

  /** A waiter is in `cond_wait` while the pool has nothing left to signal it. */
  ghost predicate Stranded(p: Pool) {
    p.queued == 0 && p.active == 0 && exists v :: 0 <= v < |p.waiters| && p.waiters[v].Blocked?
  }

  ghost predicate Inv(p: Pool) {
    Counted(p) && Ticketed(p) && Attended(p) && (|p.waiters| <= 1 ==> !Stranded(p))
  }

  lemma {:induction false} SumOfReady(n: nat, weight: Worker -> nat)
    ensures Sum(seq(n, i => Ready), weight) == n * weight(Ready)
  {
    var ws := seq(n, i => Ready);
    if n > 0 {
      assert ws[1..] == seq(n - 1, i => Ready);
      SumOfReady(n - 1, weight);
    }
  }

  lemma InitInv(n: nat, m: nat)
    ensures Inv(Init(n, m))
  {
    SumOfReady(n, IsBusy);
  }

  lemma TakeInv(p: Pool, w: nat)
    requires Inv(p) && Enabled(p, Take(w))
    ensures Inv(TakeJob(p, w))
  {
    var r := TakeJob(p, w);
    SumUpdate(p.workers, w, r.workers[w], IsBusy);
    SumUpdate(p.workers, w, r.workers[w], IsReady);
    TakeTickets(p, w);
    if p.queue != [] {
      assert p.started + p.queue == r.started + r.queue;
    }
  }

  lemma TakeTickets(p: Pool, w: nat)
    requires Ticketed(p) && Enabled(p, Take(w))
    ensures Ticketed(TakeJob(p, w))
  {
    var r := TakeJob(p, w);
    forall t: nat | t < |r.started|
      ensures t in r.finished || Held(r, t)
    {
      if t == |p.started| {
        assert r.workers[w] == Busy(t);
      } else if t !in p.finished {
        var x :| 0 <= x < |p.workers| && p.workers[x] == Busy(t);
        assert r.workers[x] == Busy(t);
      }
    }
  }

  lemma FinishInv(p: Pool, w: nat, wake: nat)
    requires Inv(p) && Enabled(p, Finish(w, wake))
    ensures Inv(FinishJob(p, w, wake))
  {
    SumUpdate(p.workers, w, Ready, IsBusy);
    SumUpdate(p.workers, w, Ready, IsReady);
    FinishTickets(p, w, wake);
  }

  lemma FinishTickets(p: Pool, w: nat, wake: nat)
    requires Ticketed(p) && Enabled(p, Finish(w, wake))
    ensures Ticketed(FinishJob(p, w, wake))
  {
    var r := FinishJob(p, w, wake);
    forall t: nat | t < |r.started|
      ensures t in r.finished || Held(r, t)
    {
      if t !in r.finished {
        var x :| 0 <= x < |p.workers| && p.workers[x] == Busy(t);
        assert r.workers[x] == Busy(t);
      }
    }
  }

  /** Waking sleepers changes neither the jobs nor their tickets. */
  lemma SameBusy(p: Pool, r: Pool)
    requires Ticketed(p) && r.started == p.started && r.finished == p.finished && |r.workers| == |p.workers|
    requires forall w :: 0 <= w < |p.workers| ==> r.workers[w] == p.workers[w] || (p.workers[w].Asleep? && r.workers[w].Ready?)
    ensures Ticketed(r)
  {
    forall t: nat | t < |r.started|
      ensures t in r.finished || Held(r, t)
    {
      if t !in r.finished {
        var x :| 0 <= x < |p.workers| && p.workers[x] == Busy(t);
        assert r.workers[x] == Busy(t);
      }
    }
  }

  lemma SubmitInv(p: Pool, job: Job, wake: nat)
    requires Inv(p) && Enabled(p, Submit(job, wake))
    ensures Inv(Enqueue(p, job, wake))
  {
    var r := Enqueue(p, job, wake);
    if !p.stop {
      SameBusy(p, r);
      assert p.started + p.queue + [job] == r.started + r.queue;
      if wake < |p.workers| && p.workers[wake].Asleep? {
        SumUpdate(p.workers, wake, Ready, IsBusy);
        SumUpdate(p.workers, wake, Ready, IsReady);
      }
    }
  }

  lemma {:induction false} BroadcastSums(ws: seq<Worker>)
    ensures Sum(Broadcast(ws), IsBusy) == Sum(ws, IsBusy)
  {
    if ws != [] {
      assert Broadcast(ws)[1..] == Broadcast(ws[1..]);
      BroadcastSums(ws[1..]);
    }
  }

  lemma StopInv(p: Pool)
    requires Inv(p)
    ensures Inv(Apply(p, Stop))
  {
    BroadcastSums(p.workers);
    SameBusy(p, Apply(p, Stop));
  }

  lemma SpuriousInv(p: Pool, w: nat)
    requires Inv(p) && Enabled(p, SpuriousWork(w))
    ensures Inv(Apply(p, SpuriousWork(w)))
  {
    SameBusy(p, Apply(p, SpuriousWork(w)));
    SumUpdate(p.workers, w, Ready, IsBusy);
    SumUpdate(p.workers, w, Ready, IsReady);
  }

  lemma IdleInv(p: Pool, s: Step)
    requires Inv(p) && Enabled(p, s) && (s.Wait? || s.Test? || s.SpuriousIdle?)
    ensures Inv(Apply(p, s))
  {
    SameBusy(p, Apply(p, s));
  }

  lemma StepInv(p: Pool, s: Step)
    requires Inv(p) && Enabled(p, s)
    ensures Inv(Apply(p, s))
  {
    match s
    case Take(w) => TakeInv(p, w);
    case Finish(w, wake) => FinishInv(p, w, wake);
    case Submit(job, wake) => SubmitInv(p, job, wake);
    case Stop => StopInv(p);
    case SpuriousWork(w) => SpuriousInv(p, w);
    case _ => IdleInv(p, s);
  }

  /** On every run jobs start once each, in the order they were accepted, and every
      one of them is queued, running, or finished. */
  lemma {:induction false} EveryRun(p: Pool, steps: seq<Step>)
    requires Inv(p) && Legal(p, steps)
    ensures Inv(Run(p, steps))
    decreases |steps|
  {
    if steps != [] {
      StepInv(p, steps[0]);
      EveryRun(Apply(p, steps[0]), steps[1..]);
    }
  }

  // ---------------------------------------------------------------------
  // What a caller gets
  // ---------------------------------------------------------------------

  /** A queue that is not empty always has a worker that will look at it. */
  lemma SomeoneAwake(p: Pool)
    requires Inv(p) && p.workers != [] && p.queue != []
    ensures exists w :: 0 <= w < |p.workers| && (p.workers[w].Ready? || p.workers[w].Busy?)
  {
    if p.workers[0].Asleep? {
      var i := SumPositive(p.workers, IsReady);
      assert p.workers[i].Ready?;
    }
  }

  lemma {:induction false} SumAtLeast(ws: seq<Worker>, i: nat, weight: Worker -> nat)
    requires i < |ws|
    ensures Sum(ws, weight) >= weight(ws[i])
  {
    if i > 0 {
      SumAtLeast(ws[1..], i - 1, weight);
    }
  }

  /** When `thread_pool_wait` returns, every job accepted so far has been run to
      completion. */
  lemma WaitMeansDone(p: Pool, v: nat)
    requires Inv(p) && Enabled(p, Test(v)) && Apply(p, Test(v)).waiters[v].Outside?
    ensures p.queue == [] && p.started == p.accepted
    ensures forall t: nat :: t < |p.accepted| ==> t in p.finished
  {
    assert p.accepted == p.started;
    forall t: nat | t < |p.accepted|
      ensures t in p.finished
    {
      if t !in p.finished {
        var w :| 0 <= w < |p.workers| && p.workers[w] == Busy(t);
        SumAtLeast(p.workers, w, IsBusy);
      }
    }
  }
}
