/** The worker pool as a protocol: every step is what one thread does while it
    holds the mutex. A thread in a condition variable's queue is `Asleep` or
    `Blocked`; a signal moves one such thread, a broadcast moves all, and any of
    them may also wake for no reason. */
module PoolMachine {
  type Job = nat

  /** At the top of its loop, in `cond_wait(&work)`, running a job, or finished. */
  datatype Worker = Ready | Asleep | Busy(ticket: nat) | Gone

  /** Outside `thread_pool_wait`, about to test its condition, or in
      `cond_wait(&idle)`. */
  datatype Waiter = Outside | Testing | Blocked

  /** `accepted`, `started` and `finished` are history: the jobs in order, and the
      positions whose function has returned. */
  datatype Pool = Pool(
    workers: seq<Worker>,
    waiters: seq<Waiter>,
    queue: seq<Job>,
    queued: int,
    active: int,
    stop: bool,
    accepted: seq<Job>,
    started: seq<Job>,
    finished: set<nat>)

  function Init(n: nat, m: nat): Pool {
    Pool(seq(n, i => Ready), seq(m, i => Outside), [], 0, 0, false, [], [], {})
  }

  /** One critical section. `wake` is the thread a signal picks. */
  datatype Step =
    | Take(w: nat)
    | Finish(w: nat, wake: nat)
    | Submit(job: Job, wake: nat)
    | Wait(v: nat)
    | Test(v: nat)
    | Stop
    | SpuriousWork(w: nat)
    | SpuriousIdle(v: nat)

  predicate Picks(ws: seq<Worker>, wake: nat) {
    (exists w :: 0 <= w < |ws| && ws[w].Asleep?) ==> wake < |ws| && ws[wake].Asleep?
  }

  predicate PicksIdle(vs: seq<Waiter>, wake: nat) {
    (exists v :: 0 <= v < |vs| && vs[v].Blocked?) ==> wake < |vs| && vs[wake].Blocked?
  }

  predicate Enabled(p: Pool, s: Step) {
    match s
    case Take(w) => w < |p.workers| && p.workers[w].Ready?
    case Finish(w, wake) => w < |p.workers| && p.workers[w].Busy? && PicksIdle(p.waiters, wake)
    case Submit(_, wake) => Picks(p.workers, wake)
    case Wait(v) => v < |p.waiters| && p.waiters[v].Outside?
    case Test(v) => v < |p.waiters| && p.waiters[v].Testing?
    case Stop => true
    case SpuriousWork(w) => w < |p.workers| && p.workers[w].Asleep?
    case SpuriousIdle(v) => v < |p.waiters| && p.waiters[v].Blocked?
  }

  /** `cond_signal(&work)`. */
  function Signal(ws: seq<Worker>, wake: nat): (r: seq<Worker>)
    ensures |r| == |ws|
  {
    if wake < |ws| && ws[wake].Asleep? then ws[wake := Ready] else ws
  }

  /** `cond_signal(&idle)`. */
  function SignalIdle(vs: seq<Waiter>, wake: nat): (r: seq<Waiter>)
    ensures |r| == |vs|
  {
    if wake < |vs| && vs[wake].Blocked? then vs[wake := Testing] else vs
  }

  /** `cond_broadcast(&work)`. */
  function Broadcast(ws: seq<Worker>): (r: seq<Worker>)
    ensures |r| == |ws|
    ensures forall i :: 0 <= i < |ws| ==> r[i] == if ws[i].Asleep? then Ready else ws[i]
  {
    seq(|ws|, i requires 0 <= i < |ws| => if ws[i].Asleep? then Ready else ws[i])
  }

  /** The locked part of `worker_loop` before a job. */
  function TakeJob(p: Pool, w: nat): Pool
    requires w < |p.workers|
  {
    if p.queue == [] then p.(workers := p.workers[w := if p.stop then Gone else Asleep])
    else
      p.(workers := p.workers[w := Busy(|p.started|)], queue := p.queue[1..], queued := p.queued - 1,
         active := p.active + 1, started := p.started + [p.queue[0]])
  }

  /** The locked part of `worker_loop` after a job. */
  function FinishJob(p: Pool, w: nat, wake: nat): Pool
    requires w < |p.workers| && p.workers[w].Busy?
  {
    p.(workers := p.workers[w := Ready], active := p.active - 1,
       waiters := if p.queued == 0 && p.active - 1 == 0 then SignalIdle(p.waiters, wake) else p.waiters,
       finished := p.finished + {p.workers[w].ticket})
  }

  /** `thread_pool_submit`; a stopped pool refuses. */
  function Enqueue(p: Pool, job: Job, wake: nat): Pool {
    if p.stop then p
    else
      p.(queue := p.queue + [job], queued := p.queued + 1, workers := Signal(p.workers, wake),
         accepted := p.accepted + [job])
  }

  function Apply(p: Pool, s: Step): Pool
    requires Enabled(p, s)
  {
    match s
    case Take(w) => TakeJob(p, w)
    case Finish(w, wake) => FinishJob(p, w, wake)
    case Submit(job, wake) => Enqueue(p, job, wake)
    case Wait(v) => p.(waiters := p.waiters[v := Testing])
    case Test(v) =>
      p.(waiters := p.waiters[v := if p.queued > 0 || p.active > 0 then Blocked else Outside])
    case Stop => p.(stop := true, workers := Broadcast(p.workers))
    case SpuriousWork(w) => p.(workers := p.workers[w := Ready])
    case SpuriousIdle(v) => p.(waiters := p.waiters[v := Testing])
  }

  predicate Legal(p: Pool, steps: seq<Step>)
    decreases |steps|
  {
    steps != [] ==> Enabled(p, steps[0]) && Legal(Apply(p, steps[0]), steps[1..])
  }

  function Run(p: Pool, steps: seq<Step>): Pool
    requires Legal(p, steps)
    decreases |steps|
  {
    if steps == [] then p else Run(Apply(p, steps[0]), steps[1..])
  }
}
