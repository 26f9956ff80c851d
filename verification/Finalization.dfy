// The finalization queue: jobs wait in a bounded list and one drainer at a time runs them in batches.
// The drain loop awaits each batch, so jobs may be enqueued and other microtasks may run in between.
module Finalization {
  import opened Prelude

  const FINALIZATION_QUEUE_LIMIT: nat := 10_000
  const FINALIZATION_BATCH_SIZE: nat := 100

  // Jobs are numbered by the call that enqueued them.
  type Job = nat

  // `scheduled` counts queued microtasks and `drainers` the drain loops under way; `unsettled` holds the jobs
  // of the current batch still running. The rest is history: calls, accepted, started and resolved jobs.
  datatype Queue = Queue(waiting: seq<Job>, draining: bool, scheduled: nat, drainers: nat, unsettled: set<Job>,
                         calls: nat, accepted: seq<Job>, started: seq<Job>, resolved: seq<Job>, dropped: set<Job>)

  const EMPTY := Queue([], false, 0, 0, {}, 0, [], [], [], {})

  function Min(a: nat, b: nat): nat {
    if a < b then a else b
  }

  // Enqueueing accepts the job and schedules the drainer, or drops the job when the queue is full; a dropped
  // job's promise is resolved at once.
  function Enqueue(q: Queue): Queue {
    if |q.waiting| >= FINALIZATION_QUEUE_LIMIT then q.(calls := q.calls + 1, dropped := q.dropped + {q.calls})
    else
      q.(calls := q.calls + 1, waiting := q.waiting + [q.calls], accepted := q.accepted + [q.calls],
         scheduled := q.scheduled + 1)
  }

  // The head of the drain loop: take a batch and run it, or stop.
  function NextBatch(q: Queue): Queue {
    if q.waiting != [] then
      var n := Min(FINALIZATION_BATCH_SIZE, |q.waiting|);
      q.(waiting := q.waiting[n..], unsettled := Elements(q.waiting[..n]), started := q.started + q.waiting[..n])
    else q.(draining := false, drainers := q.drainers - (if q.drainers > 0 then 1 else 0))
  }

  // A queued microtask runs: it gives up when somebody drains already.
  function Drain(q: Queue): Queue {
    var run := q.(scheduled := q.scheduled - (if q.scheduled > 0 then 1 else 0));
    if run.draining then run else NextBatch(run.(draining := true, drainers := run.drainers + 1))
  }

  // A job of the batch settles, by succeeding or failing; either way its promise is resolved.
  function Settle(q: Queue, job: Job): Queue {
    q.(unsettled := q.unsettled - {job}, resolved := q.resolved + [job])
  }

  class FinalizationQueue {
    var waiting: seq<Job>
    var draining: bool
    var calls: nat
    var unsettled: set<Job>
    ghost var scheduled: nat
    ghost var drainers: nat
    ghost var accepted: seq<Job>
    ghost var started: seq<Job>
    ghost var resolved: seq<Job>
    ghost var dropped: set<Job>

    ghost function Model(): Queue
      reads this
    {
      Queue(waiting, draining, scheduled, drainers, unsettled, calls, accepted, started, resolved, dropped)
    }

    constructor ()
      ensures Model() == EMPTY
    {
      waiting, draining, calls, unsettled := [], false, 0, {};
      scheduled, drainers, accepted, started, resolved, dropped := 0, 0, [], [], [], {};
    }

    method EnqueueFinalization() returns (job: Job, resolvedAtOnce: bool)
      modifies this
      ensures Model() == Enqueue(old(Model()))
      ensures job == old(calls) && (resolvedAtOnce <==> old(|waiting|) >= FINALIZATION_QUEUE_LIMIT)
    {
      job := calls;
      calls := calls + 1;
      resolvedAtOnce := |waiting| >= FINALIZATION_QUEUE_LIMIT;
      if resolvedAtOnce {
        dropped := dropped + {job};
      } else {
        waiting := waiting + [job];
        accepted, scheduled := accepted + [job], scheduled + 1;
      }
    }

    // A microtask starts draining.
    method DrainFinalizations()
      requires scheduled > 0
      modifies this
      ensures Model() == Drain(old(Model()))
    {
      scheduled := scheduled - 1;
      if draining { return; }
      draining := true;
      drainers := drainers + 1;
      TakeBatch();
    }

    // The loop condition and the start of its body; the loop goes on here when a batch has settled.
    method TakeBatch()
      requires drainers > 0
      modifies this
      ensures Model() == NextBatch(old(Model()))
    {
      if |waiting| > 0 {
        var n := if |waiting| < FINALIZATION_BATCH_SIZE then |waiting| else FINALIZATION_BATCH_SIZE;
        var batch := waiting[..n];
        waiting := waiting[n..];
        unsettled, started := Elements(batch), started + batch;
      } else {
        draining := false;
        drainers := drainers - 1;
      }
    }

    method JobSettles(job: Job)
      requires job in unsettled
      modifies this
      ensures Model() == Settle(old(Model()), job)
    {
      unsettled, resolved := unsettled - {job}, resolved + [job];
    }
  }

  // --- Over all runs ----------------------------------------------------------------------------------------

  datatype Step = Call | Microtask | Settled(job: Job) | Continue

  predicate Enabled(q: Queue, step: Step) {
    match step
    case Call => true
    case Microtask => q.scheduled > 0
    case Settled(job) => job in q.unsettled
    case Continue => q.draining && q.unsettled == {}
  }

  function Apply(q: Queue, step: Step): Queue {
    match step
    case Call => Enqueue(q)
    case Microtask => Drain(q)
    case Settled(job) => Settle(q, job)
    case Continue => NextBatch(q)
  }

  // One drainer, a bounded queue that somebody will drain, and every job in exactly one place.
  ghost predicate Inv(q: Queue) {
    q.drainers == (if q.draining then 1 else 0) && |q.waiting| <= FINALIZATION_QUEUE_LIMIT &&
    (q.waiting != [] ==> q.draining || q.scheduled > 0) && (!q.draining ==> q.unsettled == {}) &&
    |q.unsettled| <= FINALIZATION_BATCH_SIZE && Ledger(q)
  }

  // Accepted jobs are started in order; each started job is running or resolved, and resolved once.
  ghost predicate Ledger(q: Queue) {
    q.accepted == q.started + q.waiting && Distinct(q.accepted) && Distinct(q.resolved) &&
    (forall j | j in q.accepted :: j < q.calls && j !in q.dropped) && (forall j | j in q.dropped :: j < q.calls) &&
    (forall j | 0 <= j < q.calls :: j in q.accepted || j in q.dropped) &&
    (forall j :: j in q.started <==> j in q.unsettled || j in q.resolved) &&
    forall j | j in q.unsettled :: j !in q.resolved
  }

  lemma CallKeeps(q: Queue)
    requires Inv(q)
    ensures Inv(Enqueue(q))
  {
    assert Ledger(Enqueue(q)) by {
      if |q.waiting| < FINALIZATION_QUEUE_LIMIT { AcceptingKeepsTheLedger(q); }
    }
    hide Ledger;
  }

  lemma AcceptingKeepsTheLedger(q: Queue)
    requires Ledger(q)
    ensures Ledger(q.(calls := q.calls + 1, waiting := q.waiting + [q.calls], accepted := q.accepted + [q.calls]))
  {
    assert q.started + q.waiting + [q.calls] == q.started + (q.waiting + [q.calls]);
    NewJobIsDistinct(q.accepted, q.calls);
    hide Distinct;
    assert forall j :: j in q.accepted + [q.calls] <==> j in q.accepted || j == q.calls;
  }

  lemma NewJobIsDistinct(s: seq<Job>, job: Job)
    requires Distinct(s) && job !in s
    ensures Distinct(s + [job])
  {
  }

  lemma SmallBatch(s: seq<Job>)
    ensures |Elements(s)| <= |s|
  {
    if s != [] {
      SmallBatch(s[1..]);
      assert Elements(s) == Elements(s[1..]) + {s[0]};
    }
  }

  lemma NextBatchKeeps(q: Queue)
    requires q.draining && q.drainers == 1 && |q.waiting| <= FINALIZATION_QUEUE_LIMIT && q.unsettled == {} && Ledger(q)
    ensures Inv(NextBatch(q))
  {
    if q.waiting != [] {
      var n := Min(FINALIZATION_BATCH_SIZE, |q.waiting|);
      var batch, r := q.waiting[..n], NextBatch(q);
      SmallBatch(batch);
      assert q.waiting == batch + q.waiting[n..];
      assert q.accepted == (q.started + batch) + q.waiting[n..];
      forall j | j in batch
        ensures j !in q.started
      {
        var k :| 0 <= k < n && batch[k] == j;
        assert q.accepted[|q.started| + k] == j;
        assert forall i | 0 <= i < |q.started| :: q.accepted[i] == q.started[i];
      }
      assert forall j :: j in r.started <==> j in q.started || j in batch;
    }
  }

  lemma SettleKeeps(q: Queue, job: Job)
    requires Inv(q) && job in q.unsettled
    ensures Inv(Settle(q, job))
  {
  }

  lemma DrainKeeps(q: Queue)
    requires Inv(q) && q.scheduled > 0
    ensures Inv(Drain(q))
  {
    if !q.draining { NextBatchKeeps(q.(scheduled := q.scheduled - 1, draining := true, drainers := q.drainers + 1)); }
  }

  lemma StepKeeps(q: Queue, step: Step)
    requires Inv(q) && Enabled(q, step)
    ensures Inv(Apply(q, step))
  {
    match step
    case Call => CallKeeps(q);
    case Microtask => DrainKeeps(q);
    case Settled(job) => SettleKeeps(q, job);
    case Continue => NextBatchKeeps(q);
  }

  ghost predicate Run(states: seq<Queue>, steps: seq<Step>) {
    |states| == |steps| + 1 &&
    forall i | 0 <= i < |steps| :: Enabled(states[i], steps[i]) && states[i + 1] == Apply(states[i], steps[i])
  }

  lemma {:induction false} RunsKeepTheInvariant(states: seq<Queue>, steps: seq<Step>, n: nat)
    requires Run(states, steps) && Inv(states[0]) && n < |states|
    ensures Inv(states[n])
  {
    hide Inv, Apply, Enabled;
    if n > 0 {
      RunsKeepTheInvariant(states, steps, n - 1);
      StepKeeps(states[n - 1], steps[n - 1]);
    }
  }

  lemma StartsInOrder()
    ensures Inv(EMPTY)
  {
  }

  // At every point of every run there is at most one drainer, the queue is within its limit, waiting jobs have
  // a drainer under way or scheduled, jobs start in the order they were accepted, and no job runs or resolves
  // twice.
  lemma QueueInEveryRun(states: seq<Queue>, steps: seq<Step>, n: nat)
    requires Run(states, steps) && states[0] == EMPTY && n < |states|
    ensures var q := states[n];
            q.drainers <= 1 && |q.waiting| <= FINALIZATION_QUEUE_LIMIT && |q.unsettled| <= FINALIZATION_BATCH_SIZE &&
            (q.waiting != [] ==> q.draining || q.scheduled > 0) &&
            q.accepted == q.started + q.waiting && Distinct(q.accepted) && Distinct(q.resolved) &&
            (forall j | j in q.resolved :: j in q.started) &&
            (forall j | 0 <= j < q.calls :: (j in q.accepted) != (j in q.dropped)) && Enabled(q, Call)
  {
    StartsInOrder();
    RunsKeepTheInvariant(states, steps, n);
  }

  function Microtasks(steps: seq<Step>): nat
    decreases |steps|
  {
    if steps == [] then 0
    else Microtasks(steps[..|steps| - 1]) + if steps[|steps| - 1].Microtask? then 1 else 0
  }

  // Every accepted call schedules one microtask, and each runs once.
  lemma {:induction false} OneMicrotaskPerAcceptedCall(states: seq<Queue>, steps: seq<Step>, n: nat)
    requires Run(states, steps) && states[0] == EMPTY && n < |states|
    ensures |states[n].accepted| == states[n].scheduled + Microtasks(steps[..n])
    ensures states[n].calls == |states[n].accepted| + |states[n].dropped|
  {
    if n > 0 {
      OneMicrotaskPerAcceptedCall(states, steps, n - 1);
      QueueInEveryRun(states, steps, n - 1);
      RunsKeepTheInvariant(states, steps, n - 1);
      assert steps[..n][..n - 1] == steps[..n - 1];
      assert states[n] == Apply(states[n - 1], steps[n - 1]);
      MicrotaskStep(states[n - 1], steps[n - 1]);
    }
  }

  lemma MicrotaskStep(q: Queue, step: Step)
    requires Inv(q) && Enabled(q, step)
    ensures var r := Apply(q, step);
            && |r.accepted| == |q.accepted| + (r.scheduled + (if step.Microtask? then 1 else 0) - q.scheduled)
            && r.calls - |r.accepted| - |r.dropped| == q.calls - |q.accepted| - |q.dropped|
            && (step.Call? ==> r.calls == q.calls + 1)
  {
  }

  // What is left to do without further calls.
  function Work(q: Queue): nat {
    q.scheduled + 3 * |q.waiting| + 2 * |q.unsettled| + if q.draining then 1 else 0
  }

  lemma InternalStepsWork(q: Queue, step: Step)
    requires Inv(q) && Enabled(q, step) && !step.Call?
    ensures Work(Apply(q, step)) < Work(q)
  {
    hide Ledger;
    if !step.Settled? && q.waiting != [] {
      SmallBatch(q.waiting[..Min(FINALIZATION_BATCH_SIZE, |q.waiting|)]);
    }
  }

  // Without new calls every schedule comes to rest within a bound.
  lemma {:induction false} QueuesComeToRest(states: seq<Queue>, steps: seq<Step>)
    requires Run(states, steps) && Inv(states[0]) && forall i | 0 <= i < |steps| :: !steps[i].Call?
    ensures |steps| <= Work(states[0])
    decreases |steps|
  {
    if steps != [] {
      hide Inv, Apply, Enabled, Work;
      StepKeeps(states[0], steps[0]);
      InternalStepsWork(states[0], steps[0]);
      QueuesComeToRest(states[1..], steps[1..]);
    }
  }

  // And at rest every accepted job has run and resolved, failed or not, exactly once.
  lemma AtRestEverythingIsResolved(q: Queue)
    requires Inv(q) && forall step | Enabled(q, step) :: step.Call?
    ensures q.waiting == [] && !q.draining && Distinct(q.resolved)
    ensures forall j :: j in q.resolved <==> j in q.accepted
  {
    assert !Enabled(q, Microtask) && !Enabled(q, Continue);
    if q.unsettled != {} {
      SomethingSettles(q);
    }
  }

  lemma SomethingSettles(q: Queue)
    requires q.unsettled != {}
    ensures exists job :: Enabled(q, Settled(job))
  {
    var job := SomeElement(q.unsettled);
    assert Enabled(q, Settled(job));
  }
}
