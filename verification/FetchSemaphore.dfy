// The semaphore that bounds concurrent fetches: permits are taken, handed to the next waiter, or put
// back. A task is one call of run; it runs its operation between taking a permit and giving it up.
module FetchSemaphore {
  import opened Prelude

  type Task = nat

  // `handed` holds the tasks whose wait was resolved and that have not resumed yet; `arrived` and `granted`
  // are histories of calls and of permits given out.
  datatype Semaphore = Semaphore(available: nat, waiters: seq<Task>, handed: set<Task>, running: set<Task>,
                                 arrived: seq<Task>, granted: seq<Task>, finished: nat)

  function Fresh(limit: nat): Semaphore {
    Semaphore(limit, [], {}, {}, [], [], 0)
  }

  datatype Step = Arrive(task: Task) | Resume(task: Task) | Finish(task: Task)

  // Each call of run is its own task; only a task that was handed a permit resumes, and only a running one
  // finishes, by returning or by throwing.
  predicate Enabled(s: Semaphore, step: Step) {
    match step
    case Arrive(t) => t !in s.arrived
    case Resume(t) => t in s.handed
    case Finish(t) => t in s.running
  }

  function Apply(s: Semaphore, step: Step): Semaphore
    requires Enabled(s, step)
  {
    match step
    case Arrive(t) =>
      if s.available == 0 then s.(waiters := s.waiters + [t], arrived := s.arrived + [t])
      else s.(available := s.available - 1, running := s.running + {t}, arrived := s.arrived + [t],
              granted := s.granted + [t])
    case Resume(t) => s.(handed := s.handed - {t}, running := s.running + {t})
    case Finish(t) =>
      var left := s.(running := s.running - {t}, finished := s.finished + 1);
      if s.waiters != [] then
        left.(waiters := s.waiters[1..], handed := s.handed + {s.waiters[0]}, granted := s.granted + [s.waiters[0]])
      else left.(available := s.available + 1)
  }

  class AsyncSemaphore {
    var available: nat
    var waiters: seq<Task>
    ghost var handed: set<Task>
    ghost var running: set<Task>
    ghost var arrived: seq<Task>
    ghost var granted: seq<Task>
    ghost var finished: nat

    ghost function Model(): Semaphore
      reads this
    {
      Semaphore(available, waiters, handed, running, arrived, granted, finished)
    }

    constructor (limit: nat)
      ensures Model() == Fresh(limit)
    {
      available, waiters := limit, [];
      handed, running, arrived, granted, finished := {}, {}, [], [], 0;
    }

    // The start of run: the operation starts now, or the task waits for a permit.
    method Enter(task: Task) returns (starts: bool)
      requires Enabled(Model(), Arrive(task))
      modifies this
      ensures Model() == Apply(old(Model()), Arrive(task)) && (starts <==> old(available) > 0)
    {
      starts := available > 0;
      arrived := arrived + [task];
      if available == 0 {
        waiters := waiters + [task];
      } else {
        available := available - 1;
        running, granted := running + {task}, granted + [task];
      }
    }

    // The wait of a task ends: it goes on with the permit it was handed.
    ghost method Continue(task: Task)
      requires Enabled(Model(), Resume(task))
      modifies this
      ensures Model() == Apply(old(Model()), Resume(task))
    {
      handed, running := handed - {task}, running + {task};
    }

    // The end of run: the permit goes to the next waiter, who is woken, or back to the pool.
    method Leave(ghost task: Task) returns (woken: Option<Task>)
      requires Enabled(Model(), Finish(task))
      modifies this
      ensures Model() == Apply(old(Model()), Finish(task))
      ensures woken == if old(waiters) == [] then None else Some(old(waiters)[0])
    {
      running, finished := running - {task}, finished + 1;
      if waiters != [] {
        woken := Some(waiters[0]);
        handed, granted := handed + {waiters[0]}, granted + [waiters[0]];
        waiters := waiters[1..];
      } else {
        woken := None;
        available := available + 1;
      }
    }
  }

  // --- Over all runs ------------------------------------------------------------------------------------

  // Permits are conserved, nobody waits while one is free, and permits are given in order of arrival.
  ghost predicate Inv(s: Semaphore, limit: nat) {
    s.available + |s.running| + |s.handed| == limit && (s.waiters != [] ==> s.available == 0) &&
    s.arrived == s.granted + s.waiters && Distinct(s.arrived) &&
    |s.granted| == s.finished + |s.running| + |s.handed| &&
    s.running !! s.handed && (forall t | t in s.running + s.handed :: t in s.granted)
  }

  lemma ArriveKeeps(s: Semaphore, t: Task, limit: nat)
    requires Inv(s, limit) && Enabled(s, Arrive(t))
    ensures Inv(Apply(s, Arrive(t)), limit)
  {
    var r := Apply(s, Arrive(t));
    assert t !in s.granted && t !in s.running && t !in s.handed by {
      assert forall u | u in s.granted :: u in s.arrived;
      assert t in s.running ==> t in s.granted;
    }
    assert s.available > 0 ==> s.waiters == [] && r.arrived == r.granted + r.waiters;
    assert s.available == 0 ==> r.arrived == s.granted + (s.waiters + [t]);
  }

  lemma ResumeKeeps(s: Semaphore, t: Task, limit: nat)
    requires Inv(s, limit) && Enabled(s, Resume(t))
    ensures Inv(Apply(s, Resume(t)), limit)
  {
  }

  // The first waiter holds no permit yet.
  lemma NextIsNew(s: Semaphore)
    requires s.waiters != [] && s.arrived == s.granted + s.waiters && Distinct(s.arrived)
    ensures s.waiters[0] !in s.granted
    ensures s.granted + s.waiters == (s.granted + [s.waiters[0]]) + s.waiters[1..]
  {
    assert s.arrived[|s.granted|] == s.waiters[0];
    assert forall i | 0 <= i < |s.granted| :: s.arrived[i] == s.granted[i];
  }

  lemma HandingOverKeeps(s: Semaphore, t: Task, limit: nat)
    requires Inv(s, limit) && t in s.running && s.waiters != []
    ensures Inv(s.(running := s.running - {t}, finished := s.finished + 1, waiters := s.waiters[1..],
                   handed := s.handed + {s.waiters[0]}, granted := s.granted + [s.waiters[0]]), limit)
  {
    NextIsNew(s);
    hide Distinct;
    var w := s.waiters[0];
    assert forall u | u in s.running || u in s.handed :: u in s.running + s.handed;
    assert |s.running - {t}| == |s.running| - 1 && |s.handed + {w}| == |s.handed| + 1;
    assert forall u | u in (s.running - {t}) + (s.handed + {w}) :: u == w || u in s.running + s.handed;
  }

  lemma FinishKeeps(s: Semaphore, t: Task, limit: nat)
    requires Inv(s, limit) && Enabled(s, Finish(t))
    ensures Inv(Apply(s, Finish(t)), limit)
  {
    hide Distinct;
    if s.waiters != [] {
      HandingOverKeeps(s, t, limit);
      hide Inv;
    } else {
      assert |s.running - {t}| == |s.running| - 1;
    }
  }

  ghost predicate Run(states: seq<Semaphore>, steps: seq<Step>, limit: nat) {
    |states| == |steps| + 1 && states[0] == Fresh(limit) &&
    forall i | 0 <= i < |steps| :: Enabled(states[i], steps[i]) && states[i + 1] == Apply(states[i], steps[i])
  }

  lemma {:induction false} RunsKeepTheInvariant(states: seq<Semaphore>, steps: seq<Step>, limit: nat, n: nat)
    requires Run(states, steps, limit) && n < |states|
    ensures Inv(states[n], limit)
  {
    if n > 0 {
      RunsKeepTheInvariant(states, steps, limit, n - 1);
      match steps[n - 1]
      case Arrive(t) => ArriveKeeps(states[n - 1], t, limit);
      case Resume(t) => ResumeKeeps(states[n - 1], t, limit);
      case Finish(t) => FinishKeeps(states[n - 1], t, limit);
    }
  }

  // At every point of every run: no more than `limit` operations run at once; permits went to the earliest
  // arrivals, as many as there could be; and while somebody waits, some task holding a permit can move.
  lemma PermitsInEveryRun(states: seq<Semaphore>, steps: seq<Step>, limit: nat, n: nat)
    requires Run(states, steps, limit) && n < |states|
    ensures var s := states[n];
            |s.running| <= limit && s.available + |s.running| + |s.handed| == limit &&
            (s.waiters != [] ==> s.available == 0) && s.granted <= s.arrived &&
            |s.granted| == (if |s.arrived| < limit + s.finished then |s.arrived| else limit + s.finished)
    ensures limit > 0 && states[n].waiters != [] ==>
              exists t :: Enabled(states[n], Resume(t)) || Enabled(states[n], Finish(t))
  {
    RunsKeepTheInvariant(states, steps, limit, n);
    var s := states[n];
    if limit > 0 && s.waiters != [] {
      assert s.running + s.handed != {} by {
        assert |s.running| + |s.handed| > 0;
      }
      var t := SomeElement(s.running + s.handed);
      assert Enabled(s, Resume(t)) || Enabled(s, Finish(t));
    }
  }

  lemma {:induction false} HistoriesGrow(states: seq<Semaphore>, steps: seq<Step>, limit: nat, m: nat, n: nat)
    requires Run(states, steps, limit) && m <= n < |states|
    ensures states[m].arrived <= states[n].arrived
    decreases n - m
  {
    if m < n { HistoriesGrow(states, steps, limit, m, n - 1); }
  }

  // The waiter with i others before it has its permit once i + 1 more operations have finished.
  lemma WaitersAreServedInTurn(states: seq<Semaphore>, steps: seq<Step>, limit: nat, m: nat, n: nat, i: nat)
    requires Run(states, steps, limit) && m <= n < |states| && i < |states[m].waiters|
    requires states[n].finished > states[m].finished + i
    ensures states[m].waiters[i] in states[n].granted
  {
    RunsKeepTheInvariant(states, steps, limit, m);
    PermitsInEveryRun(states, steps, limit, n);
    HistoriesGrow(states, steps, limit, m, n);
    var s, r := states[m], states[n];
    var place := |s.granted| + i;
    assert s.arrived[place] == s.waiters[i];
    assert r.arrived[place] == r.granted[place];
  }
}
