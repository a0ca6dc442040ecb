/** Every run is bounded: apart from cancellation, which may be repeated, at most so many steps happen. */
module SchedulingBound {
  import opened Scenario
  import opened Tracking
  import opened Scheduling
  import opened SchedulingInvariant
  import Evidence
  import Ledgers
  import opened Accounts
  import opened Marginals

  // ---- What is left to do ----

  function RetriesLeft(s: Setup, retry: nat): nat { if retry <= s.maxRetries then s.maxRetries - retry else 0 }

  /** A bound on the steps a worker in this phase still takes, its pending effects not counted. */
  function PhaseWeight(s: Setup, p: Phase): nat {
    match p
    case NotLaunched => 12 + 5 * s.maxRetries
    case Calling(r) => 11 + 5 * RetriesLeft(s, r)
    case Dialing(r) => 10 + 5 * RetriesLeft(s, r)
    case Connecting(r) => 9 + 5 * RetriesLeft(s, r)
    case BackingOff(r, _) => 7 + 5 * RetriesLeft(s, r)
    case Joining(_) => 7
    case Parked(_) => 6
    case Closed(_, _) => 5
    case Over(_, _, _, _) => 0
  }

  function WorkerWeight(s: Setup, w: Worker): nat { PhaseWeight(s, w.phase) + |w.pending| }

  function WorkersWeight(s: Setup, workers: seq<Worker>): nat {
    if workers == [] then 0 else WorkersWeight(s, workers[..|workers| - 1]) + WorkerWeight(s, workers[|workers| - 1])
  }

  function MainWeight(m: Main): nat {
    match m
    case Launching => 4
    case Draining => 3
    case Closing(_) => 2
    case Tearing(_) => 1
    case Returned => 0
  }

  function Weight(s: Setup, w: World): nat { WorkersWeight(s, w.workers) + MainWeight(w.main) }

  lemma {:induction false} WorkerChanges(s: Setup, workers: seq<Worker>, i: nat, worker: Worker)
    requires i < |workers|
    ensures WorkersWeight(s, workers[i := worker]) + WorkerWeight(s, workers[i])
         == WorkersWeight(s, workers) + WorkerWeight(s, worker)
  {
    hide WorkerWeight;
    var n := |workers| - 1;
    var after := workers[i := worker];
    if i == n {
      assert after[..n] == workers[..n];
    } else {
      WorkerChanges(s, workers[..n], i, worker);
      assert after[..n] == workers[..n][i := worker];
    }
  }

  /** A local step takes at least one from the worker's weight, the effects it announces included. */
  lemma LocalShrinks(s: Setup, job: Job, w: Worker, cancelled: bool, e: LocalStep)
    requires LocalEnabled(s, cancelled, w, e) && (w.phase.BackingOff? ==> w.phase.retry < s.maxRetries)
    ensures WorkerWeight(s, LocalNext(s, job, w, e)) < WorkerWeight(s, w)
  {
    hide RetryableConnectTimeout;
  }

  lemma TearShrinks(s: Setup, job: Job, w: Worker, seen: Evidence.Observation)
    requires w.phase.Closed? && w.pending == []
    ensures WorkerWeight(s, Tear(s, job, w, seen)) < WorkerWeight(s, w)
  {
    hide Reclassified, Invalid;
  }

  /** A step of one worker. */
  lemma OneShrinks(s: Setup, w: World, n: World, i: nat, worker: Worker)
    requires i < |w.workers| && n.workers == w.workers[i := worker]
    requires WorkerWeight(s, worker) < WorkerWeight(s, w.workers[i]) && MainWeight(n.main) <= MainWeight(w.main)
    ensures Weight(s, n) < Weight(s, w)
  {
    hide WorkerWeight, WorkersWeight;
    WorkerChanges(s, w.workers, i, worker);
  }

  lemma LocalStepShrinks(s: Setup, w: World, i: nat, l: LocalStep)
    requires |w.workers| == |s.jobs| && i < |s.jobs| && WorkerInv(s, s.jobs[i], w.workers[i])
    requires Enabled(s, w, Local(i, l))
    ensures Weight(s, Next(s, w, Local(i, l))) < Weight(s, w)
  {
    hide AddAccounts, LocalNext, WorkersWeight, WorkerWeight, Eventual, Owed, LocalEnabled;
    var n := Next(s, w, Local(i, l));
    LocalShrinks(s, s.jobs[i], w.workers[i], w.cancelled, l);
    OneShrinks(s, w, n, i, n.workers[i]);
  }

  lemma WorkerStepShrinks(s: Setup, w: World, e: Step)
    requires Inv(s, w) && Enabled(s, w, e) && (e.Launch? || e.Local? || e.Attempt? || e.Perform? || e.Join?)
    ensures Weight(s, Next(s, w, e)) < Weight(s, w)
  {
    hide BooksInv, SeenInv, HandlesInv, MainInv, AddAccounts, Post, LocalNext, WorkersWeight, LocalEnabled, WorkerInv;
    var n := Next(s, w, e);
    match e
    case Launch => OneShrinks(s, w, n, w.next, n.workers[w.next]);
    case Local(i, l) => LocalStepShrinks(s, w, i, l);
    case Attempt(i) => OneShrinks(s, w, n, i, n.workers[i]);
    case Perform(i) => OneShrinks(s, w, n, i, n.workers[i]);
    case Join(i) => OneShrinks(s, w, n, i, n.workers[i]);
  }

  lemma MainStepShrinks(s: Setup, w: World, e: Step)
    requires Inv(s, w) && Enabled(s, w, e)
    requires e.StopLaunching? || e.BeginTeardown? || e.CloseNext? || e.TearNext? || e.Return?
    ensures Weight(s, Next(s, w, e)) < Weight(s, w)
  {
    hide BooksInv, SeenInv, WorkerInv, LaunchedInv, WorkersWeight, Tear;
    var n := Next(s, w, e);
    if e.CloseNext? && w.main.k < |w.handles| {
      var i := w.handles[w.main.k];
      OneShrinks(s, w, n, i, n.workers[i]);
    } else if e.TearNext? {
      var i := w.handles[w.main.k];
      assert Handle(w, w.main.k).pending == [];
      TearShrinks(s, s.jobs[i], w.workers[i], e.o);
      OneShrinks(s, w, n, i, n.workers[i]);
    }
  }

  lemma StepShrinks(s: Setup, w: World, e: Step)
    requires |w.workers| == |s.jobs| && Inv(s, w) && Enabled(s, w, e)
    ensures Weight(s, Next(s, w, e)) + (if e == Cancel then 0 else 1) <= Weight(s, w)
  {
    hide Inv, Enabled, Next;
    if e.Launch? || e.Local? || e.Attempt? || e.Perform? || e.Join? {
      WorkerStepShrinks(s, w, e);
    } else if e != Cancel {
      MainStepShrinks(s, w, e);
    } else {
      CancelKeeps(s, w);
    }
  }

  lemma CancelKeeps(s: Setup, w: World)
    requires |w.workers| == |s.jobs|
    ensures Weight(s, Next(s, w, Cancel)) == Weight(s, w)
  {
    hide WorkersWeight;
  }

  // ---- All runs ----

  /** The steps other than Cancel. */
  function Moves(steps: seq<Step>): nat {
    if steps == [] then 0 else Moves(steps[..|steps| - 1]) + if steps[|steps| - 1] == Cancel then 0 else 1
  }

  lemma {:induction false} SameWeights(s: Setup, workers: seq<Worker>, weight: nat)
    requires forall i :: 0 <= i < |workers| ==> WorkerWeight(s, workers[i]) == weight
    ensures WorkersWeight(s, workers) == |workers| * weight
  {
    hide WorkerWeight;
    if workers != [] {
      SameWeights(s, workers[..|workers| - 1], weight);
      Distribute(|workers| - 1, weight);
    }
  }

  lemma Distribute(n: nat, weight: nat)
    ensures (n + 1) * weight == n * weight + weight
  {
  }

  lemma InitWeight(s: Setup)
    ensures Weight(s, Init(s)) == |s.jobs| * (12 + 5 * s.maxRetries) + 4
  {
    hide WorkersWeight, Ledgers.Ledger, PlanOnly;
    var workers := Init(s).workers;
    forall i | 0 <= i < |workers| ensures WorkerWeight(s, workers[i]) == 12 + 5 * s.maxRetries {
    }
    SameWeights(s, workers, 12 + 5 * s.maxRetries);
  }

  /** However its goroutines interleave, a run takes at most so many steps besides Cancel. With NeverStuck:
      once cancelled it returns under every schedule that keeps taking steps. */
  lemma {:induction false} StepsBounded(s: Setup, steps: seq<Step>)
    requires AllTrackable(s.jobs) && Run(s, steps).Some?
    ensures Moves(steps) + Weight(s, Run(s, steps).value) <= |s.jobs| * (12 + 5 * s.maxRetries) + 4
  {
    hide Inv, Enabled, Next, Weight, AllTrackable;
    if steps == [] {
      InitWeight(s);
    } else {
      var front := steps[..|steps| - 1];
      StepsBounded(s, front);
      ReachableInv(s, front);
      StepShrinks(s, Run(s, front).value, steps[|steps| - 1]);
    }
  }
}
