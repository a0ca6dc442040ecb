/** RunWithRetries over the reporting runner, as a machine whose steps interleave freely: every worker
    goroutine, the launching and tearing-down main goroutine, and cancellation at any point. */
module Scheduling {
  import opened Wrappers
  import opened Scenario
  import opened Marginals
  import opened Ledgers
  import opened Accounting
  import opened Evidence
  import opened Tracking
  import opened Accounts

  /** `jobs` is the plan in order; a negative retry limit has already become 0. */
  datatype Setup = Setup(jobs: seq<Job>, maxRetries: nat, backoffs: seq<int>, cancelFailure: Failure)

  // ---- Decisions taken on an observation ----

  predicate RetryableConnectTimeout(job: Job, o: Observation) {
    && o.reason == SessionFailed && o.failure.Some?
    && (if job.protocol == SSH && job.mode == Direct then o.failure.value.sshTimeout
        else job.protocol in {RDP, VNC, Web, MySQL} && o.failure.value.graphicalTimeout)
  }

  function RetryBackoff(backoffs: seq<int>, retry: nat): int {
    if 0 < retry <= |backoffs| then backoffs[retry - 1] else 0
  }

  /** A transport failure that surfaces during teardown is reclassified as cancelled. */
  function Reclassified(o: Observation, cancelFailure: Failure): Observation {
    if o.reason == SessionFailed && o.failure.Some? && o.failure.value.transport
    then o.(reason := SessionCancelled, failure := Some(cancelFailure)) else o
  }

  const FIVE_SECONDS := 5_000_000_000

  /** The observation does not prove a maintained session. */
  predicate Invalid(job: Job, o: Observation, closedAt: Option<nat>) {
    var completedAtShutdown := o.reason == SessionCompleted && closedAt.Some?
                               && o.lastActivity <= closedAt.value && closedAt.value - o.lastActivity <= FIVE_SECONDS;
    || o.reason == SessionFailed || (o.reason == SessionCompleted && !completedAtShutdown)
    || o.connectLatency <= 0 || o.activityEvents <= 0 || o.lastActivity == 0
    || (job.mode == Direct && (o.sentBytes <= 0 || o.receivedBytes <= 0))
  }

  // ---- Effects on shared state, each performed atomically under its own lock ----

  datatype Effect = Count(d: Counts) | Observe(o: Observation) | NoteStartFailure | NoteRuntimeFailure

  function AccountOf(e: Effect): Account {
    match e
    case Count(d) => NOTHING_DONE.(counts := d)
    case Observe(o) => NOTHING_DONE.(facts := ObservedFacts(o))
    case NoteStartFailure => NOTHING_DONE.(startNotes := 1)
    case NoteRuntimeFailure => NOTHING_DONE.(runtimeNotes := 1)
  }

  /** The tracker calls of reportingHandle.Finalize. */
  function FinalizeEffects(job: Job, o: Observation, connected: bool, closedAt: Option<nat>): seq<Effect> {
    if !connected then [Observe(o), Count(START_FAILURE)]
    else [Observe(o), Count(START), Count(if Invalid(job, o, closedAt) then RUNTIME_FAILURE else MAINTAIN)]
  }

  function Owed(effects: seq<Effect>): Account {
    if effects == [] then NOTHING_DONE else AddAccounts(AccountOf(effects[0]), Owed(effects[1..]))
  }

  // ---- Workers ----

  datatype Ending = Refused | NeverConnected(o: Observation) | Torn(o: Observation, closedAt: nat)

  /** `retry` numbers the runner call, from 0; `retries` counts the retries announced. */
  datatype Phase =
    | NotLaunched
    | Calling(retry: nat)                     // about to call runner.Run
    | Dialing(retry: nat)                     // inside the inner runner
    | Connecting(retry: nat)                  // at the select over connected, done and ctx.Done
    | BackingOff(retry: nat, o: Observation)  // inside waitRetry
    | Joining(retry: nat)                     // connected, about to append its handle
    | Parked(retry: nat)                      // goroutine done, handle active
    | Closed(retry: nat, closedAt: nat)       // Close has been called during teardown
    | Over(retry: nat, retries: nat, exhausted: bool, ending: Ending)

  /** `finalized` holds the retry numbers of the handles whose Finalize has run; `calls` the bound jobs
      handed to the runner; `done` what the job's effects have amounted to so far. */
  datatype Worker = Worker(phase: Phase, pending: seq<Effect>, finalized: set<nat>, calls: seq<Job>, done: Account)

  /** Finalize runs its effects once per handle. */
  function FinalizeOnce(w: Worker, retry: nat, before: seq<Effect>, effects: seq<Effect>, then_: seq<Effect>): Worker {
    w.(pending := before + (if retry in w.finalized then [] else effects) + then_, finalized := w.finalized + {retry})
  }

  datatype LocalStep =
    | Refuse                       // the inner runner returns an error
    | Accept                       // it returns a handle
    | Connect                      // the connected arm is ready
    | Disconnect(o: Observation)   // the done arm is ready
    | Abort(o: Observation)        // the ctx.Done arm: close, wait for the observation
    | RetryNow                     // waitRetry returns true
    | RetryCancelled               // waitRetry returns false

  predicate LocalEnabled(s: Setup, cancelled: bool, w: Worker, e: LocalStep) {
    && w.pending == []
    && match e
       case Refuse => w.phase.Dialing?
       case Accept => w.phase.Dialing?
       case Connect => w.phase.Connecting?
       case Disconnect(_) => w.phase.Connecting?
       case Abort(_) => w.phase.Connecting? && cancelled
       case RetryNow => w.phase.BackingOff? && (RetryBackoff(s.backoffs, w.phase.retry + 1) <= 0 ==> !cancelled)
       case RetryCancelled => w.phase.BackingOff? && cancelled
  }

  function LocalNext(s: Setup, job: Job, w: Worker, e: LocalStep): Worker
    requires exists cancelled :: LocalEnabled(s, cancelled, w, e)
  {
    var r := w.phase.retry;
    match e
    case Refuse => w.(phase := Over(r, r, false, Refused), pending := [Count(START_FAILURE), NoteStartFailure])
    case Accept => w.(phase := Connecting(r))
    case Connect => w.(phase := Joining(r), pending := if r > 0 then [Count(RETRY_SUCCESS)] else [])
    case Disconnect(o) =>
      if r < s.maxRetries && RetryableConnectTimeout(job, o) then
        w.(phase := BackingOff(r, o), pending := [Count(RETRY)])
      else
        FinalizeOnce(w.(phase := Over(r, r, r > 0, NeverConnected(o))), r,
                     if r > 0 then [Count(RETRY_EXHAUSTED)] else [],
                     FinalizeEffects(job, o, false, None), [NoteStartFailure])
    case Abort(o) =>
      FinalizeOnce(w.(phase := Over(r, r, false, NeverConnected(o))), r, [],
                   FinalizeEffects(job, o, false, None), [NoteStartFailure])
    case RetryNow => w.(phase := Calling(r + 1))
    case RetryCancelled =>
      FinalizeOnce(w.(phase := Over(r, r + 1, false, NeverConnected(w.phase.o))), r, [],
                   FinalizeEffects(job, w.phase.o, false, None), [NoteStartFailure])
  }

  /** The teardown loop's body: reclassify, finalize as connected, count a failed observation. */
  function Tear(s: Setup, job: Job, w: Worker, seen: Observation): Worker
    requires w.phase.Closed?
  {
    var o, r, at := Reclassified(seen, s.cancelFailure), w.phase.retry, w.phase.closedAt;
    FinalizeOnce(w.(phase := Over(r, r, false, Torn(o, at))), r, [], FinalizeEffects(job, o, true, Some(at)),
                 if o.reason == SessionFailed then [NoteRuntimeFailure] else [])
  }

  // ---- The whole run ----

  datatype Main = Launching | Draining | Closing(k: nat) | Tearing(k: nat) | Returned

  /** `books` are the tracker's margins and the scheduler's failure counts; `handles` the active handles. */
  datatype World = World(
    cancelled: bool, main: Main, next: nat, workers: seq<Worker>, handles: seq<nat>,
    seen: set<string>, used: set<string>, books: Margins<Account>)

  datatype Step =
    | Cancel
    | Launch
    | StopLaunching
    | Local(i: nat, e: LocalStep)
    | Attempt(i: nat)               // reportingRunner.Run up to the inner call
    | Perform(i: nat)               // the worker's next pending effect
    | Join(i: nat)                  // append the handle
    | BeginTeardown                 // workers.Wait() returns
    | CloseNext(at: nat)
    | TearNext(o: Observation)      // finalize the next active handle
    | Return

  function PlanOnly(): Account { NOTHING_DONE.(counts := PLAN) }

  function Init(s: Setup): World {
    World(false, Launching, 0, seq(|s.jobs|, i => Worker(NotLaunched, [], {}, [], PlanOnly())), [], {}, {},
          Ledger(ACCOUNTS, s.jobs, Each(s.jobs, PlanOnly())))
  }

  predicate WorkerDone(w: Worker) {
    w.pending == [] && (w.phase.Parked? || w.phase.Over?)
  }

  predicate Enabled(s: Setup, w: World, e: Step)
    requires |w.workers| == |s.jobs|
  {
    match e
    case Cancel => true
    case Launch => w.main == Launching && w.next < |s.jobs|
    case StopLaunching => w.main == Launching && w.cancelled
    case Local(i, l) => i < |s.jobs| && LocalEnabled(s, w.cancelled, w.workers[i], l)
    case Attempt(i) => i < |s.jobs| && w.workers[i].phase.Calling? && w.workers[i].pending == []
    case Perform(i) => i < |s.jobs| && w.workers[i].pending != []
    case Join(i) => i < |s.jobs| && w.workers[i].phase.Joining? && w.workers[i].pending == []
    case BeginTeardown => w.main == Draining && forall i :: 0 <= i < w.next && i < |s.jobs| ==> WorkerDone(w.workers[i])
    case CloseNext(_) =>
      w.main.Closing? && (w.main.k < |w.handles| ==> HandleIn(w, w.main.k) && Handle(w, w.main.k).phase.Parked?)
    case TearNext(_) => w.main.Tearing? && TornBefore(w) && HandleIn(w, w.main.k) && Handle(w, w.main.k).phase.Closed?
    case Return => w.main.Tearing? && TornBefore(w) && w.main.k == |w.handles|
  }

  predicate HandleIn(w: World, k: nat) { k < |w.handles| && w.handles[k] < |w.workers| }

  function Handle(w: World, k: nat): Worker
    requires HandleIn(w, k)
  {
    w.workers[w.handles[k]]
  }

  /** The main goroutine has performed all effects of the handle it finalized last. */
  predicate TornBefore(w: World)
    requires w.main.Tearing?
  {
    w.main.k > 0 && HandleIn(w, w.main.k - 1) ==> Handle(w, w.main.k - 1).pending == []
  }

  function SetWorker(w: World, i: nat, worker: Worker): World
    requires i < |w.workers|
  {
    w.(workers := w.workers[i := worker])
  }

  /** Book an amount for job `i`, in the shared books and in the job's own history. */
  function Book(s: Setup, w: World, i: nat, d: Account): World
    requires i < |s.jobs| == |w.workers|
  {
    w.(books := Post(ACCOUNTS, w.books, s.jobs[i], d),
       workers := w.workers[i := w.workers[i].(done := AddAccounts(w.workers[i].done, d))])
  }

  function Next(s: Setup, w: World, e: Step): World
    requires |w.workers| == |s.jobs| && Enabled(s, w, e)
  {
    match e
    case Cancel => w.(cancelled := true)
    case Launch => SetWorker(w, w.next, w.workers[w.next].(phase := Calling(0))).(next := w.next + 1)
    case StopLaunching => w.(main := Draining)
    case Local(i, l) => SetWorker(w, i, LocalNext(s, s.jobs[i], w.workers[i], l))
    case Attempt(i) =>
      var job, worker := s.jobs[i], w.workers[i];
      var called := SetWorker(w, i, worker.(phase := Dialing(worker.phase.retry), calls := worker.calls + [job]));
      if job.assetID in w.seen then called
      else
        Book(s, called, i, NOTHING_DONE.(counts := if job.assetID in w.used then DUPLICATE else USE))
        .(seen := w.seen + {job.assetID}, used := w.used + {job.assetID})
    case Perform(i) =>
      var worker := w.workers[i];
      Book(s, SetWorker(w, i, worker.(pending := worker.pending[1..])), i, AccountOf(worker.pending[0]))
    case Join(i) =>
      SetWorker(w, i, w.workers[i].(phase := Parked(w.workers[i].phase.retry))).(handles := w.handles + [i])
    case BeginTeardown => w.(main := Closing(0))
    case CloseNext(at) =>
      var k := w.main.k;
      if k >= |w.handles| then w.(main := Tearing(0))
      else
        SetWorker(w, w.handles[k], Handle(w, k).(phase := Closed(Handle(w, k).phase.retry, at)))
        .(main := Closing(k + 1))
    case TearNext(seen) =>
      var k := w.main.k;
      SetWorker(w, w.handles[k], Tear(s, s.jobs[w.handles[k]], Handle(w, k), seen)).(main := Tearing(k + 1))
    case Return => w.(main := Returned)
  }

  /** The world after a sequence of steps, if each was possible when it was taken. */
  function Run(s: Setup, steps: seq<Step>): (w: Option<World>)
    ensures w.Some? ==> |w.value.workers| == |s.jobs|
  {
    if steps == [] then Some(Init(s))
    else
      match Run(s, steps[..|steps| - 1])
      case None => None
      case Some(w) => if Enabled(s, w, steps[|steps| - 1]) then Some(Next(s, w, steps[|steps| - 1])) else None
  }
}
