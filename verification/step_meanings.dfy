/** What each step of a run means for the report, told from the observations as the handles gave them; and that
    the books of a run are the plan and the meanings of its steps, in the order they were taken. */
module StepMeanings {
  import opened Wrappers
  import opened Sums
  import opened Scenario
  import opened Marginals
  import opened Ledgers
  import opened Accounting
  import opened Evidence
  import opened Tracking
  import opened Accounts
  import opened Scheduling
  import opened SchedulingInvariant
  import opened SchedulingReports

  // ---- Observations ----

  function Milliseconds(nanos: int): multiset<real> {
    if nanos > 0 then multiset{nanos as real / 1_000_000.0} else multiset{}
  }

  /** The latencies that were measured, in milliseconds, and the traffic of the session. */
  function SeenFacts(o: Observation): Facts {
    Facts(Milliseconds(o.connectLatency), Milliseconds(o.prepareLatency), Milliseconds(o.editorReadyLatency),
          Traffic(
            sentBytes := o.sentBytes, receivedBytes := o.receivedBytes, activityEvents := o.activityEvents,
            activeSessions := if o.activityEvents > 0 then 1 else 0,
            bidirectionalSessions := if o.sentBytes > 0 && o.receivedBytes > 0 then 1 else 0,
            lastActivitySessions := if o.lastActivity == 0 then 0 else 1, lastActivity := o.lastActivity))
  }

  lemma ObservedIsSeen(o: Observation)
    ensures ObservedFacts(o) == SeenFacts(o)
  {
    SampleIsSeen(o.connectLatency);
    SampleIsSeen(o.prepareLatency);
    SampleIsSeen(o.editorReadyLatency);
    hide AddSample, Milliseconds;
  }

  lemma SampleIsSeen(nanos: int)
    ensures multiset(AddSample(NO_LATENCY, nanos).samples) == Milliseconds(nanos)
  {
  }

  /** The failure says that connecting took too long: for SSH in direct mode its own timeouts, for all other known
      protocols those of the graphical session. */
  predicate TimedOut(job: Job, o: Observation) {
    o.reason == SessionFailed &&
    match o.failure
    case None => false
    case Some(f) =>
      || (job.protocol == SSH && job.mode == Direct && f.sshTimeout)
      || (job.protocol in {RDP, VNC, Web, MySQL} && f.graphicalTimeout)
  }

  /** A transport failure that surfaced while the run was being torn down. */
  predicate Noise(o: Observation) { o.reason == SessionFailed && o.failure.Some? && o.failure.value.transport }

  /** The session failed of its own. */
  predicate Broken(o: Observation) { o.reason == SessionFailed && (o.failure.None? || !o.failure.value.transport) }

  /** It completed at the shutdown: after its last activity, but by no more than five seconds. */
  predicate CompletedAtShutdown(o: Observation, closedAt: nat) {
    o.reason == SessionCompleted && o.lastActivity <= closedAt <= o.lastActivity + 5_000_000_000
  }

  /** It connected and was active, in direct mode in both directions. */
  predicate WasAlive(job: Job, o: Observation) {
    && o.connectLatency > 0 && o.activityEvents > 0 && o.lastActivity > 0
    && (job.mode == Direct ==> o.sentBytes > 0 && o.receivedBytes > 0)
  }

  /** The session was maintained to the end. */
  predicate Sustained(job: Job, o: Observation, closedAt: nat) {
    WasAlive(job, o) && (o.reason == SessionCancelled || Noise(o) || CompletedAtShutdown(o, closedAt))
  }

  // ---- Steps ----

  function Counted(c: Counts): Account { Account(c, NO_FACTS, 0, 0) }

  function NotStarted(o: Observation, exhausted: bool): Account {
    Account(ZERO.(startFailures := 1, retriesExhausted := if exhausted then 1 else 0), SeenFacts(o), 1, 0)
  }

  /** A session torn down: started, and maintained or failed; if it failed of its own, the scheduler counts it. */
  function Ended(job: Job, o: Observation, closedAt: nat): Account {
    Account(
      if Sustained(job, o, closedAt) then ZERO.(started := 1, maintained := 1)
      else ZERO.(started := 1, runtimeFailures := 1),
      SeenFacts(o), 0, if Broken(o) then 1 else 0)
  }

  /** The meaning of a worker's own step; `p` is the phase it is taken in. */
  function LocalMeaning(s: Setup, job: Job, p: Phase, e: LocalStep): Account {
    match e
    case Refuse => Counted(ZERO.(startFailures := 1)).(startNotes := 1)
    case Connect => Counted(if p.Connecting? && p.retry > 0 then ZERO.(retrySuccesses := 1) else ZERO)
    case Disconnect(o) =>
      if p.Connecting? && p.retry < s.maxRetries && TimedOut(job, o) then Counted(ZERO.(retries := 1))
      else NotStarted(o, p.Connecting? && p.retry > 0)
    case Abort(o) => NotStarted(o, false)
    case RetryCancelled => if p.BackingOff? then NotStarted(p.o, false) else Counted(ZERO)
    case Accept => Counted(ZERO)
    case RetryNow => Counted(ZERO)
  }

  /** The job a step means something for, and what. */
  function Meaning(s: Setup, w: World, e: Step): Option<(nat, Account)> {
    match e
    case Local(i, l) =>
      if i < |s.jobs| && i < |w.workers| then Some((i, LocalMeaning(s, s.jobs[i], w.workers[i].phase, l))) else None
    case Attempt(i) =>
      if i < |s.jobs| && i < |w.workers| && w.workers[i].phase == Calling(0) then Some((i, Counted(ZERO.(used := 1))))
      else None
    case TearNext(seen) =>
      if w.main.Tearing? && HandleIn(w, w.main.k) && w.handles[w.main.k] < |s.jobs| && Handle(w, w.main.k).phase.Closed?
      then Some((w.handles[w.main.k], Ended(s.jobs[w.handles[w.main.k]], seen, Handle(w, w.main.k).phase.closedAt)))
      else None
    case _ => None
  }

  /** The plan, and the meanings of the steps one after the other. */
  function Booked(s: Setup, steps: seq<Step>): Margins<Account> {
    if steps == [] then Ledger(ACCOUNTS, s.jobs, Each(s.jobs, Counted(ZERO.(planned := 1))))
    else
      var front := steps[..|steps| - 1];
      match Run(s, front)
      case None => Booked(s, front)
      case Some(w) =>
        match Meaning(s, w, steps[|steps| - 1])
        case None => Booked(s, front)
        case Some(m) =>
          if m.0 < |s.jobs| then Post(ACCOUNTS, Booked(s, front), s.jobs[m.0], m.1) else Booked(s, front)
  }

  // ---- One worker ----

  lemma AddNothing(a: Account)
    ensures AddAccounts(a, Counted(ZERO)) == a
  {
    hide MergeFacts, AddCounts, NO_FACTS;
    FactsZero(a.facts);
    CountsZero(a.counts);
  }

  lemma NotStartedDue(job: Job, r: nat, retries: nat, exhausted: bool, o: Observation)
    ensures Eventual(job, Over(r, retries, exhausted, NeverConnected(o)))
         == AddAccounts(Attempted(retries), NotStarted(o, exhausted))
  {
    hide NO_FACTS, ObservedFacts, SeenFacts, AddAccounts;
    ObservedIsSeen(o);
    AddParts(Attempted(retries), ZERO.(startFailures := 1, retriesExhausted := if exhausted then 1 else 0),
      SeenFacts(o), 1, 0);
  }

  lemma RefusedDue(job: Job, r: nat)
    ensures Eventual(job, Over(r, r, false, Refused))
         == AddAccounts(Attempted(r), Counted(ZERO.(startFailures := 1)).(startNotes := 1))
  {
    hide NO_FACTS, AddAccounts;
    AddParts(Attempted(r), ZERO.(startFailures := 1), NO_FACTS, 1, 0);
  }

  lemma RetryDue(r: nat)
    ensures Attempted(r + 1) == AddAccounts(Attempted(r), Counted(ZERO.(retries := 1)))
    ensures r > 0 ==> Succeeded(r) == AddAccounts(Attempted(r), Counted(ZERO.(retrySuccesses := 1)))
    ensures Succeeded(0) == Attempted(0)
  {
    hide NO_FACTS, AddAccounts;
    AddParts(Attempted(r), ZERO.(retries := 1), NO_FACTS, 0, 0);
    AddParts(Attempted(r), ZERO.(retrySuccesses := 1), NO_FACTS, 0, 0);
  }

  lemma TimesOutAlike(job: Job, o: Observation)
    ensures RetryableConnectTimeout(job, o) <==> TimedOut(job, o)
  {
  }

  lemma LocalMoves(s: Setup, job: Job, cancelled: bool, w: Worker, e: LocalStep)
    requires LocalEnabled(s, cancelled, w, e)
    ensures Eventual(job, LocalNext(s, job, w, e).phase)
         == AddAccounts(Eventual(job, w.phase), LocalMeaning(s, job, w.phase, e))
  {
    hide NO_FACTS, NotStarted, FinalizeEffects, AddAccounts, Attempted, Succeeded, Eventual, Counted,
         RetryableConnectTimeout, TimedOut;
    var r := w.phase.retry;
    EventualIs(job, w.phase);
    EventualIs(job, LocalNext(s, job, w, e).phase);
    AddNothing(Eventual(job, w.phase));
    match e {
      case Refuse => RefusedDue(job, r);
      case Accept =>
      case Connect => RetryDue(r);
      case Disconnect(o) =>
        TimesOutAlike(job, o);
        RetryDue(r);
        NotStartedDue(job, r, r, r > 0, o);
      case Abort(o) => NotStartedDue(job, r, r, false, o);
      case RetryNow =>
      case RetryCancelled => NotStartedDue(job, r, r + 1, false, w.phase.o);
    }
  }

  /** The handle's verdict on what is left of an observation is the meaning of the observation itself. */
  lemma VerdictIsMeant(job: Job, seen: Observation, cancelFailure: Failure, closedAt: nat)
    ensures var o := Reclassified(seen, cancelFailure);
            && (Invalid(job, o, Some(closedAt)) <==> !Sustained(job, seen, closedAt))
            && (o.reason == SessionFailed <==> Broken(seen)) && ObservedFacts(o) == SeenFacts(seen)
  {
    hide ObservedFacts, Milliseconds;
    ObservedIsSeen(Reclassified(seen, cancelFailure));
  }

  lemma TornDue(job: Job, seen: Observation, o: Observation, r: nat, closedAt: nat)
    requires Invalid(job, o, Some(closedAt)) <==> !Sustained(job, seen, closedAt)
    requires (o.reason == SessionFailed <==> Broken(seen)) && ObservedFacts(o) == SeenFacts(seen)
    ensures Eventual(job, Over(r, r, false, Torn(o, closedAt)))
         == AddAccounts(Succeeded(r), Ended(job, seen, closedAt))
  {
    hide NO_FACTS, ObservedFacts, SeenFacts, AddAccounts, Invalid, Sustained, Broken;
    AddParts(Succeeded(r), Ended(job, seen, closedAt).counts, SeenFacts(seen), 0, if Broken(seen) then 1 else 0);
  }

  lemma TearMoves(s: Setup, job: Job, w: Worker, seen: Observation)
    requires w.phase.Closed?
    ensures Eventual(job, Tear(s, job, w, seen).phase)
         == AddAccounts(Eventual(job, w.phase), Ended(job, seen, w.phase.closedAt))
  {
    hide NO_FACTS, ObservedFacts, SeenFacts, AddAccounts, Invalid, Sustained, Broken, Reclassified, FinalizeEffects,
         Eventual, Ended, Succeeded;
    var r, at := w.phase.retry, w.phase.closedAt;
    EventualIs(job, w.phase);
    VerdictIsMeant(job, seen, s.cancelFailure, at);
    TornDue(job, seen, Reclassified(seen, s.cancelFailure), r, at);
  }

  /** After its wait a worker tries again, unless the run was cancelled and no positive backoff is given for this
      retry; it gives up only if the run was cancelled. */
  lemma WaitsExactly(s: Setup, cancelled: bool, w: Worker)
    requires w.phase.BackingOff? && w.pending == []
    ensures LocalEnabled(s, cancelled, w, RetryNow) <==>
              !cancelled || (w.phase.retry < |s.backoffs| && s.backoffs[w.phase.retry] > 0)
    ensures LocalEnabled(s, cancelled, w, RetryCancelled) <==> cancelled
  {
  }

  /** Whatever the environment does next to a worker, the run can take it: a runner may refuse or accept, a connection
      come about or end with any observation; but a worker aborts only once the run is cancelled. */
  lemma AnyOutcome(s: Setup, w: World, i: nat, o: Observation)
    requires |w.workers| == |s.jobs| && i < |s.jobs|
    ensures if w.workers[i].pending != [] then Enabled(s, w, Perform(i)) else
              var p := w.workers[i].phase;
              && (p.Dialing? <==> Enabled(s, w, Local(i, Refuse))) && (p.Dialing? <==> Enabled(s, w, Local(i, Accept)))
              && (p.Connecting? <==> Enabled(s, w, Local(i, Connect)))
              && (p.Connecting? <==> Enabled(s, w, Local(i, Disconnect(o))))
              && (p.Connecting? && w.cancelled <==> Enabled(s, w, Local(i, Abort(o))))
              && (p.Calling? <==> Enabled(s, w, Attempt(i))) && (p.Joining? <==> Enabled(s, w, Join(i)))
  {
  }

  /** The main goroutine launches the next job, or stops early once the run is cancelled; tears down once all workers
      are done; closes the next handle at any time; and takes any observation from it. */
  lemma AnyTeardown(s: Setup, w: World, o: Observation, at: nat)
    requires Inv(s, w)
    ensures Enabled(s, w, Cancel)
    ensures Enabled(s, w, Launch) <==> w.main == Launching && w.next < |s.jobs|
    ensures Enabled(s, w, StopLaunching) <==> w.main == Launching && w.cancelled
    ensures w.main == Draining ==>
              (Enabled(s, w, BeginTeardown) <==> forall i :: 0 <= i < w.next ==> WorkerDone(w.workers[i]))
    ensures w.main.Closing? ==> Enabled(s, w, CloseNext(at))
    ensures w.main.Tearing? && (forall i :: 0 <= i < |s.jobs| ==> w.workers[i].pending == []) ==>
              if w.main.k < |w.handles| then Enabled(s, w, TearNext(o)) else Enabled(s, w, Return)
  {
    hide BooksInv, SeenInv, WorkerInv, LocalEnabled, WorkerDone;
  }

  // ---- The whole run ----

  function Eventuals(s: Setup, w: World): seq<Account>
    requires |w.workers| == |s.jobs|
  {
    seq(|s.jobs|, i requires 0 <= i < |s.jobs| => Eventual(s.jobs[i], w.workers[i].phase))
  }

  /** A step changes what is due of the job it means something for, by its meaning, and of no other. */
  lemma StepMoves(s: Setup, w: World, e: Step)
    requires Inv(s, w) && Enabled(s, w, e)
    ensures Meaning(s, w, e).Some? ==> Meaning(s, w, e).value.0 < |s.jobs|
    ensures |Next(s, w, e).workers| == |s.jobs|
    ensures Eventuals(s, Next(s, w, e))
         == match Meaning(s, w, e)
            case None => Eventuals(s, w)
            case Some(m) => Eventuals(s, w)[m.0 := AddAccounts(Eventuals(s, w)[m.0], m.1)]
  {
    hide WorkerInv, BooksInv, SeenInv, MainInv, LocalMeaning, LocalNext, LocalEnabled, Ended, Tear, AddAccounts,
         Eventual, Post, Eventuals;
    var n := Next(s, w, e);
    match e {
      case Local(i, l) =>
        LocalMoves(s, s.jobs[i], w.cancelled, w.workers[i], l);
        WorkerMoves(s, w, n, i, LocalMeaning(s, s.jobs[i], w.workers[i].phase, l));
      case Attempt(i) =>
        AttemptMoves(s.jobs[i], w.workers[i].phase.retry);
        if w.workers[i].phase.retry == 0 {
          WorkerMoves(s, w, n, i, Counted(ZERO.(used := 1)));
        } else {
          NothingMoves(s, w, n);
        }
      case TearNext(seen) =>
        var i := w.handles[w.main.k];
        TearMoves(s, s.jobs[i], w.workers[i], seen);
        WorkerMoves(s, w, n, i, Ended(s.jobs[i], seen, w.workers[i].phase.closedAt));
      case _ => OthersMove(s, w, e);
    }
  }

  lemma OthersMove(s: Setup, w: World, e: Step)
    requires Inv(s, w) && Enabled(s, w, e) && !e.Local? && !e.Attempt? && !e.TearNext?
    ensures |Next(s, w, e).workers| == |s.jobs| && Eventuals(s, Next(s, w, e)) == Eventuals(s, w)
  {
    hide WorkerInv, BooksInv, SeenInv, MainInv, AddAccounts, Eventual, Post, Eventuals, AccountOf;
    match e {
      case Launch => LaunchDue(s.jobs[w.next]);
      case Join(i) => SameDue(s.jobs[i], w.workers[i].phase);
      case CloseNext(at) =>
        if w.main.k < |w.handles| {
          SameDue(s.jobs[w.handles[w.main.k]], w.workers[w.handles[w.main.k]].phase);
        }
      case _ =>
    }
    NothingMoves(s, w, Next(s, w, e));
  }

  lemma WorkerMoves(s: Setup, w: World, n: World, i: nat, a: Account)
    requires i < |s.jobs| == |w.workers| == |n.workers|
    requires forall j :: 0 <= j < |s.jobs| && j != i ==> n.workers[j].phase == w.workers[j].phase
    requires Eventual(s.jobs[i], n.workers[i].phase) == AddAccounts(Eventual(s.jobs[i], w.workers[i].phase), a)
    ensures Eventuals(s, n) == Eventuals(s, w)[i := AddAccounts(Eventuals(s, w)[i], a)]
  {
    hide Eventual, AddAccounts;
  }

  lemma NothingMoves(s: Setup, w: World, n: World)
    requires |s.jobs| == |w.workers| == |n.workers|
    requires forall j :: 0 <= j < |s.jobs| ==>
               Eventual(s.jobs[j], n.workers[j].phase) == Eventual(s.jobs[j], w.workers[j].phase)
    ensures Eventuals(s, n) == Eventuals(s, w)
  {
    hide Eventual;
  }

  lemma AttemptMoves(job: Job, r: nat)
    ensures r > 0 ==> Eventual(job, Dialing(r)) == Eventual(job, Calling(r))
    ensures r == 0 ==> Eventual(job, Dialing(r)) == AddAccounts(Eventual(job, Calling(r)), Counted(ZERO.(used := 1)))
  {
    hide NO_FACTS, AddAccounts;
    AddParts(PlanOnly(), ZERO.(used := 1), NO_FACTS, 0, 0);
  }

  lemma SameDue(job: Job, p: Phase)
    ensures p.Joining? ==> Eventual(job, Parked(p.retry)) == Eventual(job, p)
    ensures p.Parked? ==> forall at :: Eventual(job, Closed(p.retry, at)) == Eventual(job, p)
  {
    hide NO_FACTS;
  }

  lemma LaunchDue(job: Job)
    ensures Eventual(job, Calling(0)) == Eventual(job, NotLaunched)
  {
    hide NO_FACTS;
  }

  /** Whatever the interleaving: what is due of all jobs is the plan and the meanings of the steps taken. */
  lemma {:induction false} DueIsBooked(s: Setup, steps: seq<Step>)
    requires AllTrackable(s.jobs) && Scheduling.Run(s, steps).Some?
    ensures Booked(s, steps) == Ledger(ACCOUNTS, s.jobs, Eventuals(s, Scheduling.Run(s, steps).value))
  {
    hide Inv, Enabled, Next, Meaning, Eventual, Ledger, Post, AddAccounts, Commutative;
    if steps == [] {
      PlannedDue(s);
    } else {
      var front, e := steps[..|steps| - 1], steps[|steps| - 1];
      var w := Scheduling.Run(s, front).value;
      DueIsBooked(s, front);
      ReachableInv(s, front);
      StepMoves(s, w, e);
      AccountsCommutative();
      match Meaning(s, w, e) {
        case None =>
        case Some(m) => LedgerPost(ACCOUNTS, s.jobs, Eventuals(s, w), m.0, m.1);
      }
    }
  }

  lemma PlannedDue(s: Setup)
    ensures Eventuals(s, Init(s)) == Each(s.jobs, Counted(ZERO.(planned := 1)))
  {
    hide NO_FACTS;
  }

  /** The books of a run that is over are the plan and the meanings of its steps. */
  lemma BooksAreMeanings(s: Setup, steps: seq<Step>)
    requires RunOver(s, steps)
    ensures Scheduling.Run(s, steps).value.books == Booked(s, steps)
  {
    hide Scheduling.Run, WorkerInv, HandlesInv, SeenInv, LaunchedInv, MainInv, Ledger, Booked, Eventual, Settled;
    OverSettled(s, steps);
    DueIsBooked(s, steps);
    var w := Scheduling.Run(s, steps).value;
    forall i | 0 <= i < |s.jobs| ensures w.workers[i].done == Eventual(s.jobs[i], w.workers[i].phase) {
      SettledOutcome(s, s.jobs[i], w.workers[i]);
    }
    assert AccountsOf(w.workers) == Eventuals(s, w);
  }

  // ---- Counting steps ----

  /** The step tears down a session that this says something of. */
  predicate Tears(s: Setup, w: World, e: Step, p: (Job, Observation, nat) -> bool) {
    && e.TearNext? && w.main.Tearing? && HandleIn(w, w.main.k) && w.handles[w.main.k] < |s.jobs|
    && Handle(w, w.main.k).phase.Closed?
    && p(s.jobs[w.handles[w.main.k]], e.o, Handle(w, w.main.k).phase.closedAt)
  }

  function CountTears(s: Setup, steps: seq<Step>, p: (Job, Observation, nat) -> bool): nat {
    if steps == [] then 0
    else
      var front := steps[..|steps| - 1];
      CountTears(s, front, p)
      + if Run(s, front).Some? && Tears(s, Run(s, front).value, steps[|steps| - 1], p) then 1 else 0
  }

  function AnySession(): (Job, Observation, nat) -> bool {
    (job: Job, o: Observation, closedAt: nat) => true
  }

  function SustainedSession(): (Job, Observation, nat) -> bool {
    (job: Job, o: Observation, closedAt: nat) => Sustained(job, o, closedAt)
  }

  function FailedSession(): (Job, Observation, nat) -> bool {
    (job: Job, o: Observation, closedAt: nat) => !Sustained(job, o, closedAt)
  }

  function BrokenSession(): (Job, Observation, nat) -> bool {
    (job: Job, o: Observation, closedAt: nat) => Broken(o)
  }

  lemma MeaningCounts(s: Setup, w: World, e: Step)
    ensures var a := if Meaning(s, w, e).Some? then Meaning(s, w, e).value.1 else Counted(ZERO);
            && a.counts.started == (if Tears(s, w, e, AnySession()) then 1 else 0)
            && a.counts.maintained == (if Tears(s, w, e, SustainedSession()) then 1 else 0)
            && a.counts.runtimeFailures == (if Tears(s, w, e, FailedSession()) then 1 else 0)
            && a.runtimeNotes == (if Tears(s, w, e, BrokenSession()) then 1 else 0)
  {
    hide SeenFacts, Sustained, Broken, NO_FACTS;
  }

  lemma PostedTotal(books: Margins<Account>, job: Job, a: Account)
    ensures Post(ACCOUNTS, books, job, a).total == AddAccounts(books.total, a)
  {
  }

  lemma {:induction false} PlannedTotal(jobs: seq<Job>, c: Counts)
    ensures var t := Ledger(ACCOUNTS, jobs, Each(jobs, Counted(c))).total;
            c.started == c.maintained == c.runtimeFailures == 0 ==>
              t.counts.started == t.counts.maintained == t.counts.runtimeFailures == t.runtimeNotes == 0
  {
    hide MergeFacts, NO_FACTS, Add;
    if jobs != [] {
      var n := |jobs| - 1;
      PlannedTotal(jobs[..n], c);
      assert Each(jobs, Counted(c))[..n] == Each(jobs[..n], Counted(c));
    }
  }

  /** Every session torn down was started, and either maintained or failed; those that failed of their own are the
      scheduler's runtime failures. */
  lemma {:induction false} TearsBooked(s: Setup, steps: seq<Step>)
    ensures var t := Booked(s, steps).total;
            && t.counts.started == CountTears(s, steps, AnySession())
            && t.counts.maintained == CountTears(s, steps, SustainedSession())
            && t.counts.runtimeFailures == CountTears(s, steps, FailedSession())
            && t.runtimeNotes == CountTears(s, steps, BrokenSession())
  {
    hide Ledger, Post, Meaning, Tears, MergeFacts, NO_FACTS, Scheduling.Run;
    if steps == [] {
      PlannedTotal(s.jobs, ZERO.(planned := 1));
    } else {
      var front, e := steps[..|steps| - 1], steps[|steps| - 1];
      TearsBooked(s, front);
      if Scheduling.Run(s, front).Some? {
        var w := Scheduling.Run(s, front).value;
        MeaningCounts(s, w, e);
        InRange(s, w, e);
        if Meaning(s, w, e).Some? {
          PostedTotal(Booked(s, front), s.jobs[Meaning(s, w, e).value.0], Meaning(s, w, e).value.1);
        }
      }
    }
  }

  lemma InRange(s: Setup, w: World, e: Step)
    ensures Meaning(s, w, e).Some? ==> Meaning(s, w, e).value.0 < |s.jobs|
  {
  }

  lemma {:induction false} BrokenFailed(s: Setup, steps: seq<Step>)
    ensures CountTears(s, steps, BrokenSession()) <= CountTears(s, steps, FailedSession())
  {
    hide Scheduling.Run;
    if steps != [] {
      BrokenFailed(s, steps[..|steps| - 1]);
    }
  }

  /** The report of a run counts the sessions torn down by what their handles observed: a session that failed, and
      not by a transport failure, is a runtime failure of the scheduler and of the report. */
  lemma ReportCountsTears(s: Setup, steps: seq<Step>, r: Report)
    requires RunOver(s, steps) && Shows(r, Scheduling.Run(s, steps).value.books)
    ensures var t := r.counts.total;
            && t.started == CountTears(s, steps, AnySession())
            && t.maintained == CountTears(s, steps, SustainedSession())
            && t.runtimeFailures == CountTears(s, steps, FailedSession())
            && Scheduling.Run(s, steps).value.books.total.runtimeNotes == CountTears(s, steps, BrokenSession())
            && t.runtimeFailures >= CountTears(s, steps, BrokenSession())
  {
    hide Scheduling.Run, Booked, Everywhere, FactsMargins, RunOver, CountTears;
    BooksAreMeanings(s, steps);
    TearsBooked(s, steps);
    BrokenFailed(s, steps);
    StartedSplit(s, steps);
  }

  lemma {:induction false} StartedSplit(s: Setup, steps: seq<Step>)
    ensures CountTears(s, steps, AnySession())
         == CountTears(s, steps, SustainedSession()) + CountTears(s, steps, FailedSession())
  {
    hide Scheduling.Run, Sustained;
    if steps != [] {
      StartedSplit(s, steps[..|steps| - 1]);
    }
  }
}
