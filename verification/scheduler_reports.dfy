/** The reports of complete runs: exactly one outcome per job, counters that validate in every
    dimension, and acceptance by the aggregators. */
module SchedulingReports {
  import opened Wrappers
  import opened Sums
  import opened Scenario
  import opened Marginals
  import opened Ledgers
  import opened Accounting
  import opened Evidence
  import opened Tracking
  import opened Aggregation
  import opened Accounts
  import opened Scheduling
  import opened SchedulingInvariant

  // ---- One outcome per job ----

  /** The worker's job has had its one outcome; only the handle of its last call was finalized. */
  predicate OneOutcome(s: Setup, job: Job, w: Worker) {
    && w.done.counts.used == 1 && w.done.counts.started + w.done.counts.startFailures == 1
    && 1 <= |w.calls| <= 1 + s.maxRetries && (forall c :: c in w.calls ==> c == job)
    && w.finalized <= {|w.calls| - 1}
  }

  lemma SettledOutcome(s: Setup, job: Job, w: Worker)
    requires WorkerInv(s, job, w) && Settled(w)
    ensures if w.phase.NotLaunched? then w.done == PlanOnly() && w.calls == [] &&
              w.finalized == {} else OneOutcome(s, job, w)
    ensures w.done == Eventual(job, w.phase)
  {
    hide NO_FACTS, AddAccounts, Owed, ObservedFacts, Invalid;
    NothingPending(w.done);
  }

  /** In every complete run, whatever the interleaving, the ready select arms and the moment of
      cancellation: each launched job has exactly one of Started and StartFailed, after at most
      1 + maxRetries calls with its binding unchanged, and every other job has nothing booked. */
  lemma ExactlyOneOutcome(s: Setup, steps: seq<Step>)
    requires AllTrackable(s.jobs) && Run(s, steps).Some? && Run(s, steps).value.main == Returned
    ensures var w := Run(s, steps).value;
            forall i :: 0 <= i < |s.jobs| ==>
              if i < w.next then OneOutcome(s, s.jobs[i], w.workers[i])
              else w.workers[i].done == PlanOnly() && w.workers[i].calls == []
  {
    hide Run, WorkerInv, OneOutcome, HandlesInv, SeenInv, BooksInv, PlanOnly;
    ReachableInv(s, steps);
    var w := Run(s, steps).value;
    forall i | 0 <= i < |s.jobs|
      ensures if i < w.next then OneOutcome(s, s.jobs[i], w.workers[i])
              else w.workers[i].done == PlanOnly() && w.workers[i].calls == []
    {
      assert Settled(w.workers[i]);
      SettledOutcome(s, s.jobs[i], w.workers[i]);
    }
  }

  // ---- Never stuck ----

  lemma WorkerMoves(s: Setup, w: World, i: nat, o: Observation) returns (e: Step)
    requires |w.workers| == |s.jobs| && i < |s.jobs| && w.cancelled
    requires !w.workers[i].phase.NotLaunched? && !WorkerDone(w.workers[i]) && !w.workers[i].phase.Closed?
    ensures e != Cancel && Enabled(s, w, e)
  {
    var worker := w.workers[i];
    if worker.pending != [] {
      e := Perform(i);
    } else {
      match worker.phase
      case Calling(_) => e := Attempt(i);
      case Dialing(_) => e := Local(i, Refuse);
      case Connecting(_) => e := Local(i, Abort(o));
      case BackingOff(_, _) => e := Local(i, RetryCancelled);
      case Joining(_) => e := Join(i);
    }
  }

  lemma TeardownMoves(s: Setup, w: World, o: Observation, now: nat) returns (e: Step)
    requires |w.workers| == |s.jobs| && HandlesInv(w) && MainInv(w) && (w.main.Closing? || w.main.Tearing?)
    ensures e != Cancel && Enabled(s, w, e)
  {
    if w.main.Closing? {
      e := CloseNext(now);
    } else if !TornBefore(w) {
      e := Perform(w.handles[w.main.k - 1]);
    } else if w.main.k == |w.handles| {
      e := Return;
    } else {
      e := TearNext(o);
    }
  }

  /** Once cancelled, a run that has not returned can always go on: no schedule blocks it. */
  lemma NeverStuck(s: Setup, steps: seq<Step>, o: Observation, now: nat) returns (e: Step)
    requires AllTrackable(s.jobs) && Run(s, steps).Some?
    requires Run(s, steps).value.cancelled && Run(s, steps).value.main != Returned
    ensures e != Cancel && Enabled(s, Run(s, steps).value, e)
  {
    hide Run, WorkersInv, BooksInv, SeenInv;
    ReachableInv(s, steps);
    var w := Run(s, steps).value;
    if w.main.Launching? {
      e := StopLaunching;
    } else if w.main.Draining? {
      if i :| 0 <= i < w.next && !WorkerDone(w.workers[i]) {
        e := WorkerMoves(s, w, i, o);
      } else {
        e := BeginTeardown;
      }
    } else {
      e := TeardownMoves(s, w, o, now);
    }
  }

  // ---- Accounts that validate ----

  /** One job's account, and any sum of such accounts. */
  predicate ValidAccount(a: Account) {
    && ValidCounts(Derived(a.counts)) && a.counts.duplicates == 0
    && a.startNotes == a.counts.startFailures && 0 <= a.runtimeNotes <= a.counts.runtimeFailures
  }

  /** Observations are not negative and carry no time beyond the horizon. */
  predicate PlausibleFacts(f: Facts, horizon: nat) {
    && 0 <= f.traffic.sentBytes && 0 <= f.traffic.receivedBytes && 0 <= f.traffic.activityEvents
    && 0 <= f.traffic.activeSessions && 0 <= f.traffic.bidirectionalSessions && 0 <= f.traffic.lastActivitySessions
    && f.traffic.lastActivity <= horizon
    && (forall x :: x in f.connect ==> x > 0.0) && (forall x :: x in f.prepare ==> x > 0.0)
    && (forall x :: x in f.editorReady ==> x > 0.0)
  }

  predicate Plausible(o: Observation, horizon: nat) {
    0 <= o.sentBytes && 0 <= o.receivedBytes && 0 <= o.activityEvents && o.lastActivity <= horizon
  }

  lemma ValidAccountsAdd()
    ensures ClosedUnderSum(ACCOUNTS, ValidAccount)
  {
    hide AddAccounts, ValidAccount;
    NothingDoneValid();
    forall a, b | ValidAccount(a) && ValidAccount(b) ensures ValidAccount(AddAccounts(a, b)) {
      ValidAccountAdd(a, b);
    }
  }

  lemma NothingDoneValid()
    ensures ValidAccount(NOTHING_DONE)
  {
    hide NO_FACTS;
  }

  lemma ValidAccountAdd(a: Account, b: Account)
    requires ValidAccount(a) && ValidAccount(b)
    ensures ValidAccount(AddAccounts(a, b))
  {
    hide MergeFacts, NO_FACTS;
  }

  lemma PlausibleFactsAdd(horizon: nat)
    ensures ClosedUnderSum(FACTS, (f: Facts) => PlausibleFacts(f, horizon))
  {
  }

  lemma ObservationPlausible(o: Observation, horizon: nat)
    requires Plausible(o, horizon)
    ensures PlausibleFacts(ObservedFacts(o), horizon)
  {
  }

  lemma SettledAccount(s: Setup, job: Job, w: Worker)
    requires WorkerInv(s, job, w) && Settled(w)
    ensures ValidAccount(w.done) && w.done.counts.planned == 1
  {
    hide NO_FACTS, AddAccounts, Owed, Eventual, ValidAccount;
    NothingPending(w.done);
    EventualValid(job, w.phase);
  }

  lemma EventualValid(job: Job, p: Phase)
    requires p.NotLaunched? || p.Over?
    requires p.Over? && p.exhausted ==> p.retries > 0
    ensures ValidAccount(Eventual(job, p)) && Eventual(job, p).counts.planned == 1
  {
    hide NO_FACTS, ObservedFacts, Invalid, ValidAccount;
    if p.NotLaunched? {
      PlanValid();
    } else {
      match p.ending
      case Refused => OutcomeValid(p.retries, 0, 0, 0, 1, 0, NO_FACTS, 1, 0);
      case NeverConnected(o) =>
        OutcomeValid(p.retries, 0, if p.exhausted then 1 else 0, 0, 1, 0, ObservedFacts(o), 1, 0);
      case Torn(o, at) =>
        FailedIsInvalid(job, o, Some(at));
        OutcomeValid(p.retry, if p.retry > 0 then 1 else 0, 0, 1, 0, if Invalid(job, o, Some(at)) then 1 else 0,
                     ObservedFacts(o), 0, if o.reason == SessionFailed then 1 else 0);
    }
  }

  lemma PlanValid()
    ensures ValidAccount(PlanOnly())
  {
    hide NO_FACTS, ValidCounts, Derived;
    PlannedValid(PLAN);
  }

  lemma PlannedValid(c: Counts)
    requires c == PLAN
    ensures ValidCounts(Derived(c))
  {
  }

  lemma OutcomeValid(retries: nat, succeeded: nat, exhausted: nat, started: nat, startFailures: nat,
                     runtimeFailures: nat,
                     facts: Facts, startNotes: nat, runtimeNotes: nat)
    requires started + startFailures == 1 && runtimeFailures <= started && startNotes == startFailures
    requires runtimeNotes <= runtimeFailures && succeeded <= retries && exhausted <= retries
    ensures ValidAccount(Outcome(retries, succeeded, exhausted, started, startFailures, runtimeFailures, facts,
              startNotes, runtimeNotes))
  {
  }

  /** What the scheduler counts as a runtime failure, the reporting handle counts too. */
  lemma FailedIsInvalid(job: Job, o: Observation, closedAt: Option<nat>)
    ensures o.reason == SessionFailed ==> Invalid(job, o, closedAt)
  {
  }

  // ---- Reports of accounts ----

  /** The report shows these books: counters derived, evidence finalized. */
  ghost predicate Shows(r: Report, books: Margins<Account>) {
    && r.counts == MapMargins(books, DerivedPart)
    && FactsMargins(r.evidence) == MapMargins(books, FactsPart)
    && Everywhere(r.evidence, IsFinal)
  }

  predicate AllAccounts(accounts: seq<Account>, horizon: nat) {
    forall i :: 0 <= i < |accounts| ==>
      ValidAccount(accounts[i]) && accounts[i].counts.planned == 1 && PlausibleFacts(accounts[i].facts, horizon)
  }

  /** Validation accepts the counters of any run whose jobs' accounts are valid. */
  lemma CountsOfAccounts(jobs: seq<Job>, accounts: seq<Account>, horizon: nat)
    requires |jobs| == |accounts| && AllAccounts(accounts, horizon)
    ensures CountsMatch(MapMargins(Ledger(ACCOUNTS, jobs, accounts), DerivedPart), Planned(jobs))
  {
    hide Ledger, Balanced, ClosedUnderSum, Homomorphism, ValidCounts, MapMargins, DerivedPart, PlausibleFacts,
         Commutative;
    var books := Ledger(ACCOUNTS, jobs, accounts);
    var counts := MapMargins(books, DerivedPart);
    CountsCommutative();
    DerivedPartIsSum();
    LedgerMap(ACCOUNTS, COUNTS, DerivedPart, jobs, accounts);
    LedgerBalanced(COUNTS, jobs, MapSeq(accounts, DerivedPart));
    PlannedProjection(jobs, accounts, horizon);
    PlannedTotal(jobs);
    ValidAccountsAdd();
    LedgerEverywhere(ACCOUNTS, jobs, accounts, ValidAccount);
    assert Balanced(COUNTS, counts);
    MatchesFromParts(books, Planned(jobs));
  }

  lemma PlannedProjection(jobs: seq<Job>, accounts: seq<Account>, horizon: nat)
    requires |jobs| == |accounts| && AllAccounts(accounts, horizon)
    ensures MapMargins(Ledger(ACCOUNTS, jobs, accounts), PlannedPart) == Planned(jobs)
  {
    hide Ledger, Homomorphism, MapMargins, ValidAccount, PlausibleFacts;
    PlannedPartIsSum();
    LedgerMap(ACCOUNTS, INTS, PlannedPart, jobs, accounts);
    assert MapSeq(accounts, PlannedPart) == Each(jobs, 1);
  }

  lemma MatchesFromParts(books: Margins<Account>, planned: Margins<int>)
    requires MapMargins(books, PlannedPart) == planned
    requires Everywhere(books, ValidAccount)
    requires Balanced(COUNTS, MapMargins(books, DerivedPart))
    ensures CountsMatch(MapMargins(books, DerivedPart), planned)
  {
    hide SumOver, BalancedProtocols, BalancedModes, ValidCounts;
    var counts := MapMargins(books, DerivedPart);
    MarginFromParts(books.byProtocol, counts.total);
    MarginFromParts(books.byMode, counts.total);
    MarginFromParts(books.byDimension, counts.total);
  }

  lemma MarginFromParts<K>(books: map<K, Account>, total: Counts)
    requires forall k :: k in books ==> ValidAccount(books[k])
    requires Sum(COUNTS, MapValues(books, DerivedPart)) == total
    ensures MarginMatches(MapValues(books, DerivedPart), MapValues(books, PlannedPart), total)
  {
    hide SumOver, ValidCounts;
  }

  lemma FinalLatency(l: Latency)
    requires FinalizedLatency(l) == l && forall x :: x in multiset(l.samples) ==> x > 0.0
    ensures ValidLatency(l)
  {
    hide Quantile, Sorted;
    QuantilesAscend(l.samples);
    assert forall i :: 0 <= i < |l.samples| ==> l.samples[i] in multiset(l.samples);
  }

  lemma FinalMeasurements(m: Measurements, horizon: nat)
    requires IsFinal(m) && PlausibleFacts(FactsOf(m), horizon)
    ensures ValidMeasurements(m, horizon)
  {
    hide FinalizedLatency, ValidLatency;
    FinalLatency(m.connect);
    FinalLatency(m.prepare);
    FinalLatency(m.editorReady);
  }

  /** Validation accepts the evidence of any run whose observations were plausible. */
  lemma EvidenceOfAccounts(r: Report, jobs: seq<Job>, accounts: seq<Account>, horizon: nat)
    requires |jobs| == |accounts| && AllAccounts(accounts, horizon)
    requires Shows(r, Ledger(ACCOUNTS, jobs, accounts))
    ensures EvidenceMatches(r, Planned(jobs), horizon, false)
  {
    hide Ledger, Balanced, ClosedUnderSum, Homomorphism, ValidAccount, PlausibleFacts, Commutative, MapMargins,
         MapValues,
         IsFinal, FactsOf, ValidMeasurements, ProvesMaintained, NO_FACTS, EvidenceAddsUp;
    var books, e := Ledger(ACCOUNTS, jobs, accounts), r.evidence;
    FactsCommutative();
    FactsPartIsSum();
    LedgerMap(ACCOUNTS, FACTS, FactsPart, jobs, accounts);
    LedgerBalanced(FACTS, jobs, MapSeq(accounts, FactsPart));
    PlausibleFactsAdd(horizon);
    LedgerEverywhere(FACTS, jobs, MapSeq(accounts, FactsPart), (f: Facts) => PlausibleFacts(f, horizon));
    PlannedProjection(jobs, accounts, horizon);
    MapMarginKeys(e, FactsOf);
    MapMarginKeys(books, FactsPart);
    MapMarginKeys(books, PlannedPart);
    BalancedEvidence(FactsMargins(e), Planned(jobs));
    forall d | d in Planned(jobs).byDimension
      ensures d in e.byDimension && ValidMeasurements(e.byDimension[d], horizon)
    {
      assert PlausibleFacts(FactsMargins(e).byDimension[d], horizon);
      MappedValue(e.byDimension, FactsOf, d);
      FinalMeasurements(e.byDimension[d], horizon);
    }
  }

  lemma MapMarginKeys<V, W>(b: Margins<V>, f: V -> W)
    ensures var n := MapMargins(b, f);
            n.byProtocol.Keys == b.byProtocol.Keys && n.byMode.Keys == b.byMode.Keys &&
                n.byDimension.Keys == b.byDimension.Keys
            && n.byDimension == MapValues(b.byDimension, f)
  {
  }

  lemma MappedValue<K, V, W>(source: map<K, V>, f: V -> W, k: K)
    requires k in source
    ensures k in MapValues(source, f) && MapValues(source, f)[k] == f(source[k])
  {
  }

  lemma BalancedEvidence(e: Margins<Facts>, planned: Margins<int>)
    requires Balanced(FACTS, e)
    requires planned.byProtocol.Keys == e.byProtocol.Keys && planned.byMode.Keys == e.byMode.Keys
    ensures EvidenceAddsUp(e, planned)
  {
    hide SumOver;
  }

  // ---- Complete runs ----

  /** The observations the machine is fed are plausible. */
  predicate PlausibleStep(e: Step, horizon: nat) {
    match e
    case Local(_, Disconnect(o)) => Plausible(o, horizon)
    case Local(_, Abort(o)) => Plausible(o, horizon)
    case TearNext(o) => Plausible(o, horizon)
    case _ => true
  }

  predicate PlausibleSteps(steps: seq<Step>, horizon: nat) {
    forall k :: 0 <= k < |steps| ==> PlausibleStep(steps[k], horizon)
  }

  /** Observations a worker still carries are plausible. */
  predicate PlausiblePhase(p: Phase, horizon: nat) {
    match p
    case BackingOff(_, o) => Plausible(o, horizon)
    case Over(_, _, _, NeverConnected(o)) => Plausible(o, horizon)
    case Over(_, _, _, Torn(o, _)) => Plausible(o, horizon)
    case _ => true
  }

  predicate PlausibleWorkers(w: World, horizon: nat) {
    forall i :: 0 <= i < |w.workers| ==> PlausiblePhase(w.workers[i].phase, horizon)
  }

  lemma PlausibleNext(s: Setup, w: World, e: Step, horizon: nat)
    requires |w.workers| == |s.jobs| && Enabled(s, w, e) && PlausibleStep(e, horizon) && PlausibleWorkers(w, horizon)
    ensures PlausibleWorkers(Next(s, w, e), horizon)
  {
    hide Plausible, RetryableConnectTimeout, FinalizeEffects, Post, AddAccounts, AccountOf, Reclassified;
    if e.TearNext? {
      ReclassifiedPlausible(e.o, s.cancelFailure, horizon);
    }
  }

  lemma ReclassifiedPlausible(o: Observation, f: Failure, horizon: nat)
    requires Plausible(o, horizon)
    ensures Plausible(Reclassified(o, f), horizon)
  {
  }

  lemma {:induction false} RunPlausible(s: Setup, steps: seq<Step>, horizon: nat)
    requires Run(s, steps).Some? && PlausibleSteps(steps, horizon)
    ensures PlausibleWorkers(Run(s, steps).value, horizon)
  {
    hide Enabled, Next, PlausibleStep, PlausiblePhase;
    if steps == [] {
      InitPlausible(s, horizon);
    } else {
      var front := steps[..|steps| - 1];
      RunPlausible(s, front, horizon);
      PlausibleNext(s, Run(s, front).value, steps[|steps| - 1], horizon);
    }
  }

  lemma InitPlausible(s: Setup, horizon: nat)
    ensures PlausibleWorkers(Init(s), horizon)
  {
    hide Ledger;
  }

  lemma EventualPlausible(job: Job, p: Phase, horizon: nat)
    requires p.NotLaunched? || p.Over?
    requires PlausiblePhase(p, horizon)
    ensures PlausibleFacts(Eventual(job, p).facts, horizon)
    ensures p.Over? && p.ending.Torn? ==> Eventual(job, p).facts == ObservedFacts(p.ending.o)
  {
    hide ObservedFacts, Invalid, PlausibleFacts, Plausible;
    NoFactsPlausible(horizon);
    if p.Over? && !p.ending.Refused? {
      ObservationPlausible(p.ending.o, horizon);
    }
  }

  lemma SettledPlausible(s: Setup, job: Job, w: Worker, horizon: nat)
    requires WorkerInv(s, job, w) && Settled(w) && PlausiblePhase(w.phase, horizon)
    ensures PlausibleFacts(w.done.facts, horizon)
  {
    hide NO_FACTS, AddAccounts, Owed, Eventual, PlausibleFacts, PlausiblePhase;
    NothingPending(w.done);
    EventualPlausible(job, w.phase, horizon);
  }

  lemma NoFactsPlausible(horizon: nat)
    ensures PlausibleFacts(NO_FACTS, horizon)
  {
  }

  /** The run has returned, or it failed before the scheduler was entered. */
  ghost predicate RunOver(s: Setup, steps: seq<Step>) {
    AllTrackable(s.jobs) && Run(s, steps).Some? && (steps == [] || Run(s, steps).value.main == Returned)
  }

  lemma OverSettled(s: Setup, steps: seq<Step>)
    requires RunOver(s, steps)
    ensures var w := Run(s, steps).value;
            Inv(s, w) && forall i :: 0 <= i < |w.workers| ==> Settled(w.workers[i])
  {
    hide WorkerInv, HandlesInv, SeenInv, BooksInv, LaunchedInv, Ledger, PlanOnly;
    ReachableInv(s, steps);
  }

  lemma OverAccounts(s: Setup, steps: seq<Step>, horizon: nat)
    requires RunOver(s, steps) && PlausibleSteps(steps, horizon)
    ensures var w := Run(s, steps).value;
            AllAccounts(AccountsOf(w.workers), horizon) && w.books == Ledger(ACCOUNTS, s.jobs, AccountsOf(w.workers))
  {
    hide Run, WorkerInv, HandlesInv, SeenInv, LaunchedInv, MainInv, Ledger, PlanOnly, ValidAccount, PlausibleFacts,
         PlausiblePhase, Settled;
    OverSettled(s, steps);
    var w := Run(s, steps).value;
    RunPlausible(s, steps, horizon);
    forall i | 0 <= i < |w.workers|
      ensures ValidAccount(w.workers[i].done) && w.workers[i].done.counts.planned == 1 &&
                PlausibleFacts(w.workers[i].done.facts, horizon)
    {
      SettledAccount(s, s.jobs[i], w.workers[i]);
      SettledPlausible(s, s.jobs[i], w.workers[i], horizon);
    }
  }

  /** Whatever failed, was retried or was cancelled, and whenever: the report of a run that is over
      passes the validation of AggregateTerminalForBuild. The scheduler's start failures are those of
      the report, its runtime failures never exceed the report's, and no asset was used twice. */
  lemma ReportOfRunValidates(s: Setup, steps: seq<Step>, r: Report, horizon: nat)
    requires RunOver(s, steps) && PlausibleSteps(steps, horizon)
    requires Shows(r, Run(s, steps).value.books)
    ensures ReportMatches(r, s.jobs, horizon, false)
    ensures var books := Run(s, steps).value.books;
            && r.counts.total.duplicates == 0
            && books.total.startNotes == r.counts.total.startFailures
            && 0 <= books.total.runtimeNotes <= r.counts.total.runtimeFailures
  {
    hide Run, Inv, AccountsOf, Ledger, AllAccounts, CountsMatch, EvidenceMatches, Everywhere, FactsMargins,
         ClosedUnderSum, PlausibleSteps;
    OverAccounts(s, steps, horizon);
    var w := Run(s, steps).value;
    var accounts := AccountsOf(w.workers);
    SameLength(s, steps);
    CountsOfAccounts(s.jobs, accounts, horizon);
    EvidenceOfAccounts(r, s.jobs, accounts, horizon);
    TotalAccount(s.jobs, accounts, horizon);
  }

  lemma SameLength(s: Setup, steps: seq<Step>)
    requires RunOver(s, steps)
    ensures |AccountsOf(Run(s, steps).value.workers)| == |s.jobs|
  {
    hide Run, WorkerInv, Ledger;
    OverSettled(s, steps);
  }

  lemma TotalAccount(jobs: seq<Job>, accounts: seq<Account>, horizon: nat)
    requires |jobs| == |accounts| && AllAccounts(accounts, horizon)
    ensures ValidAccount(Ledger(ACCOUNTS, jobs, accounts).total)
  {
    hide ValidAccount, Ledger, ClosedUnderSum, PlausibleFacts;
    ValidAccountsAdd();
    LedgerEverywhere(ACCOUNTS, jobs, accounts, ValidAccount);
  }
}
