/** What every reachable world of the scheduler satisfies. */
module SchedulingInvariant {
  import opened Wrappers
  import opened Scenario
  import opened Marginals
  import opened Ledgers
  import opened Accounting
  import opened Evidence
  import opened Tracking
  import opened Accounts
  import opened Scheduling

  // ---- One worker ----

  /** The account of a job that has been attempted once: retries announced, successful and exhausted;
      started, not started, failed while running; evidence, and failures the scheduler has counted. */
  function Outcome(retries: nat, succeeded: nat, exhausted: nat, started: nat, startFailures: nat, runtimeFailures: nat,
                   facts: Facts, startNotes: nat, runtimeNotes: nat): Account
    requires runtimeFailures <= started
  {
    Account(Counts(1, 1, 0, 0, started, startFailures, runtimeFailures, started - runtimeFailures, retries, succeeded,
        exhausted),
            facts, startNotes, runtimeNotes)
  }

  function Attempted(retries: nat): Account { Outcome(retries, 0, 0, 0, 0, 0, NO_FACTS, 0, 0) }

  function Succeeded(r: nat): Account { Outcome(r, if r > 0 then 1 else 0, 0, 0, 0, 0, NO_FACTS, 0, 0) }

  /** What a job's effects amount to once those still pending have been performed. */
  function Eventual(job: Job, p: Phase): Account {
    match p
    case NotLaunched => PlanOnly()
    case Calling(r) => if r == 0 then PlanOnly() else Attempted(r)
    case Dialing(r) => Attempted(r)
    case Connecting(r) => Attempted(r)
    case BackingOff(r, _) => Attempted(r + 1)
    case Joining(r) => Succeeded(r)
    case Parked(r) => Succeeded(r)
    case Closed(r, _) => Succeeded(r)
    case Over(r, retries, exhausted, Refused) => Outcome(retries, 0, 0, 0, 1, 0, NO_FACTS, 1, 0)
    case Over(r, retries, exhausted, NeverConnected(o)) =>
      Outcome(retries, 0, if exhausted then 1 else 0, 0, 1, 0, ObservedFacts(o), 1, 0)
    case Over(r, retries, exhausted, Torn(o, at)) =>
      Outcome(r, if r > 0 then 1 else 0, 0, 1, 0, if Invalid(job, o, Some(at)) then 1 else 0,
              ObservedFacts(o), 0, if o.reason == SessionFailed then 1 else 0)
  }

  function CallsMade(p: Phase): nat {
    if p.NotLaunched? then 0 else if p.Calling? then p.retry else p.retry + 1
  }

  predicate HasFinalized(p: Phase) { p.Over? && !p.ending.Refused? }

  predicate WorkerInv(s: Setup, job: Job, w: Worker) {
    && AddAccounts(w.done, Owed(w.pending)) == Eventual(job, w.phase)
    && (!w.phase.NotLaunched? ==> w.phase.retry <= s.maxRetries)
    && (w.phase.BackingOff? ==> w.phase.retry < s.maxRetries)
    && (w.phase.Over? && w.phase.exhausted ==> w.phase.retries > 0)
    // Only the handle of the last call is ever finalized.
    && w.finalized == (if HasFinalized(w.phase) then {w.phase.retry} else {})
    // The same bound job is handed to every call.
    && |w.calls| == CallsMade(w.phase) && (forall c :: c in w.calls ==> c == job)
    && (w.phase.NotLaunched? || w.phase.Calling? || w.phase.Dialing? || w.phase.Connecting? || w.phase.Parked? ||
        w.phase.Closed?
        ==> w.pending == [])
  }

  lemma NothingPending(a: Account)
    ensures AddAccounts(a, Owed([])) == a
  {
    hide MergeFacts, NO_FACTS;
    FactsCommutative();
    assert FACTS.plus(FACTS.zero, a.facts) == FACTS.plus(a.facts, FACTS.zero);
  }

  /** Performing an effect moves its amount from what is pending to what is done. */
  lemma PerformKeeps(done: Account, pending: seq<Effect>)
    requires pending != []
    ensures AddAccounts(AddAccounts(done, AccountOf(pending[0])), Owed(pending[1..])) ==
              AddAccounts(done, Owed(pending))
  {
    hide AddAccounts, AccountOf, NO_FACTS;
    AccountsCommutative();
    var a, b := AccountOf(pending[0]), Owed(pending[1..]);
    assert ACCOUNTS.plus(ACCOUNTS.plus(done, a), b) == ACCOUNTS.plus(done, ACCOUNTS.plus(a, b));
  }

  lemma {:induction false} OwedConcat(a: seq<Effect>, b: seq<Effect>)
    ensures Owed(a + b) == AddAccounts(Owed(a), Owed(b))
  {
    hide AddAccounts, AccountOf, NO_FACTS;
    AccountsCommutative();
    if a == [] {
      assert a + b == b;
      assert ACCOUNTS.plus(ACCOUNTS.zero, Owed(b)) == Owed(b);
    } else {
      assert (a + b)[1..] == a[1..] + b;
      OwedConcat(a[1..], b);
      var x, y, z := AccountOf(a[0]), Owed(a[1..]), Owed(b);
      assert ACCOUNTS.plus(ACCOUNTS.plus(x, y), z) == ACCOUNTS.plus(x, ACCOUNTS.plus(y, z));
    }
  }

  lemma FactsZero(f: Facts)
    ensures MergeFacts(NO_FACTS, f) == f && MergeFacts(f, NO_FACTS) == f
  {
    FactsCommutative();
    assert FACTS.plus(FACTS.zero, f) == FACTS.plus(f, FACTS.zero);
  }

  lemma OwedOne(e: Effect)
    ensures Owed([e]) == AccountOf(e)
  {
    hide AddAccounts, AccountOf, NO_FACTS;
    assert [e][1..] == [];
    NothingPending(AccountOf(e));
  }

  lemma OwedTwo(e: Effect, f: Effect)
    ensures Owed([e, f]) == AddAccounts(AccountOf(e), AccountOf(f))
  {
    hide AddAccounts, AccountOf, NO_FACTS;
    assert [e, f][1..] == [f];
    OwedOne(f);
  }

  lemma OwedThree(e: Effect, f: Effect, g: Effect)
    ensures Owed([e, f, g]) == AddAccounts(AccountOf(e), AddAccounts(AccountOf(f), AccountOf(g)))
  {
    hide AddAccounts, AccountOf, NO_FACTS;
    assert [e, f, g][1..] == [f, g];
    OwedTwo(f, g);
  }

  /** Evidence `f` and counters `c`, `d` added to counters and evidence already there. */
  lemma AddParts(a: Account, c: Counts, f: Facts, m: int, n: int)
    requires a.facts == NO_FACTS
    ensures AddAccounts(a, Account(c, f, m, n)) == Account(AddCounts(a.counts, c), f, a.startNotes + m,
              a.runtimeNotes + n)
  {
    hide MergeFacts, AddCounts, NO_FACTS;
    FactsZero(f);
  }

  lemma Reassociated<T>(a: seq<T>, x: T, y: T, z: T)
    ensures a + [x, y] + [z] == a + [x, y, z]
  {
  }

  lemma AddEvidence(f: Facts, b: Account)
    requires b.facts == NO_FACTS
    ensures AddAccounts(NOTHING_DONE.(facts := f), b) == b.(facts := f)
  {
    hide MergeFacts, AddCounts, NO_FACTS;
    FactsZero(f);
    CountsCommutative();
    assert COUNTS.plus(COUNTS.zero, b.counts) == b.counts;
  }

  // Sums of the counters that occur, apart from everything else.

  lemma CountsZero(c: Counts)
    ensures AddCounts(c, ZERO) == c && AddCounts(ZERO, c) == c
  {
  }

  lemma ExhaustedCounts()
    ensures AddCounts(RETRY_EXHAUSTED, START_FAILURE) == ZERO.(startFailures := 1, retriesExhausted := 1)
  {
  }

  lemma VerdictCounts(bad: bool)
    ensures AddCounts(START, if bad then RUNTIME_FAILURE else MAINTAIN)
         == ZERO.(started := 1, runtimeFailures := if bad then 1 else 0, maintained := if bad then 0 else 1)
  {
  }

  lemma OwedNeverStarted(exhausted: bool, o: Observation)
    ensures Owed((if exhausted then [Count(RETRY_EXHAUSTED)] else []) + [Observe(o),
              Count(START_FAILURE)] + [NoteStartFailure])
         == Account(ZERO.(startFailures := 1, retriesExhausted := if exhausted then 1 else 0), ObservedFacts(o), 1, 0)
  {
    hide ObservedFacts, Owed, AddAccounts, AddCounts, NO_FACTS;
    var before := if exhausted then [Count(RETRY_EXHAUSTED)] else [];
    var list := [Observe(o), Count(START_FAILURE), NoteStartFailure];
    Reassociated(before, Observe(o), Count(START_FAILURE), NoteStartFailure);
    OwedThree(Observe(o), Count(START_FAILURE), NoteStartFailure);
    AddParts(NOTHING_DONE.(counts := START_FAILURE), ZERO, NO_FACTS, 1, 0);
    CountsZero(START_FAILURE);
    AddEvidence(ObservedFacts(o), Account(START_FAILURE, NO_FACTS, 1, 0));
    var amount := Account(START_FAILURE, ObservedFacts(o), 1, 0);
    assert Owed(list) == amount;
    if exhausted {
      OwedConcat(before, list);
      OwedOne(Count(RETRY_EXHAUSTED));
      AddParts(NOTHING_DONE.(counts := RETRY_EXHAUSTED), START_FAILURE, ObservedFacts(o), 1, 0);
      ExhaustedCounts();
    } else {
      assert before + list == list;
    }
  }

  lemma OwedTorn(job: Job, o: Observation, at: nat)
    ensures var bad := Invalid(job, o, Some(at));
            Owed([] + FinalizeEffects(job, o, true,
                Some(at)) + if o.reason == SessionFailed then [NoteRuntimeFailure] else [])
            == Account(ZERO.(started := 1, runtimeFailures := if bad then 1 else 0, maintained := if bad then 0 else 1),
                       ObservedFacts(o), 0, if o.reason == SessionFailed then 1 else 0)
  {
    hide ObservedFacts, Invalid, Owed, AddAccounts, AddCounts, NO_FACTS;
    var f, bad := ObservedFacts(o), Invalid(job, o, Some(at));
    var verdict := if bad then RUNTIME_FAILURE else MAINTAIN;
    var list := [Observe(o), Count(START), Count(verdict)];
    OwedThree(Observe(o), Count(START), Count(verdict));
    AddParts(NOTHING_DONE.(counts := START), verdict, NO_FACTS, 0, 0);
    var counts := AddCounts(START, verdict);
    AddEvidence(f, Account(counts, NO_FACTS, 0, 0));
    assert Owed(list) == Account(counts, f, 0, 0);
    VerdictCounts(bad);
    if o.reason == SessionFailed {
      OwedConcat(list, [NoteRuntimeFailure]);
      OwedOne(NoteRuntimeFailure);
      AddNote(Account(counts, f, 0, 0));
      assert [] + FinalizeEffects(job, o, true, Some(at)) == list;
    } else {
      assert [] + FinalizeEffects(job, o, true, Some(at)) + [] == list;
    }
  }

  lemma AddNote(a: Account)
    ensures AddAccounts(a, NOTHING_DONE.(runtimeNotes := 1)) == a.(runtimeNotes := a.runtimeNotes + 1)
  {
    hide MergeFacts, AddCounts, NO_FACTS;
    FactsZero(a.facts);
    CountsZero(a.counts);
  }

  /** A job that has ended without having connected: its eventual account. */
  lemma NeverStartedKeeps(job: Job, r: nat, retries: nat, exhausted: bool, o: Observation)
    ensures AddAccounts(Attempted(retries),
                        Owed((if exhausted then [Count(RETRY_EXHAUSTED)] else []) + [Observe(o),
                            Count(START_FAILURE)] + [NoteStartFailure]))
         == Eventual(job, Over(r, retries, exhausted, NeverConnected(o)))
  {
    hide ObservedFacts, Owed, AddAccounts, NO_FACTS;
    OwedNeverStarted(exhausted, o);
    AddParts(Attempted(retries), ZERO.(startFailures := 1, retriesExhausted := if exhausted then 1 else 0),
        ObservedFacts(o), 1, 0);
  }

  lemma CountKeeps(a: Account, d: Counts)
    requires a.facts == NO_FACTS
    ensures AddAccounts(a, Owed([Count(d)])) == a.(counts := AddCounts(a.counts, d))
  {
    hide Owed, AddAccounts, AddCounts, NO_FACTS;
    OwedOne(Count(d));
    AddParts(a, d, NO_FACTS, 0, 0);
  }

  lemma RefusedKeeps(job: Job, r: nat)
    ensures AddAccounts(Attempted(r), Owed([Count(START_FAILURE), NoteStartFailure])) ==
              Eventual(job, Over(r, r, false, Refused))
  {
    hide Owed, AddAccounts, AddCounts, NO_FACTS;
    RetryCounts(r);
    OwedTwo(Count(START_FAILURE), NoteStartFailure);
    AddParts(NOTHING_DONE.(counts := START_FAILURE), ZERO, NO_FACTS, 1, 0);
    CountsZero(START_FAILURE);
    AddParts(Attempted(r), START_FAILURE, NO_FACTS, 1, 0);
  }

  lemma LocalKeeps(s: Setup, job: Job, cancelled: bool, w: Worker, e: LocalStep)
    requires WorkerInv(s, job, w) && LocalEnabled(s, cancelled, w, e)
    ensures WorkerInv(s, job, LocalNext(s, job, w, e))
  {
    hide ObservedFacts, Invalid, RetryableConnectTimeout, Owed, AddAccounts, AddCounts, Eventual, NO_FACTS;
    var n := LocalNext(s, job, w, e);
    NothingPending(w.done);
    NothingPending(n.done);
    var r := w.phase.retry;
    assert w.done == Eventual(job, w.phase);
    EventualIs(job, w.phase);
    EventualIs(job, n.phase);
    match e
    case Refuse =>
      RefusedKeeps(job, r);
    case Accept =>
    case Connect =>
      if r > 0 {
        CountKeeps(w.done, RETRY_SUCCESS);
        RetryCounts(r);
      }
    case Disconnect(o) =>
      if r < s.maxRetries && RetryableConnectTimeout(job, o) {
        CountKeeps(w.done, RETRY);
        RetryCounts(r);
      } else {
        NeverStartedKeeps(job, r, r, r > 0, o);
      }
    case Abort(o) =>
      NeverStartedKeeps(job, r, r, false, o);
    case RetryNow =>
    case RetryCancelled =>
      NeverStartedKeeps(job, r, r + 1, false, w.phase.o);
  }

  lemma RetryCounts(r: nat)
    ensures AddCounts(Attempted(r).counts, RETRY) == Attempted(r + 1).counts
    ensures r > 0 ==> AddCounts(Attempted(r).counts, RETRY_SUCCESS) == Succeeded(r).counts
    ensures AddCounts(Attempted(r).counts, START_FAILURE) == Attempted(r).counts.(startFailures := 1)
  {
    hide NO_FACTS;
  }

  lemma EventualIs(job: Job, p: Phase)
    ensures p.Dialing? || p.Connecting? ==> Eventual(job, p) == Attempted(p.retry)
    ensures p.BackingOff? ==> Eventual(job, p) == Attempted(p.retry + 1)
    ensures p.Calling? ==> Eventual(job, p) == if p.retry == 0 then PlanOnly() else Attempted(p.retry)
    ensures p.Joining? || p.Parked? || p.Closed? ==> Eventual(job, p) == Succeeded(p.retry)
  {
    hide NO_FACTS, ObservedFacts, Invalid;
  }

  lemma TearKeeps(s: Setup, job: Job, w: Worker, seen: Observation)
    requires WorkerInv(s, job, w) && w.phase.Closed?
    ensures WorkerInv(s, job, Tear(s, job, w, seen))
  {
    hide ObservedFacts, Invalid, Owed, FinalizeEffects, AddAccounts, NO_FACTS;
    var o, r, at := Reclassified(seen, s.cancelFailure), w.phase.retry, w.phase.closedAt;
    NothingPending(w.done);
    OwedTorn(job, o, at);
    var bad := Invalid(job, o, Some(at));
    AddParts(Succeeded(r), ZERO.(started := 1, runtimeFailures := if bad then 1 else 0,
        maintained := if bad then 0 else 1),
             ObservedFacts(o), 0, if o.reason == SessionFailed then 1 else 0);
  }

  // ---- The whole run ----

  function AccountsOf(workers: seq<Worker>): seq<Account> {
    seq(|workers|, i requires 0 <= i < |workers| => workers[i].done)
  }

  predicate HasAttempted(p: Phase) { !p.NotLaunched? && !(p.Calling? && p.retry == 0) }

  predicate Active(p: Phase) { p.Parked? || p.Closed? || (p.Over? && p.ending.Torn?) }

  predicate SeenInv(s: Setup, w: World) {
    && w.used == w.seen
    && (forall i :: 0 <= i < |s.jobs| && i < |w.workers| ==>
        (s.jobs[i].assetID in w.seen <==> HasAttempted(w.workers[i].phase)))
  }

  /** The handle list holds exactly the workers that connected, each once. */
  predicate HandlesInv(w: World) {
    && (forall k :: 0 <= k < |w.handles| ==> w.handles[k] < |w.workers|)
    && (forall j, k :: 0 <= j < k < |w.handles| ==> w.handles[j] != w.handles[k])
    && (forall i :: 0 <= i < |w.workers| ==> (i in w.handles <==> Active(w.workers[i].phase)))
  }

  predicate IsTorn(p: Phase) { p.Over? && p.ending.Torn? }

  predicate Resting(p: Phase) { p.NotLaunched? || p.Parked? || p.Closed? || p.Over? }

  predicate LaunchedInv(w: World) {
    && w.next <= |w.workers|
    && (forall i :: 0 <= i < |w.workers| ==> (i < w.next <==> !w.workers[i].phase.NotLaunched?))
    && (w.main != Launching ==> w.cancelled)
  }

  /** Where the main goroutine stands, and what that says about the workers. */
  predicate MainInv(w: World)
    requires HandlesInv(w)
  {
    match w.main
    case Launching => forall i :: 0 <= i < |w.workers| ==> !w.workers[i].phase.Closed? && !IsTorn(w.workers[i].phase)
    case Draining => forall i :: 0 <= i < |w.workers| ==> !w.workers[i].phase.Closed? && !IsTorn(w.workers[i].phase)
    case Closing(k) =>
      && k <= |w.handles|
      && (forall i :: 0 <= i < |w.workers| ==> w.workers[i].pending == [] && Resting(w.workers[i].phase))
      && (forall j :: 0 <= j < |w.handles| ==> if j < k then Handle(w, j).phase.Closed? else Handle(w, j).phase.Parked?)
    case Tearing(k) =>
      && k <= |w.handles|
      && (forall i :: 0 <= i < |w.workers| ==>
                        Resting(w.workers[i].phase) && (w.workers[i].pending != [] ==> k > 0 && i == w.handles[k - 1]))
      && (forall j :: 0 <= j < |w.handles| ==> if j < k then IsTorn(Handle(w, j).phase) else Handle(w, j).phase.Closed?)
    case Returned =>
      forall i :: 0 <= i < |w.workers| ==> Settled(w.workers[i])
  }

  /** The job was never launched, or its outcome has been reported in full. */
  predicate Settled(w: Worker) { w.pending == [] && (w.phase.NotLaunched? || w.phase.Over?) }

  predicate WorkersInv(s: Setup, w: World) {
    |w.workers| == |s.jobs| && forall i :: 0 <= i < |w.workers| ==> WorkerInv(s, s.jobs[i], w.workers[i])
  }

  predicate BooksInv(s: Setup, w: World)
    requires |w.workers| == |s.jobs|
  {
    w.books == Ledger(ACCOUNTS, s.jobs, AccountsOf(w.workers))
  }

  predicate Inv(s: Setup, w: World) {
    WorkersInv(s, w) && BooksInv(s, w) && SeenInv(s, w) && HandlesInv(w) && LaunchedInv(w) && MainInv(w)
  }

  lemma InitInv(s: Setup)
    ensures Inv(s, Init(s))
  {
    hide Ledger, NO_FACTS, WorkerInv, PlanOnly;
    var w := Init(s);
    assert AccountsOf(w.workers) == Each(s.jobs, PlanOnly());
    forall i | 0 <= i < |s.jobs| ensures WorkerInv(s, s.jobs[i], w.workers[i]) {
      InitWorker(s, s.jobs[i]);
    }
  }

  lemma InitWorker(s: Setup, job: Job)
    ensures WorkerInv(s, job, Worker(NotLaunched, [], {}, [], PlanOnly()))
  {
    hide NO_FACTS, AddAccounts, PlanOnly;
    NothingPending(PlanOnly());
  }

  /** A worker that changes without performing an effect leaves the books balanced. */
  lemma SetWorkerBooks(s: Setup, w: World, i: nat, worker: Worker)
    requires |w.workers| == |s.jobs| && i < |s.jobs| && BooksInv(s, w) && worker.done == w.workers[i].done
    ensures BooksInv(s, SetWorker(w, i, worker))
  {
    assert AccountsOf(w.workers[i := worker]) == AccountsOf(w.workers);
  }

  lemma BookBooks(s: Setup, w: World, i: nat, d: Account)
    requires |w.workers| == |s.jobs| && i < |s.jobs| && BooksInv(s, w)
    ensures BooksInv(s, Book(s, w, i, d))
  {
    hide Ledger, Post, AddAccounts;
    AccountsCommutative();
    LedgerPost(ACCOUNTS, s.jobs, AccountsOf(w.workers), i, d);
    assert AccountsOf(Book(s, w, i, d).workers)
        == AccountsOf(w.workers)[i := AddAccounts(w.workers[i].done, d)];
  }

  /** Effects of Local and Perform on what the main goroutine's invariants look at: none. */
  predicate SameRole(a: Phase, b: Phase) {
    && a.NotLaunched? == b.NotLaunched? && HasAttempted(a) == HasAttempted(b) && Active(a) == Active(b)
    && a.Parked? == b.Parked? && a.Closed? == b.Closed? && IsTorn(a) == IsTorn(b)
  }

  lemma SameRoleKeeps(s: Setup, w: World, i: nat, worker: Worker)
    requires |w.workers| == |s.jobs| && i < |s.jobs|
    requires SeenInv(s, w) && HandlesInv(w) && LaunchedInv(w) && MainInv(w)
    requires SameRole(w.workers[i].phase, worker.phase)
    requires w.main.Launching? || w.main.Draining? || (worker.phase == w.workers[i].phase && w.workers[i].pending != [])
    ensures var n := SetWorker(w, i, worker); SeenInv(s, n) && HandlesInv(n) && LaunchedInv(n) && MainInv(n)
  {
    hide HasAttempted, Active, IsTorn, Resting;
    var n := SetWorker(w, i, worker);
    assert forall j :: 0 <= j < |n.workers| ==> SameRole(w.workers[j].phase, n.workers[j].phase);
    assert forall k :: 0 <= k < |w.handles| ==> SameRole(Handle(w, k).phase, Handle(n, k).phase);
  }

  lemma WorkersKept(s: Setup, w: World, i: nat, worker: Worker)
    requires WorkersInv(s, w) && i < |s.jobs| && WorkerInv(s, s.jobs[i], worker)
    ensures WorkersInv(s, SetWorker(w, i, worker))
  {
    hide WorkerInv;
  }

  lemma LocalInv(s: Setup, w: World, i: nat, e: LocalStep)
    requires Inv(s, w) && Enabled(s, w, Local(i, e))
    ensures Inv(s, Next(s, w, Local(i, e)))
  {
    hide BooksInv, SeenInv, HandlesInv, LaunchedInv, WorkerInv, LocalNext, MainInv, Resting;
    var old_ := w.workers[i];
    var worker := LocalNext(s, s.jobs[i], old_, e);
    LocalKeeps(s, s.jobs[i], w.cancelled, old_, e);
    WorkersKept(s, w, i, worker);
    LocalRole(s, s.jobs[i], w.cancelled, old_, e);
    SetWorkerBooks(s, w, i, worker);
    BusyMain(w, i);
    SameRoleKeeps(s, w, i, worker);
  }

  lemma LocalRole(s: Setup, job: Job, cancelled: bool, w: Worker, e: LocalStep)
    requires LocalEnabled(s, cancelled, w, e)
    ensures var n := LocalNext(s, job, w, e); n.done == w.done && SameRole(w.phase, n.phase)
    ensures !Resting(w.phase)
  {
    hide RetryableConnectTimeout;
  }

  /** Only the launching and draining main goroutine coexists with unfinished workers. */
  lemma BusyMain(w: World, i: nat)
    requires HandlesInv(w) && MainInv(w) && i < |w.workers| && !Resting(w.workers[i].phase)
    ensures w.main.Launching? || w.main.Draining?
  {
  }

  lemma PerformInv(s: Setup, w: World, i: nat)
    requires Inv(s, w) && Enabled(s, w, Perform(i))
    ensures Inv(s, Next(s, w, Perform(i)))
  {
    hide BooksInv, SeenInv, HandlesInv, LaunchedInv, WorkerInv, MainInv, AccountOf, AddAccounts, Post, SameRole;
    var old_ := w.workers[i];
    var performed := old_.(pending := old_.pending[1..]);
    var mid := SetWorker(w, i, performed);
    var d := AccountOf(old_.pending[0]);
    SetWorkerBooks(s, w, i, performed);
    BookBooks(s, mid, i, d);
    var worker := performed.(done := AddAccounts(old_.done, d));
    PerformWorker(s, s.jobs[i], old_);
    WorkersKept(s, w, i, worker);
    MainWhilePending(w, i);
    SameRoleSelf(old_.phase);
    SameRoleKeeps(s, w, i, worker);
    assert Next(s, w, Perform(i)).workers == SetWorker(w, i, worker).workers;
    OnlyBooksDiffer(s, SetWorker(w, i, worker), Next(s, w, Perform(i)));
  }

  lemma SameRoleSelf(p: Phase)
    ensures SameRole(p, p)
  {
  }

  lemma MainWhilePending(w: World, i: nat)
    requires HandlesInv(w) && MainInv(w) && i < |w.workers| && w.workers[i].pending != []
    ensures w.main.Launching? || w.main.Draining? || w.main.Tearing?
  {
  }

  lemma PerformWorker(s: Setup, job: Job, w: Worker)
    requires WorkerInv(s, job, w) && w.pending != []
    ensures WorkerInv(s, job, w.(pending := w.pending[1..], done := AddAccounts(w.done, AccountOf(w.pending[0]))))
  {
    hide AddAccounts, AccountOf, Owed, Eventual;
    PerformKeeps(w.done, w.pending);
  }

  /** Every invariant but BooksInv ignores the books. */
  lemma OnlyBooksDiffer(s: Setup, a: World, b: World)
    requires b == a.(books := b.books)
    ensures WorkersInv(s, a) ==> WorkersInv(s, b)
    ensures SeenInv(s, a) ==> SeenInv(s, b)
    ensures HandlesInv(a) ==> HandlesInv(b)
    ensures LaunchedInv(a) ==> LaunchedInv(b)
    ensures HandlesInv(a) && HandlesInv(b) && MainInv(a) ==> MainInv(b)
  {
    hide WorkerInv, HasAttempted, Active, IsTorn, Resting, Settled;
    assert forall k :: 0 <= k < |a.handles| && HandleIn(a, k) ==> HandleIn(b, k) && Handle(a, k) == Handle(b, k);
  }

  lemma AttemptInv(s: Setup, w: World, i: nat)
    requires AllTrackable(s.jobs) && Inv(s, w) && Enabled(s, w, Attempt(i))
    ensures Inv(s, Next(s, w, Attempt(i)))
  {
    hide BooksInv, WorkerInv, MainInv, AddAccounts, Post;
    var old_, job := w.workers[i], s.jobs[i];
    var called := old_.(phase := Dialing(old_.phase.retry), calls := old_.calls + [job]);
    var mid, n := SetWorker(w, i, called), Next(s, w, Attempt(i));
    SetWorkerBooks(s, w, i, called);
    BusyMain(w, i);
    AttemptMain(w, i, called);
    assert job.assetID in w.seen <==> old_.phase.retry > 0;
    if old_.phase.retry == 0 {
      var d := NOTHING_DONE.(counts := USE);
      BookBooks(s, mid, i, d);
      var worker := called.(done := AddAccounts(called.done, d));
      AttemptWorker(s, job, old_);
      WorkersKept(s, w, i, worker);
      assert n.workers == SetWorker(w, i, worker).workers;
      AttemptMain(w, i, worker);
      SameWorkers(s, SetWorker(w, i, worker), n);
      SameBooks(s, Book(s, mid, i, d), n);
    } else {
      AttemptWorker(s, job, old_);
      WorkersKept(s, w, i, called);
    }
  }

  lemma AttemptWorker(s: Setup, job: Job, w: Worker)
    requires WorkerInv(s, job, w) && w.phase.Calling? && w.pending == []
    ensures var called := w.(phase := Dialing(w.phase.retry), calls := w.calls + [job]);
            WorkerInv(s, job, if w.phase.retry > 0 then called
                              else called.(done := AddAccounts(called.done, NOTHING_DONE.(counts := USE))))
  {
    hide AddAccounts, Owed, Eventual, NO_FACTS;
    NothingPending(w.done);
    EventualIs(job, w.phase);
    EventualIs(job, Dialing(w.phase.retry));
    if w.phase.retry == 0 {
      UseCounts();
      NothingPending(Attempted(0));
    }
  }

  lemma UseCounts()
    ensures AddAccounts(PlanOnly(), NOTHING_DONE.(counts := USE)) == Attempted(0)
  {
    hide MergeFacts, NO_FACTS;
    FactsZero(NO_FACTS);
  }

  lemma AttemptMain(w: World, i: nat, worker: Worker)
    requires HandlesInv(w) && MainInv(w) && LaunchedInv(w) && i < |w.workers|
    requires w.main.Launching? || w.main.Draining?
    requires w.workers[i].phase.Calling? && worker.phase.Dialing?
    ensures var n := SetWorker(w, i, worker); HandlesInv(n) && MainInv(n) && LaunchedInv(n)
  {
    var n := SetWorker(w, i, worker);
    assert forall k :: 0 <= k < |w.handles| ==> w.handles[k] != i;
    assert forall j :: 0 <= j < |n.workers| ==> Active(n.workers[j].phase) == Active(w.workers[j].phase);
  }

  /** Worlds that differ in books and seen assets only. */
  lemma SameWorkers(s: Setup, a: World, b: World)
    requires b == a.(books := b.books, seen := b.seen, used := b.used)
    ensures WorkersInv(s, a) ==> WorkersInv(s, b)
    ensures HandlesInv(a) ==> HandlesInv(b)
    ensures LaunchedInv(a) ==> LaunchedInv(b)
    ensures HandlesInv(a) && MainInv(a) ==> MainInv(b)
  {
    hide WorkerInv, Active, IsTorn, Resting, Settled;
    assert forall k :: 0 <= k < |a.handles| && HandleIn(a, k) ==> HandleIn(b, k) && Handle(a, k) == Handle(b, k);
  }

  lemma SameBooks(s: Setup, a: World, b: World)
    requires |a.workers| == |s.jobs| && b.workers == a.workers && b.books == a.books && BooksInv(s, a)
    ensures BooksInv(s, b)
  {
  }

  lemma LaunchInv(s: Setup, w: World)
    requires Inv(s, w) && Enabled(s, w, Launch)
    ensures Inv(s, Next(s, w, Launch))
  {
    hide BooksInv, WorkerInv;
    var i := w.next;
    var worker := w.workers[i].(phase := Calling(0));
    SetWorkerBooks(s, w, i, worker);
    LaunchWorker(s, s.jobs[i], w.workers[i]);
    WorkersKept(s, w, i, worker);
    var n := Next(s, w, Launch);
    SameBooks(s, SetWorker(w, i, worker), n);
    assert forall j :: 0 <= j < |n.workers| ==> Active(n.workers[j].phase) == Active(w.workers[j].phase);
  }

  lemma LaunchWorker(s: Setup, job: Job, w: Worker)
    requires WorkerInv(s, job, w) && w.phase.NotLaunched?
    ensures WorkerInv(s, job, w.(phase := Calling(0)))
  {
    hide AddAccounts, Owed;
  }

  lemma JoinInv(s: Setup, w: World, i: nat)
    requires Inv(s, w) && Enabled(s, w, Join(i))
    ensures Inv(s, Next(s, w, Join(i)))
  {
    hide BooksInv, WorkerInv;
    var worker := w.workers[i].(phase := Parked(w.workers[i].phase.retry));
    SetWorkerBooks(s, w, i, worker);
    JoinWorker(s, s.jobs[i], w.workers[i]);
    WorkersKept(s, w, i, worker);
    BusyMain(w, i);
    var n := Next(s, w, Join(i));
    SameBooks(s, SetWorker(w, i, worker), n);
    assert i !in w.handles;
    assert forall j :: j in n.handles <==> j in w.handles || j == i;
  }

  lemma JoinWorker(s: Setup, job: Job, w: Worker)
    requires WorkerInv(s, job, w) && w.phase.Joining? && w.pending == []
    ensures WorkerInv(s, job, w.(phase := Parked(w.phase.retry)))
  {
    hide AddAccounts, Owed, Eventual;
    EventualIs(job, w.phase);
    EventualIs(job, Parked(w.phase.retry));
  }

  lemma CloseInv(s: Setup, w: World, at: nat)
    requires Inv(s, w) && Enabled(s, w, CloseNext(at))
    ensures Inv(s, Next(s, w, CloseNext(at)))
  {
    hide BooksInv, WorkerInv;
    var k, n := w.main.k, Next(s, w, CloseNext(at));
    if k < |w.handles| {
      var i := w.handles[k];
      var worker := w.workers[i].(phase := Closed(w.workers[i].phase.retry, at));
      SetWorkerBooks(s, w, i, worker);
      CloseWorker(s, s.jobs[i], w.workers[i], at);
      WorkersKept(s, w, i, worker);
      SameBooks(s, SetWorker(w, i, worker), n);
      OneHandleChanges(w, n, k);
    } else {
      SameBooks(s, w, n);
      assert forall j :: 0 <= j < |w.handles| ==> Handle(n, j) == Handle(w, j);
    }
  }

  /** Handles are distinct, so changing the worker of handle `k` changes no other handle. */
  lemma OneHandleChanges(w: World, n: World, k: nat)
    requires HandlesInv(w) && k < |w.handles| && n.handles == w.handles && |n.workers| == |w.workers|
    requires forall i :: 0 <= i < |w.workers| && i != w.handles[k] ==> n.workers[i] == w.workers[i]
    ensures forall j :: 0 <= j < |w.handles| && j != k ==> Handle(n, j) == Handle(w, j)
  {
  }

  lemma CloseWorker(s: Setup, job: Job, w: Worker, at: nat)
    requires WorkerInv(s, job, w) && w.phase.Parked?
    ensures WorkerInv(s, job, w.(phase := Closed(w.phase.retry, at)))
  {
    hide AddAccounts, Owed, Eventual;
    EventualIs(job, w.phase);
    EventualIs(job, Closed(w.phase.retry, at));
  }

  lemma TearInv(s: Setup, w: World, o: Observation)
    requires Inv(s, w) && Enabled(s, w, TearNext(o))
    ensures Inv(s, Next(s, w, TearNext(o)))
  {
    hide BooksInv, WorkerInv, FinalizeEffects, Invalid;
    var k, n := w.main.k, Next(s, w, TearNext(o));
    var i := w.handles[k];
    var worker := Tear(s, s.jobs[i], w.workers[i], o);
    SetWorkerBooks(s, w, i, worker);
    TearKeeps(s, s.jobs[i], w.workers[i], o);
    WorkersKept(s, w, i, worker);
    SameBooks(s, SetWorker(w, i, worker), n);
    OneHandleChanges(w, n, k);
  }

  lemma MainStepInv(s: Setup, w: World, e: Step)
    requires Inv(s, w) && Enabled(s, w, e) && (e.Cancel? || e.StopLaunching? || e.BeginTeardown? || e.Return?)
    ensures Inv(s, Next(s, w, e))
  {
    hide BooksInv, WorkerInv;
    var n := Next(s, w, e);
    SameBooks(s, w, n);
    assert forall k :: 0 <= k < |w.handles| ==> HandleIn(n, k) && Handle(n, k) == Handle(w, k);
    if e.BeginTeardown? {
      assert forall i :: 0 <= i < |w.workers| && i < w.next ==> WorkerDone(w.workers[i]);
      forall i | 0 <= i < |w.workers| && i >= w.next ensures w.workers[i].pending == [] {
        IdleWorker(s, s.jobs[i], w.workers[i]);
      }
    }
    if e.Return? {
      forall i | 0 <= i < |w.workers| ensures Settled(w.workers[i]) {
        if i in w.handles {
          var j :| 0 <= j < |w.handles| && w.handles[j] == i;
          assert IsTorn(Handle(w, j).phase);
        }
      }
    }
  }

  lemma IdleWorker(s: Setup, job: Job, w: Worker)
    requires WorkerInv(s, job, w) && w.phase.NotLaunched?
    ensures w.pending == []
  {
    hide AddAccounts, Owed, Eventual;
  }

  /** Every step keeps every invariant. */
  lemma StepInv(s: Setup, w: World, e: Step)
    requires AllTrackable(s.jobs) && Inv(s, w) && Enabled(s, w, e)
    ensures Inv(s, Next(s, w, e))
  {
    hide Inv, Enabled, Next;
    match e
    case Cancel => MainStepInv(s, w, e);
    case Launch => LaunchInv(s, w);
    case StopLaunching => MainStepInv(s, w, e);
    case Local(i, l) => LocalInv(s, w, i, l);
    case Attempt(i) => AttemptInv(s, w, i);
    case Perform(i) => PerformInv(s, w, i);
    case Join(i) => JoinInv(s, w, i);
    case BeginTeardown => MainStepInv(s, w, e);
    case CloseNext(at) => CloseInv(s, w, at);
    case TearNext(o) => TearInv(s, w, o);
    case Return => MainStepInv(s, w, e);
  }

  /** Every world the scheduler can reach, by any interleaving, satisfies the invariant. */
  lemma {:induction false} ReachableInv(s: Setup, steps: seq<Step>)
    requires AllTrackable(s.jobs) && Run(s, steps).Some?
    ensures Inv(s, Run(s, steps).value)
  {
    hide Inv, Enabled, Next;
    if steps == [] {
      InitInv(s);
    } else {
      var front := steps[..|steps| - 1];
      ReachableInv(s, front);
      StepInv(s, Run(s, front).value, steps[|steps| - 1]);
    }
  }
}
