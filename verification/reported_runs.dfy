/** A tracker driven along a run as the scheduler drives it: through the reporting runner and its handles. */
module ReportedRuns {
  import opened Wrappers
  import opened Sums
  import opened Scenario
  import opened Marginals
  import opened Ledgers
  import opened Accounting
  import opened Evidence
  import opened Tracking
  import opened Accounts
  import opened Scheduling
  import opened SchedulingInvariant
  import opened SchedulingReports
  import opened Reporting

  // ---- The books ahead of the run ----

  /** What each job's effects amount to once the pending ones have been performed. */
  function Promised(workers: seq<Worker>): seq<Account> {
    seq(|workers|, i requires 0 <= i < |workers| => AddAccounts(workers[i].done, Owed(workers[i].pending)))
  }

  /** The books once every pending effect has been performed. */
  function Ahead(s: Setup, w: World): Margins<Account>
    requires |w.workers| == |s.jobs|
  {
    Ledger(ACCOUNTS, s.jobs, Promised(w.workers))
  }

  /** Once its pending effects have been performed, every job stands where its phase says. */
  lemma EachEventual(s: Setup, w: World)
    requires Inv(s, w)
    ensures forall i :: 0 <= i < |s.jobs| ==> Promised(w.workers)[i] == Eventual(s.jobs[i], w.workers[i].phase)
  {
    hide Eventual, AddAccounts, Owed, BooksInv, SeenInv, HandlesInv, LaunchedInv, MainInv;
  }

  /** Once nothing is pending, the run has caught up. */
  lemma CaughtUp(s: Setup, w: World)
    requires Inv(s, w) && forall i :: 0 <= i < |w.workers| ==> w.workers[i].pending == []
    ensures Ahead(s, w) == w.books
  {
    hide WorkerInv, HandlesInv, SeenInv, LaunchedInv, MainInv, Ledger, AddAccounts, Owed;
    forall i | 0 <= i < |w.workers| ensures Promised(w.workers)[i] == w.workers[i].done {
      NothingPending(w.workers[i].done);
    }
    assert Promised(w.workers) == AccountsOf(w.workers);
  }

  lemma AheadStays(s: Setup, w: World, n: World)
    requires |w.workers| == |n.workers| == |s.jobs|
    requires forall i :: 0 <= i < |s.jobs| ==> Promised(n.workers)[i] == Promised(w.workers)[i]
    ensures Ahead(s, n) == Ahead(s, w)
  {
    assert Promised(n.workers) == Promised(w.workers);
  }

  /** A worker that owes more effects moves the books ahead by them. */
  lemma AheadMoves(s: Setup, w: World, n: World, i: nat, effects: seq<Effect>)
    requires i < |s.jobs| == |w.workers| == |n.workers|
    requires forall j :: 0 <= j < |s.jobs| && j != i ==> n.workers[j] == w.workers[j]
    requires AddAccounts(n.workers[i].done, Owed(n.workers[i].pending))
          == AddAccounts(AddAccounts(w.workers[i].done, Owed(w.workers[i].pending)), Owed(effects))
    ensures Ahead(s, n) == PostAll(Ahead(s, w), s.jobs[i], effects)
  {
    hide Ledger, AddAccounts, Owed, Post, AllBooked, Commutative, NO_FACTS;
    var now := Promised(w.workers);
    assert Promised(n.workers) == now[i := AddAccounts(now[i], Owed(effects))];
    AccountsCommutative();
    LedgerPost(ACCOUNTS, s.jobs, now, i, Owed(effects));
    LedgerBooked(s.jobs, now);
    BookedJob(Ahead(s, w), s.jobs, i);
    PostAllOwed(Ahead(s, w), s.jobs[i], effects);
  }

  lemma LocalAhead(s: Setup, w: World, i: nat, l: LocalStep)
    requires |w.workers| == |s.jobs| && Enabled(s, w, Local(i, l))
    ensures i < |s.jobs| && LocalEnabled(s, w.cancelled, w.workers[i], l)
    ensures Ahead(s, Next(s, w, Local(i, l)))
         == PostAll(Ahead(s, w), s.jobs[i], LocalNext(s, s.jobs[i], w.workers[i], l).pending)
  {
    hide AddAccounts, Owed, NO_FACTS, Ahead, FinalizeEffects, RetryableConnectTimeout;
    NothingPending(w.workers[i].done);
    AheadMoves(s, w, Next(s, w, Local(i, l)), i, LocalNext(s, s.jobs[i], w.workers[i], l).pending);
  }

  lemma TearAhead(s: Setup, w: World, o: Observation)
    requires WorkersInv(s, w) && Enabled(s, w, TearNext(o))
    ensures var i := w.handles[w.main.k];
            i < |s.jobs| && w.workers[i].phase.Closed? &&
            Ahead(s, Next(s, w, TearNext(o)))
            == PostAll(Ahead(s, w), s.jobs[i], Tear(s, s.jobs[i], w.workers[i], o).pending)
  {
    hide AddAccounts, Owed, NO_FACTS, Ahead, FinalizeEffects, Reclassified, Eventual;
    var i := w.handles[w.main.k];
    assert WorkerInv(s, s.jobs[i], w.workers[i]);
    NothingPending(w.workers[i].done);
    AheadMoves(s, w, Next(s, w, TearNext(o)), i, Tear(s, s.jobs[i], w.workers[i], o).pending);
  }

  lemma AttemptAhead(s: Setup, w: World, i: nat)
    requires |w.workers| == |s.jobs| && Enabled(s, w, Attempt(i))
    ensures i < |s.jobs|
    ensures Ahead(s, Next(s, w, Attempt(i)))
         == PostAll(Ahead(s, w), s.jobs[i], EntryEffects(s.jobs[i], w.seen, w.used))
    ensures Next(s, w, Attempt(i)).seen == w.seen + {s.jobs[i].assetID}
    ensures Next(s, w, Attempt(i)).used
         == if s.jobs[i].assetID in w.seen then w.used else w.used + {s.jobs[i].assetID}
  {
    hide AddAccounts, Owed, NO_FACTS, Ahead, Post;
    var n := Next(s, w, Attempt(i));
    var effects := EntryEffects(s.jobs[i], w.seen, w.used);
    NothingPending(w.workers[i].done);
    NothingPending(n.workers[i].done);
    if effects != [] {
      OwedOne(effects[0]);
    }
    AheadMoves(s, w, n, i, effects);
  }

  lemma PerformAhead(s: Setup, w: World, i: nat)
    requires |w.workers| == |s.jobs| && Enabled(s, w, Perform(i))
    ensures Ahead(s, Next(s, w, Perform(i))) == Ahead(s, w)
  {
    hide AddAccounts, AccountOf, Owed, NO_FACTS, Ahead, Post;
    PerformKeeps(w.workers[i].done, w.workers[i].pending);
    AheadStays(s, w, Next(s, w, Perform(i)));
  }

  /** Steps that call neither the runner nor a handle, or only close one. */
  predicate Silent(e: Step) { !e.Local? && !e.Attempt? && !e.TearNext? }

  lemma SilentAhead(s: Setup, w: World, e: Step)
    requires |w.workers| == |s.jobs| && Enabled(s, w, e) && Silent(e)
    requires e.Launch? ==> w.next < |w.workers|
    ensures Ahead(s, Next(s, w, e)) == Ahead(s, w)
    ensures Next(s, w, e).seen == w.seen && Next(s, w, e).used == w.used
  {
    hide AddAccounts, Owed, NO_FACTS, Ahead, Post, AccountOf;
    if e.Perform? {
      PerformAhead(s, w, e.i);
    } else {
      AheadStays(s, w, Next(s, w, e));
    }
  }

  // ---- The books have entries for every job ----

  predicate AllBooked(books: Margins<Account>, jobs: seq<Job>) {
    forall i :: 0 <= i < |jobs| ==> Booked(books, jobs[i])
  }

  lemma StillBooked(books: Margins<Account>, jobs: seq<Job>, job: Job, d: Account)
    requires AllBooked(books, jobs)
    ensures AllBooked(Post(ACCOUNTS, books, job, d), jobs)
  {
    hide AddAccounts;
  }

  lemma {:induction false} LedgerBooked(jobs: seq<Job>, accounts: seq<Account>)
    requires |jobs| == |accounts|
    ensures AllBooked(Ledger(ACCOUNTS, jobs, accounts), jobs)
  {
    hide Post, Booked;
    if jobs != [] {
      var n := |jobs| - 1;
      LedgerBooked(jobs[..n], accounts[..n]);
      BookedNext(jobs, Ledger(ACCOUNTS, jobs[..n], accounts[..n]), accounts[n]);
    }
  }

  lemma BookedNext(jobs: seq<Job>, front: Margins<Account>, d: Account)
    requires jobs != [] && AllBooked(front, jobs[..|jobs| - 1])
    ensures AllBooked(Post(ACCOUNTS, front, jobs[|jobs| - 1], d), jobs)
  {
    hide Post, Booked;
    var n := |jobs| - 1;
    var b := Post(ACCOUNTS, front, jobs[n], d);
    StillBooked(front, jobs[..n], jobs[n], d);
    BookedAfter(front, jobs[n], d);
    forall i | 0 <= i < |jobs| ensures Booked(b, jobs[i]) {
      if i < n {
        assert jobs[..n][i] == jobs[i];
      }
    }
  }

  /** A new tracker shows the books a run starts with. */
  lemma NewTrackerShows(t: Tracker, jobs: seq<Job>)
    requires t.Counted() == Ledger(COUNTS, jobs, Each(jobs, PLAN)) &&
               t.Observed() == Ledger(FACTS, jobs, Each(jobs, FACTS.zero))
    ensures TrackerShows(t, Ledger(ACCOUNTS, jobs, Each(jobs, PlanOnly())))
  {
    hide Ledger, MapMargins, Homomorphism, NO_FACTS;
    CountsPartIsSum();
    FactsPartIsSum();
    LedgerMap(ACCOUNTS, COUNTS, CountsPart, jobs, Each(jobs, PlanOnly()));
    LedgerMap(ACCOUNTS, FACTS, FactsPart, jobs, Each(jobs, PlanOnly()));
    assert MapSeq(Each(jobs, PlanOnly()), CountsPart) == Each(jobs, PLAN);
    assert MapSeq(Each(jobs, PlanOnly()), FactsPart) == Each(jobs, FACTS.zero);
  }

  lemma BookedJob(books: Margins<Account>, jobs: seq<Job>, i: nat)
    requires AllBooked(books, jobs) && i < |jobs|
    ensures Booked(books, jobs[i])
  {
  }

  // ---- One worker and its handle ----

  predicate HasHandle(p: Phase) { p.Connecting? || p.BackingOff? || p.Joining? || p.Parked? || p.Closed? }

  /** The wrapped handle of the worker's last call, which has not been finalized. */
  ghost predicate HandleFor(h: ReportingHandle?, job: Job, t: Tracker, p: Phase)
    reads h
  {
    HasHandle(p) ==>
      && h != null && h.job == job && h.tracker == t && !h.once && (p.Closed? ==> h.closedAt == Some(p.closedAt))
  }

  /** The scheduler's failure counts, after the calls of a handle or of the runner. */
  lemma NoteAfter(books: Margins<Account>, job: Job, effects: seq<Effect>, note: Effect)
    requires Booked(books, job) && (note.NoteStartFailure? || note.NoteRuntimeFailure?)
    ensures var before, after := PostAll(books, job, effects), PostAll(books, job, effects + [note]);
            MapMargins(after, CountsPart) == MapMargins(before, CountsPart) &&
            MapMargins(after, FactsPart) == MapMargins(before, FactsPart)
  {
    hide Post, MapMargins, NO_FACTS, Booked;
    PostAllBooked(books, job, effects);
    PostAllConcat(books, job, effects, [note]);
    NoteBooked(PostAll(books, job, effects), job, AccountOf(note));
  }

  /** finalize(h, observation, false), and the count of a failed start. */
  method EndUnconnected(handle: ReportingHandle, o: Observation, ghost books: Margins<Account>)
    requires handle.tracker.Valid() && TrackerShows(handle.tracker, books) && Booked(books, handle.job) && !handle.once
    modifies handle`once, handle.tracker
    ensures handle.tracker.Valid() && handle.tracker.used == old(handle.tracker.used)
    ensures TrackerShows(handle.tracker, PostAll(books, handle.job,
              FinalizeEffects(handle.job, o, false, None) + [NoteStartFailure]))
  {
    hide Post, MapMargins, Balanced, Booked;
    handle.Finalize(o, false, books);
    NoteAfter(books, handle.job, FinalizeEffects(handle.job, o, false, None), NoteStartFailure);
  }

  /** runner.Run returns an error, which is counted. */
  method EndRefused(job: Job, runner: ReportingRunner, failure: Option<Failure>, ghost books: Margins<Account>)
    requires runner.tracker.Valid() && TrackerShows(runner.tracker, books) && Booked(books, job)
    modifies runner.tracker
    ensures runner.tracker.Valid() && runner.tracker.used == old(runner.tracker.used)
    ensures TrackerShows(runner.tracker, PostAll(books, job, [Count(START_FAILURE), NoteStartFailure]))
  {
    hide Post, MapMargins, Balanced, Booked;
    var refused := runner.Answer(job, Some(failure), books);
    NoteAfter(books, job, [Count(START_FAILURE)], NoteStartFailure);
    assert [Count(START_FAILURE)] + [NoteStartFailure] == [Count(START_FAILURE), NoteStartFailure];
  }

  /** The same after the last retry. */
  method EndExhausted(handle: ReportingHandle, o: Observation, ghost books: Margins<Account>)
    requires handle.tracker.Valid() && TrackerShows(handle.tracker, books) && Booked(books, handle.job) && !handle.once
    modifies handle`once, handle.tracker
    ensures handle.tracker.Valid() && handle.tracker.used == old(handle.tracker.used)
    ensures TrackerShows(handle.tracker, PostAll(books, handle.job,
              [Count(RETRY_EXHAUSTED)] + FinalizeEffects(handle.job, o, false, None) + [NoteStartFailure]))
  {
    hide Post, MapMargins, Balanced, Booked, FinalizeEffects;
    ghost var end := FinalizeEffects(handle.job, o, false, None) + [NoteStartFailure];
    PostAllBooked(books, handle.job, [Count(RETRY_EXHAUSTED)]);
    PostAllConcat(books, handle.job, [Count(RETRY_EXHAUSTED)], end);
    handle.ConnectRetryExhausted(books);
    EndUnconnected(handle, o, PostAll(books, handle.job, [Count(RETRY_EXHAUSTED)]));
    assert [Count(RETRY_EXHAUSTED)] + FinalizeEffects(handle.job, o, false, None) + [NoteStartFailure]
        == [Count(RETRY_EXHAUSTED)] + end;
  }

  /** One of the worker's own steps, by the calls the scheduler makes there. */
  method TakeLocal(s: Setup, job: Job, ghost cancelled: bool, w: Worker, l: LocalStep, runner: ReportingRunner,
                   handle: ReportingHandle?, failure: Option<Failure>, ghost books: Margins<Account>)
    returns (after: ReportingHandle?)
    requires WorkerInv(s, job, w) && LocalEnabled(s, cancelled, w, l)
    requires runner.tracker.Valid() && TrackerShows(runner.tracker, books) && Booked(books, job)
    requires HandleFor(handle, job, runner.tracker, w.phase)
    modifies runner.tracker, handle
    ensures runner.tracker.Valid() && runner.tracker.used == old(runner.tracker.used)
    ensures TrackerShows(runner.tracker, PostAll(books, job, LocalNext(s, job, w, l).pending))
    ensures HandleFor(after, job, runner.tracker, LocalNext(s, job, w, l).phase)
    ensures after == handle || fresh(after)
  {
    hide Post, MapMargins, Balanced, Booked, Eventual, AddAccounts, Owed, RetryableConnectTimeout, FinalizeEffects,
         TrackerShows;
    after := handle;
    match l {
      case Refuse =>
        EndRefused(job, runner, failure, books);
      case Accept =>
        var accepted := runner.Answer(job, None, books);
        after := accepted.value;
      case Connect =>
        if w.phase.retry > 0 {
          handle.ConnectRetrySucceeded(books);
        }
      case Disconnect(o) =>
        if w.phase.retry < s.maxRetries && RetryableConnectTimeout(job, o) {
          handle.ConnectRetry(books);
        } else if w.phase.retry > 0 {
          EndExhausted(handle, o, books);
        } else {
          EndUnconnected(handle, o, books);
          assert [] + FinalizeEffects(job, o, false, None) == FinalizeEffects(job, o, false, None);
        }
      case Abort(o) =>
        EndUnconnected(handle, o, books);
        assert [] + FinalizeEffects(job, o, false, None) == FinalizeEffects(job, o, false, None);
      case RetryNow =>
      case RetryCancelled =>
        EndUnconnected(handle, w.phase.o, books);
        assert [] + FinalizeEffects(job, w.phase.o, false, None) == FinalizeEffects(job, w.phase.o, false, None);
    }
  }

  /** The body of the teardown loop for one active handle. */
  method TearDown(s: Setup, job: Job, w: Worker, seen: Observation, handle: ReportingHandle,
                  ghost books: Margins<Account>)
    requires WorkerInv(s, job, w) && w.phase.Closed?
    requires handle.tracker.Valid() && TrackerShows(handle.tracker, books) && Booked(books, job)
    requires HandleFor(handle, job, handle.tracker, w.phase)
    modifies handle`once, handle.tracker
    ensures handle.tracker.Valid() && handle.tracker.used == old(handle.tracker.used)
    ensures TrackerShows(handle.tracker, PostAll(books, job, Tear(s, job, w, seen).pending))
  {
    hide Post, MapMargins, Balanced, Booked, Eventual, AddAccounts, Owed, FinalizeEffects, Reclassified;
    var o := Reclassified(seen, s.cancelFailure);
    ghost var effects := FinalizeEffects(job, o, true, Some(w.phase.closedAt));
    handle.Finalize(o, true, books);
    assert [] + effects == effects && effects + [] == effects;
    NoteAfter(books, job, effects, NoteRuntimeFailure);
  }

  // ---- A whole run ----

  /** Each worker's handle; no handle serves two workers. */
  ghost predicate HandlesReady(jobs: seq<Job>, workers: seq<Worker>, t: Tracker, handles: seq<ReportingHandle?>)
    reads handles
  {
    && |handles| == |workers| == |jobs|
    && (forall i, j :: 0 <= i < j < |handles| ==> handles[i] == null || handles[i] != handles[j])
    && (forall i :: 0 <= i < |handles| ==> HandleFor(handles[i], jobs[i], t, workers[i].phase))
  }

  /** The runner and its tracker stand ahead of the run by the effects still pending. */
  ghost predicate Standing(s: Setup, w: World, runner: ReportingRunner)
    reads runner, runner.tracker
  {
    && |w.workers| == |s.jobs|
    && runner.tracker.Valid() && TrackerShows(runner.tracker, Ahead(s, w))
    && runner.seen == w.seen && runner.tracker.used == w.used
  }

  lemma AheadBooked(s: Setup, w: World, i: nat)
    requires i < |s.jobs| == |w.workers|
    ensures Booked(Ahead(s, w), s.jobs[i])
  {
    hide Ledger, Booked;
    LedgerBooked(s.jobs, Promised(w.workers));
    BookedJob(Ahead(s, w), s.jobs, i);
  }

  /** Only one worker's phase changes, and its handle with it. */
  lemma ReadyAfter(jobs: seq<Job>, workers: seq<Worker>, t: Tracker, handles: seq<ReportingHandle?>, i: nat,
                   after: ReportingHandle?, worker: Worker)
    requires i < |handles| == |workers| == |jobs|
    requires forall j, k :: 0 <= j < k < |handles| ==> handles[j] == null || handles[j] != handles[k]
    requires forall j :: 0 <= j < |handles| && j != i ==> HandleFor(handles[j], jobs[j], t, workers[j].phase)
    requires after == handles[i] || after !in handles
    requires HandleFor(after, jobs[i], t, worker.phase)
    ensures HandlesReady(jobs, workers[i := worker], t, handles[i := after])
  {
    hide HandleFor;
  }

  method StepLocal(s: Setup, w: World, i: nat, l: LocalStep, runner: ReportingRunner, handles: seq<ReportingHandle?>,
                   failure: Option<Failure>)
    returns (after: seq<ReportingHandle?>)
    requires Inv(s, w) && Enabled(s, w, Local(i, l))
    requires Standing(s, w, runner) && HandlesReady(s.jobs, w.workers, runner.tracker, handles)
    modifies runner.tracker, handles
    ensures Standing(s, Next(s, w, Local(i, l)), runner)
    ensures HandlesReady(s.jobs, Next(s, w, Local(i, l)).workers, runner.tracker, after)
    ensures forall i :: 0 <= i < |after| ==> after[i] in handles || fresh(after[i])
  {
    hide WorkerInv, BooksInv, SeenInv, HandlesInv, LaunchedInv, MainInv, LocalNext, LocalEnabled, Ahead, TrackerShows,
         Booked, PostAll, Balanced;
    LocalAhead(s, w, i, l);
    AheadBooked(s, w, i);
    var h := TakeLocal(s, s.jobs[i], w.cancelled, w.workers[i], l, runner, handles[i], failure, Ahead(s, w));
    after := handles[i := h];
    ReadyAfter(s.jobs, w.workers, runner.tracker, handles, i, h, LocalNext(s, s.jobs[i], w.workers[i], l));
  }

  method StepAttempt(s: Setup, w: World, i: nat, runner: ReportingRunner, ghost handles: seq<ReportingHandle?>)
    requires Inv(s, w) && Enabled(s, w, Attempt(i))
    requires Standing(s, w, runner) && HandlesReady(s.jobs, w.workers, runner.tracker, handles)
    modifies runner`seen, runner.tracker
    ensures Standing(s, Next(s, w, Attempt(i)), runner)
    ensures HandlesReady(s.jobs, Next(s, w, Attempt(i)).workers, runner.tracker, handles)
  {
    hide WorkerInv, BooksInv, SeenInv, HandlesInv, LaunchedInv, MainInv, Ahead, TrackerShows, Booked, PostAll, Post,
         AddAccounts, EntryEffects, Balanced;
    AttemptAhead(s, w, i);
    AheadBooked(s, w, i);
    runner.Enter(s.jobs[i], Ahead(s, w));
    ReadyAfter(s.jobs, w.workers, runner.tracker, handles, i, handles[i], Next(s, w, Attempt(i)).workers[i]);
    assert handles[i := handles[i]] == handles;
  }

  method StepTear(s: Setup, w: World, o: Observation, runner: ReportingRunner, handles: seq<ReportingHandle?>)
    requires Inv(s, w) && Enabled(s, w, TearNext(o))
    requires Standing(s, w, runner) && HandlesReady(s.jobs, w.workers, runner.tracker, handles)
    modifies runner.tracker, handles
    ensures Standing(s, Next(s, w, TearNext(o)), runner)
    ensures HandlesReady(s.jobs, Next(s, w, TearNext(o)).workers, runner.tracker, handles)
  {
    hide WorkerInv, BooksInv, SeenInv, LaunchedInv, MainInv, Ahead, TrackerShows, Booked, PostAll, FinalizeEffects,
         Balanced, Reclassified;
    TearAhead(s, w, o);
    var i := w.handles[w.main.k];
    AheadBooked(s, w, i);
    TearDown(s, s.jobs[i], w.workers[i], o, handles[i], Ahead(s, w));
    ReadyAfter(s.jobs, w.workers, runner.tracker, handles, i, handles[i], Tear(s, s.jobs[i], w.workers[i], o));
    assert handles[i := handles[i]] == handles;
  }

  method StepSilent(s: Setup, w: World, e: Step, runner: ReportingRunner, handles: seq<ReportingHandle?>)
    requires Inv(s, w) && Enabled(s, w, e) && Silent(e)
    requires Standing(s, w, runner) && HandlesReady(s.jobs, w.workers, runner.tracker, handles)
    modifies handles
    ensures Standing(s, Next(s, w, e), runner)
    ensures HandlesReady(s.jobs, Next(s, w, e).workers, runner.tracker, handles)
  {
    hide WorkerInv, BooksInv, SeenInv, LaunchedInv, MainInv, Ahead, TrackerShows, Post, AddAccounts, Balanced;
    SilentAhead(s, w, e);
    if e.CloseNext? && w.main.k < |w.handles| {
      handles[w.handles[w.main.k]].Close(e.at);
    }
  }

  /** One step of the run, by the calls that the scheduler makes in it. */
  method TakeStep(s: Setup, w: World, e: Step, runner: ReportingRunner, handles: seq<ReportingHandle?>,
                  failure: Option<Failure>)
    returns (after: seq<ReportingHandle?>)
    requires Inv(s, w) && Enabled(s, w, e)
    requires Standing(s, w, runner) && HandlesReady(s.jobs, w.workers, runner.tracker, handles)
    modifies runner`seen, runner.tracker, handles
    ensures Standing(s, Next(s, w, e), runner)
    ensures HandlesReady(s.jobs, Next(s, w, e).workers, runner.tracker, after)
    ensures forall i :: 0 <= i < |after| ==> after[i] in handles || fresh(after[i])
  {
    hide Inv, Enabled, Next, Ahead, Standing, HandlesReady;
    after := handles;
    match e {
      case Local(i, l) => after := StepLocal(s, w, i, l, runner, handles, failure);
      case Attempt(i) => StepAttempt(s, w, i, runner, handles);
      case TearNext(o) => StepTear(s, w, o, runner, handles);
      case _ => StepSilent(s, w, e, runner, handles);
    }
  }

  /** Drive a tracker along any run. At every point it shows, of each job, what the job's phase demands; and
      once the run is over, exactly the books of the run, however its steps were interleaved. */
  method Follow(s: Setup, steps: seq<Step>, failures: nat -> Option<Failure>, runID: string, build: string)
    returns (t: Tracker)
    requires AllTrackable(s.jobs) && build != "" && Scheduling.Run(s, steps).Some?
    ensures fresh(t) && t.Valid() && t.runID == runID && t.build == build
    ensures var w := Scheduling.Run(s, steps).value;
            && TrackerShows(t, Ahead(s, w)) && t.used == w.used
            && (forall i :: 0 <= i < |s.jobs| ==>
                Promised(w.workers)[i] == Eventual(s.jobs[i], w.workers[i].phase))
            && (RunOver(s, steps) ==> TrackerShows(t, w.books))
  {
    hide Scheduling.Run, Enabled, Next, MapMargins, Balanced, Ledger, Everywhere, Inv, TrackerShows, Ahead,
         HandlesReady, Promised, Eventual;
    var made := NewTracker(runID, build, s.jobs);
    t := made.value;
    var runner := new ReportingRunner(t);
    var handles: seq<ReportingHandle?> := seq(|s.jobs|, i => null);
    var w := Init(s);
    FollowBegins(s, t, runner, handles);
    assert steps[..0] == [];
    var n := 0;
    while n < |steps|
      invariant n <= |steps| && Scheduling.Run(s, steps[..n]) == Some(w) && Inv(s, w) && |w.workers| == |s.jobs|
      invariant runner.tracker == t && Standing(s, w, runner) && HandlesReady(s.jobs, w.workers, t, handles)
      invariant fresh(t) && fresh(runner)
      invariant forall i :: 0 <= i < |handles| ==> handles[i] == null || fresh(handles[i])
    {
      RunStep(s, steps, n);
      handles := TakeStep(s, w, steps[n], runner, handles, failures(n));
      StepInv(s, w, steps[n]);
      w := Next(s, w, steps[n]);
      n := n + 1;
    }
    assert steps[..n] == steps;
    EachEventual(s, w);
    if RunOver(s, steps) {
      OverSettled(s, steps);
      CaughtUp(s, w);
    }
  }

  lemma FollowBegins(s: Setup, t: Tracker, runner: ReportingRunner, handles: seq<ReportingHandle?>)
    requires t.Valid() && t.Counted() == Ledger(COUNTS, s.jobs, Each(s.jobs, PLAN)) &&
               t.Observed() == Ledger(FACTS, s.jobs, Each(s.jobs, FACTS.zero)) && t.used == {}
    requires runner.tracker == t && runner.seen == {} && |handles| == |s.jobs|
    requires forall i :: 0 <= i < |handles| ==> handles[i] == null
    ensures Scheduling.Run(s, []) == Some(Init(s)) && Inv(s, Init(s)) && |Init(s).workers| == |s.jobs|
    ensures Standing(s, Init(s), runner) && HandlesReady(s.jobs, Init(s).workers, t, handles)
  {
    hide Inv, Ledger, MapMargins, Balanced, NO_FACTS, PlanOnly, Owed, AddAccounts;
    InitInv(s);
    NewTrackerShows(t, s.jobs);
    NothingPending(PlanOnly());
    assert Promised(Init(s).workers) == Each(s.jobs, PlanOnly());
  }

  /** A run that is possible is possible up to every step. */
  lemma RunStep(s: Setup, steps: seq<Step>, n: nat)
    requires n < |steps| && Run(s, steps).Some?
    ensures Run(s, steps[..n]).Some? && Run(s, steps[..n + 1]).Some?
    ensures var w := Run(s, steps[..n]).value;
            Enabled(s, w, steps[n]) && Run(s, steps[..n + 1]).value == Next(s, w, steps[n])
  {
    hide Enabled, Next;
    RunPrefix(s, steps, n + 1);
    assert steps[..n + 1][..n] == steps[..n];
  }

  lemma {:induction false} RunPrefix(s: Setup, steps: seq<Step>, n: nat)
    requires n <= |steps| && Run(s, steps).Some?
    ensures Run(s, steps[..n]).Some?
  {
    hide Enabled, Next;
    if n == |steps| {
      assert steps[..n] == steps;
    } else {
      RunPrefix(s, steps[..|steps| - 1], n);
      assert steps[..|steps| - 1][..n] == steps[..n];
    }
  }
}
