/** The runner and the handles that report to the tracker: they perform exactly the effects the
    scheduler's machine books. */
module Reporting {
  import opened Wrappers
  import opened Sums
  import opened Scenario
  import opened Marginals
  import opened Ledgers
  import opened Accounting
  import opened Evidence
  import opened Tracking
  import opened Aggregation
  import opened Accounts
  import opened Scheduling
  import opened SchedulingReports

  /** The job was planned: entries exist under all its keys. */
  predicate Booked<V>(books: Margins<V>, job: Job) {
    job.protocol in books.byProtocol && job.mode in books.byMode && DimensionOf(job) in books.byDimension
  }

  /** The tracker's counters and evidence are those of the books. */
  ghost predicate TrackerShows(t: Tracker, books: Margins<Account>)
    reads t
  {
    t.Counted() == MapMargins(books, CountsPart) && t.Observed() == MapMargins(books, FactsPart)
  }

  function PostAll(books: Margins<Account>, job: Job, effects: seq<Effect>): Margins<Account>
    decreases |effects|
  {
    if effects == [] then books else PostAll(Post(ACCOUNTS, books, job, AccountOf(effects[0])), job, effects[1..])
  }

  lemma PostAllNext(books: Margins<Account>, job: Job, e: Effect, rest: seq<Effect>)
    ensures PostAll(books, job, [e] + rest) == PostAll(Post(ACCOUNTS, books, job, AccountOf(e)), job, rest)
  {
    hide Post;
    assert ([e] + rest)[1..] == rest;
  }

  lemma MapPost<V(!new), W>(m: Monoid<V>, n: Monoid<W>, f: V -> W, books: Margins<V>, job: Job, d: V)
    requires Homomorphism(m, n, f)
    ensures MapMargins(Post(m, books, job, d), f) == Post(n, MapMargins(books, f), job, f(d))
  {
    hide MapValues, Add;
    MapAdd(m, n, f, books.byProtocol, job.protocol, d);
    MapAdd(m, n, f, books.byMode, job.mode, d);
    MapAdd(m, n, f, books.byDimension, DimensionOf(job), d);
  }

  lemma PostNothing<V(!new)>(m: Monoid<V>, books: Margins<V>, job: Job)
    requires Commutative(m) && Booked(books, job)
    ensures Post(m, books, job, m.zero) == books
  {
    AddNothing(m, books.total);
    AddNothing(m, books.byProtocol[job.protocol]);
    AddNothing(m, books.byMode[job.mode]);
    AddNothing(m, books.byDimension[DimensionOf(job)]);
  }

  lemma AddNothing<V(!new)>(m: Monoid<V>, v: V)
    requires Commutative(m)
    ensures m.plus(v, m.zero) == v
  {
    assert m.plus(m.zero, v) == v;
  }

  /** A counter effect: the tracker's counters move as the books do, the evidence stays. */
  lemma CountBooked(books: Margins<Account>, job: Job, d: Counts)
    requires Booked(books, job)
    ensures var after := Post(ACCOUNTS, books, job, AccountOf(Count(d)));
            && MapMargins(after, CountsPart) == Post(COUNTS, MapMargins(books, CountsPart), job, d)
            && MapMargins(after, FactsPart) == MapMargins(books, FactsPart)
            && Booked(after, job)
  {
    hide Post, MapMargins, Homomorphism, Commutative, NO_FACTS;
    BookedAfter(books, job, AccountOf(Count(d)));
    CountsPartIsSum();
    FactsPartIsSum();
    FactsCommutative();
    MapPost(ACCOUNTS, COUNTS, CountsPart, books, job, AccountOf(Count(d)));
    MapPost(ACCOUNTS, FACTS, FactsPart, books, job, AccountOf(Count(d)));
    MapBooked(books, FactsPart, job);
    PostNothing(FACTS, MapMargins(books, FactsPart), job);
  }

  lemma ObserveBooked(books: Margins<Account>, job: Job, o: Observation)
    requires Booked(books, job)
    ensures var after := Post(ACCOUNTS, books, job, AccountOf(Observe(o)));
            && MapMargins(after, FactsPart) == Post(FACTS, MapMargins(books, FactsPart), job, ObservedFacts(o))
            && MapMargins(after, CountsPart) == MapMargins(books, CountsPart)
            && Booked(after, job)
  {
    hide Post, MapMargins, Homomorphism, Commutative, NO_FACTS, ObservedFacts;
    BookedAfter(books, job, AccountOf(Observe(o)));
    CountsPartIsSum();
    FactsPartIsSum();
    CountsCommutative();
    MapPost(ACCOUNTS, COUNTS, CountsPart, books, job, AccountOf(Observe(o)));
    MapPost(ACCOUNTS, FACTS, FactsPart, books, job, AccountOf(Observe(o)));
    MapBooked(books, CountsPart, job);
    PostNothing(COUNTS, MapMargins(books, CountsPart), job);
  }

  lemma BookedAfter(books: Margins<Account>, job: Job, d: Account)
    ensures Booked(Post(ACCOUNTS, books, job, d), job)
  {
    hide AddAccounts;
  }

  lemma MapBooked<V, W>(books: Margins<V>, f: V -> W, job: Job)
    requires Booked(books, job)
    ensures Booked(MapMargins(books, f), job)
  {
  }

  /** The wrapped handle of one runner call. */
  class ReportingHandle {
    const job: Job
    const tracker: Tracker
    var once: bool
    var closedAt: Option<nat>

    constructor (job: Job, tracker: Tracker)
      ensures this.job == job && this.tracker == tracker && !once && closedAt == None
    {
      this.job, this.tracker := job, tracker;
      once, closedAt := false, None;
    }

    method Close(now: nat)
      modifies this`closedAt
      ensures closedAt == Some(now)
    {
      closedAt := Some(now);
    }

    method ConnectRetry(ghost books: Margins<Account>)
      requires tracker.Valid() && TrackerShows(tracker, books) && Booked(books, job)
      modifies tracker
      ensures tracker.Valid() && TrackerShows(tracker, PostAll(books, job, [Count(RETRY)]))
      ensures tracker.used == old(tracker.used)
    {
      hide Post, MapMargins, Balanced, Commutative, Add, Category;
      tracker.ConnectRetry(job);
      CountBooked(books, job, RETRY);
    }

    method ConnectRetrySucceeded(ghost books: Margins<Account>)
      requires tracker.Valid() && TrackerShows(tracker, books) && Booked(books, job)
      modifies tracker
      ensures tracker.Valid() && TrackerShows(tracker, PostAll(books, job, [Count(RETRY_SUCCESS)]))
      ensures tracker.used == old(tracker.used)
    {
      hide Post, MapMargins, Balanced, Commutative, Add, Category;
      tracker.ConnectRetrySucceeded(job);
      CountBooked(books, job, RETRY_SUCCESS);
    }

    method ConnectRetryExhausted(ghost books: Margins<Account>)
      requires tracker.Valid() && TrackerShows(tracker, books) && Booked(books, job)
      modifies tracker
      ensures tracker.Valid() && TrackerShows(tracker, PostAll(books, job, [Count(RETRY_EXHAUSTED)]))
      ensures tracker.used == old(tracker.used)
    {
      hide Post, MapMargins, Balanced, Commutative, Add, Category;
      tracker.ConnectRetryExhausted(job);
      CountBooked(books, job, RETRY_EXHAUSTED);
    }

    /** The first call books the observation and one verdict; every later call does nothing. */
    method Finalize(o: Observation, connected: bool, ghost books: Margins<Account>)
      requires tracker.Valid() && TrackerShows(tracker, books) && Booked(books, job)
      modifies this`once, tracker
      ensures once && tracker.Valid() && tracker.used == old(tracker.used)
      ensures TrackerShows(tracker, PostAll(books, job,
                if old(once) then [] else FinalizeEffects(job, o, connected, closedAt)))
      ensures tracker.failureReasons
           == if old(once) || (connected && !Invalid(job, o, closedAt)) then old(tracker.failureReasons)
              else Add(INTS, old(tracker.failureReasons), Category(if connected then "runtime" else "start", o.failure),
                  1)
    {
      hide Post, MapMargins, Balanced, Commutative, Add, Category, Invalid, ObservedFacts;
      if once {
        return;
      }
      once := true;
      tracker.Record(job, o);
      ObserveBooked(books, job, o);
      ghost var recorded := Post(ACCOUNTS, books, job, AccountOf(Observe(o)));
      PostAllNext(books, job, Observe(o), FinalizeEffects(job, o, connected, closedAt)[1..]);
      if connected {
        Conclude(o, recorded);
        assert [Observe(o)] + VerdictEffects(o) == FinalizeEffects(job, o, connected, closedAt);
      } else {
        tracker.StartFailed(job, o.failure);
        CountBooked(recorded, job, START_FAILURE);
      }
    }

    /** What Finalize still books for a connected session once its observation is recorded. */
    ghost function VerdictEffects(o: Observation): seq<Effect>
      reads this`closedAt
    {
      [Count(START), Count(if Invalid(job, o, closedAt) then RUNTIME_FAILURE else MAINTAIN)]
    }

    /** The end of Finalize for a connected session: started, and whether it was maintained. */
    method Conclude(o: Observation, ghost books: Margins<Account>)
      requires tracker.Valid() && TrackerShows(tracker, books) && Booked(books, job)
      modifies tracker
      ensures tracker.Valid() && tracker.used == old(tracker.used)
      ensures TrackerShows(tracker, PostAll(books, job, VerdictEffects(o)))
      ensures tracker.failureReasons
           == if !Invalid(job, o, closedAt) then old(tracker.failureReasons)
              else Add(INTS, old(tracker.failureReasons), Category("runtime", o.failure), 1)
    {
      hide Post, MapMargins, Balanced, Commutative, Add, Category, Invalid;
      tracker.Started(job);
      CountBooked(books, job, START);
      ghost var started := Post(ACCOUNTS, books, job, AccountOf(Count(START)));
      PostAllNext(books, job, Count(START), VerdictEffects(o)[1..]);
      if Invalid(job, o, closedAt) {
        tracker.RuntimeFailed(job, o.failure);
        CountBooked(started, job, RUNTIME_FAILURE);
      } else {
        tracker.Maintained(job);
        CountBooked(started, job, MAINTAIN);
      }
      assert [Count(START)] + VerdictEffects(o)[1..] == VerdictEffects(o);
    }
  }

  class ReportingRunner {
    const tracker: Tracker
    var seen: set<string>

    constructor (tracker: Tracker)
      ensures this.tracker == tracker && seen == {}
    {
      this.tracker := tracker;
      seen := {};
    }

    /** Run up to the call of the inner runner: the first call for an asset is an attempt. */
    method Enter(job: Job, ghost books: Margins<Account>)
      requires tracker.Valid() && TrackerShows(tracker, books) && Booked(books, job)
      modifies this`seen, tracker
      ensures tracker.Valid() && seen == old(seen) + {job.assetID}
      ensures TrackerShows(tracker, PostAll(books, job, EntryEffects(job, old(seen), old(tracker.used))))
      ensures tracker.used == if job.assetID in old(seen) then old(tracker.used) else old(tracker.used) + {job.assetID}
      ensures tracker.failureReasons == old(tracker.failureReasons)
    {
      hide Post, MapMargins, Balanced, Commutative, Add, Category;
      if job.assetID !in seen {
        seen := seen + {job.assetID};
        ghost var d := if job.assetID in tracker.used then DUPLICATE else USE;
        tracker.Attempt(job);
        CountBooked(books, job, d);
      }
    }

    /** Run from the answer of the inner runner: an error, or a handle, which is wrapped. */
    method Answer(job: Job, failure: Option<Option<Failure>>, ghost books: Margins<Account>)
      returns (handle: Option<ReportingHandle>)
      requires tracker.Valid() && TrackerShows(tracker, books) && Booked(books, job)
      modifies tracker
      ensures tracker.Valid() && tracker.used == old(tracker.used)
      ensures TrackerShows(tracker, PostAll(books, job, if failure.Some? then [Count(START_FAILURE)] else []))
      ensures tracker.failureReasons
           == if failure.Some? then Add(INTS, old(tracker.failureReasons), Category("start", failure.value), 1)
              else old(tracker.failureReasons)
      ensures handle.Some? <==> failure.None?
      ensures handle.Some? ==>
                fresh(handle.value) && handle.value.job == job && handle.value.tracker == tracker && !handle.value.once
    {
      hide Post, MapMargins, Balanced, Commutative, Add, Category;
      if failure.Some? {
        tracker.StartFailed(job, failure.value);
        CountBooked(books, job, START_FAILURE);
        return None;
      }
      var h := new ReportingHandle(job, tracker);
      return Some(h);
    }

    /** Run, given what the inner runner answers. */
    method Run(job: Job, failure: Option<Option<Failure>>, ghost books: Margins<Account>)
      returns (handle: Option<ReportingHandle>)
      requires tracker.Valid() && TrackerShows(tracker, books) && Booked(books, job)
      modifies this`seen, tracker
      ensures tracker.Valid() && seen == old(seen) + {job.assetID}
      ensures TrackerShows(tracker, PostAll(books, job, EntryEffects(job, old(seen), old(tracker.used)) +
                if failure.Some? then [Count(START_FAILURE)] else []))
      ensures tracker.used == if job.assetID in old(seen) then old(tracker.used) else old(tracker.used) + {job.assetID}
      ensures tracker.failureReasons
           == if failure.Some? then Add(INTS, old(tracker.failureReasons), Category("start", failure.value), 1)
              else old(tracker.failureReasons)
      ensures handle.Some? <==> failure.None?
      ensures handle.Some? ==>
                fresh(handle.value) && handle.value.job == job && handle.value.tracker == tracker && !handle.value.once
    {
      hide Post, MapMargins, Balanced, Commutative, Add, Category;
      ghost var entry := EntryEffects(job, seen, tracker.used);
      PostAllBooked(books, job, entry);
      PostAllConcat(books, job, entry, if failure.Some? then [Count(START_FAILURE)] else []);
      Enter(job, books);
      handle := Answer(job, failure, PostAll(books, job, entry));
    }
  }

  /** The runner's effect before the inner call: one attempt per asset, over all calls. */
  function EntryEffects(job: Job, seen: set<string>, used: set<string>): seq<Effect> {
    if job.assetID in seen then [] else [Count(if job.assetID in used then DUPLICATE else USE)]
  }

  lemma {:induction false} PostAllBooked(books: Margins<Account>, job: Job, effects: seq<Effect>)
    requires Booked(books, job)
    ensures Booked(PostAll(books, job, effects), job)
    decreases |effects|
  {
    hide Post, AccountOf, Booked;
    if effects != [] {
      BookedAfter(books, job, AccountOf(effects[0]));
      PostAllBooked(Post(ACCOUNTS, books, job, AccountOf(effects[0])), job, effects[1..]);
    }
  }

  lemma {:induction false} PostAllConcat(books: Margins<Account>, job: Job, a: seq<Effect>, b: seq<Effect>)
    ensures PostAll(books, job, a + b) == PostAll(PostAll(books, job, a), job, b)
    decreases |a|
  {
    hide Post, AccountOf;
    if a == [] {
      assert a + b == b;
    } else {
      assert (a + b)[1..] == a[1..] + b;
      PostAllConcat(Post(ACCOUNTS, books, job, AccountOf(a[0])), job, a[1..], b);
    }
  }

  /** Effects posted one by one are one posting of what they amount to. */
  lemma {:induction false} PostAllOwed(books: Margins<Account>, job: Job, effects: seq<Effect>)
    requires Booked(books, job)
    ensures PostAll(books, job, effects) == Post(ACCOUNTS, books, job, Owed(effects))
    decreases |effects|
  {
    hide Post, AccountOf, AddAccounts, Booked, Commutative, NO_FACTS;
    AccountsCommutative();
    if effects == [] {
      PostNothing(ACCOUNTS, books, job);
    } else {
      var d, rest := AccountOf(effects[0]), effects[1..];
      BookedAfter(books, job, d);
      PostAllOwed(Post(ACCOUNTS, books, job, d), job, rest);
      PostSwap(ACCOUNTS, books, job, d, job, Owed(rest));
    }
  }

  /** A snapshot of a tracker that shows the books is a report of them. */
  lemma SnapshotShows(t: Tracker, r: Report, books: Margins<Account>)
    requires TrackerShows(t, books)
    requires r.counts == DerivedMargins(t.Counted()) && FactsMargins(r.evidence) == t.Observed() &&
               Everywhere(r.evidence, IsFinal)
    ensures Shows(r, books)
  {
    hide Everywhere, FactsMargins;
    MapTwice(books.byProtocol);
    MapTwice(books.byMode);
    MapTwice(books.byDimension);
  }

  lemma MapTwice<K>(source: map<K, Account>)
    ensures MapValues(MapValues(source, CountsPart), Derived) == MapValues(source, DerivedPart)
  {
  }

  /** The scheduler's own failure counts do not touch the tracker. */
  lemma NoteBooked(books: Margins<Account>, job: Job, d: Account)
    requires Booked(books, job) && d.counts == ZERO && d.facts == NO_FACTS
    ensures var after := Post(ACCOUNTS, books, job, d);
            && MapMargins(after, CountsPart) == MapMargins(books, CountsPart)
            && MapMargins(after, FactsPart) == MapMargins(books, FactsPart)
            && Booked(after, job)
  {
    hide Post, MapMargins, Homomorphism, Commutative, NO_FACTS;
    BookedAfter(books, job, d);
    CountsPartIsSum();
    FactsPartIsSum();
    CountsCommutative();
    FactsCommutative();
    MapPost(ACCOUNTS, COUNTS, CountsPart, books, job, d);
    MapPost(ACCOUNTS, FACTS, FactsPart, books, job, d);
    MapBooked(books, CountsPart, job);
    MapBooked(books, FactsPart, job);
    PostNothing(COUNTS, MapMargins(books, CountsPart), job);
    PostNothing(FACTS, MapMargins(books, FactsPart), job);
  }
}
