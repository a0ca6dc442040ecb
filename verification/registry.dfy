/** An agent's registry of runs: at most one executes at a time, and terminal states stay. */
module Registries {
  import opened Wrappers
  import opened Scenario
  import opened Tracking
  import opened Partitioning
  import opened PartitionProperties

  // ---- Requests ----

  datatype Capabilities = Capabilities(capacity: int, directCapacity: int, browserCapacity: int,
                                       directProtocols: seq<Protocol>)
  datatype RunRequest = RunRequest(
    runID: string, rampNanos: int, holdNanos: int, connectRetries: int, sshActivityIntervalNanos: int,
        sshActivityMode: string,
    graphicalActivityIntervalNanos: map<Protocol, int>, jobs: seq<Job>)

  const SECOND := 1_000_000_000
  const MINUTE := 60_000_000_000

  predicate WholeSecondsToAMinute(nanos: int) {
    SECOND <= nanos <= MINUTE && nanos % SECOND == 0
  }

  predicate Graphical(p: Protocol) { p in {RDP, VNC, Web, MySQL} }

  predicate ValidWireJob(job: Job, c: Capabilities) {
    && job.id >= 1 && job.assetID != "" && job.accountID != "" && KnownProtocol(job.protocol)
    && (job.mode == Direct || job.mode == Browser)
    && (job.mode == Direct ==> job.protocol in c.directProtocols)
    && (job.mode == Browser ==> Graphical(job.protocol))
  }

  /** The checks on the jobs of a request. */
  predicate ValidJobs(jobs: seq<Job>, c: Capabilities) {
    && 1 <= |jobs| <= c.capacity
    && (forall job :: job in jobs ==> ValidWireJob(job, c)) && DistinctJobs(jobs)
    && CountMode(jobs, Direct) <= c.directCapacity && CountMode(jobs, Browser) <= c.browserCapacity
  }

  predicate ValidRunRequest(r: RunRequest, c: Capabilities) {
    && r.runID != "" && r.rampNanos > 0 && r.holdNanos > 0 && 0 <= r.connectRetries <= 3
    && WholeSecondsToAMinute(r.sshActivityIntervalNanos)
    && r.sshActivityMode in {"", "output", "keepalive"}
    && (forall p :: p in r.graphicalActivityIntervalNanos ==>
          Graphical(p) && WholeSecondsToAMinute(r.graphicalActivityIntervalNanos[p]))
    && ValidJobs(r.jobs, c)
  }

  lemma JobsNext(jobs: seq<Job>, n: nat, c: Capabilities)
    requires n < |jobs|
    ensures CountMode(jobs[..n + 1], Direct) == CountMode(jobs[..n], Direct) + if jobs[n].mode == Direct then 1 else 0
    ensures CountMode(jobs[..n + 1], Browser) == CountMode(jobs[..n], Browser) + if jobs[n].mode == Browser then 1 else
              0
    ensures DistinctJobs(jobs[..n]) ==>
              (DistinctJobs(jobs[..n + 1]) <==>
                 forall k :: 0 <= k < n ==>
                     jobs[k].id != jobs[n].id && jobs[k].assetID != jobs[n].assetID &&
                         jobs[k].accountID != jobs[n].accountID)
    ensures DistinctJobs(jobs) ==> DistinctJobs(jobs[..n + 1])
  {
    assert jobs[..n + 1] == jobs[..n] + [jobs[n]];
    CountAppend(jobs[..n], jobs[n], InModeOf(Direct));
    CountAppend(jobs[..n], jobs[n], InModeOf(Browser));
    assert forall k :: 0 <= k < n ==> jobs[..n + 1][k] == jobs[..n][k] == jobs[k];
    assert jobs[..n + 1][n] == jobs[n];
  }

  method ValidateJobs(jobs: seq<Job>, c: Capabilities) returns (ok: bool)
    ensures ok <==> ValidJobs(jobs, c)
  {
    hide CountIf, DistinctJobs;
    if |jobs| == 0 || |jobs| > c.capacity {
      return false;
    }
    var direct, browser := 0, 0;
    var assets, accounts: set<string>, ids: set<int> := {}, {}, {};
    var n := 0;
    assert jobs[..0] == [];
    assert DistinctJobs([]) && CountMode([], Direct) == 0 && CountMode([], Browser) == 0 by {
      NoJobs();
    }
    while n < |jobs|
      invariant n <= |jobs| && DistinctJobs(jobs[..n])
      invariant forall k :: 0 <= k < n ==> ValidWireJob(jobs[k], c)
      invariant direct == CountMode(jobs[..n], Direct) && browser == CountMode(jobs[..n], Browser)
      invariant assets == (set k | 0 <= k < n :: jobs[k].assetID) &&
                  accounts == (set k | 0 <= k < n :: jobs[k].accountID)
      invariant ids == set k | 0 <= k < n :: jobs[k].id
    {
      var job := jobs[n];
      assert job in jobs;
      JobsNext(jobs, n, c);
      if job.id < 1 || job.assetID == "" || job.accountID == "" || !KnownProtocol(job.protocol) {
        return false;
      }
      match job.mode {
        case Direct =>
          direct := direct + 1;
          if job.protocol !in c.directProtocols {
            return false;
          }
        case Browser =>
          browser := browser + 1;
          if !Graphical(job.protocol) {
            return false;
          }
        case _ => return false;
      }
      if job.id in ids || job.assetID in assets || job.accountID in accounts {
        return false;
      }
      ids, assets, accounts := ids + {job.id}, assets + {job.assetID}, accounts + {job.accountID};
      n := n + 1;
    }
    assert jobs[..n] == jobs;
    return direct <= c.directCapacity && browser <= c.browserCapacity;
  }

  lemma NoJobs()
    ensures DistinctJobs([]) && CountMode([], Direct) == 0 && CountMode([], Browser) == 0
  {
  }

  method ValidateRunRequest(r: RunRequest, c: Capabilities) returns (ok: bool)
    ensures ok <==> ValidRunRequest(r, c)
  {
    hide ValidJobs;
    if r.runID == "" || r.rampNanos <= 0 || r.holdNanos <= 0 || r.connectRetries < 0 || r.connectRetries > 3
       || !WholeSecondsToAMinute(r.sshActivityIntervalNanos)
       || (r.sshActivityMode != "" && r.sshActivityMode != "output" && r.sshActivityMode != "keepalive") {
      return false;
    }
    var remaining := r.graphicalActivityIntervalNanos.Keys;
    while remaining != {}
      invariant remaining <= r.graphicalActivityIntervalNanos.Keys
      invariant forall p :: p in r.graphicalActivityIntervalNanos.Keys - remaining ==>
                  Graphical(p) && WholeSecondsToAMinute(r.graphicalActivityIntervalNanos[p])
      decreases remaining
    {
      var p :| p in remaining;
      if !Graphical(p) || !WholeSecondsToAMinute(r.graphicalActivityIntervalNanos[p]) {
        return false;
      }
      remaining := remaining - {p};
    }
    ok := ValidateJobs(r.jobs, c);
  }

  // ---- What an agent accepts, rule by rule ----

  /** One of the whole seconds from one to sixty. */
  predicate IsWholeSecond(nanos: int) { exists n :: 1 <= n <= 60 && nanos == n * 1_000_000_000 }

  lemma WholeSecondsAre(nanos: int)
    ensures WholeSecondsToAMinute(nanos) <==> IsWholeSecond(nanos)
  {
    if WholeSecondsToAMinute(nanos) {
      var n := nanos / 1_000_000_000;
      assert nanos == n * 1_000_000_000 && 1 <= n <= 60;
    }
  }

  function HowMany(jobs: seq<Job>, mode: Mode): nat {
    if jobs == [] then 0 else (if jobs[0].mode == mode then 1 else 0) + HowMany(jobs[1..], mode)
  }

  lemma {:induction false} HowManyCounted(jobs: seq<Job>, mode: Mode)
    ensures CountMode(jobs, mode) == HowMany(jobs, mode)
  {
    hide CountIf;
    if jobs == [] {
      NoneCounted(mode);
    } else {
      HowManyCounted(jobs[1..], mode);
      CountConcat([jobs[0]], jobs[1..], InModeOf(mode));
      CountAppend([], jobs[0], InModeOf(mode));
      NoneCounted(mode);
      assert [] + [jobs[0]] == [jobs[0]] && [jobs[0]] + jobs[1..] == jobs;
    }
  }

  lemma NoneCounted(mode: Mode)
    ensures CountMode([], mode) == 0
  {
  }

  /** At least one job and at most as many as the agent takes, in all and of each mode; each with a positive number
      and bound, no number, asset or account twice; direct ones of a protocol the agent supports, browser ones of any
      known protocol but SSH. */
  predicate JobsAcceptable(jobs: seq<Job>, c: Capabilities) {
    && jobs != [] && |jobs| <= c.capacity
    && HowMany(jobs, Direct) <= c.directCapacity && HowMany(jobs, Browser) <= c.browserCapacity
    && (forall k :: 0 <= k < |jobs| ==>
          && jobs[k].id > 0 && jobs[k].assetID != "" && jobs[k].accountID != ""
          && match (jobs[k].protocol, jobs[k].mode)
             case (OtherProtocol(_), _) => false
             case (_, OtherMode(_)) => false
             case (p, Direct) => p in c.directProtocols
             case (p, Browser) => p != SSH)
    && (forall j, k :: 0 <= j < k < |jobs| ==>
          jobs[j].id != jobs[k].id && jobs[j].assetID != jobs[k].assetID && jobs[j].accountID != jobs[k].accountID)
  }

  lemma AcceptableJobs(jobs: seq<Job>, c: Capabilities)
    ensures ValidJobs(jobs, c) <==> JobsAcceptable(jobs, c)
  {
    hide CountIf, HowMany;
    HowManyCounted(jobs, Direct);
    HowManyCounted(jobs, Browser);
    assert forall k :: 0 <= k < |jobs| ==> jobs[k] in jobs;
  }

  /** A request is accepted exactly if it names its run, lasts, retries at most three times, types into SSH sessions
      and moves graphical ones at whole seconds up to a minute, in a known way, and its jobs are acceptable. */
  lemma AcceptedExactly(r: RunRequest, c: Capabilities)
    ensures ValidRunRequest(r, c) <==>
              && |r.runID| > 0 && r.rampNanos >= 1 && r.holdNanos >= 1
              && (r.connectRetries == 0 || r.connectRetries == 1 || r.connectRetries == 2 || r.connectRetries == 3)
              && IsWholeSecond(r.sshActivityIntervalNanos)
              && (r.sshActivityMode == "" || r.sshActivityMode == "output" || r.sshActivityMode == "keepalive")
              && (forall p :: p in r.graphicalActivityIntervalNanos ==>
                    (p == RDP || p == VNC || p == Web || p == MySQL)
                    && IsWholeSecond(r.graphicalActivityIntervalNanos[p]))
              && JobsAcceptable(r.jobs, c)
  {
    hide ValidJobs, JobsAcceptable, WholeSecondsToAMinute, IsWholeSecond;
    AcceptableJobs(r.jobs, c);
    forall nanos ensures WholeSecondsToAMinute(nanos) <==> IsWholeSecond(nanos) {
      WholeSecondsAre(nanos);
    }
  }

  // ---- The registry's state ----

  datatype Record = Record(status: Status, report: Option<Report>, cancelRequested: bool)

  /** `executing` are the runs whose executor goroutine has not finished. */
  datatype State = State(runs: map<string, Record>, active: string, executing: set<string>)

  const NO_RUNS := State(map[], "", {})

  predicate Terminal(s: Status) { s in {Completed, Failed, Cancelled} }

  predicate StartAllowed(s: State, r: RunRequest, c: Capabilities) {
    ValidRunRequest(r, c) && r.runID !in s.runs && s.active == ""
  }

  function StartNext(s: State, r: RunRequest, c: Capabilities): State {
    if StartAllowed(s, r, c)
    then State(s.runs[r.runID := Record(Running, None, false)], r.runID, s.executing + {r.runID})
    else s
  }

  function CancelNext(s: State, id: string): State {
    if id in s.runs && (s.runs[id].status == Running || s.runs[id].status == Pending)
    then s.(runs := s.runs[id := s.runs[id].(cancelRequested := true)])
    else s
  }

  /** Cancelled from the moment cancellation has been requested. */
  function CancelAnswer(s: State, id: string): Option<Status> {
    if id !in s.runs then None
    else Some(if CancelNext(s, id).runs[id].cancelRequested then Cancelled else s.runs[id].status)
  }

  function StatusAnswer(s: State, id: string): Option<Record> {
    if id in s.runs then Some(s.runs[id]) else None
  }

  /** The executor's end: its report is stored under the run's identity and final status. */
  function CompleteNext(s: State, id: string, report: Report, failed: bool, parentCancelled: bool): State {
    if id !in s.executing || id !in s.runs then s
    else
      var status := if s.runs[id].cancelRequested || parentCancelled then Cancelled else if failed then Failed else
            Completed;
      State(s.runs[id := s.runs[id].(status := status, report := Some(report.(runID := id, status := status)))],
            if s.active == id then "" else s.active, s.executing - {id})
  }

  datatype Event =
    | Start(request: RunRequest)
    | Cancel(id: string)
    | Complete(id: string, report: Report, failed: bool, parentCancelled: bool)

  function Next(s: State, c: Capabilities, e: Event): State {
    match e
    case Start(r) => StartNext(s, r, c)
    case Cancel(id) => CancelNext(s, id)
    case Complete(id, report, failed, parentCancelled) => CompleteNext(s, id, report, failed, parentCancelled)
  }

  function RunAll(s: State, c: Capabilities, events: seq<Event>): State {
    if events == [] then s else Next(RunAll(s, c, events[..|events| - 1]), c, events[|events| - 1])
  }

  /** At most one run executes, it is the active one and the only one Running; a run has its report
      exactly when it is terminal, under its own ID and status; a cancelled run cannot end otherwise. */
  predicate Inv(s: State) {
    && s.executing == (if s.active == "" then {} else {s.active})
    && (s.active != "" ==> s.active in s.runs)
    && (forall id :: id in s.runs ==>
          && id != ""
          && (s.runs[id].status == Running <==> id == s.active)
          && (s.runs[id].status == Running || Terminal(s.runs[id].status))
          && (Terminal(s.runs[id].status) <==> s.runs[id].report.Some?)
          && (s.runs[id].report.Some? ==>
              s.runs[id].report.value.runID == id && s.runs[id].report.value.status == s.runs[id].status)
          && (s.runs[id].cancelRequested ==> s.runs[id].status in {Running, Cancelled}))
  }

  /** What no event undoes: runs stay known, terminal runs stay as they are, and a run that was asked to
      cancel still has to be cancelled or is. */
  predicate Kept(s: State, t: State) {
    forall id :: id in s.runs ==>
      && id in t.runs
      && (Terminal(s.runs[id].status) ==> t.runs[id] == s.runs[id])
      && (s.runs[id].cancelRequested ==> t.runs[id].cancelRequested)
  }

  /** A run begins exactly if its request is valid, its name new and the agent idle, and then nothing else changes. */
  lemma StartExactly(s: State, r: RunRequest, c: Capabilities)
    ensures var t := StartNext(s, r, c);
            if ValidRunRequest(r, c) && (forall id :: id in s.runs ==> id != r.runID) && s.active == "" then
              && t.active == r.runID && t.executing == s.executing + {r.runID} && t.runs.Keys == s.runs.Keys + {r.runID}
              && t.runs[r.runID].status == Running && t.runs[r.runID].report == None && !t.runs[r.runID].cancelRequested
              && forall id :: id in s.runs ==> t.runs[id] == s.runs[id]
            else t == s
  {
    hide ValidRunRequest;
  }

  /** A Cancel marks a run that has not ended, and nothing else; the answer is the run's status, or cancelled for a
      run that is marked. */
  lemma CancelExactly(s: State, id: string)
    ensures var t := CancelNext(s, id);
            && t.active == s.active && t.executing == s.executing && t.runs.Keys == s.runs.Keys
            && (forall other :: other in s.runs && other != id ==> t.runs[other] == s.runs[other])
            && (id in s.runs ==>
                  && t.runs[id].status == s.runs[id].status && t.runs[id].report == s.runs[id].report
                  && (t.runs[id].cancelRequested <==>
                        s.runs[id].cancelRequested || s.runs[id].status == Running || s.runs[id].status == Pending))
            && (CancelAnswer(s, id) == None <==> id !in s.runs)
            && (id in s.runs ==>
                  CancelAnswer(s, id) == Some(if t.runs[id].cancelRequested then Cancelled else s.runs[id].status))
  {
  }

  /** How a run ends: cancelled if it was asked to or the agent is shutting down, otherwise failed if its executor
      failed, otherwise completed; under its own name and that status, and the agent is free again. */
  lemma CompleteExactly(s: State, id: string, report: Report, failed: bool, parentCancelled: bool)
    requires Inv(s) && id in s.executing
    ensures var t := CompleteNext(s, id, report, failed, parentCancelled);
            && id in t.runs && t.runs.Keys == s.runs.Keys && t.active == "" && t.executing == {}
            && (forall other :: other in s.runs && other != id ==> t.runs[other] == s.runs[other])
            && (t.runs[id].status == Cancelled <==> s.runs[id].cancelRequested || parentCancelled)
            && (t.runs[id].status == Failed <==> !s.runs[id].cancelRequested && !parentCancelled && failed)
            && (t.runs[id].status == Completed <==> !s.runs[id].cancelRequested && !parentCancelled && !failed)
            && t.runs[id].report.Some?
            && t.runs[id].report.value == report.(runID := id, status := t.runs[id].status)
  {
  }

  lemma EventInv(s: State, c: Capabilities, e: Event)
    requires Inv(s)
    ensures Inv(Next(s, c, e)) && Kept(s, Next(s, c, e))
  {
    hide Inv, Kept;
    match e
    case Start(r) => StartInv(s, c, r);
    case Cancel(id) => CancelInv(s, id);
    case Complete(id, report, failed, parentCancelled) => CompleteInv(s, id, report, failed, parentCancelled);
  }

  lemma StartInv(s: State, c: Capabilities, r: RunRequest)
    requires Inv(s)
    ensures Inv(StartNext(s, r, c)) && Kept(s, StartNext(s, r, c))
  {
    hide ValidRunRequest;
    NamedRun(r, c);
  }

  lemma CancelInv(s: State, id: string)
    requires Inv(s)
    ensures Inv(CancelNext(s, id)) && Kept(s, CancelNext(s, id))
  {
  }

  lemma CompleteInv(s: State, id: string, report: Report, failed: bool, parentCancelled: bool)
    requires Inv(s)
    ensures var t := CompleteNext(s, id, report, failed, parentCancelled); Inv(t) && Kept(s, t)
  {
  }

  lemma NamedRun(r: RunRequest, c: Capabilities)
    ensures ValidRunRequest(r, c) ==> r.runID != ""
  {
  }

  lemma {:induction false} EveryRunInv(s: State, c: Capabilities, events: seq<Event>)
    requires Inv(s)
    ensures Inv(RunAll(s, c, events)) && Kept(s, RunAll(s, c, events))
  {
    hide Inv, Next;
    if events == [] {
      KeptSelf(s);
    } else {
      var mid := RunAll(s, c, events[..|events| - 1]);
      EveryRunInv(s, c, events[..|events| - 1]);
      EventInv(mid, c, events[|events| - 1]);
      KeptFurther(s, mid, RunAll(s, c, events));
    }
  }

  lemma KeptSelf(s: State)
    ensures Kept(s, s)
  {
  }

  lemma KeptFurther(s: State, t: State, u: State)
    requires Kept(s, t) && Kept(t, u)
    ensures Kept(s, u)
  {
  }

  lemma EmptyInv()
    ensures Inv(NO_RUNS)
  {
  }

  /** A Cancel answered Cancelled: whatever follows, the run is never completed or failed. */
  lemma CancelledEndsCancelled(s: State, c: Capabilities, id: string, events: seq<Event>)
    requires Inv(s) && CancelAnswer(s, id) == Some(Cancelled)
    ensures var t := RunAll(CancelNext(s, id), c, events);
            id in t.runs && (t.runs[id].status == Running ==> t.runs[id].cancelRequested)
            && t.runs[id].status in {Running, Cancelled}
  {
    hide Next;
    var now := CancelNext(s, id);
    EventInv(s, c, Cancel(id));
    assert Next(s, c, Cancel(id)) == now by {
      NextCancel(s, c, id);
    }
    EveryRunInv(now, c, events);
  }

  lemma NextCancel(s: State, c: Capabilities, id: string)
    ensures Next(s, c, Cancel(id)) == CancelNext(s, id)
  {
  }

  /** A Start that succeeds finds every earlier executor finished and its run terminal, whatever came before. */
  lemma StartWaitsForExecutor(c: Capabilities, events: seq<Event>, r: RunRequest)
    requires StartAllowed(RunAll(NO_RUNS, c, events), r, c)
    ensures var s := RunAll(NO_RUNS, c, events);
            s.executing == {} && forall id :: id in s.runs ==> Terminal(s.runs[id].status)
  {
    hide Next, ValidRunRequest;
    EmptyInv();
    EveryRunInv(NO_RUNS, c, events);
  }

  // ---- The registry itself ----

  class Registry {
    const capabilities: Capabilities
    var runs: map<string, Record>
    var active: string
    var executing: set<string>

    function Now(): State
      reads this
    {
      State(runs, active, executing)
    }

    constructor (capabilities: Capabilities)
      ensures this.capabilities == capabilities && Now() == NO_RUNS
    {
      this.capabilities := capabilities;
      runs, active, executing := map[], "", {};
    }

    /** Some answer: the number of jobs accepted. */
    method Start(request: RunRequest) returns (accepted: Option<nat>)
      modifies this
      ensures Now() == StartNext(old(Now()), request, capabilities)
      ensures accepted == if StartAllowed(old(Now()), request, capabilities) then Some(|request.jobs|) else None
    {
      hide ValidRunRequest;
      var valid := ValidateRunRequest(request, capabilities);
      if !valid || request.runID in runs || active != "" {
        return None;
      }
      runs := runs[request.runID := Record(Running, None, false)];
      active := request.runID;
      executing := executing + {request.runID};
      return Some(|request.jobs|);
    }

    method Status(id: string) returns (answer: Option<Record>)
      ensures answer == StatusAnswer(Now(), id)
    {
      if id !in runs {
        return None;
      }
      return Some(runs[id]);
    }

    method Cancel(id: string) returns (answer: Option<Status>)
      modifies this`runs
      ensures Now() == CancelNext(old(Now()), id)
      ensures answer == CancelAnswer(old(Now()), id)
    {
      if id !in runs {
        return None;
      }
      match runs[id].status {
        case Running => runs := runs[id := runs[id].(cancelRequested := true)];
        case Pending => runs := runs[id := runs[id].(cancelRequested := true)];
        case _ =>
      }
      var status := runs[id].status;
      if runs[id].cancelRequested {
        status := Cancelled;
      }
      return Some(status);
    }

    /** The tail of the goroutine that Start launched for `id`. */
    method Finish(id: string, result: Report, failed: bool, parentCancelled: bool)
      requires id in executing && id in runs
      modifies this
      ensures Now() == CompleteNext(old(Now()), id, result, failed, parentCancelled)
    {
      var record, report := runs[id], result;
      if record.cancelRequested || parentCancelled {
        report := report.(runID := id, status := Cancelled);
        record := record.(status := Cancelled, report := Some(report));
      } else if failed {
        report := report.(runID := id, status := Failed);
        record := record.(status := Failed, report := Some(report));
      } else {
        report := report.(runID := id, status := Completed);
        record := record.(status := Completed, report := Some(report));
      }
      runs := runs[id := record];
      executing := executing - {id};
      if active == id {
        active := "";
      }
    }
  }
}
