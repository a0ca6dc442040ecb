/** The controller: it starts an agent per slice, polls them, cleans up on the first trouble, and aggregates.
    What it has done is read off the network's record of its calls. */
module Controllers {
  import opened Wrappers
  import opened Scenario
  import opened Tracking
  import opened Aggregation
  import opened AggregationProperties
  import opened Partitioning
  import opened Networks
  import opened CallLogs
  import opened CallCauses
  import Registries

  /** How a run of the controller ends: without error; with an aggregate and an error; or with an error alone. */
  datatype Outcome = Succeeded(report: Report) | EndedWith(report: Report) | StartFailed | CleanupFailed | NotAggregated

  datatype Plan = Plan(
    runID: string, build: string, agents: seq<Agent>, assignments: map<string, seq<Job>>,
    template: Registries.RunRequest, startDelay: bool, connectionOnly: bool, horizon: nat)

  predicate ValidPlan(p: Plan) { DistinctIDs(p.agents) && p.template.runID == p.runID }

  predicate HasJobs(p: Plan, a: string) { a in p.assignments && p.assignments[a] != [] }

  function RequestFor(p: Plan, a: string): Request
    requires HasJobs(p, a)
  {
    Request(a, p.template.(jobs := p.assignments[a]))
  }

  /** The Starts for the first `n` agents: one for each that has jobs. */
  function Wanted(p: Plan, n: nat): seq<Request>
    requires n <= |p.agents|
  {
    if n == 0 then []
    else
      var a := p.agents[n - 1].id;
      Wanted(p, n - 1) + if HasJobs(p, a) then [RequestFor(p, a)] else []
  }

  function AllWanted(p: Plan): seq<Request> { Wanted(p, |p.agents|) }

  lemma {:induction false} WantedPrefix(p: Plan, n: nat, m: nat)
    requires n <= m <= |p.agents|
    ensures Wanted(p, n) <= Wanted(p, m)
  {
    if n < m {
      WantedPrefix(p, n, m - 1);
    }
  }

  /** No agent is wanted twice. */
  lemma {:induction false} WantedDistinct(p: Plan, n: nat)
    requires n <= |p.agents| && DistinctIDs(p.agents)
    ensures DistinctStrings(Agents(Wanted(p, n)))
    ensures forall a :: a in Agents(Wanted(p, n)) ==> HasJobs(p, a) && exists k :: 0 <= k < n && p.agents[k].id == a
    ensures forall k :: 0 <= k < n && HasJobs(p, p.agents[k].id) ==> p.agents[k].id in Agents(Wanted(p, n))
  {
    hide HasJobs;
    if n > 0 {
      WantedDistinct(p, n - 1);
      var a := p.agents[n - 1].id;
      if HasJobs(p, a) {
        AgentsNext(Wanted(p, n - 1), RequestFor(p, a));
      } else {
        assert Wanted(p, n) == Wanted(p, n - 1);
      }
    }
  }

  lemma {:induction false} WantedForJobs(p: Plan, n: nat)
    requires n <= |p.agents|
    ensures forall k :: 0 <= k < |Wanted(p, n)| ==>
              HasJobs(p, Wanted(p, n)[k].agent) && Wanted(p, n)[k] == RequestFor(p, Wanted(p, n)[k].agent)
  {
    hide HasJobs;
    if n > 0 {
      WantedForJobs(p, n - 1);
    }
  }

  /** An agent of the plan is asked to start exactly if jobs are assigned to it, with these, and after none but agents
      before it. */
  lemma {:induction false} WantedExactly(p: Plan, i: nat, n: nat)
    requires DistinctIDs(p.agents) && i < n <= |p.agents|
    ensures var id := p.agents[i].id;
            && (id in Agents(Wanted(p, n)) <==> id in p.assignments && |p.assignments[id]| > 0)
            && forall k :: 0 <= k < |Wanted(p, n)| && Wanted(p, n)[k].agent == id ==>
                 && id in p.assignments && Wanted(p, n)[k].request == p.template.(jobs := p.assignments[id])
                 && forall x :: 0 <= x < k ==> exists j :: 0 <= j < i && Wanted(p, n)[x].agent == p.agents[j].id
  {
    hide HasJobs;
    WantedDistinct(p, n);
    WantedForJobs(p, n);
    JobsAssigned(p, p.agents[i].id);
    WantedPrefix(p, i, n);
    WantedPrefix(p, i + 1, n);
    WantedDistinct(p, i);
    forall k | 0 <= k < |Wanted(p, n)| && Wanted(p, n)[k].agent == p.agents[i].id ensures k <= |Wanted(p, i)| {
      PlaceOf(p, i, n, k);
    }
    forall k, x | 0 <= k < |Wanted(p, n)| && Wanted(p, n)[k].agent == p.agents[i].id && 0 <= x < k
      ensures exists j :: 0 <= j < i && Wanted(p, n)[x].agent == p.agents[j].id
    {
      assert Wanted(p, n)[x] == Wanted(p, i)[x] && Agents(Wanted(p, i))[x] == Wanted(p, i)[x].agent;
    }
  }

  lemma JobsAssigned(p: Plan, a: string)
    ensures HasJobs(p, a) <==> a in p.assignments && |p.assignments[a]| > 0
    ensures HasJobs(p, a) ==> RequestFor(p, a) == Request(a, p.template.(jobs := p.assignments[a]))
  {
  }

  /** The request for an agent stands behind those for the agents before it. */
  lemma PlaceOf(p: Plan, i: nat, n: nat, k: nat)
    requires DistinctIDs(p.agents) && i < n <= |p.agents| && k < |Wanted(p, n)|
    requires Wanted(p, n)[k].agent == p.agents[i].id
    ensures k == |Wanted(p, i)|
  {
    hide HasJobs;
    WantedForJobs(p, n);
    WantedPrefix(p, i + 1, n);
    WantedDistinct(p, n);
    var m := |Wanted(p, i)|;
    assert Wanted(p, i + 1) == Wanted(p, i) + [RequestFor(p, p.agents[i].id)];
    assert Wanted(p, n)[m].agent == p.agents[i].id;
    assert Agents(Wanted(p, n))[m] == p.agents[i].id && Agents(Wanted(p, n))[k] == p.agents[i].id;
  }

  function Members(s: seq<string>): set<string> { set x | x in s }

  /** The jobs expected of the agents in `started`. */
  function JobsOf(p: Plan, started: seq<string>): map<string, seq<Job>> {
    map a | a in started && a in p.assignments :: p.assignments[a]
  }

  class Controller {
    const plan: Plan
    const network: Network
    var started: seq<string>
    var expected: map<string, seq<Job>>
    var reports: map<string, Report>
    var terminalStatus: Option<Status>
    var primaryErr: bool
    var cleanupStarted: bool

    constructor (plan: Plan, network: Network)
      ensures this.plan == plan && this.network == network
      ensures started == [] && expected == map[] && reports == map[] && terminalStatus == None && !primaryErr &&
              !cleanupStarted
      ensures ValidPlan(plan) && network.Valid() && network.log == [] && network.runID == plan.runID ==> Starting(0)
    {
      this.plan, this.network := plan, network;
      started, expected, reports, terminalStatus, primaryErr, cleanupStarted := [], map[], map[], None, false, false;
    }

    // ---- What the network's record says ----

    ghost function WereRequested(): seq<Request>
      reads network`log
    {
      Requests(network.log)
    }

    ghost function HaveAnswered(): seq<string>
      reads network`log
    {
      Answered(network.log, network.capabilities)
    }

    ghost function WereOrphaned(): seq<string>
      reads network`log
    {
      Orphans(network.log, network.capabilities)
    }

    ghost function WereTold(): seq<string>
      reads network`log
    {
      Told(network.log)
    }

    ghost function WereCollected(): map<string, StatusReply>
      reads network`log
    {
      Collected(network.log)
    }

    ghost function Grounds(): seq<Status>
      reads network`log
    {
      Causes(network.log)
    }

    /** Everything the controller holds is what the record says. */
    ghost predicate Valid()
      reads this, network
    {
      Held() && Sane(Grounds()) && Keeps(WereCollected())
    }

    /** The agents entered as started are those that answered, and nobody was asked but as planned. */
    ghost predicate Held()
      reads this`started, network
    {
      && ValidPlan(plan) && network.Valid() && network.runID == plan.runID
      && started == HaveAnswered() && WereRequested() <= AllWanted(plan)
      && AllAbout(network.log, plan.runID) && (network.honest ==> Aimed(network.log))
    }

    /** The status is the verdict on these grounds, and every started agent was told to cancel once, or none. */
    ghost predicate Sane(grounds: seq<Status>)
      reads this`started, this`terminalStatus, this`primaryErr, this`cleanupStarted, network`log
    {
      && terminalStatus == Verdict(grounds) && (cleanupStarted <==> grounds != []) && (primaryErr ==> cleanupStarted)
      && WereTold() == if cleanupStarted then started else []
    }

    ghost predicate Keeps(replies: map<string, StatusReply>)
      reads this`reports, this`started
    {
      && reports.Keys == replies.Keys && reports.Keys <= Members(started)
      && forall a :: a in replies ==> replies[a].report == Some(reports[a])
    }

    // ---- Single calls ----

    method CancelOne(address: string) returns (ok: bool, ghost call: Call)
      requires Held() && address in started
      modifies network
      ensures Held() && network.log == old(network.log) + [call] && ok == Confirmed(call)
      ensures WereTold() == old(WereTold()) + [address] && WereRequested() == old(WereRequested())
      ensures WereCollected() == old(WereCollected()) && Grounds() == old(Grounds())
      ensures WereOrphaned() == old(WereOrphaned()) && call.CancelCall?
      ensures |network.script| <= |old(network.script)|
    {
      hide AllAbout, Aimed, ValidPlan, Sent, AllWanted, Requests, Answered, Orphans, Told, Collected, Causes, Confirmed;
      ghost var log, before := network.log, network.registries;
      HeldKnown();
      ok, call := network.Cancel(address, plan.runID);
      NextCancel(log, call, network.capabilities);
      AboutNext(log, call, plan.runID);
      if network.honest {
        KnownArrives(call, before, network.registries, First(old(network.script)), network.capabilities);
        AimedNext(log, call);
      }
    }

    lemma HeldKnown()
      requires Held()
      ensures network.honest ==> forall a :: a in started ==> Knows(network.registries, a, plan.runID)
    {
      hide AllBorne, AllAbout, Aimed, Answered, Knows, NoneGarbled;
      if network.honest {
        AnsweredKnown(network.log, network.registries, plan.runID, network.capabilities);
      }
    }

    /** A status call, which may give a report or grounds for cleanup. */
    method Ask(address: string) returns (reply: Option<StatusReply>, ghost call: Call)
      requires Held()
      modifies network
      ensures Held() && network.log == old(network.log) + [call]
      ensures call.StatusCall? && call.agent == address && reply == StatusAnswered(call)
      ensures WereTold() == old(WereTold()) && WereRequested() == old(WereRequested())
      ensures WereCollected()
           == if Reports(reply) then old(WereCollected())[address := reply.value] else old(WereCollected())
      ensures Grounds() == old(Grounds()) + GroundsFor(reply) && WereOrphaned() == old(WereOrphaned())
      ensures |network.script| <= |old(network.script)|
    {
      hide AllAbout, Aimed, ValidPlan, Sent, AllWanted, Requests, Answered, Orphans, Told, Collected, Causes, Reports,
           GroundsFor, StatusAnswered;
      ghost var log := network.log;
      reply, call := network.Status(address, plan.runID);
      NextStatus(log, call, network.capabilities);
      AboutNext(log, call, plan.runID);
      if network.honest {
        AimedNext(log, call);
      }
    }

    /** A wait, which gives grounds for cleanup if it is done and there are none. */
    method WaitOnce() returns (m: Moment, ghost call: Call)
      requires Held()
      modifies network
      ensures Held() && network.log == old(network.log) + [call] && call == Wait(m.done, m.parentCancelled)
      ensures WereTold() == old(WereTold()) && WereRequested() == old(WereRequested())
      ensures WereCollected() == old(WereCollected()) && WereOrphaned() == old(WereOrphaned())
      ensures Grounds() == old(Grounds()) +
              if m.done && old(Grounds()) == [] then [if m.parentCancelled then Cancelled else Failed] else []
      ensures network.script == Rest(old(network.script))
    {
      hide AllAbout, Aimed, ValidPlan, AllWanted, Requests, Answered, Orphans, Told, Collected, Causes, AllKept;
      ghost var log := network.log;
      m, call := network.Pause();
      NextWait(log, call, network.capabilities);
      AboutNext(log, call, plan.runID);
      if network.honest {
        AimedNext(log, call);
      }
    }

    /** The request to start agent `n`, which is entered as started if there is any reply. */
    method RequestStart(n: nat) returns (reply: Option<Acknowledgement>, ghost call: Call)
      requires n < |plan.agents| && Held() && HasJobs(plan, plan.agents[n].id)
      requires WereRequested() == Wanted(plan, n)
      modifies network, this`started
      ensures Held() && WereRequested() == Wanted(plan, n + 1)
      ensures network.log == old(network.log) + [call] && call.StartCall?
      ensures reply == StartReply(call, network.capabilities)
      ensures call.agent == plan.agents[n].id && call.request == RequestFor(plan, plan.agents[n].id).request
      ensures ExpectedReply(call.request) == Acknowledgement(plan.runID, |plan.assignments[plan.agents[n].id]|)
      ensures started == old(started) + if reply.Some? then [plan.agents[n].id] else []
      ensures WereOrphaned() == old(WereOrphaned()) +
              if Orphaning(call, network.capabilities) then [plan.agents[n].id] else []
      ensures WereTold() == old(WereTold()) && WereCollected() == old(WereCollected()) && Grounds() == old(Grounds())
      ensures Sent(First(old(network.script)), call, old(network.registries), network.registries, network.capabilities)
      ensures |network.script| <= |old(network.script)|
    {
      hide AllAbout, Aimed, DistinctIDs, Sent, Requests, Answered, Orphans, Told, Collected, Causes, StartReply,
           Orphaning, Wanted, AllWanted;
      ghost var log := network.log;
      var address := plan.agents[n].id;
      reply, call := network.Start(address, plan.template.(jobs := plan.assignments[address]));
      if reply.Some? {
        started := started + [address];
      }
      NextStart(log, call, network.capabilities);
      AboutStart(log, call, plan);
      WantedNext(plan, n);
      if network.honest {
        AimedNext(log, call);
      }
    }

    /** Cancel every started agent, whatever becomes of each call. */
    method CancelStarted() returns (ok: bool)
      requires Held()
      modifies network
      ensures Held() && WereTold() == old(WereTold()) + started
      ensures old(network.log) <= network.log
      ensures ok <==> forall c :: c in network.log[|old(network.log)|..] ==> Confirmed(c)
      ensures Quietly(old(network.log), network.log)
      ensures WereRequested() == old(WereRequested()) && WereOrphaned() == old(WereOrphaned())
      ensures WereCollected() == old(WereCollected()) && Grounds() == old(Grounds())
      ensures |network.script| <= |old(network.script)|
      ensures started == [] ==> network.registries == old(network.registries)
    {
      hide Held, Requests, Orphans, Told, Collected, Causes, Confirmed, Quietly;
      ok := true;
      ghost var sent: seq<Call> := [];
      var n := 0;
      while n < |started|
        invariant n <= |started| && Held() && WereTold() == old(WereTold()) + started[..n]
        invariant network.log == old(network.log) + sent
        invariant ok <==> forall c :: c in sent ==> Confirmed(c)
        invariant forall c :: c in sent ==> c.CancelCall?
        invariant WereRequested() == old(WereRequested()) && WereOrphaned() == old(WereOrphaned())
        invariant WereCollected() == old(WereCollected()) && Grounds() == old(Grounds())
        invariant |network.script| <= |old(network.script)|
        invariant n == 0 ==> network.registries == old(network.registries)
      {
        var confirmed;
        ghost var call;
        confirmed, call := CancelOne(started[n]);
        sent := sent + [call];
        ok := ok && confirmed;
        n := n + 1;
      }
      assert network.log[|old(network.log)|..] == sent;
      QuietCancels(old(network.log), sent);
    }

    // ---- Cleanup ----

    /** The status stays the verdict on all grounds so far: failed if any of them is. */
    method SetTerminalStatus(status: Status, ghost grounds: seq<Status>)
      requires terminalStatus == Verdict(grounds) && status in {Failed, Cancelled} && AllBad(grounds)
      modifies this`terminalStatus
      ensures terminalStatus == Verdict(grounds + [status])
    {
      VerdictNext(grounds, status);
      if status == Failed || terminalStatus == None {
        terminalStatus := Some(status);
      }
    }

    /** The record has new grounds. Whatever they are and however often: the started agents are cancelled once. */
    method BeginCleanup(status: Status, cause: bool, ghost grounds: seq<Status>)
      requires Held() && Sane(grounds) && Keeps(WereCollected())
      requires status in {Failed, Cancelled} && Grounds() == grounds + [status]
      modifies network, this`terminalStatus, this`primaryErr, this`cleanupStarted
      ensures Valid() && cleanupStarted && Quietly(old(network.log), network.log)
      ensures Grounds() == old(Grounds()) && WereCollected() == old(WereCollected())
      ensures WereRequested() == old(WereRequested()) && WereOrphaned() == old(WereOrphaned())
      ensures old(terminalStatus) == Some(Failed) ==> terminalStatus == Some(Failed)
      ensures |network.script| <= |old(network.script)|
    {
      hide Held, Verdict, AllBad, Requests, Orphans, Told, Collected, Causes, Confirmed, Quietly, Members;
      CausesBad(network.log);
      BadFront(grounds, status);
      NothingSince(network.log);
      VerdictNext(grounds, status);
      SetTerminalStatus(status, grounds);
      primaryErr := primaryErr || cause;
      if !cleanupStarted {
        cleanupStarted := true;
        var ok := CancelStarted();
        primaryErr := primaryErr || !ok;
      }
    }

    // ---- Polling ----

    /** One agent is asked for its status: a terminal reply with its report is kept, and anything but a
        completed one with its report or one still going begins cleanup. */
    method Poll(address: string) returns (ghost call: Call)
      requires Valid() && address in started && address !in reports
      modifies network, this`terminalStatus, this`primaryErr, this`cleanupStarted, this`reports
      ensures call.StatusCall? && call.agent == address && Quietly(old(network.log) + [call], network.log)
      ensures Valid() && Grounds() == old(Grounds()) + GroundsFor(StatusAnswered(call))
      ensures WereCollected() == if Reports(StatusAnswered(call))
                                 then old(WereCollected())[address := StatusAnswered(call).value]
                                 else old(WereCollected())
      ensures WereRequested() == old(WereRequested()) && WereOrphaned() == old(WereOrphaned())
      ensures |network.script| <= |old(network.script)|
    {
      hide Held, Verdict, Requests, Orphans, Told, Collected, Causes, StatusAnswered, Quietly;
      ghost var grounds := Grounds();
      assert grounds + [] == grounds;
      var response;
      response, call := Ask(address);
      NothingSince(network.log);
      if response.None? {
        BeginCleanup(Failed, true, grounds);
        return;
      }
      var status, report := response.value.status, response.value.report;
      match status {
        case Pending => return;
        case Running => return;
        case Completed =>
          if report.None? {
            BeginCleanup(Failed, true, grounds);
            return;
          }
          reports := reports[address := report.value];
        case Failed =>
          if report.None? {
            BeginCleanup(Failed, true, grounds);
            return;
          }
          reports := reports[address := report.value];
          BeginCleanup(status, false, grounds);
        case Cancelled =>
          if report.None? {
            BeginCleanup(Failed, true, grounds);
            return;
          }
          reports := reports[address := report.value];
          BeginCleanup(status, false, grounds);
        case _ => BeginCleanup(Failed, true, grounds);
      }
    }

    // ---- The start ----

    /** Nothing has gone wrong, and the first `n` agents have been dealt with, in so many calls. */
    ghost predicate Begun(n: nat, calls: nat)
      reads this, network
    {
      && n <= |plan.agents| && Valid() && Grounds() == [] && WereCollected() == map[]
      && WereRequested() == Wanted(plan, n) && started == Agents(Wanted(plan, n)) && WereOrphaned() == []
      && expected == JobsOf(plan, started) && Smooth(network.log, network.capabilities) && |network.log| <= calls
      && SpacedStarts(network.log, plan.startDelay, started != [])
    }

    ghost predicate Starting(n: nat)
      reads this, network
    {
      Begun(n, 2 * n)
    }

    /** The start was given up over a call: every agent that answered has been told to cancel. */
    ghost predicate Abandoned()
      reads this`started, this`reports, network
    {
      && Held() && WereTold() == started && |WereOrphaned()| <= 1 && reports == map[] && WereCollected() == map[]
      && exists c :: c in network.log && Hitch(c, network.capabilities)
    }

    /** A call went wrong; whether the Cancels are confirmed plays no part. */
    method GiveUp(ghost call: Call)
      requires Held() && WereTold() == [] && |WereOrphaned()| <= 1 && reports == map[] && WereCollected() == map[]
      requires call in network.log && Hitch(call, network.capabilities)
      modifies network
      ensures Abandoned() && WereOrphaned() == old(WereOrphaned())
      ensures started == [] ==> network.registries == old(network.registries)
      ensures |network.script| <= |old(network.script)|
    {
      hide Held, Requests, Orphans, Told, Collected, Causes, Quietly, Hitch;
      var sent := CancelStarted();
      assert call in network.log;
    }

    /** Waiting before the next start, if there is a delay between starts; false when the context is done. */
    method AwaitStart(n: nat) returns (ok: bool)
      requires Starting(n)
      modifies network
      ensures if ok then Begun(n, 2 * n + 1) else Abandoned()
      ensures ok && started != [] && plan.startDelay ==> network.log != [] && network.log[|network.log| - 1].Wait?
      ensures started == [] ==>
                ok && network.script == old(network.script) && network.registries == old(network.registries)
      ensures |network.script| <= |old(network.script)|
    {
      hide Held, Verdict, Wanted, Requests, Answered, Orphans, Told, Collected, Causes, Agents, JobsOf, Members,
           Quietly, SpacedStarts;
      if started == [] || !plan.startDelay {
        return true;
      }
      ghost var log := network.log;
      var m;
      ghost var call;
      m, call := WaitOnce();
      if m.done {
        GiveUp(call);
        return false;
      }
      SmoothNext(log, call, network.capabilities);
      WaitSpaced(log, call, plan.startDelay);
      return true;
    }

    /** Agent `n` has jobs and accepts them, and the reply to its Start is lost. */
    ghost predicate FirstLost(n: nat)
      reads network
    {
      && n < |plan.agents| && HasJobs(plan, plan.agents[n].id) && plan.agents[n].id in network.registries
      && network.script != [] && network.script[0].before == [] && network.script[0].fate.ReplyLost?
      && Registries.StartAllowed(network.registries[plan.agents[n].id],
           RequestFor(plan, plan.agents[n].id).request, network.capabilities)
    }

    /** Agent `n` goes on with its run, and nobody has been told to cancel. */
    ghost predicate Orphaned(n: nat)
      reads network
    {
      && n < |plan.agents| && WereTold() == [] && WereOrphaned() == [plan.agents[n].id]
      && Unattended(network.registries, plan.agents[n].id, plan.runID)
    }

    /** Start agent `n` on its jobs, if it has any. An agent whose reply was lost has not been entered in
        `started`, so that it is not among those told to cancel. */
    method StartAgent(n: nat) returns (ok: bool)
      requires n < |plan.agents| && Begun(n, 2 * n + 1)
      requires started != [] && plan.startDelay ==> network.log != [] && network.log[|network.log| - 1].Wait?
      modifies network, this`started, this`expected
      ensures if ok then Starting(n + 1) else Abandoned()
      ensures old(started == [] && FirstLost(n)) ==> !ok && Orphaned(n)
      ensures |network.script| <= |old(network.script)|
    {
      hide Held, Verdict, Wanted, Requests, Answered, Orphans, Told, Collected, Causes, Agents, JobsOf, Members,
           Quietly, StartReply, Accepted, Sent, Registries.StartAllowed, Unattended, SpacedStarts;
      ghost var begun := started != [];
      var address := plan.agents[n].id;
      if !HasJobs(plan, address) {
        NothingWanted(plan, n);
        return true;
      }
      ghost var log, before, m := network.log, network.registries, First(network.script);
      var reply;
      ghost var call;
      reply, call := RequestStart(n);
      OrphanedThere(call, m, before, network.registries, network.capabilities);
      if reply != Some(Acknowledgement(plan.runID, |plan.assignments[address]|)) {
        GiveUp(call);
        return false;
      }
      SmoothNext(log, call, network.capabilities);
      StartSpaced(log, call, plan.startDelay, begun);
      ExpectNext(plan, n, started);
      expected := expected[address := plan.assignments[address]];
      return true;
    }

    method StartAgents() returns (ok: bool)
      requires Starting(0)
      modifies network, this`started, this`expected
      ensures if ok then Starting(|plan.agents|) else Abandoned()
      ensures old(FirstLost(0)) ==> !ok && Orphaned(0)
    {
      NothingStarted();
      hide Starting, Begun, FirstLost, Orphaned, Abandoned;
      var n := 0;
      while n < |plan.agents|
        invariant n <= |plan.agents| && Starting(n)
        invariant old(FirstLost(0)) ==> n == 0 && started == [] && FirstLost(0)
      {
        ok := AwaitAndStart(n);
        if !ok {
          return;
        }
        n := n + 1;
      }
      ok := true;
    }

    method AwaitAndStart(n: nat) returns (ok: bool)
      requires n < |plan.agents| && Starting(n)
      modifies network, this`started, this`expected
      ensures if ok then Starting(n + 1) else Abandoned()
      ensures old(started == [] && FirstLost(n)) ==> !ok && Orphaned(n)
    {
      hide Begun, Orphaned, Abandoned, Registries.StartAllowed;
      ok := AwaitStart(n);
      if ok {
        ok := StartAgent(n);
      }
    }

    lemma NothingStarted()
      requires Starting(0)
      ensures started == []
    {
      hide Valid;
    }

    // ---- The polling ----

    /** What the polling keeps. */
    ghost predicate Polling(base: nat)
      reads this, network
    {
      && Valid() && WereRequested() == AllWanted(plan) && WereOrphaned() == []
      && Acknowledged(network.log, network.capabilities) && Diligent(network.log, base, Members(started))
      && Spaced(network.log, plan.startDelay)
    }

    /** Every agent without a report is asked once. */
    method PollRound(ghost base: nat)
      requires Polling(base)
      modifies network, this`terminalStatus, this`primaryErr, this`cleanupStarted, this`reports
      ensures Polling(base) && old(network.log) <= network.log
      ensures Members(started) <= Asked(network.log) + reports.Keys
      ensures |network.script| <= |old(network.script)|
    {
      hide Valid, Requests, Orphans, Collected, Causes, Asked, Diligent, Acknowledged, Spaced;
      var n := 0;
      while n < |started|
        invariant n <= |started| && Polling(base) && old(network.log) <= network.log
        invariant forall k :: 0 <= k < n ==> started[k] in Asked(network.log) || started[k] in reports
        invariant |network.script| <= |old(network.script)|
      {
        if started[n] !in reports {
          PollInRound(started[n], base);
        }
        n := n + 1;
      }
    }

    method PollInRound(address: string, ghost base: nat)
      requires Polling(base) && address in started && address !in reports
      modifies network, this`terminalStatus, this`primaryErr, this`cleanupStarted, this`reports
      ensures Polling(base) && old(network.log) <= network.log
      ensures Asked(network.log) >= old(Asked(network.log)) + {address} && reports.Keys >= old(reports.Keys)
      ensures |network.script| <= |old(network.script)|
    {
      hide Held, Sane, Requests, Answered, Orphans, Told, Collected, Causes, Quietly, Diligent, Acknowledged, Spaced;
      ghost var log := network.log;
      ghost var call := Poll(address);
      NextStatus(log, call, network.capabilities);
      AskQuietly(log, call);
      QuietlyKeeps(log, log + [call], base, Members(started), network.capabilities);
      QuietlyKeeps(log + [call], network.log, base, Members(started), network.capabilities);
      QuietPrefix(log + [call], network.log);
    }

    /** The wait between two rounds; false when cleanup has run out of time. */
    method WaitForReports(ghost base: nat) returns (ok: bool)
      requires Polling(base) && Members(started) <= Asked(network.log) + reports.Keys
      modifies network, this`terminalStatus, this`primaryErr, this`cleanupStarted
      ensures Polling(base) && old(network.log) <= network.log
      ensures |network.script| <= |Rest(old(network.script))|
      ensures !ok ==> cleanupStarted && OutOfTime(network.log)
    {
      hide Held, Requests, Answered, Orphans, Told, Collected, Causes, Quietly, Diligent, Acknowledged, Asked, Verdict,
           Members, Spaced;
      ghost var log, grounds := network.log, Grounds();
      var m;
      ghost var call;
      m, call := WaitOnce();
      DiligentWait(log, call, base, Members(started), network.capabilities);
      WaitSpaced(log, call, plan.startDelay);
      assert grounds + [] == grounds;
      if !m.done {
        return true;
      }
      if cleanupStarted {
        return false;
      }
      BeginCleanup(if m.parentCancelled then Cancelled else Failed, true, grounds);
      QuietlyKeeps(log + [call], network.log, base, Members(started), network.capabilities);
      QuietPrefix(log + [call], network.log);
      return true;
    }

    /** Poll until every report is there, or cleanup fails; None while the script leaves the run unfinished. */
    method PollAgents() returns (collected: Option<bool>)
      requires Starting(|plan.agents|)
      modifies network, this`terminalStatus, this`primaryErr, this`cleanupStarted, this`reports
      ensures Valid() && WereRequested() == AllWanted(plan) && WereOrphaned() == []
      ensures Acknowledged(network.log, network.capabilities) && Spaced(network.log, plan.startDelay)
      ensures Polled(network.log, |plan.agents|, Members(started))
      ensures collected.Some? ==>
                if collected.value then reports.Keys == Members(started) else cleanupStarted && OutOfTime(network.log)
      ensures collected.None? ==> network.script == []
    {
      hide Valid, Requests, Orphans, Collected, Causes, Diligent, Acknowledged, Polled, Smooth, Asked, OutOfTime,
           Spaced;
      ghost var front := network.log;
      ghost var base := |front|;
      PollingBegins();
      while |reports| < |started|
        invariant Polling(base) && front <= network.log
        decreases |network.script|
      {
        PollRound(base);
        if |reports| == |started| {
          break;
        }
        if network.script == [] {
          PolledSince(front, network.log, |plan.agents|, Members(started), network.capabilities);
          return None;
        }
        var ok := WaitForReports(base);
        if !ok {
          PolledSince(front, network.log, |plan.agents|, Members(started), network.capabilities);
          return Some(false);
        }
      }
      PolledSince(front, network.log, |plan.agents|, Members(started), network.capabilities);
      ReportsComplete();
      collected := Some(true);
    }

    lemma PollingBegins()
      requires Starting(|plan.agents|)
      ensures Polling(|network.log|)
    {
      hide Valid, Hitch;
    }

    lemma ReportsComplete()
      requires Valid() && WereRequested() == AllWanted(plan) && Acknowledged(network.log, network.capabilities)
      ensures |reports| >= |started| ==> reports.Keys == Members(started)
    {
      hide Sane, Requests, Answered, Orphans, Told, Collected, Causes, Hitch, Wanted;
      AllAnswered(network.log, network.capabilities);
      WantedDistinct(plan, |plan.agents|);
      if |reports| >= |started| {
        AllCollected(started, reports);
      }
    }

    // ---- A whole run ----

    /** Each started agent's report is there, or each was told to cancel; and none was told otherwise. */
    ghost predicate Settled()
      reads this`started, this`reports, network
    {
      && Held() && Keeps(WereCollected()) && (WereTold() == started || WereTold() == [])
      && (reports.Keys == Members(started) || WereTold() == started)
    }

    /** The agent's run is over or ending, or the request of a Cancel sent there was lost. */
    ghost predicate OverOrLost(a: string)
      reads network
    {
      Over(network.registries, a, plan.runID) || exists c :: c in network.log && LostThere(c, a)
    }

    /** The report is the one the agent holds, under the status it was given with. */
    ghost predicate AsHeld(a: string)
      reads this`reports, network
    {
      && a in reports && a in WereCollected() && Knows(network.registries, a, plan.runID)
      && network.registries[a].runs[plan.runID].report == Some(reports[a])
      && network.registries[a].runs[plan.runID].status == WereCollected()[a].status == reports[a].status
    }

    /** The runs of all started agents are over or ending, apart from those whose Cancel was lost. */
    lemma StartedOver()
      requires Settled() && network.honest
      ensures forall a :: a in started ==> OverOrLost(a)
    {
      hide ValidPlan, Requests, Answered, Told, Collected, AllBorne, AllAbout, Aimed, NoneGarbled, AllWanted, LostThere;
      ToldOver(network.log, network.registries, plan.runID, network.capabilities);
      CollectedHeld(network.log, network.registries, plan.runID, network.capabilities);
    }

    /** The reports are those the agents hold, good ones if the executors' are. */
    lemma ReportsHeld()
      requires Held() && Keeps(WereCollected()) && network.honest
      ensures forall a :: a in reports ==> AsHeld(a)
      ensures network.fine ==> forall a :: a in reports ==> network.good(a, reports[a])
    {
      hide ValidPlan, Requests, Answered, Told, Collected, AllBorne, AllAbout, Aimed, NoneGarbled, AllWanted,
           OnlyStarted, OnlyCancelled;
      CollectedHeld(network.log, network.registries, plan.runID, network.capabilities);
    }

    lemma RequestsDistinct()
      requires Held()
      ensures DistinctStrings(Agents(WereRequested()))
    {
      hide Requests, Answered, AllAbout, Aimed, DistinctIDs, Wanted;
      WantedDistinct(plan, |plan.agents|);
      var all := Agents(AllWanted(plan));
      var some := Agents(WereRequested());
      assert forall k :: 0 <= k < |some| ==> some[k] == all[k];
    }

    /** Where nobody else starts the run: apart from the agents heard or told, exactly those hold it that
        accepted a Start whose reply was lost. */
    lemma HeldElsewhere()
      requires Settled() && network.own
      ensures forall a :: Knows(network.registries, a, plan.runID) && a !in reports && a !in WereTold() <==>
                          a in WereOrphaned()
    {
      hide ValidPlan, Requests, Answered, Orphans, Told, Collected, AllBorne, AllAbout, Aimed, AllWanted, Knows,
           Accepted, StartReply;
      RequestsDistinct();
      OrphansApart(network.log, network.capabilities);
      OrphansKnown(network.log, network.registries, plan.runID, network.capabilities);
      forall a | Knows(network.registries, a, plan.runID) && a !in reports && a !in WereTold()
        ensures a in WereOrphaned()
      {
        var c :| c in network.log && StartsThere(c, a, plan.runID, network.capabilities);
        AnsweredFrom(network.log, c, network.capabilities);
      }
    }

    /** Where nobody else touches the run, it goes on there unattended. */
    lemma OrphansUnattended()
      requires Settled() && network.own && network.lone
      ensures forall a :: a in WereOrphaned() ==> Unattended(network.registries, a, plan.runID)
    {
      HeldElsewhere();
      hide Requests, Answered, Orphans, Told, Collected, AllBorne, AllAbout, Aimed, AllWanted, Knows, Unattended;
      forall a | a in WereOrphaned() ensures Unattended(network.registries, a, plan.runID) {
        if c :| c in network.log && EndsThere(c, a, plan.runID) {
          ToldFrom(network.log, c);
        }
      }
    }

    lemma AbandonedSettled()
      requires Abandoned()
      ensures Settled() && Held() && WereTold() == started && |WereOrphaned()| <= 1 && reports == map[]
      ensures WereRequested() <= AllWanted(plan) && started == HaveAnswered()
      ensures exists c :: c in network.log && Hitch(c, network.capabilities)
    {
      hide ValidPlan, Requests, Answered, Orphans, Told, Collected, AllWanted, Hitch;
    }

    lemma ValidSettled()
      requires Valid()
      ensures Held() && WereTold() == if Grounds() != [] then started else []
      ensures reports.Keys == WereCollected().Keys && started == HaveAnswered()
      ensures reports.Keys == Members(started) || cleanupStarted ==> Settled()
      ensures Grounds() == [] ==> forall a :: a in WereCollected() ==> WereCollected()[a].status == Completed
    {
      hide ValidPlan, Requests, Answered, Orphans, Told, Collected, Causes, AllWanted;
      if Grounds() == [] {
        QuietReplies(network.log);
      }
    }

    /** What is left to say of the network once the controller is done. */
    lemma Aftermath()
      requires Settled()
      ensures network.honest ==>
                (forall a :: a in started ==> OverOrLost(a)) && (forall a :: a in reports ==> AsHeld(a))
      ensures network.honest && network.fine ==> forall a :: a in reports ==> network.good(a, reports[a])
      ensures network.own ==>
                forall a :: Knows(network.registries, a, plan.runID) && a !in reports && a !in WereTold() <==>
                            a in WereOrphaned()
      ensures network.own && network.lone ==>
                forall a :: a in WereOrphaned() ==> Unattended(network.registries, a, plan.runID)
    {
      SettledKeeps();
      hide Held, Settled, Keeps, OverOrLost, AsHeld, Unattended, Collected, Told, Orphans;
      if network.honest {
        StartedOver();
        ReportsHeld();
      }
      if network.own {
        HeldElsewhere();
        if network.lone {
          OrphansUnattended();
        }
      }
    }

    /** Some status call to the agent gave its report under a terminal status. */
    ghost predicate GaveItsReport(a: string)
      reads network`log
    {
      exists c :: c in network.log && c.StatusCall? && c.agent == a && GaveReport(c)
    }

    /** The request is the plan's, with the jobs assigned to the agent. */
    predicate ForItsJobs(r: Request) {
      && r.agent in plan.assignments && r.request.jobs == plan.assignments[r.agent]
      && r.request == plan.template.(jobs := r.request.jobs)
    }

    lemma RequestsForJobs()
      requires Held()
      ensures forall k :: 0 <= k < |WereRequested()| ==> ForItsJobs(WereRequested()[k])
    {
      hide Requests, Answered, AllAbout, Aimed, ValidPlan, Wanted, ForItsJobs;
      WantedForJobs(plan, |plan.agents|);
      forall k | 0 <= k < |WereRequested()| ensures ForItsJobs(WereRequested()[k]) {
        assert WereRequested()[k] == AllWanted(plan)[k];
        JobsAre(AllWanted(plan)[k]);
      }
    }

    lemma JobsAre(r: Request)
      requires HasJobs(plan, r.agent) && r == RequestFor(plan, r.agent)
      ensures ForItsJobs(r)
    {
    }

    lemma CallByCall()
      ensures Grounds() == [] <==> Quiet(network.log)
      ensures Verdict(Grounds()) == Some(Failed) <==> FailedGiven(network.log)
      ensures Verdict(Grounds()) == Some(Cancelled) <==> CancelledGiven(network.log) && !FailedGiven(network.log)
      ensures forall a :: a in WereCollected() <==> GaveItsReport(a)
      ensures Acknowledged(network.log, network.capabilities) ==>
                forall c :: c in network.log && c.StartCall? ==> Acked(c, network.capabilities)
    {
      hide Verdict, Causes, Collected, Quiet, FailedGiven, CancelledGiven, GaveReport, Acked, Acknowledged;
      GroundsExactly(network.log);
      VerdictExactly(network.log);
      CollectedExactly(network.log);
      AcknowledgedExactly(network.log, network.capabilities);
    }

    lemma SettledKeeps()
      requires Settled()
      ensures Held() && Keeps(WereCollected()) && reports.Keys == WereCollected().Keys
    {
      hide Held;
    }

    lemma StartedAll()
      requires Starting(|plan.agents|)
      ensures started == Agents(AllWanted(plan)) && expected == JobsOf(plan, started)
    {
      hide Valid, Wanted;
    }

    lemma ExpectedAll()
      requires Held() && started == Agents(AllWanted(plan)) && expected == JobsOf(plan, started)
      ensures expected.Keys == Members(started)
      ensures forall a :: a in expected ==> HasJobs(plan, a) && expected[a] == plan.assignments[a]
      ensures forall k :: 0 <= k < |plan.agents| && HasJobs(plan, plan.agents[k].id) ==> plan.agents[k].id in expected
    {
      hide Requests, Answered, AllAbout, Aimed, DistinctIDs, Wanted, Agents;
      WantedDistinct(plan, |plan.agents|);
    }

    /** A whole run of the controller against the script of its network. */
    method RunController() returns (r: Option<Outcome>)
      requires Starting(0)
      modifies this, network
      // No outcome only if the script ends first.
      ensures r.None? ==> network.script == []
      // Agents are asked in the order of the plan, each for its own jobs, and past the start all of them were and
      // acknowledged it. Those that answered are started.
      ensures WereRequested() <= AllWanted(plan) && started == HaveAnswered()
      ensures r != Some(StartFailed) ==>
                && WereRequested() == AllWanted(plan) && Acknowledged(network.log, network.capabilities)
                && expected.Keys == Members(started)
                && (forall a :: a in expected ==> HasJobs(plan, a) && expected[a] == plan.assignments[a])
                && (forall k :: 0 <= k < |plan.agents| && HasJobs(plan, plan.agents[k].id) ==>
                    plan.agents[k].id in expected)
      ensures forall k :: 0 <= k < |WereRequested()| ==> ForItsJobs(WereRequested()[k])
      // The delay is kept between any two Starts.
      ensures r != Some(StartFailed) ==> Spaced(network.log, plan.startDelay)
      // Past the start, every agent without a report is asked for it before every wait.
      ensures r != Some(StartFailed) ==> Polled(network.log, |plan.agents|, Members(started))
      // Every started agent is told to cancel once, exactly if the start failed or there were grounds later.
      ensures r.Some? ==> WereTold() == if r == Some(StartFailed) || Grounds() != [] then started else []
      // The start is given up over a call that went wrong; the cleanup over a second wait that was done.
      ensures r == Some(StartFailed) ==> exists c :: c in network.log && Hitch(c, network.capabilities)
      ensures r == Some(CleanupFailed) ==> OutOfTime(network.log)
      // Call by call: there are no grounds exactly if every status call was answered as going on or completed, and
      // no wait was done; the verdict on them is failed exactly if one of the calls means so. The reports are those
      // that came with a terminal status, and past the start every Start was acknowledged.
      ensures (Grounds() == [] <==> Quiet(network.log))
      ensures Verdict(Grounds()) == Some(Failed) <==> FailedGiven(network.log)
      ensures Verdict(Grounds()) == Some(Cancelled) <==> CancelledGiven(network.log) && !FailedGiven(network.log)
      ensures forall a :: a in WereCollected() <==> GaveItsReport(a)
      ensures r != Some(StartFailed) ==>
                forall c :: c in network.log && c.StartCall? ==> Acked(c, network.capabilities)
      ensures r.Some? && r.value.Succeeded? ==> Quiet(network.log)
      // Otherwise all reports are there: without grounds, all given as Completed, for the final aggregation; with
      // grounds, for the terminal one under the verdict on them.
      ensures r.Some? && r.value !in {StartFailed, CleanupFailed} ==>
                && reports.Keys == WereCollected().Keys == expected.Keys
                && (Grounds() == [] ==> forall a :: a in WereCollected() ==> WereCollected()[a].status == Completed)
                && if Grounds() == [] then Concluded(r.value) else ConcludedWith(r.value, Verdict(Grounds()).value)
      // Whichever way it returned, each started agent's run is over or ending, unless its Cancel was lost; the
      // reports are those the agents hold.
      ensures r.Some? && network.honest ==>
                (forall a :: a in started ==> OverOrLost(a)) && (forall a :: a in reports ==> AsHeld(a))
      ensures r.Some? && network.honest && network.fine ==> forall a :: a in reports ==> network.good(a, reports[a])
      // An agent without a report that was not told to cancel holds the run exactly if it accepted its Start and
      // the reply was lost. That is at most one, and only if the start failed.
      ensures |WereOrphaned()| <= 1 && (WereOrphaned() != [] ==> r == Some(StartFailed))
      ensures r.Some? && network.own ==>
                forall a :: Knows(network.registries, a, plan.runID) && a !in reports && a !in WereTold() <==>
                            a in WereOrphaned()
      ensures r.Some? && network.own && network.lone ==>
                forall a :: a in WereOrphaned() ==> Unattended(network.registries, a, plan.runID)
      ensures old(FirstLost(0)) ==> r == Some(StartFailed) && Orphaned(0)
    {
      hide Starting, Abandoned, Valid, Held, Keeps, Settled, Concluded, ConcludedWith, JobsOf, Agents, FirstLost,
           Orphaned, Polled, Acknowledged, Requests, Answered, Orphans, Told, Collected, Causes, AllWanted, OutOfTime,
           Verdict, OverOrLost, AsHeld, Knows, Unattended, Hitch, Quiet, FailedGiven, CancelledGiven, GaveItsReport,
           Acked, ForItsJobs, Spaced, SpacedStarts;
      var ok := StartAgents();
      if !ok {
        CallByCall();
        AbandonedSettled();
        RequestsForJobs();
        Aftermath();
        return Some(StartFailed);
      }
      StartedAll();
      var collected := PollAgents();
      CallByCall();
      ValidSettled();
      RequestsForJobs();
      ExpectedAll();
      if collected.None? {
        return None;
      }
      Aftermath();
      if !collected.value {
        return Some(CleanupFailed);
      }
      var outcome := Conclude();
      return Some(outcome);
    }

    /** The aggregation of all reports, under the verdict if there are grounds. */
    method Conclude() returns (o: Outcome)
      requires Valid()
      ensures o !in {StartFailed, CleanupFailed} && (o.Succeeded? ==> Grounds() == [])
      ensures if Grounds() == [] then Concluded(o) else ConcludedWith(o, Verdict(Grounds()).value)
    {
      hide Held, Keeps, Collectable, IsCollected, NoDuplicates, Requests, Answered, Orphans, Told, Collected, Causes;
      var aggregated;
      if terminalStatus.Some? || primaryErr {
        aggregated := AggregateTerminalForBuild(plan.runID, plan.build, expected, reports, terminalStatus.value,
          plan.horizon);
        if aggregated.Err? {
          return NotAggregated;
        }
        StatusOfCollected(aggregated.value, EndedScope(), terminalStatus.value, expected.Keys, reports);
        return EndedWith(aggregated.value);
      }
      aggregated := AggregateForBuild(plan.runID, plan.build, expected, reports, plan.horizon, !plan.connectionOnly);
      if aggregated.Err? {
        return NotAggregated;
      }
      return Succeeded(aggregated.value);
    }

    function FinalScope(): Scope {
      CompletedScope(plan.runID, plan.build, plan.horizon, !plan.connectionOnly)
    }

    function EndedScope(): Scope { TerminalScope(plan.runID, plan.build, plan.horizon) }

    /** No error, if the reports are those of a completed run. */
    ghost predicate Concluded(o: Outcome)
      reads this`expected, this`reports
    {
      if Collectable(FinalScope(), expected, reports) && NoDuplicates(expected, reports)
      then o.Succeeded? && IsCollected(o.report, FinalScope(), Completed, expected.Keys, reports)
      else o == NotAggregated
    }

    /** An aggregate beside an error, if the reports are terminal ones. */
    ghost predicate ConcludedWith(o: Outcome, status: Status)
      reads this`expected, this`reports
    {
      if Collectable(EndedScope(), expected, reports)
      then o.EndedWith? && o.report.status == status
           && IsCollected(o.report, EndedScope(), status, expected.Keys, reports)
      else o == NotAggregated
    }
  }

  lemma AboutNext(log: seq<Call>, c: Call, runID: string)
    requires AllAbout(log, runID) && !c.StartCall? && (c.Wait? || c.runID == runID)
    ensures AllAbout(log + [c], runID)
  {
  }

  lemma AboutStart(log: seq<Call>, c: Call, p: Plan)
    requires AllAbout(log, p.runID) && ValidPlan(p) && c.StartCall? && c.request.runID == p.template.runID
    ensures AllAbout(log + [c], p.runID)
  {
    hide DistinctIDs;
  }

  lemma AimedNext(log: seq<Call>, c: Call)
    requires Aimed(log) && (c.CancelCall? && !c.fate.RequestLost? ==> Arrived(c))
    ensures Aimed(log + [c])
  {
    hide Arrived;
  }

  /** A Cancel whose request is not lost arrives at a run its agent knows. */
  lemma KnownArrives(c: Call, before: Fleet, after: Fleet, m: Moment, capabilities: Registries.Capabilities)
    requires c.CancelCall? && Sent(m, c, before, after, capabilities) && Knows(before, c.agent, c.runID)
    ensures !c.fate.RequestLost? ==> Arrived(c)
  {
    hide Effect, Meets, AllKept;
  }

  lemma WantedNext(p: Plan, n: nat)
    requires n < |p.agents| && HasJobs(p, p.agents[n].id)
    ensures Wanted(p, n + 1) == Wanted(p, n) + [RequestFor(p, p.agents[n].id)]
    ensures Wanted(p, n + 1) <= AllWanted(p)
  {
    WantedPrefix(p, n + 1, |p.agents|);
  }

  lemma NothingSince(log: seq<Call>)
    ensures Quietly(log, log)
  {
  }

  lemma SmoothNext(log: seq<Call>, c: Call, capabilities: Registries.Capabilities)
    requires Smooth(log, capabilities) && (c.StartCall? || c.Wait?) && !Hitch(c, capabilities)
    ensures Smooth(log + [c], capabilities)
  {
    hide Hitch;
  }

  lemma NothingWanted(p: Plan, n: nat)
    requires n < |p.agents| && !HasJobs(p, p.agents[n].id)
    ensures Wanted(p, n + 1) == Wanted(p, n)
  {
  }

  lemma ExpectNext(p: Plan, n: nat, started: seq<string>)
    requires n < |p.agents| && HasJobs(p, p.agents[n].id) && started == Agents(Wanted(p, n)) + [p.agents[n].id]
    ensures started == Agents(Wanted(p, n + 1))
    ensures JobsOf(p, started) == JobsOf(p, Agents(Wanted(p, n)))[p.agents[n].id := p.assignments[p.agents[n].id]]
  {
    hide Agents, Wanted;
    WantedNext(p, n);
    AgentsNext(Wanted(p, n), RequestFor(p, p.agents[n].id));
  }

  /** An agent that accepted a Start, and whose reply was lost, is left with its run going on. */
  lemma OrphanedThere(c: Call, m: Moment, before: Fleet, after: Fleet, capabilities: Registries.Capabilities)
    requires c.StartCall? && Sent(m, c, before, after, capabilities)
    ensures Orphaning(c, capabilities) ==> Unattended(after, c.agent, c.request.runID)
    ensures c.agent in before && Registries.StartAllowed(before[c.agent], c.request, capabilities) ==>
              (m.before == [] && m.fate.ReplyLost? ==> Orphaning(c, capabilities))
  {
    hide Registries.ValidRunRequest, Registries.Kept;
  }

  lemma AskQuietly(log: seq<Call>, c: Call)
    requires c.StatusCall?
    ensures Quietly(log, log + [c])
  {
  }

  lemma QuietPrefix(before: seq<Call>, after: seq<Call>)
    requires Quietly(before, after)
    ensures before <= after
  {
  }

  lemma {:induction false} MembersCounted(s: seq<string>)
    requires DistinctStrings(s)
    ensures |Members(s)| == |s|
  {
    if s != [] {
      var n := |s| - 1;
      MembersCounted(s[..n]);
      assert Members(s) == Members(s[..n]) + {s[n]};
    }
  }

  lemma AllCollected(started: seq<string>, reports: map<string, Report>)
    requires DistinctStrings(started) && reports.Keys <= Members(started) && |reports| >= |started|
    ensures reports.Keys == Members(started)
  {
    MembersCounted(started);
    assert |Members(started) - reports.Keys| == |started| - |reports|;
  }

  lemma StatusOfCollected(r: Report, s: Scope, status: Status, agents: set<string>, reports: map<string, Report>)
    requires IsCollected(r, s, status, agents, reports)
    ensures r.status == status
  {
  }
}
