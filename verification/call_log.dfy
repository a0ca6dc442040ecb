/** What the record of the calls says: who was asked to start, who answered, who was told to cancel, which
    reports were given, and what went wrong. */
module CallLogs {
  import opened Wrappers
  import opened Tracking
  import opened Networks
  import Registries

  // ---- Replies ----

  /** A terminal status together with its report. */
  predicate Reports(reply: Option<StatusReply>) {
    reply.Some? && Registries.Terminal(reply.value.status) && reply.value.report.Some?
  }

  /** The grounds for cleanup that a reply gives. */
  function GroundsFor(reply: Option<StatusReply>): seq<Status> {
    if reply.Some? && (reply.value.status == Pending || reply.value.status == Running) then []
    else if !Reports(reply) then [Failed]
    else if reply.value.status == Completed then []
    else [reply.value.status]
  }

  /** The status to report when cleanup was begun on these grounds, in this order. */
  function Verdict(grounds: seq<Status>): Option<Status> {
    if grounds == [] then None else if Failed in grounds then Some(Failed) else Some(Cancelled)
  }

  predicate AllBad(grounds: seq<Status>) { forall g :: g in grounds ==> g in {Failed, Cancelled} }

  lemma VerdictNext(grounds: seq<Status>, status: Status)
    requires status in {Failed, Cancelled} && AllBad(grounds)
    ensures AllBad(grounds + [status])
    ensures Verdict(grounds + [status]) == if status == Failed || Verdict(grounds) == None then Some(status)
                                           else Verdict(grounds)
  {
  }

  lemma BadFront(grounds: seq<Status>, status: Status)
    requires AllBad(grounds + [status])
    ensures AllBad(grounds)
  {
    assert forall g :: g in grounds ==> g in grounds + [status];
  }

  // ---- What the calls amount to ----

  datatype Request = Request(agent: string, request: Registries.RunRequest)

  /** The Starts, in order. */
  function Requests(log: seq<Call>): seq<Request> {
    if log == [] then []
    else
      var n := |log| - 1;
      Requests(log[..n]) + if log[n].StartCall? then [Request(log[n].agent, log[n].request)] else []
  }

  /** The agents whose Start was answered, in order. */
  function Answered(log: seq<Call>, capabilities: Registries.Capabilities): seq<string> {
    if log == [] then []
    else
      var n := |log| - 1;
      Answered(log[..n], capabilities)
      + if log[n].StartCall? && StartReply(log[n], capabilities).Some? then [log[n].agent] else []
  }

  predicate Orphaning(c: Call, capabilities: Registries.Capabilities) {
    c.StartCall? && Accepted(c, capabilities) && StartReply(c, capabilities).None?
  }

  /** The agents that accepted their Start without an answer reaching the caller. */
  function Orphans(log: seq<Call>, capabilities: Registries.Capabilities): seq<string> {
    if log == [] then []
    else
      var n := |log| - 1;
      Orphans(log[..n], capabilities) + if Orphaning(log[n], capabilities) then [log[n].agent] else []
  }

  /** The agents a Cancel was sent to, in order. */
  function Told(log: seq<Call>): seq<string> {
    if log == [] then []
    else
      var n := |log| - 1;
      Told(log[..n]) + if log[n].CancelCall? then [log[n].agent] else []
  }

  /** The terminal replies with their reports. */
  function Collected(log: seq<Call>): map<string, StatusReply> {
    if log == [] then map[]
    else
      var n := |log| - 1;
      if log[n].StatusCall? && Reports(StatusAnswered(log[n]))
      then Collected(log[..n])[log[n].agent := StatusAnswered(log[n]).value] else Collected(log[..n])
  }

  /** The grounds for cleanup, in order: what replies give, and the first wait that was done without any. */
  function Causes(log: seq<Call>): seq<Status> {
    if log == [] then []
    else
      var n := |log| - 1;
      var sofar := Causes(log[..n]);
      match log[n]
      case StatusCall(_, _, _, _) => sofar + GroundsFor(StatusAnswered(log[n]))
      case Wait(done, parentCancelled) =>
        sofar + if done && sofar == [] then [if parentCancelled then Cancelled else Failed] else []
      case _ => sofar
  }

  /** The agents asked for their status since the last wait. */
  function Asked(log: seq<Call>): set<string> {
    if log == [] || log[|log| - 1].Wait? then {}
    else
      var n := |log| - 1;
      Asked(log[..n]) + if log[n].StatusCall? then {log[n].agent} else {}
  }

  /** From `base` on, before every wait each agent has been asked for its status, unless its report was there. */
  predicate Diligent(log: seq<Call>, base: nat, agents: set<string>) {
    |log| <= base ||
    var n := |log| - 1;
    Diligent(log[..n], base, agents) && (log[n].Wait? ==> agents <= Asked(log[..n]) + Collected(log[..n]).Keys)
  }

  /** After some Starts and waits, at most one of each for every agent of the plan, these agents were polled. */
  ghost predicate Polled(log: seq<Call>, planned: nat, agents: set<string>) {
    exists base: nat ::
      base <= |log| && base <= 2 * planned && Diligent(log, base, agents)
      && forall k :: 0 <= k < base ==> log[k].StartCall? || log[k].Wait?
  }

  /** Each Start but the first comes directly after a wait, if there is a delay, or else after another Start. */
  predicate Spaced(log: seq<Call>, delay: bool) {
    forall k :: 0 < k < |log| && log[k].StartCall? ==> if delay then log[k - 1].Wait? else log[k - 1].StartCall?
  }

  /** So far there were only Starts, or waits as well if there is a delay, and none of them before the first Start. */
  predicate SpacedStarts(log: seq<Call>, delay: bool, started: bool) {
    && Spaced(log, delay) && (!started ==> log == [])
    && (!delay ==> forall c :: c in log ==> c.StartCall?)
  }

  lemma StartSpaced(log: seq<Call>, c: Call, delay: bool, started: bool)
    requires SpacedStarts(log, delay, started) && c.StartCall?
    requires started && delay && log != [] ==> log[|log| - 1].Wait?
    ensures SpacedStarts(log + [c], delay, true)
  {
    if log != [] {
      assert log[|log| - 1] in log;
    }
  }

  lemma WaitSpaced(log: seq<Call>, c: Call, delay: bool)
    requires c.Wait?
    ensures Spaced(log, delay) ==> Spaced(log + [c], delay)
    ensures delay && SpacedStarts(log, delay, true) ==> SpacedStarts(log + [c], delay, true)
  {
  }

  /** Nothing but status calls and Cancels in between. */
  predicate Quietly(before: seq<Call>, after: seq<Call>) {
    before <= after && forall k :: |before| <= k < |after| ==> after[k].StatusCall? || after[k].CancelCall?
  }

  lemma QuietCancels(before: seq<Call>, sent: seq<Call>)
    requires forall c :: c in sent ==> c.CancelCall?
    ensures Quietly(before, before + sent)
  {
    forall k | |before| <= k < |before + sent| ensures (before + sent)[k].CancelCall? {
      assert (before + sent)[k] == sent[k - |before|] && sent[k - |before|] in sent;
    }
  }

  lemma {:induction false} QuietlyKeeps(before: seq<Call>, after: seq<Call>, base: nat, agents: set<string>,
                                        capabilities: Registries.Capabilities)
    requires Quietly(before, after)
    ensures Asked(before) <= Asked(after) && (Diligent(before, base, agents) ==> Diligent(after, base, agents))
    ensures Acknowledged(before, capabilities) ==> Acknowledged(after, capabilities)
    ensures forall delay :: Spaced(before, delay) ==> Spaced(after, delay)
  {
    hide Hitch;
    if |after| > |before| {
      var n := |after| - 1;
      QuietlyKeeps(before, after[..n], base, agents, capabilities);
      assert after == after[..n] + [after[n]];
    } else {
      assert after == before;
    }
  }

  /** Every call is about this run. */
  predicate About(c: Call, runID: string) {
    c.Wait? || (if c.StartCall? then c.request.runID == runID else c.runID == runID)
  }

  predicate AllAbout(log: seq<Call>, runID: string) {
    forall c :: c in log ==> About(c, runID)
  }

  /** Every Cancel whose request was not lost arrived at a run. */
  predicate Aimed(log: seq<Call>) {
    forall c :: c in log && c.CancelCall? && !c.fate.RequestLost? ==> Arrived(c)
  }

  /** What a wait or a Start may go wrong with. */
  predicate Hitch(c: Call, capabilities: Registries.Capabilities) {
    || (c.Wait? && c.done)
    || (c.StartCall? && StartReply(c, capabilities) != Some(ExpectedReply(c.request)))
  }

  predicate Acknowledged(log: seq<Call>, capabilities: Registries.Capabilities) {
    forall c :: c in log && c.StartCall? ==> !Hitch(c, capabilities)
  }

  /** Nothing but Starts and waits, none of which went wrong. */
  predicate Smooth(log: seq<Call>, capabilities: Registries.Capabilities) {
    forall c :: c in log ==> (c.StartCall? || c.Wait?) && !Hitch(c, capabilities)
  }

  /** A wait was done when there were grounds for cleanup already. */
  predicate OutOfTime(log: seq<Call>) {
    log != [] && log[|log| - 1].Wait? && log[|log| - 1].done && Causes(log[..|log| - 1]) != []
  }

  lemma NextStart(log: seq<Call>, c: Call, capabilities: Registries.Capabilities)
    requires c.StartCall?
    ensures Requests(log + [c]) == Requests(log) + [Request(c.agent, c.request)]
    ensures Answered(log + [c], capabilities)
         == Answered(log, capabilities) + if StartReply(c, capabilities).Some? then [c.agent] else []
    ensures Orphans(log + [c], capabilities)
         == Orphans(log, capabilities) + if Orphaning(c, capabilities) then [c.agent] else []
    ensures Told(log + [c]) == Told(log) && Collected(log + [c]) == Collected(log) && Causes(log + [c]) == Causes(log)
  {
    hide Accepted, Registries.StartAllowed;
    assert (log + [c])[..|log|] == log;
  }

  lemma NextStatus(log: seq<Call>, c: Call, capabilities: Registries.Capabilities)
    requires c.StatusCall?
    ensures Requests(log + [c]) == Requests(log) && Told(log + [c]) == Told(log)
    ensures Answered(log + [c], capabilities) == Answered(log, capabilities)
    ensures Orphans(log + [c], capabilities) == Orphans(log, capabilities)
    ensures var reply := StatusAnswered(c);
            && Collected(log + [c])
               == (if Reports(reply) then Collected(log)[c.agent := reply.value] else Collected(log))
            && Causes(log + [c]) == Causes(log) + GroundsFor(reply)
    ensures Asked(log + [c]) == Asked(log) + {c.agent}
  {
    hide StatusAnswered, Reports, GroundsFor;
    assert (log + [c])[..|log|] == log;
  }

  lemma NextCancel(log: seq<Call>, c: Call, capabilities: Registries.Capabilities)
    requires c.CancelCall?
    ensures Requests(log + [c]) == Requests(log) && Told(log + [c]) == Told(log) + [c.agent]
    ensures Answered(log + [c], capabilities) == Answered(log, capabilities)
    ensures Orphans(log + [c], capabilities) == Orphans(log, capabilities)
    ensures Collected(log + [c]) == Collected(log) && Causes(log + [c]) == Causes(log) && Asked(log + [c]) == Asked(log)
  {
    assert (log + [c])[..|log|] == log;
  }

  lemma NextWait(log: seq<Call>, c: Call, capabilities: Registries.Capabilities)
    requires c.Wait?
    ensures Requests(log + [c]) == Requests(log) && Told(log + [c]) == Told(log)
    ensures Answered(log + [c], capabilities) == Answered(log, capabilities)
    ensures Orphans(log + [c], capabilities) == Orphans(log, capabilities)
    ensures Collected(log + [c]) == Collected(log)
    ensures Causes(log + [c])
         == Causes(log) + if c.done && Causes(log) == [] then [if c.parentCancelled then Cancelled else Failed] else []
  {
    assert (log + [c])[..|log|] == log;
  }

  lemma {:induction false} CausesBad(log: seq<Call>)
    ensures AllBad(Causes(log))
  {
    hide StatusAnswered;
    if log != [] {
      CausesBad(log[..|log| - 1]);
    }
  }

  /** While nothing has gone wrong, all reports were given as Completed. */
  lemma {:induction false} QuietReplies(log: seq<Call>)
    requires Causes(log) == []
    ensures forall a :: a in Collected(log) ==> Collected(log)[a].status == Completed
  {
    hide StatusAnswered;
    if log != [] {
      QuietReplies(log[..|log| - 1]);
    }
  }

  // ---- What it says of the agents ----

  lemma {:induction false} AnsweredKnown(log: seq<Call>, fleet: Fleet, runID: string,
                                         capabilities: Registries.Capabilities)
    requires NoneGarbled(log) && AllBorne(log, fleet, capabilities) && AllAbout(log, runID)
    ensures forall a :: a in Answered(log, capabilities) ==> Knows(fleet, a, runID)
  {
    hide Accepted, Borne, About;
    if log != [] {
      var c := log[|log| - 1];
      AnsweredKnown(log[..|log| - 1], fleet, runID, capabilities);
      assert c in log && Borne(c, fleet, capabilities) && About(c, runID);
      if c.StartCall? && StartReply(c, capabilities).Some? {
        StartBorne(c, fleet, runID, capabilities);
      }
    }
  }

  lemma StartBorne(c: Call, fleet: Fleet, runID: string, capabilities: Registries.Capabilities)
    requires c.StartCall? && Accepted(c, capabilities) && Borne(c, fleet, capabilities) && About(c, runID)
    ensures Knows(fleet, c.agent, runID)
  {
    hide Accepted;
  }

  /** A reply that came with a report is what the agent still holds. */
  lemma {:induction false} CollectedHeld(log: seq<Call>, fleet: Fleet, runID: string,
                                         capabilities: Registries.Capabilities)
    requires NoneGarbled(log) && AllBorne(log, fleet, capabilities) && AllAbout(log, runID)
    ensures forall a :: a in Collected(log) ==>
              Knows(fleet, a, runID) && Registries.Terminal(Collected(log)[a].status) &&
              Collected(log)[a] == StatusReply(fleet[a].runs[runID].status, fleet[a].runs[runID].report)
  {
    hide Borne, About, Knows;
    if log != [] {
      var c := log[|log| - 1];
      CollectedHeld(log[..|log| - 1], fleet, runID, capabilities);
      assert c in log && Borne(c, fleet, capabilities) && About(c, runID);
      if c.StatusCall? && Reports(StatusAnswered(c)) {
        StatusBorne(c, fleet, runID, capabilities);
      }
    }
  }

  lemma StatusBorne(c: Call, fleet: Fleet, runID: string, capabilities: Registries.Capabilities)
    requires c.StatusCall? && !c.fate.Garbled? && Reports(StatusAnswered(c))
    requires Borne(c, fleet, capabilities) && About(c, runID)
    ensures Knows(fleet, c.agent, runID) && Registries.Terminal(StatusAnswered(c).value.status)
    ensures StatusAnswered(c).value
         == StatusReply(fleet[c.agent].runs[runID].status, fleet[c.agent].runs[runID].report)
  {
  }

  predicate LostThere(c: Call, a: string) { c.CancelCall? && c.agent == a && c.fate.RequestLost? }

  predicate Over(fleet: Fleet, a: string, runID: string) {
    Knows(fleet, a, runID) && Ending(fleet[a].runs[runID])
  }

  /** The run of every agent that was told to cancel is over or ending, unless the request was lost. */
  lemma {:induction false} ToldOver(log: seq<Call>, fleet: Fleet, runID: string, capabilities: Registries.Capabilities)
    requires AllBorne(log, fleet, capabilities) && AllAbout(log, runID) && Aimed(log)
    ensures forall a :: a in Told(log) ==> Over(fleet, a, runID) || exists c :: c in log && LostThere(c, a)
  {
    hide Borne, About, Arrived, Over;
    if log != [] {
      var n := |log| - 1;
      var c := log[n];
      ToldOver(log[..n], fleet, runID, capabilities);
      assert c in log && Borne(c, fleet, capabilities) && About(c, runID);
      forall a | a in Told(log[..n]) ensures Over(fleet, a, runID) || exists d :: d in log && LostThere(d, a) {
        if !Over(fleet, a, runID) {
          var d :| d in log[..n] && LostThere(d, a);
          assert d in log && LostThere(d, a);
        }
      }
      if c.CancelCall? && !c.fate.RequestLost? {
        CancelBorne(c, fleet, runID, capabilities);
      } else if c.CancelCall? {
        assert LostThere(c, c.agent);
      }
    }
  }

  lemma CancelBorne(c: Call, fleet: Fleet, runID: string, capabilities: Registries.Capabilities)
    requires c.CancelCall? && Arrived(c) && Borne(c, fleet, capabilities) && About(c, runID)
    ensures Over(fleet, c.agent, runID)
  {
    hide Arrived;
  }

  lemma {:induction false} ToldFrom(log: seq<Call>, c: Call)
    requires c in log && c.CancelCall?
    ensures c.agent in Told(log)
  {
    var n := |log| - 1;
    if c != log[n] {
      assert c in log[..n];
      ToldFrom(log[..n], c);
    }
  }

  lemma {:induction false} AnsweredFrom(log: seq<Call>, c: Call, capabilities: Registries.Capabilities)
    requires c in log && c.StartCall?
    ensures StartReply(c, capabilities).Some? ==> c.agent in Answered(log, capabilities)
    ensures Orphaning(c, capabilities) ==> c.agent in Orphans(log, capabilities)
  {
    hide StartReply, Orphaning;
    var n := |log| - 1;
    if c != log[n] {
      assert c in log[..n];
      AnsweredFrom(log[..n], c, capabilities);
    }
  }

  lemma {:induction false} OrphansKnown(log: seq<Call>, fleet: Fleet, runID: string,
                                        capabilities: Registries.Capabilities)
    requires AllBorne(log, fleet, capabilities) && AllAbout(log, runID)
    ensures forall a :: a in Orphans(log, capabilities) ==> Knows(fleet, a, runID)
  {
    hide Accepted, Borne, About, Knows;
    if log != [] {
      var c := log[|log| - 1];
      OrphansKnown(log[..|log| - 1], fleet, runID, capabilities);
      assert c in log && Borne(c, fleet, capabilities) && About(c, runID);
      if Orphaning(c, capabilities) {
        StartBorne(c, fleet, runID, capabilities);
      }
    }
  }

  function Agents(requests: seq<Request>): seq<string> {
    seq(|requests|, i requires 0 <= i < |requests| => requests[i].agent)
  }

  lemma AgentsNext(requests: seq<Request>, r: Request)
    ensures Agents(requests + [r]) == Agents(requests) + [r.agent]
  {
  }

  lemma NoAgents()
    ensures Agents([]) == []
  {
  }

  /** Where no agent is asked twice, an orphaned agent is not among those that answered. */
  lemma {:induction false} OrphansApart(log: seq<Call>, capabilities: Registries.Capabilities)
    requires DistinctStrings(Agents(Requests(log)))
    ensures forall a :: a in Orphans(log, capabilities) ==> a !in Answered(log, capabilities)
    ensures forall a :: a in Answered(log, capabilities) || a in Orphans(log, capabilities) ==>
              a in Agents(Requests(log))
  {
    hide Accepted, StartReply, Agents;
    if log != [] {
      var n := |log| - 1;
      var front := Agents(Requests(log[..n]));
      if log[n].StartCall? {
        AgentsNext(Requests(log[..n]), Request(log[n].agent, log[n].request));
        LastApart(front, log[n].agent);
      } else {
        assert Requests(log) == Requests(log[..n]);
      }
      OrphansApart(log[..n], capabilities);
    }
  }

  lemma LastApart(s: seq<string>, x: string)
    requires DistinctStrings(s + [x])
    ensures DistinctStrings(s) && x !in s
  {
    var t := s + [x];
    forall i | 0 <= i < |s| ensures s[i] != x {
      assert t[i] != t[|s|];
    }
    assert forall i :: 0 <= i < |s| ==> t[i] == s[i];
  }

  /** Where every Start was acknowledged, those asked are those that answered. */
  lemma {:induction false} AllAnswered(log: seq<Call>, capabilities: Registries.Capabilities)
    requires Acknowledged(log, capabilities)
    ensures Answered(log, capabilities) == Agents(Requests(log))
  {
    hide StartReply, Agents;
    if log != [] {
      var n := |log| - 1;
      AllAnswered(log[..n], capabilities);
      assert log[n] in log;
      if log[n].StartCall? {
        AgentsNext(Requests(log[..n]), Request(log[n].agent, log[n].request));
      } else {
        assert Requests(log) == Requests(log[..n]);
      }
    } else {
      NoAgents();
    }
  }

  lemma DiligentWait(log: seq<Call>, c: Call, base: nat, agents: set<string>, capabilities: Registries.Capabilities)
    requires c.Wait? && Diligent(log, base, agents) && agents <= Asked(log) + Collected(log).Keys
    ensures Diligent(log + [c], base, agents)
    ensures Acknowledged(log, capabilities) ==> Acknowledged(log + [c], capabilities)
    ensures c.done && Causes(log) != [] ==> OutOfTime(log + [c])
  {
    hide Asked, Collected, Hitch;
    assert (log + [c])[..|log|] == log;
  }

  lemma PolledSince(front: seq<Call>, log: seq<Call>, planned: nat, agents: set<string>,
                    capabilities: Registries.Capabilities)
    requires front <= log && |front| <= 2 * planned && Smooth(front, capabilities)
    requires Diligent(log, |front|, agents)
    ensures Polled(log, planned, agents)
  {
    hide Diligent, Hitch;
    assert forall k :: 0 <= k < |front| ==> log[k] == front[k] && front[k] in front;
  }

  predicate DistinctStrings(s: seq<string>) { forall i, j :: 0 <= i < j < |s| ==> s[i] != s[j] }
}
