/** The network between the controller and the agents' registries, with a record of every call made of it.
    Its runs are quantified over by a script: what happens at every remote call and every wait. */
module Networks {
  import opened Wrappers
  import opened Tracking
  import Registries

  type Registry = Registries.State
  type Fleet = map<string, Registry>

  datatype StatusReply = StatusReply(status: Status, report: Option<Report>)
  datatype Acknowledgement = Acknowledgement(runID: string, accepted: int)

  /** What becomes of a remote call. A garbled call reaches the agent, but its reply is replaced. */
  datatype Fate = Delivered | RequestLost | ReplyLost | Garbled(status: StatusReply, acknowledgement: Acknowledgement)

  /** One remote call or wait: what happens on the agents before it, the call's fate, and whether the
      waiting controller finds its context done, by its parent or by its own deadline. */
  datatype Moment = Moment(before: seq<Occurrence>, fate: Fate, done: bool, parentCancelled: bool)
  datatype Occurrence = Occurrence(agent: string, event: Registries.Event)

  /** A script that has ended loses every call. */
  const LOST := Moment([], RequestLost, false, false)

  // ---- Calls and their replies ----

  /** A call as the network saw it; `found` is the agent's registry when the call was made. */
  datatype Call =
    | StartCall(agent: string, request: Registries.RunRequest, fate: Fate, found: Option<Registry>)
    | StatusCall(agent: string, runID: string, fate: Fate, found: Option<Registry>)
    | CancelCall(agent: string, runID: string, fate: Fate, found: Option<Registry>)
    | Wait(done: bool, parentCancelled: bool)

  /** The request arrived and the agent started the run. */
  predicate Accepted(c: Call, capabilities: Registries.Capabilities) {
    c.StartCall? && !c.fate.RequestLost? && c.found.Some? &&
    Registries.StartAllowed(c.found.value, c.request, capabilities)
  }

  function StartReply(c: Call, capabilities: Registries.Capabilities): Option<Acknowledgement>
    requires c.StartCall?
  {
    match c.fate
    case Delivered => if Accepted(c, capabilities) then Some(ExpectedReply(c.request)) else None
    case Garbled(_, acknowledgement) => Some(acknowledgement)
    case _ => None
  }

  function ExpectedReply(request: Registries.RunRequest): Acknowledgement {
    Acknowledgement(request.runID, |request.jobs|)
  }

  function StatusAnswered(c: Call): Option<StatusReply>
    requires c.StatusCall?
  {
    match c.fate
    case Delivered =>
      if c.found.Some? && c.runID in c.found.value.runs
      then Some(StatusReply(c.found.value.runs[c.runID].status, c.found.value.runs[c.runID].report)) else None
    case Garbled(status, _) => Some(status)
    case _ => None
  }

  /** The request arrived at the run. */
  predicate Arrived(c: Call) {
    c.CancelCall? && !c.fate.RequestLost? && c.found.Some? && c.runID in c.found.value.runs
  }

  predicate Confirmed(c: Call) { c.CancelCall? && (c.fate.Garbled? || (c.fate.Delivered? && Arrived(c))) }

  /** What the call does to the registry it found. */
  function Effect(c: Call, capabilities: Registries.Capabilities): Registry
    requires !c.Wait? && c.found.Some?
  {
    if c.fate.RequestLost? then c.found.value
    else
      match c
      case StartCall(_, request, _, _) => Registries.Next(c.found.value, capabilities, Registries.Start(request))
      case CancelCall(_, runID, _, _) => Registries.Next(c.found.value, capabilities, Registries.Cancel(runID))
      case StatusCall(_, _, _, _) => c.found.value
  }

  // ---- What is never undone ----

  predicate FleetInv(fleet: Fleet) {
    forall a :: a in fleet ==> Registries.Inv(fleet[a])
  }

  /** Nothing that was known on any agent is undone. */
  predicate AllKept(before: Fleet, after: Fleet) {
    before.Keys == after.Keys && forall a :: a in before ==> Registries.Kept(before[a], after[a])
  }

  predicate Knows(fleet: Fleet, a: string, runID: string) {
    a in fleet && runID in fleet[a].runs
  }

  /** The run is over, or it has been asked to cancel. */
  predicate Ending(r: Registries.Record) { Registries.Terminal(r.status) || r.cancelRequested }

  /** What a call has brought about or learnt still holds. */
  predicate Borne(c: Call, fleet: Fleet, capabilities: Registries.Capabilities) {
    match c
    case StartCall(a, request, _, _) => Accepted(c, capabilities) ==> Knows(fleet, a, request.runID)
    case CancelCall(a, runID, _, _) => Arrived(c) ==> Knows(fleet, a, runID) && Ending(fleet[a].runs[runID])
    case StatusCall(a, runID, _, found) =>
      found.Some? && runID in found.value.runs && Registries.Terminal(found.value.runs[runID].status) ==>
        Knows(fleet, a, runID) && fleet[a].runs[runID] == found.value.runs[runID]
    case Wait(_, _) => true
  }

  predicate AllBorne(log: seq<Call>, fleet: Fleet, capabilities: Registries.Capabilities) {
    forall c :: c in log ==> Borne(c, fleet, capabilities)
  }

  lemma AllKeptSelf(r: Fleet)
    ensures AllKept(r, r)
  {
    forall a | a in r ensures Registries.Kept(r[a], r[a]) {
      Registries.KeptSelf(r[a]);
    }
  }

  lemma AllKeptFurther(r: Fleet, s: Fleet, t: Fleet)
    requires AllKept(r, s) && AllKept(s, t)
    ensures AllKept(r, t)
  {
    forall a | a in r ensures Registries.Kept(r[a], t[a]) {
      Registries.KeptFurther(r[a], s[a], t[a]);
    }
  }

  lemma StaysBorne(c: Call, before: Fleet, after: Fleet, capabilities: Registries.Capabilities)
    requires Borne(c, before, capabilities) && AllKept(before, after)
    ensures Borne(c, after, capabilities)
  {
    hide Registries.StartAllowed;
  }

  lemma AllStayBorne(log: seq<Call>, before: Fleet, after: Fleet, capabilities: Registries.Capabilities)
    requires AllBorne(log, before, capabilities) && AllKept(before, after)
    ensures AllBorne(log, after, capabilities)
  {
    hide Borne, AllKept;
    forall c | c in log ensures Borne(c, after, capabilities) {
      StaysBorne(c, before, after, capabilities);
    }
  }

  lemma EffectKept(c: Call, capabilities: Registries.Capabilities)
    requires !c.Wait? && c.found.Some? && Registries.Inv(c.found.value)
    ensures Registries.Inv(Effect(c, capabilities)) && Registries.Kept(c.found.value, Effect(c, capabilities))
  {
    hide Registries.Inv, Registries.Kept, Registries.Next;
    Registries.KeptSelf(c.found.value);
    match c {
      case StartCall(_, request, _, _) =>
        Registries.EventInv(c.found.value, capabilities, Registries.Start(request));
      case CancelCall(_, runID, _, _) => Registries.EventInv(c.found.value, capabilities, Registries.Cancel(runID));
      case StatusCall(_, _, _, _) =>
    }
  }

  /** The call meets its agent as it is, and does its work there. */
  predicate Meets(c: Call, before: Fleet, after: Fleet, capabilities: Registries.Capabilities) {
    && !c.Wait? && (c.found.Some? <==> c.agent in before)
    && (c.found.Some? ==> c.found.value == before[c.agent])
    && after == if c.found.Some? then before[c.agent := Effect(c, capabilities)] else before
  }

  lemma MeetsKept(c: Call, before: Fleet, after: Fleet, capabilities: Registries.Capabilities)
    requires FleetInv(before) && Meets(c, before, after, capabilities)
    ensures FleetInv(after) && AllKept(before, after)
  {
    hide Registries.Inv, Registries.Kept, Effect;
    AllKeptSelf(before);
    if c.found.Some? {
      EffectKept(c, capabilities);
    }
  }

  lemma MeetsBorne(c: Call, before: Fleet, after: Fleet, capabilities: Registries.Capabilities)
    requires FleetInv(before) && Meets(c, before, after, capabilities)
    ensures Borne(c, after, capabilities)
  {
    hide Registries.ValidRunRequest;
  }

  // ---- Reports worth keeping ----

  /** Whatever status the registry may give the report of this event, it is good. */
  ghost predicate FineEvent(agent: string, e: Registries.Event, good: (string, Report) -> bool, runID: string) {
    e.Complete? && e.id == runID ==>
      && good(agent, e.report.(runID := runID, status := Failed))
      && good(agent, e.report.(runID := runID, status := Cancelled))
      && (!e.failed ==> good(agent, e.report.(runID := runID, status := Completed)))
  }

  ghost predicate FineMoment(m: Moment, good: (string, Report) -> bool, runID: string) {
    forall n :: 0 <= n < |m.before| ==> FineEvent(m.before[n].agent, m.before[n].event, good, runID)
  }

  /** Every executor of the run that ends during the script ends with a good report. */
  ghost predicate FineScript(script: seq<Moment>, good: (string, Report) -> bool, runID: string) {
    forall k :: 0 <= k < |script| ==> FineMoment(script[k], good, runID)
  }

  ghost predicate GoodRun(s: Registry, agent: string, good: (string, Report) -> bool, runID: string) {
    runID in s.runs && s.runs[runID].report.Some? ==> good(agent, s.runs[runID].report.value)
  }

  ghost predicate GoodStored(fleet: Fleet, good: (string, Report) -> bool, runID: string) {
    forall a :: a in fleet ==> GoodRun(fleet[a], a, good, runID)
  }

  lemma GoodNext(s: Registry, c: Registries.Capabilities, agent: string, e: Registries.Event,
                 good: (string, Report) -> bool, runID: string)
    requires GoodRun(s, agent, good, runID) && FineEvent(agent, e, good, runID)
    ensures GoodRun(Registries.Next(s, c, e), agent, good, runID)
  {
    hide Registries.ValidRunRequest;
  }

  lemma MeetsGood(c: Call, before: Fleet, after: Fleet, capabilities: Registries.Capabilities,
                  good: (string, Report) -> bool, runID: string)
    requires GoodStored(before, good, runID) && Meets(c, before, after, capabilities)
    ensures GoodStored(after, good, runID)
  {
    hide Registries.Next, GoodRun;
    if c.found.Some? {
      match c {
        case StartCall(a, request, _, _) =>
          GoodNext(before[a], capabilities, a, Registries.Start(request), good, runID);
        case CancelCall(a, id, _, _) => GoodNext(before[a], capabilities, a, Registries.Cancel(id), good, runID);
        case StatusCall(_, _, _, _) =>
      }
    }
  }

  // ---- Runs nobody else touches ----

  /** Nobody else starts the run. */
  predicate OwnEvent(e: Registries.Event, runID: string) { !(e.Start? && e.request.runID == runID) }

  /** Nobody else starts or cancels the run, and it does not end of itself. */
  predicate LoneEvent(e: Registries.Event, runID: string) {
    OwnEvent(e, runID) && !(e.Cancel? && e.id == runID) && !(e.Complete? && e.id == runID)
  }

  predicate OwnScript(script: seq<Moment>, runID: string) {
    forall k, n :: 0 <= k < |script| && 0 <= n < |script[k].before| ==> OwnEvent(script[k].before[n].event, runID)
  }

  predicate LoneScript(script: seq<Moment>, runID: string) {
    forall k, n :: 0 <= k < |script| && 0 <= n < |script[k].before| ==> LoneEvent(script[k].before[n].event, runID)
  }

  predicate StartsThere(c: Call, a: string, runID: string, capabilities: Registries.Capabilities) {
    c.StartCall? && c.agent == a && c.request.runID == runID && Accepted(c, capabilities)
  }

  predicate EndsThere(c: Call, a: string, runID: string) {
    c.CancelCall? && c.agent == a && c.runID == runID && Arrived(c)
  }

  /** Every agent that knows the run was started by a call. */
  ghost predicate OnlyStarted(fleet: Fleet, log: seq<Call>, runID: string, capabilities: Registries.Capabilities) {
    forall a :: Knows(fleet, a, runID) ==> exists c :: c in log && StartsThere(c, a, runID, capabilities)
  }

  /** The run goes on at the agent, and nobody has asked it to end. */
  predicate Unattended(fleet: Fleet, a: string, runID: string) {
    Knows(fleet, a, runID) && fleet[a].runs[runID].status == Running && !fleet[a].runs[runID].cancelRequested
  }

  /** Every run goes on, unless a call has arrived that cancels it. */
  ghost predicate OnlyCancelled(fleet: Fleet, log: seq<Call>, runID: string) {
    forall a :: Knows(fleet, a, runID) ==> Unattended(fleet, a, runID) || exists c :: c in log && EndsThere(c, a, runID)
  }

  lemma OwnNext(s: Registry, c: Registries.Capabilities, e: Registries.Event, runID: string)
    requires OwnEvent(e, runID)
    ensures runID in Registries.Next(s, c, e).runs ==> runID in s.runs
    ensures runID in s.runs && LoneEvent(e, runID) ==>
              runID in Registries.Next(s, c, e).runs && Registries.Next(s, c, e).runs[runID] == s.runs[runID]
  {
    hide Registries.ValidRunRequest;
  }

  lemma NewlyStarted(s: Registry, c: Registries.Capabilities, request: Registries.RunRequest, runID: string)
    requires runID in Registries.Next(s, c, Registries.Start(request)).runs
    ensures if runID in s.runs then Registries.Next(s, c, Registries.Start(request)).runs[runID] == s.runs[runID]
            else request.runID == runID && Registries.StartAllowed(s, request, c) &&
                 Registries.Next(s, c, Registries.Start(request)).runs[runID] ==
                 Registries.Record(Running, None, false)
  {
    hide Registries.ValidRunRequest;
  }

  lemma MeetsOwn(c: Call, log: seq<Call>, before: Fleet, after: Fleet, runID: string,
                 capabilities: Registries.Capabilities)
    requires OnlyStarted(before, log, runID, capabilities) && Meets(c, before, after, capabilities)
    ensures OnlyStarted(after, log + [c], runID, capabilities)
  {
    hide Registries.Next, Registries.StartAllowed;
    forall a | Knows(after, a, runID) ensures exists d :: d in log + [c] && StartsThere(d, a, runID, capabilities) {
      if Knows(before, a, runID) {
        var d :| d in log && StartsThere(d, a, runID, capabilities);
        assert d in log + [c];
      } else {
        match c {
          case StartCall(_, request, _, _) => NewlyStarted(before[a], capabilities, request, runID);
          case CancelCall(_, id, _, _) => OwnNext(before[a], capabilities, Registries.Cancel(id), runID);
        }
        assert c in log + [c] && StartsThere(c, a, runID, capabilities);
      }
    }
  }

  lemma MeetsLone(c: Call, log: seq<Call>, before: Fleet, after: Fleet, runID: string,
                  capabilities: Registries.Capabilities)
    requires OnlyCancelled(before, log, runID) && Meets(c, before, after, capabilities)
    ensures OnlyCancelled(after, log + [c], runID)
  {
    hide Registries.Next, Registries.StartAllowed;
    forall a | Knows(after, a, runID) && !Unattended(after, a, runID)
      ensures exists d :: d in log + [c] && EndsThere(d, a, runID)
    {
      assert c in log + [c];
      if Knows(before, a, runID) && !Unattended(before, a, runID) {
        var d :| d in log && EndsThere(d, a, runID);
        assert d in log + [c];
      } else if c.StartCall? {
        NewlyStarted(before[a], capabilities, c.request, runID);
        assert false;
      } else {
        OwnNext(before[a], capabilities, Registries.Cancel(c.runID), runID);
        assert EndsThere(c, a, runID);
      }
    }
  }

  // ---- What happens between two calls ----

  function Happened(o: Occurrence, fleet: Fleet, capabilities: Registries.Capabilities): Fleet {
    if o.agent in fleet then fleet[o.agent := Registries.Next(fleet[o.agent], capabilities, o.event)] else fleet
  }

  lemma HappenedKept(o: Occurrence, fleet: Fleet, capabilities: Registries.Capabilities)
    requires FleetInv(fleet)
    ensures FleetInv(Happened(o, fleet, capabilities)) && AllKept(fleet, Happened(o, fleet, capabilities))
  {
    hide Registries.Inv, Registries.Kept, Registries.Next;
    AllKeptSelf(fleet);
    if o.agent in fleet {
      Registries.EventInv(fleet[o.agent], capabilities, o.event);
    }
  }

  lemma HappenedGood(o: Occurrence, fleet: Fleet, capabilities: Registries.Capabilities,
                     good: (string, Report) -> bool, runID: string)
    requires GoodStored(fleet, good, runID) && FineEvent(o.agent, o.event, good, runID)
    ensures GoodStored(Happened(o, fleet, capabilities), good, runID)
  {
    hide Registries.Next, GoodRun, FineEvent;
    if o.agent in fleet {
      GoodNext(fleet[o.agent], capabilities, o.agent, o.event, good, runID);
    }
  }

  lemma HappenedOwn(o: Occurrence, log: seq<Call>, fleet: Fleet, runID: string, capabilities: Registries.Capabilities)
    requires OnlyStarted(fleet, log, runID, capabilities) && OwnEvent(o.event, runID)
    ensures OnlyStarted(Happened(o, fleet, capabilities), log, runID, capabilities)
  {
    hide Registries.Next, OwnEvent, StartsThere;
    var after := Happened(o, fleet, capabilities);
    forall a | Knows(after, a, runID) ensures Knows(fleet, a, runID) {
      if a == o.agent {
        OwnNext(fleet[a], capabilities, o.event, runID);
      }
    }
  }

  lemma HappenedLone(o: Occurrence, log: seq<Call>, fleet: Fleet, runID: string, capabilities: Registries.Capabilities)
    requires OnlyCancelled(fleet, log, runID) && LoneEvent(o.event, runID)
    ensures OnlyCancelled(Happened(o, fleet, capabilities), log, runID)
  {
    hide Registries.Next, LoneEvent, EndsThere;
    var after := Happened(o, fleet, capabilities);
    forall a | Knows(after, a, runID) ensures Knows(fleet, a, runID) && after[a].runs[runID] == fleet[a].runs[runID] {
      if a == o.agent {
        assert OwnEvent(o.event, runID) by {
          LoneIsOwn(o.event, runID);
        }
        OwnNext(fleet[a], capabilities, o.event, runID);
      }
    }
  }

  lemma LoneIsOwn(e: Registries.Event, runID: string)
    requires LoneEvent(e, runID)
    ensures OwnEvent(e, runID)
  {
  }

  // ---- The network ----

  predicate Honest(script: seq<Moment>) {
    forall k :: 0 <= k < |script| ==> !script[k].fate.Garbled?
  }

  predicate NoneGarbled(log: seq<Call>) {
    forall c :: c in log ==> c.Wait? || !c.fate.Garbled?
  }

  function First(script: seq<Moment>): Moment { if script == [] then LOST else script[0] }

  function Rest(script: seq<Moment>): seq<Moment> { if script == [] then [] else script[1..] }

  /** A call made in the moment `m`, after what happens before it. */
  predicate Sent(m: Moment, c: Call, before: Fleet, after: Fleet, capabilities: Registries.Capabilities) {
    && !c.Wait? && c.fate == m.fate && AllKept(before, after)
    && (c.found.Some? <==> c.agent in before)
    && (c.found.Some? ==>
        Registries.Kept(before[c.agent], c.found.value) && after[c.agent] == Effect(c, capabilities))
    && (m.before == [] ==> Meets(c, before, after, capabilities))
  }

  class Network {
    const capabilities: Registries.Capabilities
    var registries: Fleet
    var script: seq<Moment>
    /** Every call and wait so far. */
    ghost var log: seq<Call>
    /** What a good report of the run `runID` is. */
    ghost const good: (string, Report) -> bool
    ghost const runID: string
    /** No reply is ever garbled; all reports of the run, stored already or still to come, are good; nobody else
        starts the run; and nobody else touches it. */
    ghost const honest: bool
    ghost const fine: bool
    ghost const own: bool
    ghost const lone: bool

    constructor (capabilities: Registries.Capabilities, registries: Fleet, script: seq<Moment>,
                 ghost good: (string, Report) -> bool, ghost runID: string)
      requires FleetInv(registries)
      ensures this.capabilities == capabilities && this.registries == registries && this.script == script
      ensures this.good == good && this.runID == runID && log == [] && Valid()
      ensures honest == Honest(script)
      ensures fine == (FineScript(script, good, runID) && GoodStored(registries, good, runID))
      ensures own == (OwnScript(script, runID) && forall a :: !Knows(registries, a, runID))
      ensures lone == (LoneScript(script, runID) && forall a :: !Knows(registries, a, runID))
    {
      this.capabilities, this.registries, this.script := capabilities, registries, script;
      this.good, this.runID, log := good, runID, [];
      honest := Honest(script);
      fine := FineScript(script, good, runID) && GoodStored(registries, good, runID);
      own := OwnScript(script, runID) && forall a :: !Knows(registries, a, runID);
      lone := LoneScript(script, runID) && forall a :: !Knows(registries, a, runID);
    }

    ghost predicate Upright()
      reads this`registries, this`log
    {
      && FleetInv(registries) && AllBorne(log, registries, capabilities)
      && (fine ==> GoodStored(registries, good, runID))
      && (own ==> OnlyStarted(registries, log, runID, capabilities))
      && (lone ==> OnlyCancelled(registries, log, runID))
    }

    ghost predicate Valid()
      reads this
    {
      && Upright() && (honest ==> Honest(script) && NoneGarbled(log)) && (fine ==> FineScript(script, good, runID))
      && (own ==> OwnScript(script, runID)) && (lone ==> LoneScript(script, runID))
    }

    /** What everybody else does may happen to the run. */
    ghost predicate Allowed(o: Occurrence) {
      && (fine ==> FineEvent(o.agent, o.event, good, runID)) && (own ==> OwnEvent(o.event, runID))
      && (lone ==> LoneEvent(o.event, runID))
    }

    method Happen(o: Occurrence)
      requires Upright() && Allowed(o)
      modifies this`registries
      ensures Upright() && AllKept(old(registries), registries)
    {
      hide FleetInv, AllBorne, GoodStored, OnlyStarted, OnlyCancelled, AllKept, FineEvent, OwnEvent, LoneEvent;
      ghost var before := registries;
      registries := Happened(o, registries, capabilities);
      hide Happened;
      HappenedKept(o, before, capabilities);
      AllStayBorne(log, before, registries, capabilities);
      if fine {
        HappenedGood(o, before, capabilities, good, runID);
      }
      if own {
        HappenedOwn(o, log, before, runID, capabilities);
      }
      if lone {
        HappenedLone(o, log, before, runID, capabilities);
      }
    }

    /** The next moment of the script, up to its call. */
    method Advance() returns (m: Moment)
      requires Valid()
      modifies this`registries, this`script
      ensures Valid() && AllKept(old(registries), registries)
      ensures m == First(old(script)) && script == Rest(old(script)) && (honest ==> !m.fate.Garbled?)
      ensures m.before == [] ==> registries == old(registries)
    {
      hide Upright, AllKept, FineEvent, OwnEvent, LoneEvent;
      AllKeptSelf(registries);
      m := First(script);
      assert forall n :: 0 <= n < |m.before| ==> Allowed(m.before[n]) by {
        NextAllowed();
      }
      script := Rest(script);
      hide Allowed, FineScript, OwnScript, LoneScript;
      var n := 0;
      while n < |m.before|
        invariant n <= |m.before| && Upright() && AllKept(old(registries), registries)
        invariant n == 0 ==> registries == old(registries)
        invariant script == Rest(old(script))
      {
        ghost var sofar := registries;
        Happen(m.before[n]);
        AllKeptFurther(old(registries), sofar, registries);
        n := n + 1;
      }
    }

    lemma NextAllowed()
      requires Valid()
      ensures forall n :: 0 <= n < |First(script).before| ==> Allowed(First(script).before[n])
    {
      hide Upright, FineEvent, OwnEvent, LoneEvent;
      if script != [] {
        assert fine ==> FineMoment(script[0], good, runID);
      }
    }

    /** The call does its work. */
    method Meet(c: Call)
      requires Valid() && !c.Wait? && (honest ==> !c.fate.Garbled?)
      requires c.found == if c.agent in registries then Some(registries[c.agent]) else None
      modifies this`registries, this`log
      ensures Valid() && log == old(log) + [c]
      ensures Meets(c, old(registries), registries, capabilities) && AllKept(old(registries), registries)
    {
      hide FleetInv, GoodStored, OnlyStarted, OnlyCancelled, AllKept, Effect, Borne, FineScript, OwnScript, LoneScript;
      ghost var before := registries;
      if c.found.Some? {
        registries := registries[c.agent := Effect(c, capabilities)];
      }
      MeetsKept(c, before, registries, capabilities);
      AllStayBorne(log, before, registries, capabilities);
      MeetsBorne(c, before, registries, capabilities);
      if fine {
        MeetsGood(c, before, registries, capabilities, good, runID);
      }
      if own {
        MeetsOwn(c, log, before, registries, runID, capabilities);
      }
      if lone {
        MeetsLone(c, log, before, registries, runID, capabilities);
      }
      log := log + [c];
    }

    function Found(agent: string): Option<Registry>
      reads this
    {
      if agent in registries then Some(registries[agent]) else None
    }

    method Start(agent: string, request: Registries.RunRequest)
      returns (reply: Option<Acknowledgement>, ghost call: Call)
      requires Valid()
      modifies this
      ensures Valid() && log == old(log) + [call] && script == Rest(old(script))
      ensures call.StartCall? && call == StartCall(agent, request, call.fate, call.found)
      ensures reply == StartReply(call, capabilities)
      ensures Sent(First(old(script)), call, old(registries), registries, capabilities)
    {
      hide Upright, AllKept, Registries.Kept, Effect, Accepted, Honest, FineScript, OwnScript, LoneScript;
      var m := Advance();
      ghost var before := registries;
      var c := StartCall(agent, request, m.fate, Found(agent));
      Meet(c);
      AllSent(m, c, old(registries), before, registries, capabilities);
      reply := StartReply(c, capabilities);
      call := c;
    }

    method Status(agent: string, runID: string) returns (reply: Option<StatusReply>, ghost call: Call)
      requires Valid()
      modifies this
      ensures Valid() && log == old(log) + [call] && script == Rest(old(script))
      ensures call.StatusCall? && call == StatusCall(agent, runID, call.fate, call.found)
      ensures reply == StatusAnswered(call)
      ensures Sent(First(old(script)), call, old(registries), registries, capabilities)
    {
      hide Upright, AllKept, Registries.Kept, Effect, Honest, FineScript, OwnScript, LoneScript;
      var m := Advance();
      ghost var before := registries;
      var c := StatusCall(agent, runID, m.fate, Found(agent));
      Meet(c);
      AllSent(m, c, old(registries), before, registries, capabilities);
      reply := StatusAnswered(c);
      call := c;
    }

    /** The caller learns whether the Cancel was confirmed. */
    method Cancel(agent: string, runID: string) returns (ok: bool, ghost call: Call)
      requires Valid()
      modifies this
      ensures Valid() && log == old(log) + [call] && script == Rest(old(script))
      ensures call.CancelCall? && call == CancelCall(agent, runID, call.fate, call.found) && ok == Confirmed(call)
      ensures Sent(First(old(script)), call, old(registries), registries, capabilities)
    {
      hide Upright, AllKept, Registries.Kept, Effect, Honest, FineScript, OwnScript, LoneScript;
      var m := Advance();
      ghost var before := registries;
      var c := CancelCall(agent, runID, m.fate, Found(agent));
      Meet(c);
      AllSent(m, c, old(registries), before, registries, capabilities);
      ok := Confirmed(c);
      call := c;
    }

    /** No call is made; time passes, and the context may be done. */
    method Pause() returns (m: Moment, ghost call: Call)
      requires Valid()
      modifies this
      ensures Valid() && log == old(log) + [call] && script == Rest(old(script))
      ensures m == First(old(script)) && call == Wait(m.done, m.parentCancelled)
      ensures AllKept(old(registries), registries) && (m.before == [] ==> registries == old(registries))
    {
      hide AllKept, FleetInv, GoodStored, Honest, FineScript, OwnScript, LoneScript;
      m := Advance();
      call := Wait(m.done, m.parentCancelled);
      if own {
        StillStarted(registries, log, call, runID, capabilities);
      }
      if lone {
        StillCancelled(registries, log, call, runID);
      }
      hide OnlyStarted, OnlyCancelled;
      log := log + [call];
    }
  }

  lemma AllSent(m: Moment, c: Call, before: Fleet, between: Fleet, after: Fleet, capabilities: Registries.Capabilities)
    requires !c.Wait? && c.fate == m.fate && AllKept(before, between) && AllKept(between, after)
      && Meets(c, between, after, capabilities)
    requires m.before == [] ==> between == before
    ensures Sent(m, c, before, after, capabilities)
  {
    hide Registries.Kept, Effect;
    AllKeptFurther(before, between, after);
  }

  lemma StillStarted(fleet: Fleet, log: seq<Call>, c: Call, runID: string, capabilities: Registries.Capabilities)
    requires OnlyStarted(fleet, log, runID, capabilities)
    ensures OnlyStarted(fleet, log + [c], runID, capabilities)
  {
    hide StartsThere;
    forall a | Knows(fleet, a, runID) ensures exists d :: d in log + [c] && StartsThere(d, a, runID, capabilities) {
      var d :| d in log && StartsThere(d, a, runID, capabilities);
      assert d in log + [c];
    }
  }

  lemma StillCancelled(fleet: Fleet, log: seq<Call>, c: Call, runID: string)
    requires OnlyCancelled(fleet, log, runID)
    ensures OnlyCancelled(fleet, log + [c], runID)
  {
    hide EndsThere;
    forall a | Knows(fleet, a, runID) && !Unattended(fleet, a, runID)
      ensures exists d :: d in log + [c] && EndsThere(d, a, runID)
    {
      var d :| d in log && EndsThere(d, a, runID);
      assert d in log + [c];
    }
  }
}
