/** What Expand accepts and yields, told from the scenario's own entries: which mode the jobs of a protocol get, how
    many there are, and in which order. */
module Expansion {
  import opened Sums
  import opened Scenario
  import opened Partitioning
  import opened Configuration

  /** The protocols in the order of a scenario. */
  function Place(p: Protocol): nat {
    match p
    case SSH => 0
    case RDP => 1
    case VNC => 2
    case Web => 3
    case MySQL => 4
    case OtherProtocol(_) => 5
  }

  function Asked(c: Config, p: Protocol): int { if p in c.protocols then c.protocols[p] else 0 }

  /** Counts of the five protocols, none negative, that add up to a positive total; and explicit mode splits, none
      negative, that add up to the counts of the protocols that have jobs. */
  predicate Accepted(c: Config) {
    && c.total > 0
    && (forall p :: p in c.protocols ==> p in {SSH, RDP, VNC, Web, MySQL} && c.protocols[p] >= 0)
    && Asked(c, SSH) + Asked(c, RDP) + Asked(c, VNC) + Asked(c, Web) + Asked(c, MySQL) == c.total
    && (forall p :: p in c.executionModes && p in c.protocols && c.protocols[p] != 0 ==>
          && c.executionModes[p].direct >= 0 && c.executionModes[p].browser >= 0
          && c.executionModes[p].direct + c.executionModes[p].browser == c.protocols[p])
  }

  lemma SumOfFive(c: Config)
    ensures SumFirst(c, |ORDER|)
         == Asked(c, SSH) + Asked(c, RDP) + Asked(c, VNC) + Asked(c, Web) + Asked(c, MySQL)
  {
    assert ORDER[0] == SSH && ORDER[1] == RDP && ORDER[2] == VNC && ORDER[3] == Web && ORDER[4] == MySQL;
    assert SumFirst(c, 5) == SumFirst(c, 4) + Asked(c, MySQL);
    assert SumFirst(c, 4) == SumFirst(c, 3) + Asked(c, Web);
    assert SumFirst(c, 3) == SumFirst(c, 2) + Asked(c, VNC);
    assert SumFirst(c, 2) == SumFirst(c, 1) + Asked(c, RDP);
    assert SumFirst(c, 1) == SumFirst(c, 0) + Asked(c, SSH);
  }

  lemma KnownAre(p: Protocol)
    ensures KnownProtocol(p) <==> p in {SSH, RDP, VNC, Web, MySQL}
    ensures KnownProtocol(p) <==> p in ORDER
  {
    assert ORDER[0] == SSH && ORDER[1] == RDP && ORDER[2] == VNC && ORDER[3] == Web && ORDER[4] == MySQL;
  }

  lemma SplitsAre(c: Config, p: Protocol)
    requires Asked(c, p) >= 0
    ensures Splits(ModesOf(c, p), Count(c, p)) <==>
              (p in c.executionModes ==>
                && c.executionModes[p].direct >= 0 && c.executionModes[p].browser >= 0
                && c.executionModes[p].direct + c.executionModes[p].browser == Asked(c, p))
  {
  }

  /** Expand accepts exactly these scenarios. */
  lemma AcceptedExactly(c: Config)
    ensures Expandable(c) <==> Accepted(c)
  {
    hide SumOver, SumFirst, Splits, ModesOf, ORDER;
    forall p | Asked(c, p) >= 0
      ensures Splits(ModesOf(c, p), Count(c, p)) <==>
                (p in c.executionModes ==>
                  && c.executionModes[p].direct >= 0 && c.executionModes[p].browser >= 0
                  && c.executionModes[p].direct + c.executionModes[p].browser == Asked(c, p))
    {
      SplitsAre(c, p);
    }
    forall p ensures (KnownProtocol(p) <==> p in {SSH, RDP, VNC, Web, MySQL}) && (KnownProtocol(p) <==> p in ORDER) {
      KnownAre(p);
    }
    SumOfFive(c);
    if forall p :: p in c.protocols ==> KnownProtocol(p) {
      SumOfKnown(c);
    }
  }

  // ---- The jobs ----

  lemma {:induction false} NumberedAre(jobs: seq<Job>, p: Protocol, m: Mode, n: nat)
    ensures var r := Numbered(jobs, p, m, n);
            && |r| == |jobs| + n && r[..|jobs|] == jobs
            && forall k :: |jobs| <= k < |r| ==> r[k].protocol == p && r[k].mode == m
  {
    if n > 0 {
      NumberedAre(jobs, p, m, n - 1);
    }
  }

  /** By protocol, and the browser jobs of a protocol before its direct ones. */
  predicate InOrder(jobs: seq<Job>) {
    forall i, j :: 0 <= i < j < |jobs| ==>
      && Place(jobs[i].protocol) <= Place(jobs[j].protocol)
      && (jobs[i].protocol == jobs[j].protocol && jobs[i].mode == Direct ==> jobs[j].mode == Direct)
  }

  /** Without a split, SSH and MySQL jobs are direct and all others run in a browser. */
  predicate UsualModes(c: Config, jobs: seq<Job>) {
    forall k :: 0 <= k < |jobs| && jobs[k].protocol !in c.executionModes ==>
      jobs[k].mode == match jobs[k].protocol
                      case SSH => Direct
                      case MySQL => Direct
                      case _ => Browser
  }

  lemma {:induction false} ExpandedInOrder(c: Config, n: nat)
    requires Expandable(c) && n <= |ORDER|
    ensures var jobs := Expanded(c, n);
            InOrder(jobs) && UsualModes(c, jobs) && forall k :: 0 <= k < |jobs| ==> Place(jobs[k].protocol) < n
  {
    hide Numbered, SumOver, InOrder, UsualModes;
    if n == 0 {
      NothingOrdered(c);
    } else {
      ExpandedInOrder(c, n - 1);
      var jobs, p := Expanded(c, n - 1), ORDER[n - 1];
      PlaceOf(n - 1);
      if Count(c, p) != 0 {
        var m := ModesOf(c, p);
        NumberedAre(jobs, p, Browser, m.browser);
        var more := Numbered(jobs, p, Browser, m.browser);
        NumberedAre(more, p, Direct, m.direct);
        SectionInOrder(c, jobs, more, Numbered(more, p, Direct, m.direct), p);
      }
    }
  }

  lemma NothingOrdered(c: Config)
    ensures InOrder([]) && UsualModes(c, [])
  {
  }

  /** The browser jobs and then the direct jobs of the next protocol. */
  lemma SectionInOrder(c: Config, jobs: seq<Job>, more: seq<Job>, all: seq<Job>, p: Protocol)
    requires InOrder(jobs) && UsualModes(c, jobs)
    requires forall k :: 0 <= k < |jobs| ==> Place(jobs[k].protocol) < Place(p)
    requires jobs <= more <= all
    requires forall k :: |jobs| <= k < |more| ==> more[k].protocol == p && more[k].mode == Browser
    requires forall k :: |more| <= k < |all| ==> all[k].protocol == p && all[k].mode == Direct
    requires p !in c.executionModes ==> if p == SSH || p == MySQL then |more| == |jobs| else |all| == |more|
    ensures InOrder(all) && UsualModes(c, all)
    ensures forall k :: 0 <= k < |all| ==> Place(all[k].protocol) <= Place(p)
  {
    hide Place;
    assert forall k :: 0 <= k < |more| ==> all[k] == more[k];
    assert forall k :: 0 <= k < |jobs| ==> all[k] == jobs[k];
  }

  lemma PlaceOf(n: nat)
    requires n < |ORDER|
    ensures Place(ORDER[n]) == n
  {
    assert ORDER[0] == SSH && ORDER[1] == RDP && ORDER[2] == VNC && ORDER[3] == Web && ORDER[4] == MySQL;
  }

  /** An accepted scenario expands into `total` unbound jobs numbered from 1: by protocol, browser jobs first; as
      many direct and browser jobs of a protocol as its split says; without one, as many jobs as asked for, all
      direct for SSH and MySQL and all in a browser for the others. */
  lemma ExpandedExactly(c: Config)
    requires Accepted(c)
    ensures var jobs := Expanded(c, |ORDER|);
            && |jobs| == c.total && InOrder(jobs) && UsualModes(c, jobs)
            && (forall k :: 0 <= k < |jobs| ==>
                  jobs[k].id == k + 1 && jobs[k].assetID == "" && jobs[k].accountID == "")
            && (forall p, m :: m != Direct && m != Browser ==> CountIf(jobs, Of(p, m)) == 0)
            && (forall p :: CountIf(jobs, Of(p, Direct)) + CountIf(jobs, Of(p, Browser)) == Asked(c, p))
            && (forall p :: p in c.executionModes && Asked(c, p) != 0 ==>
                  && CountIf(jobs, Of(p, Direct)) == c.executionModes[p].direct
                  && CountIf(jobs, Of(p, Browser)) == c.executionModes[p].browser)
            && (forall p :: p !in c.executionModes ==>
                  CountIf(jobs, Of(p, if p == SSH || p == MySQL then Direct else Browser)) == Asked(c, p))
  {
    hide SumOver, CountIf, Expanded, InOrder, UsualModes, Of;
    AcceptedExactly(c);
    ExpansionIsExact(c);
    ExpandedInOrder(c, |ORDER|);
    forall p ensures (KnownProtocol(p) <==> p in {SSH, RDP, VNC, Web, MySQL}) && (KnownProtocol(p) <==> p in ORDER) {
      KnownAre(p);
    }
  }
}
