/** What scaling yields, told by quotients and remainders: who is rounded up. */
module ScalingExactly {
  import opened Wrappers
  import opened Sums
  import opened Scenario
  import opened Configuration
  import opened Expansion
  import opened Scaling
  import opened ScalingProperties

  // ---- Mode splits ----

  /** The part with the larger remainder is rounded up, the browser part on a tie, and the other one down; without
      remainders both are exact. */
  lemma ModesExactly(m: ModeCounts, count: int, target: int)
    requires m.direct >= 0 && m.browser >= 0 && m.direct + m.browser == count && count > 0 && target > 0
    ensures var b, d := m.browser * target, m.direct * target;
            var r := ScaledModes(m, count, target);
            && r.browser == b / count + (if b % count > 0 && b % count >= d % count then 1 else 0)
            && r.direct == d / count + (if d % count > b % count then 1 else 0)
  {
    hide RaiseModes;
    var b, d := m.browser * target, m.direct * target;
    Shares(m.browser, m.direct, target);
    QuotientOf(b, count);
    QuotientOf(d, count);
    var x, y := b / count, d / count;
    assert b % count + d % count == (target - x - y) * count;
    OneMissing(target - x - y, b % count + d % count, count);
    RaisedByRemainder(ModeCounts(y, x), b, d, count, target);
  }

  lemma QuotientOf(n: int, d: int)
    requires n >= 0 && d > 0
    ensures Truncated(n, d) == n / d && n - n / d * d == n % d && 0 <= n % d < d
  {
  }

  lemma RaisedByRemainder(m: ModeCounts, b: int, d: int, count: int, target: int)
    requires target - m.browser - m.direct == 0 || target - m.browser - m.direct == 1
    ensures var r := RaiseModes(m, b, d, count, target);
            if m.browser + m.direct == target then r == m
            else if b - m.browser * count >= d - m.direct * count then r == m.(browser := m.browser + 1)
            else r == m.(direct := m.direct + 1)
  {
    hide RaiseModes;
    RaisedAtTarget(m.(browser := m.browser + 1), b, d, count, target);
    RaisedAtTarget(m.(direct := m.direct + 1), b, d, count, target);
    RaiseStep(m, b, d, count, target);
  }

  lemma RaiseStep(m: ModeCounts, b: int, d: int, count: int, target: int)
    ensures RaiseModes(m, b, d, count, target)
         == if m.browser + m.direct >= target then m
            else if b - m.browser * count >= d - m.direct * count
            then RaiseModes(m.(browser := m.browser + 1), b, d, count, target)
            else RaiseModes(m.(direct := m.direct + 1), b, d, count, target)
  {
  }

  // ---- Protocol counts ----

  /** What the old total leaves of a protocol's share. */
  function Left(c: Config, total: int, p: Protocol): int
    requires c.total > 0
  {
    Asked(c, p) * total % c.total
  }

  function Floor(c: Config, total: int, p: Protocol): int
    requires c.total > 0
  {
    Asked(c, p) * total / c.total
  }

  /** `q` is rounded up before `p`: more is left of its share, or as much and it comes first in a scenario. */
  predicate Ahead(c: Config, total: int, q: Protocol, p: Protocol)
    requires c.total > 0
  {
    Left(c, total, q) > Left(c, total, p) || (Left(c, total, q) == Left(c, total, p) && Place(q) < Place(p))
  }

  function AheadOf(c: Config, total: int, p: Protocol): set<Protocol>
    requires c.total > 0
  {
    set q | q in {SSH, RDP, VNC, Web, MySQL} && Ahead(c, total, q, p)
  }

  /** The jobs that are missing when all shares are rounded down. */
  function Lacking(c: Config, total: int): int
    requires c.total > 0
  {
    total - Floor(c, total, SSH) - Floor(c, total, RDP) - Floor(c, total, VNC) - Floor(c, total, Web)
    - Floor(c, total, MySQL)
  }

  predicate Strict(s: seq<Remainder>) {
    forall i, j :: 0 <= i < j < |s| ==> Scaling.Precedes(s[i], s[j])
  }

  lemma {:induction false} InsertStrict(x: Remainder, s: seq<Remainder>)
    requires Strict(s) && forall y :: y in s ==> y.order != x.order
    ensures Strict(InsertRemainder(x, s))
  {
    if s != [] && Scaling.Precedes(s[0], x) {
      InsertStrict(x, s[1..]);
      InsertMembers(x, s[1..]);
      var rest := InsertRemainder(x, s[1..]);
      forall j | 0 <= j < |rest| ensures Scaling.Precedes(s[0], rest[j]) {
        assert rest[j] in rest;
        if rest[j] != x {
          var k :| 0 <= k < |s[1..]| && s[1..][k] == rest[j];
        }
      }
      HeadStrict(s[0], rest);
    } else if s != [] {
      assert s[0] in s;
      forall j | 0 <= j < |s| ensures Scaling.Precedes(x, s[j]) {
      }
      HeadStrict(x, s);
    }
  }

  lemma HeadStrict(x: Remainder, s: seq<Remainder>)
    requires Strict(s) && forall j :: 0 <= j < |s| ==> Scaling.Precedes(x, s[j])
    ensures Strict([x] + s)
  {
  }

  lemma {:induction false} SortedStrict(s: seq<Remainder>)
    requires forall i, j :: 0 <= i < j < |s| ==> s[i].order != s[j].order
    ensures Strict(SortedRemainders(s))
  {
    hide InsertRemainder, Fractions;
    if s != [] {
      SortedStrict(s[1..]);
      SortedKeeps(s[1..]);
      forall y | y in SortedRemainders(s[1..]) ensures y.order != s[0].order {
        assert y in s[1..];
      }
      InsertStrict(s[0], SortedRemainders(s[1..]));
    }
  }

  lemma LeftIs(c: Config, total: int, p: Protocol)
    requires c.total > 0 && total > 0 && Asked(c, p) >= 0
    ensures Whole(c, total, p) == Floor(c, total, p) && Fraction(c, total, p) == Left(c, total, p)
  {
    Natural(Asked(c, p), total);
    QuotientOf(Asked(c, p) * total, c.total);
  }

  lemma FiveWholes(c: Config, total: int)
    requires c.total > 0
    ensures WholeSum(c, total, |ORDER|)
         == Whole(c, total, SSH) + Whole(c, total, RDP) + Whole(c, total, VNC) + Whole(c, total, Web)
            + Whole(c, total, MySQL)
  {
    hide Whole;
    assert WholeSum(c, total, 5) == WholeSum(c, total, 4) + Whole(c, total, MySQL);
    assert WholeSum(c, total, 4) == WholeSum(c, total, 3) + Whole(c, total, Web);
    assert WholeSum(c, total, 3) == WholeSum(c, total, 2) + Whole(c, total, VNC);
    assert WholeSum(c, total, 2) == WholeSum(c, total, 1) + Whole(c, total, RDP);
    assert WholeSum(c, total, 1) == WholeSum(c, total, 0) + Whole(c, total, SSH);
  }

  /** The sorted remainders: each known protocol once, those ahead of it in front of it. */
  lemma SortedAre(c: Config, total: int) returns (s: seq<Remainder>)
    requires Expandable(c) && c.total > 0 && total > 0
    ensures s == SortedRemainders(Remainders(c, total, |ORDER|)) && Strict(s) && DistinctProtocols(s) && |s| == 5
    ensures forall i :: 0 <= i < |s| ==>
              s[i].protocol in {SSH, RDP, VNC, Web, MySQL} && s[i].fraction == Left(c, total, s[i].protocol)
              && s[i].order == Place(s[i].protocol)
    ensures forall p :: KnownProtocol(p) ==> exists i :: 0 <= i < |s| && s[i].protocol == p
  {
    hide Fraction, Left, SortedRemainders, Fractions, Remainders, Expandable, Place;
    var given := Remainders(c, total, |ORDER|);
    s := SortedRemainders(given);
    GivenAre(c, total);
    DistinctGivenAgain(c, total);
    SortedKeeps(given);
    SortedStrict(given);
    forall i | 0 <= i < |s|
      ensures s[i].protocol in {SSH, RDP, VNC, Web, MySQL} && s[i].fraction == Left(c, total, s[i].protocol)
              && s[i].order == Place(s[i].protocol)
    {
      assert s[i] in s;
      var k :| 0 <= k < |given| && given[k] == s[i];
    }
    forall p | KnownProtocol(p) ensures exists i :: 0 <= i < |s| && s[i].protocol == p {
      var k :| 0 <= k < |given| && given[k].protocol == p;
      assert given[k] in given && given[k] in s;
    }
  }

  lemma DistinctGivenAgain(c: Config, total: int)
    requires Expandable(c)
    ensures DistinctProtocols(Remainders(c, total, |ORDER|))
  {
    hide Fraction;
    DistinctGiven(c, total);
  }

  lemma GivenAre(c: Config, total: int)
    requires Expandable(c) && total > 0
    ensures var g := Remainders(c, total, |ORDER|);
            && |g| == 5
            && (forall k :: 0 <= k < 5 ==>
                  g[k].order == k == Place(g[k].protocol) && g[k].protocol in {SSH, RDP, VNC, Web, MySQL}
                  && g[k].fraction == Left(c, total, g[k].protocol))
            && (forall p :: KnownProtocol(p) ==> exists k :: 0 <= k < 5 && g[k].protocol == p)
  {
    hide Fraction, Left;
    var g := Remainders(c, total, |ORDER|);
    forall k | 0 <= k < 5
      ensures g[k].order == k == Place(g[k].protocol) && g[k].protocol in {SSH, RDP, VNC, Web, MySQL}
              && g[k].fraction == Left(c, total, g[k].protocol)
    {
      PlaceOf(k);
      DistinctOrder(k);
      CountNatural(c, ORDER[k]);
      LeftIs(c, total, ORDER[k]);
    }
    assert g[0].protocol == SSH && g[1].protocol == RDP && g[2].protocol == VNC && g[3].protocol == Web
        && g[4].protocol == MySQL;
  }

  /** A protocol stands behind as many as are ahead of it. */
  lemma PositionIs(c: Config, total: int, s: seq<Remainder>, i: nat)
    requires c.total > 0 && Strict(s) && DistinctProtocols(s) && i < |s|
    requires forall k :: 0 <= k < |s| ==>
               s[k].protocol in {SSH, RDP, VNC, Web, MySQL} && s[k].fraction == Left(c, total, s[k].protocol)
               && s[k].order == Place(s[k].protocol)
    requires forall p :: KnownProtocol(p) ==> exists k :: 0 <= k < |s| && s[k].protocol == p
    ensures |AheadOf(c, total, s[i].protocol)| == i
  {
    hide Left, Place;
    var p := s[i].protocol;
    forall q ensures q in AheadOf(c, total, p) <==> q in ProtocolsOf(s, i) {
      if KnownProtocol(q) {
        var k :| 0 <= k < |s| && s[k].protocol == q;
        if k < i {
          assert Scaling.Precedes(s[k], s[i]);
        } else if k > i {
          assert Scaling.Precedes(s[i], s[k]);
        }
      }
    }
    assert AheadOf(c, total, p) == ProtocolsOf(s, i);
    CountFirst(s, i);
  }

  lemma {:induction false} CountFirst(s: seq<Remainder>, k: nat)
    requires DistinctProtocols(s) && k <= |s|
    ensures |ProtocolsOf(s, k)| == k
  {
    if k > 0 {
      CountFirst(s, k - 1);
      NextProtocol(s, k);
    }
  }

  /** The scaled count of each protocol: its share rounded down, and one more for as many protocols as jobs are
      missing, those with the larger rest first and in the order of a scenario where the rests are equal. */
  lemma SharesExactly(c: Config, total: int, p: Protocol)
    requires Accepted(c) && total > 0 && p in {SSH, RDP, VNC, Web, MySQL}
    ensures p in ScaledProtocols(c, total)
    ensures ScaledProtocols(c, total)[p]
         == Floor(c, total, p) + if |AheadOf(c, total, p)| < Lacking(c, total) then 1 else 0
  {
    hide SortedRemainders, Remainders, Raised, Wholes, Whole, Floor, Left, WholeSum, Sum, SumOver, AheadOf, Firsts;
    AcceptedExactly(c);
    var s := SortedAre(c, total);
    KnownAre(p);
    assert KnownProtocol(p);
    var i :| 0 <= i < |s| && s[i].protocol == p;
    PositionIs(c, total, s, i);
    FiveFloors(c, total);
    CountNatural(c, p);
    LeftIs(c, total, p);
    LackingFew(c, total, s);
    WholeKeys(c, total, |ORDER|);
    RaisedOnceEach(Kept(c, Wholes(c, total, |ORDER|)), s, Missing(c, total), p);
    WholeOf(c, total, p);
    AllKnown();
    assert p in ProtocolsOf(s, Missing(c, total)) <==> i < Missing(c, total) by {
      InFirst(s, Missing(c, total), i);
    }
  }

  lemma FiveFloors(c: Config, total: int)
    requires Expandable(c) && c.total > 0 && total > 0
    ensures Lacking(c, total) == total - WholeSum(c, total, |ORDER|)
  {
    hide Whole, Floor, WholeSum, Fraction, Left, Expandable;
    FiveWholes(c, total);
    forall q | q in [SSH, RDP, VNC, Web, MySQL] ensures Whole(c, total, q) == Floor(c, total, q) {
      CountNatural(c, q);
      LeftIs(c, total, q);
    }
    var all := [SSH, RDP, VNC, Web, MySQL];
    assert all[0] in all && all[1] in all && all[2] in all && all[3] in all && all[4] in all;
  }

  lemma InFirst(s: seq<Remainder>, k: nat, i: nat)
    requires DistinctProtocols(s) && k <= |s| && i < |s|
    ensures s[i].protocol in ProtocolsOf(s, k) <==> i < k
  {
  }

  lemma LackingFew(c: Config, total: int, s: seq<Remainder>)
    requires Expandable(c) && total > 0 && s == SortedRemainders(Remainders(c, total, |ORDER|)) && |s| == 5
    ensures Missing(c, total) == total - WholeSum(c, total, |ORDER|) <= |s|
    ensures total - WholeSum(c, total, |ORDER|) >= 0
  {
    hide SortedRemainders, Remainders, Whole, Fraction, Sum, SumOver, SumFirst, WholeSum, Falling;
    var n := |ORDER|;
    var given := Remainders(c, total, n);
    SumOfKnown(c);
    FractionsAddUp(c, total, n);
    SortedKeeps(given);
    ProperGiven(c, total);
    forall i | 0 <= i < |s| ensures 0 <= s[i].fraction < c.total {
      assert s[i] in s;
      var k :| 0 <= k < |given| && given[k] == s[i];
    }
    var lacking := total - WholeSum(c, total, n);
    NotOverdrawn(s, lacking, c.total);
    PositiveFirst(s, lacking, c.total);
  }

  // ---- The overrides ----

  /** What becomes of any scenario under overrides of total and protocol: when it is refused, when it stays, when all
      goes to one protocol, and when it is scaled. */
  lemma OverriddenExactly(c: Config, total: Option<int>, selected: Option<Protocol>)
    ensures var r := Overridden(c, total, selected);
            && (r.Err? <==>
                  || (total.Some? && total.value < 1)
                  || (selected.Some? && selected.value !in {SSH, RDP, VNC, Web, MySQL})
                  || (selected.None? && total.Some? && c.total < 1))
            && (total.None? && selected.None? ==> r == Ok(c))
            && (r.Ok? && selected.Some? ==>
                  && r.value.total == (if total.Some? then total.value else c.total)
                  && r.value.protocols == map[selected.value := r.value.total]
                  && r.value.executionModes.Keys == c.executionModes.Keys * {selected.value}
                  && forall p :: p in r.value.executionModes ==>
                       r.value.executionModes[p] == ScaledModes(c.executionModes[p], Asked(c, p), r.value.total))
            && (r.Ok? && selected.None? && total.Some? ==>
                  && r.value.total == total.value && r.value.protocols == ScaledProtocols(c, total.value)
                  && r.value.executionModes.Keys == c.executionModes.Keys
                  && forall p :: p in c.executionModes ==>
                       r.value.executionModes[p]
                       == ScaledModes(c.executionModes[p], Asked(c, p),
                            if p in r.value.protocols then r.value.protocols[p] else 0))
  {
    hide ScaledModes, ScaledProtocols;
    forall p ensures p in ORDER <==> p in {SSH, RDP, VNC, Web, MySQL} {
      KnownAre(p);
    }
  }

  lemma NoShares(m: ModeCounts, count: int, target: int)
    ensures count <= 0 || target <= 0 ==> ScaledModes(m, count, target) == ModeCounts(0, 0)
  {
  }
}
