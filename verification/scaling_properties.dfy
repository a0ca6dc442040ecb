/** Scaling an accepted scenario gives an accepted scenario with exact totals and fair shares. */
module ScalingProperties {
  import opened Wrappers
  import opened Sums
  import opened Scenario
  import opened Accounting
  import opened Configuration
  import opened Scaling

  // ---- The sorted remainders ----

  predicate Falling(s: seq<Remainder>) {
    forall i, j :: 0 <= i < j < |s| ==> s[i].fraction >= s[j].fraction
  }

  predicate DistinctProtocols(s: seq<Remainder>) {
    forall i, j :: 0 <= i < j < |s| ==> s[i].protocol != s[j].protocol
  }

  function Fractions(s: seq<Remainder>): int {
    if s == [] then 0 else s[0].fraction + Fractions(s[1..])
  }

  lemma {:induction false} InsertMembers(x: Remainder, s: seq<Remainder>)
    ensures forall y :: y in InsertRemainder(x, s) <==> y == x || y in s
    ensures Fractions(InsertRemainder(x, s)) == x.fraction + Fractions(s)
  {
    var r := InsertRemainder(x, s);
    if s != [] && Precedes(s[0], x) {
      InsertMembers(x, s[1..]);
      assert s == [s[0]] + s[1..] && r[1..] == InsertRemainder(x, s[1..]);
    } else {
      assert r[1..] == s;
    }
  }

  lemma {:induction false} InsertFalls(x: Remainder, s: seq<Remainder>)
    requires Falling(s)
    ensures Falling(InsertRemainder(x, s))
  {
    hide Fractions;
    if s != [] && Precedes(s[0], x) {
      InsertFalls(x, s[1..]);
      InsertMembers(x, s[1..]);
      var rest := InsertRemainder(x, s[1..]);
      forall j | 0 <= j < |rest| ensures s[0].fraction >= rest[j].fraction {
        assert rest[j] in rest;
      }
    }
  }

  lemma {:induction false} InsertDistinct(x: Remainder, s: seq<Remainder>)
    requires DistinctProtocols(s) && forall y :: y in s ==> y.protocol != x.protocol
    ensures DistinctProtocols(InsertRemainder(x, s))
  {
    hide Fractions;
    if s != [] && Precedes(s[0], x) {
      InsertDistinct(x, s[1..]);
      InsertMembers(x, s[1..]);
      var rest := InsertRemainder(x, s[1..]);
      forall j | 0 <= j < |rest| ensures s[0].protocol != rest[j].protocol {
        assert rest[j] in rest;
        assert rest[j] == x || rest[j] in s[1..];
      }
    }
  }

  lemma {:induction false} SortedKeeps(s: seq<Remainder>)
    ensures var r := SortedRemainders(s);
            && Falling(r) && Fractions(r) == Fractions(s) && (forall y :: y in r <==> y in s)
            && (DistinctProtocols(s) ==> DistinctProtocols(r))
  {
    hide InsertRemainder;
    if s != [] {
      var rest := SortedRemainders(s[1..]);
      SortedKeeps(s[1..]);
      InsertMembers(s[0], rest);
      InsertFalls(s[0], rest);
      if DistinctProtocols(s) {
        forall y | y in rest ensures y.protocol != s[0].protocol {
          assert y in s[1..];
        }
        InsertDistinct(s[0], rest);
      }
      assert s == [s[0]] + s[1..];
    }
  }

  predicate Proper(s: seq<Remainder>, d: int) {
    forall i :: 0 <= i < |s| ==> 0 <= s[i].fraction < d
  }

  /** Fractions that vanish from position `j` on add up to less than `j` wholes. */
  lemma {:induction false} FewFractions(s: seq<Remainder>, j: nat, d: int)
    requires Proper(s, d) && d > 0 && (forall i :: j <= i < |s| ==> s[i].fraction == 0)
    ensures 0 <= Fractions(s) <= j * (d - 1)
  {
    if s != [] {
      if j > 0 {
        FewFractions(s[1..], j - 1, d);
        assert j * (d - 1) == (j - 1) * (d - 1) + (d - 1);
      } else {
        FewFractions(s[1..], 0, d);
      }
    }
  }

  /** When the fractions make up `missing` wholes, more than `missing` of them are positive. */
  lemma PositiveFirst(s: seq<Remainder>, missing: nat, d: int)
    requires Proper(s, d) && d > 0 && Falling(s) && Fractions(s) == missing * d
    ensures missing == 0 || missing < |s|
    ensures forall i :: 0 <= i < missing && i < |s| ==> s[i].fraction > 0
  {
    if missing >= |s| && missing > 0 {
      FewFractions(s, |s|, d);
      TooFew(|s|, missing, d);
    }
    forall i | 0 <= i < missing && i < |s| ensures s[i].fraction > 0 {
      if s[i].fraction == 0 {
        FewFractions(s, i, d);
        TooFew(i, missing, d);
      }
    }
  }

  lemma TooFew(j: nat, missing: nat, d: int)
    requires d > 0 && j <= missing && missing > 0
    ensures j * (d - 1) < missing * d
  {
    assert j * (d - 1) == j * d - j;
    Larger(j, missing, d);
    if j == 0 {
      Larger(1, missing, d);
    }
  }

  lemma Larger(a: int, b: int, d: int)
    requires a <= b && d > 0
    ensures a * d <= b * d
  {
  }

  // ---- The scaled counts ----

  function Kept(c: Config, protocols: map<Protocol, int>): Config { c.(protocols := protocols) }

  lemma {:induction false} SumRaised(c: Config, p: Protocol, n: nat)
    requires n <= |ORDER|
    ensures SumFirst(Kept(c, Add(INTS, c.protocols, p, 1)), n) == SumFirst(c, n) + if p in ORDER[..n] then 1 else 0
  {
    if n > 0 {
      SumRaised(c, p, n - 1);
      DistinctOrder(n - 1);
      assert ORDER[..n] == ORDER[..n - 1] + [ORDER[n - 1]];
    }
  }

  lemma {:induction false} WholesAt(c: Config, total: int, n: nat, k: nat)
    requires c.total > 0 && k < n <= |ORDER|
    ensures Wholes(c, total, n).Keys == Firsts(n)
    ensures Lookup(INTS, Wholes(c, total, n), ORDER[k]) == Whole(c, total, ORDER[k])
  {
    hide Truncated, Firsts;
    WholeKeys(c, total, n);
    DistinctOrder(n - 1);
    if k < n - 1 {
      WholesAt(c, total, n - 1, k);
      assert ORDER[k] in ORDER[..n - 1];
    }
  }

  lemma {:induction false} WholeKeys(c: Config, total: int, n: nat)
    requires c.total > 0 && n <= |ORDER|
    ensures Wholes(c, total, n).Keys == Firsts(n)
  {
    hide Whole;
    if n > 0 {
      WholeKeys(c, total, n - 1);
      assert ORDER[..n] == ORDER[..n - 1] + [ORDER[n - 1]];
    }
  }

  lemma {:induction false} SumOfWholes(c: Config, total: int, n: nat)
    requires c.total > 0 && n <= |ORDER|
    ensures SumFirst(Kept(c, Wholes(c, total, |ORDER|)), n) == WholeSum(c, total, n)
  {
    hide Whole, Wholes;
    if n > 0 {
      SumOfWholes(c, total, n - 1);
      WholesAt(c, total, |ORDER|, n - 1);
    }
  }

  lemma {:induction false} FractionsAddUp(c: Config, total: int, n: nat)
    requires c.total > 0 && n <= |ORDER|
    ensures Fractions(Remainders(c, total, n)) == SumFirst(c, n) * total - WholeSum(c, total, n) * c.total
  {
    hide Whole;
    if n > 0 {
      FractionsAddUp(c, total, n - 1);
      var r := Remainder(ORDER[n - 1], Fraction(c, total, ORDER[n - 1]), n - 1);
      FractionsAppend(Remainders(c, total, n - 1), r);
      Distributes(SumFirst(c, n - 1), Count(c, ORDER[n - 1]), total);
      Distributes(WholeSum(c, total, n - 1), Whole(c, total, ORDER[n - 1]), c.total);
    }
  }

  lemma Distributes(a: int, b: int, d: int)
    ensures (a + b) * d == a * d + b * d
  {
  }

  lemma {:induction false} FractionsAppend(s: seq<Remainder>, r: Remainder)
    ensures Fractions(s + [r]) == Fractions(s) + r.fraction
  {
    if s == [] {
      assert s + [r] == [r] && [r][1..] == [];
    } else {
      FractionsAppend(s[1..], r);
      assert (s + [r])[1..] == s[1..] + [r];
    }
  }

  function ProtocolsOf(s: seq<Remainder>, k: nat): set<Protocol>
    requires k <= |s|
  {
    set i | 0 <= i < k :: s[i].protocol
  }

  lemma {:induction false} RaisedOnceEach(c: Config, s: seq<Remainder>, k: nat, p: Protocol)
    requires DistinctProtocols(s) && s != [] && k <= |s| && (forall i :: 0 <= i < |s| ==> KnownProtocol(s[i].protocol))
    requires c.protocols.Keys == Firsts(|ORDER|)
    ensures var r := Raised(c.protocols, s, k);
            && r.Keys == c.protocols.Keys
            && Lookup(INTS, r, p) == Lookup(INTS, c.protocols, p) + (if p in ProtocolsOf(s, k) then 1 else 0)
            && SumFirst(Kept(c, r), |ORDER|) == SumFirst(c, |ORDER|) + k
  {
    hide SumFirst, Firsts, Raised, ProtocolsOf, DistinctProtocols;
    RaisedStep(c.protocols, s, k);
    NextProtocol(s, k);
    if k == 0 {
      assert Kept(c, c.protocols) == c;
    } else {
      RaisedOnceEach(c, s, k - 1, p);
      var q := s[k - 1].protocol;
      var before := Kept(c, Raised(c.protocols, s, k - 1));
      SumRaised(before, q, |ORDER|);
      assert Kept(c, Raised(c.protocols, s, k)) == Kept(before, Add(INTS, before.protocols, q, 1));
      KnownInOrder(q);
    }
  }

  lemma RaisedStep(scaled: map<Protocol, int>, s: seq<Remainder>, k: nat)
    requires s != [] && k <= |s|
    ensures k == 0 ==> Raised(scaled, s, k) == scaled
    ensures k > 0 ==> Raised(scaled, s, k) == Add(INTS, Raised(scaled, s, k - 1), s[k - 1].protocol, 1)
  {
    if k > 0 {
      assert (k - 1) % |s| == k - 1;
    }
  }

  lemma NextProtocol(s: seq<Remainder>, k: nat)
    requires DistinctProtocols(s) && k <= |s|
    ensures k == 0 ==> ProtocolsOf(s, k) == {}
    ensures k > 0 ==> ProtocolsOf(s, k) == ProtocolsOf(s, k - 1) + {s[k - 1].protocol}
    ensures k > 0 ==> s[k - 1].protocol !in ProtocolsOf(s, k - 1)
  {
  }

  lemma KnownInOrder(p: Protocol)
    requires KnownProtocol(p)
    ensures p in ORDER[..|ORDER|] && p in ORDER && p in Firsts(|ORDER|)
  {
    AllKnown();
    assert ORDER[..|ORDER|] == ORDER;
  }

  /** Which protocols are raised: some of those with a fraction, as many as are missing. */
  lemma SharesOf(c: Config, total: int, p: Protocol)
    requires Expandable(c) && total > 0 && KnownProtocol(p)
    ensures var scaled, w := ScaledProtocols(c, total), Whole(c, total, p);
            && scaled.Keys == Firsts(|ORDER|)
            && (Lookup(INTS, scaled, p) == w || (Lookup(INTS, scaled, p) == w + 1 && Fraction(c, total, p) > 0))
            && SumFirst(Kept(c, scaled), |ORDER|) == total
  {
    hide Truncated, Whole, Fraction, SumFirst, WholeSum, Wholes, Remainders, Firsts, SortedRemainders, Raised, Sum,
         SumOver, Falling;
    var n := |ORDER|;
    var given := Remainders(c, total, n);
    var s := SortedRemainders(given);
    SumOfKnown(c);
    FractionsAddUp(c, total, n);
    DistinctGiven(c, total);
    SortedKeeps(given);
    ProperGiven(c, total);
    forall i | 0 <= i < |s|
      ensures KnownProtocol(s[i].protocol) && s[i].fraction == Fraction(c, total, s[i].protocol) &&
                0 <= s[i].fraction < c.total
    {
      assert s[i] in s;
      var k :| 0 <= k < |given| && given[k] == s[i];
    }
    var lacking := total - WholeSum(c, total, n);
    assert Fractions(s) == lacking * c.total;
    NotOverdrawn(s, lacking, c.total);
    PositiveFirst(s, lacking, c.total);
    WholesAt(c, total, n, 0);
    SumOfWholes(c, total, n);
    var wholes := Kept(c, Wholes(c, total, n));
    RaisedOnceEach(wholes, s, lacking, p);
    WholeOf(c, total, p);
    assert Kept(wholes, ScaledProtocols(c, total)) == Kept(c, ScaledProtocols(c, total));
    if p in ProtocolsOf(s, lacking) {
      var i :| 0 <= i < lacking && s[i].protocol == p;
      assert s[i] in given;
    }
  }

  lemma WholeOf(c: Config, total: int, p: Protocol)
    requires c.total > 0 && KnownProtocol(p)
    ensures Lookup(INTS, Wholes(c, total, |ORDER|), p) == Whole(c, total, p)
  {
    hide Whole, Wholes;
    KnownInOrder(p);
    var k :| 0 <= k < |ORDER| && ORDER[k] == p;
    WholesAt(c, total, |ORDER|, k);
  }

  lemma DistinctGiven(c: Config, total: int)
    requires c.total > 0
    ensures var s := Remainders(c, total, |ORDER|);
            DistinctProtocols(s) && (forall i :: 0 <= i < |s| ==>
                KnownProtocol(s[i].protocol) && s[i].fraction == Fraction(c, total, s[i].protocol))
            && s != []
  {
    hide Fraction;
    forall i, j | 0 <= i < j < |ORDER| ensures ORDER[i] != ORDER[j] {
      DistinctOrder(j);
      assert ORDER[i] in ORDER[..j];
    }
    forall i | 0 <= i < |ORDER| ensures KnownProtocol(ORDER[i]) {
      DistinctOrder(i);
    }
  }

  lemma ProperGiven(c: Config, total: int)
    requires Expandable(c) && c.total > 0 && total > 0
    ensures Proper(Remainders(c, total, |ORDER|), c.total)
  {
    hide Fraction, Expandable;
    forall k | 0 <= k < |ORDER| ensures 0 <= Fraction(c, total, ORDER[k]) < c.total {
      FractionProper(c, total, ORDER[k]);
    }
  }

  lemma FractionProper(c: Config, total: int, p: Protocol)
    requires Expandable(c) && total > 0
    ensures c.total > 0 && 0 <= Fraction(c, total, p) < c.total
  {
    hide Truncated;
    CountNatural(c, p);
    Natural(Count(c, p), total);
    TruncatedShare(Count(c, p) * total, c.total);
  }

  lemma Natural(a: int, b: int)
    requires a >= 0 && b >= 0
    ensures a * b >= 0
  {
  }

  lemma NotOverdrawn(s: seq<Remainder>, lacking: int, d: int)
    requires Proper(s, d) && d > 0 && Fractions(s) == lacking * d
    ensures lacking >= 0
  {
    FewFractions(s, |s|, d);
    Multiples(lacking, d);
  }

  /** Scaling an accepted scenario: the protocol counts add up to the new total, each is the floor or the
      ceiling of its exact share, and a protocol without jobs stays without. */
  lemma ProtocolsScale(c: Config, total: int)
    requires Expandable(c) && total > 0
    ensures var s := Scaled(c, total);
            && Sum(INTS, s.protocols) == total
            && forall p :: KnownProtocol(p) ==>
                 && Count(s, p) >= 0 && Rounds(Count(s, p), Count(c, p) * total, c.total)
                 && (Count(c, p) == 0 ==> Count(s, p) == 0)
  {
    hide Truncated, SumFirst, Firsts, ScaledProtocols, Sum, SumOver, Rounds, ScaledModes;
    var s := Scaled(c, total);
    forall p | KnownProtocol(p)
      ensures Count(s, p) >= 0 && Rounds(Count(s, p), Count(c, p) * total, c.total) && (Count(c, p) == 0 ==>
                Count(s, p) == 0)
    {
      SharesOf(c, total, p);
      CountNatural(c, p);
      assert Count(c, p) * total >= 0;
      TruncatedShare(Count(c, p) * total, c.total);
      SharesRound(Whole(c, total, p), Count(c, p) * total, c.total);
      if Count(c, p) == 0 {
        ZeroShare(Whole(c, total, p), c.total);
      }
    }
    SharesOf(c, total, SSH);
    KnownKeys();
    SumOfKnown(s);
    SameSum(Kept(c, s.protocols), s, |ORDER|);
  }

  lemma CountNatural(c: Config, p: Protocol)
    requires Expandable(c)
    ensures Count(c, p) >= 0
  {
  }

  lemma KnownKeys()
    ensures forall p :: p in Firsts(|ORDER|) ==> KnownProtocol(p)
  {
    assert ORDER[..|ORDER|] == ORDER;
  }

  lemma {:induction false} SameSum(a: Config, b: Config, n: nat)
    requires a.protocols == b.protocols && n <= |ORDER|
    ensures SumFirst(a, n) == SumFirst(b, n)
  {
    if n > 0 {
      SameSum(a, b, n - 1);
    }
  }

  /** The scaled scenario is accepted again, and its mode splits round theirs. */
  lemma ScaledExpandable(c: Config, total: int)
    requires Expandable(c) && total > 0
    ensures Expandable(Scaled(c, total))
    ensures forall p :: KnownProtocol(p) && p in c.executionModes && Count(c, p) > 0 ==>
              var m := Scaled(c, total).executionModes[p];
              && Rounds(m.browser, c.executionModes[p].browser * Count(Scaled(c, total), p), Count(c, p))
              && Rounds(m.direct, c.executionModes[p].direct * Count(Scaled(c, total), p), Count(c, p))
  {
    hide Rounds, ScaledModes, ScaledProtocols, Sum, Splits;
    var s := Scaled(c, total);
    ProtocolsScale(c, total);
    SharesOf(c, total, SSH);
    KnownKeys();
    forall p | p in s.protocols ensures KnownProtocol(p) && s.protocols[p] >= 0 {
      assert Count(s, p) == s.protocols[p];
    }
    forall p | KnownProtocol(p) && p in c.executionModes && Count(c, p) > 0
      ensures Splits(s.executionModes[p], Count(s, p))
      ensures Rounds(s.executionModes[p].browser, c.executionModes[p].browser * Count(s, p), Count(c, p))
      ensures Rounds(s.executionModes[p].direct, c.executionModes[p].direct * Count(s, p), Count(c, p))
    {
      KnownInOrder(p);
      ModesScale(c.executionModes[p], Count(c, p), Count(s, p));
    }
    forall p | p in ORDER && Count(s, p) != 0 ensures Splits(ModesOf(s, p), Count(s, p)) {
      OrderKnown(p);
      CountNatural(c, p);
      if p !in c.executionModes {
        DefaultSplits(s, p);
      }
    }
  }

  lemma OrderKnown(p: Protocol)
    requires p in ORDER
    ensures KnownProtocol(p)
  {
  }

  lemma DefaultSplits(c: Config, p: Protocol)
    requires p !in c.executionModes && Count(c, p) >= 0
    ensures Splits(ModesOf(c, p), Count(c, p))
  {
  }

  /** With the protocol override, the result is accepted unless the chosen protocol had an explicit mode
      split but no jobs to split. */
  lemma NarrowedExpandable(c: Config, selected: Protocol, total: int)
    requires Expandable(c) && total > 0 && selected in ORDER
    ensures Expandable(Narrowed(c, selected, total)) <==> !(selected in c.executionModes && Count(c, selected) == 0)
  {
    hide Rounds, ScaledModes, SumOver;
    var n := Narrowed(c, selected, total);
    OrderKnown(selected);
    SumOne(selected, total);
    if selected !in c.executionModes {
      DefaultSplits(n, selected);
    } else if Count(c, selected) == 0 {
      NoSplit(c.executionModes[selected], total);
      assert !Splits(ModesOf(n, selected), Count(n, selected));
    } else {
      ModesScale(c.executionModes[selected], Count(c, selected), total);
    }
  }

  lemma NoSplit(m: ModeCounts, total: int)
    ensures ScaledModes(m, 0, total) == ModeCounts(0, 0)
  {
  }

  lemma SumOne(p: Protocol, n: int)
    ensures Sum(INTS, map[p := n]) == n
  {
    var m: map<Protocol, int> := map[p := n];
    assert m.Keys == {p};
    IntsCommutative();
    SumPick(INTS, m, {p}, p);
    NothingSummed(m);
    assert {p} - {p} == {};
  }

  /** Overriding the total alone: the scenario still expands, into exactly as many jobs as asked for. */
  lemma OverrideExpandsExactly(c: Config, total: int)
    requires Expandable(c) && total > 0
    ensures var r := Overridden(c, Some(total), None);
            r.Ok? && Expandable(r.value) && |Expanded(r.value, |ORDER|)| == total
  {
    hide Expandable, Scaled, Expanded;
    assert c.total > 0 by { PositiveTotal(c); }
    ScaledExpandable(c, total);
    ExpansionIsExact(Scaled(c, total));
    assert Scaled(c, total).total == total by { ScaledTotal(c, total); }
  }

  lemma PositiveTotal(c: Config)
    requires Expandable(c)
    ensures c.total > 0
  {
  }

  lemma ScaledTotal(c: Config, total: int)
    requires c.total > 0
    ensures Scaled(c, total).total == total
  {
  }
}
