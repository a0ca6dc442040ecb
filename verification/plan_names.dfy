/** When the names of an address plan are distinct: exactly if no two uses of a protocol on a node have
    one text "protocol name-node code". The dash that joins the two may also occur inside them. */
module PlanNames {
  import opened Wrappers
  import opened Addresses
  import Inventory

  // ---- The index at the end of a name ----

  predicate NoDash(t: string) { '-' !in t }

  /** The number a text of digits stands for. */
  function Value(t: string): int {
    if t == "" then 0 else 10 * Value(t[..|t| - 1]) + (t[|t| - 1] as int - '0' as int)
  }

  lemma {:induction false} DigitsValue(n: nat)
    ensures Value(Digits(n)) == n && NoDash(Digits(n))
  {
    if n < 10 {
      assert Digits(n)[..0] == "";
    } else {
      DigitsValue(n / 10);
      var front := Digits(n / 10);
      assert Digits(n)[..|front|] == front;
    }
  }

  lemma {:induction false} ZerosValue(k: nat)
    ensures Value(Zeros(k)) == 0 && NoDash(Zeros(k)) && |Zeros(k)| == k
    ensures k > 0 ==> Zeros(k) == Zeros(k - 1) + "0"
  {
    if k > 0 {
      ZerosValue(k - 1);
      if k > 1 {
        assert Zeros(k) == "0" + (Zeros(k - 2) + "0") == ("0" + Zeros(k - 2)) + "0";
      }
      assert Zeros(k)[..k - 1] == Zeros(k - 1);
    }
  }

  lemma {:induction false} LeadingZeros(k: nat, t: string)
    ensures Value(Zeros(k) + t) == Value(t)
  {
    if t == "" {
      ZerosValue(k);
      assert Zeros(k) + t == Zeros(k);
    } else {
      var n := |t| - 1;
      LeadingZeros(k, t[..n]);
      assert (Zeros(k) + t)[..|Zeros(k) + t| - 1] == Zeros(k) + t[..n];
    }
  }

  lemma PaddedValue(n: nat)
    ensures Value(Padded(n)) == n && NoDash(Padded(n))
  {
    DigitsValue(n);
    if |Digits(n)| < 4 {
      LeadingZeros(4 - |Digits(n)|, Digits(n));
      ZerosValue(4 - |Digits(n)|);
    }
  }

  /** The last dash separates what precedes it from a text without dashes. */
  lemma LastDash(a: string, x: string, b: string, y: string)
    requires a + "-" + x == b + "-" + y && NoDash(x) && NoDash(y)
    ensures a == b && x == y
  {
    if |a| < |b| {
      DashWithin(a, x, b, y);
    } else if |b| < |a| {
      DashWithin(b, y, a, x);
    }
    var s := a + "-" + x;
    assert s[..|a|] == a && s[..|b|] == b && s[|a| + 1..] == x && s[|b| + 1..] == y;
  }

  lemma DashWithin(a: string, x: string, b: string, y: string)
    requires a + "-" + x == b + "-" + y && |a| < |b|
    ensures !NoDash(x)
  {
    assert (b + "-" + y)[|b|] == '-';
    assert (a + "-" + x)[|b|] == x[|b| - |a| - 1];
  }

  /** What a protocol on a node contributes to its assets' names. */
  function Stem(s: Spec, n: nat, m: nat): string
    requires n < |s.nodes| && m < |s.protocols|
  {
    s.protocols[m].name + "-" + s.nodes[n].code
  }

  /** Names are equal exactly if stem and index are. */
  lemma NamesSplit(s: Spec, n: nat, m: nat, p: nat, i: nat, j: nat, k: nat)
    requires n < |s.nodes| && m < |s.protocols| && i < |s.nodes| && j < |s.protocols|
    ensures NameText(s.prefix, s.protocols[m].name, s.nodes[n].code, p) ==
              NameText(s.prefix, s.protocols[j].name, s.nodes[i].code, k)
       <==> Stem(s, n, m) == Stem(s, i, j) && p == k
  {
    hide Padded, Value;
    var a, b := s.prefix + Stem(s, n, m), s.prefix + Stem(s, i, j);
    PaddedValue(p);
    PaddedValue(k);
    if a + "-" + Padded(p) == b + "-" + Padded(k) {
      LastDash(a, Padded(p), b, Padded(k));
      assert a[|s.prefix|..] == Stem(s, n, m) && b[|s.prefix|..] == Stem(s, i, j);
    }
  }

  // ---- The names of a plan ----

  predicate DistinctNames(assets: seq<Planned>) {
    forall g, h :: 0 <= g < h < |assets| ==> assets[g].name != assets[h].name
  }

  /** Protocol `m` is used on node `n`. */
  predicate Used(s: Spec, n: nat, m: nat) {
    n < |s.nodes| && m < |s.protocols| && Count(s.protocols[m], s.nodes[n].code) >= 1
  }

  /** No two uses share their stem: a condition on the specification alone. */
  predicate DistinctStems(s: Spec) {
    forall n: nat, m: nat, i: nat, j: nat | n < |s.nodes| && m < |s.protocols| && i < |s.nodes| && j < |s.protocols| ::
      Used(s, n, m) && Used(s, i, j) && Stem(s, n, m) == Stem(s, i, j) ==> n == i && m == j
  }

  lemma FirstOfUse(s: Spec, assets: seq<Planned>, n: nat, m: nat) returns (g: nat)
    requires Plannable(s) && PlannedUpTo(s, assets, |s.nodes|, 0, 0) && Used(s, n, m)
    ensures Placed(s, n, m, 0) && g < |assets| && g == Base(s, n) + Before(s, n, m) && IsAsset(assets[g], s, n, m, 0)
  {
    hide Base, Before, IsAsset, NodeFits;
    assert Precedes(n, m, 0, |s.nodes|, 0, 0);
    g := Base(s, n) + Before(s, n, m);
  }

  /** Different uses begin at different assets. */
  lemma UsesApart(s: Spec, a: Planned, n: nat, m: nat, i: nat, j: nat)
    requires Placed(s, n, m, 0) && Placed(s, i, j, 0) && IsAsset(a, s, n, m, 0) && IsAsset(a, s, i, j, 0)
    ensures n == i && m == j
  {
    hide Before, NameText, Network;
    if m < j {
      BeforeGrows(s, n, m, j);
    } else if j < m {
      BeforeGrows(s, n, j, m);
    }
  }

  lemma SharedStemRepeats(s: Spec, assets: seq<Planned>, n: nat, m: nat, i: nat, j: nat)
    requires Plannable(s) && PlannedUpTo(s, assets, |s.nodes|, 0, 0) && Used(s, n, m) && Used(s, i, j)
    requires (n != i || m != j) && Stem(s, n, m) == Stem(s, i, j)
    ensures !DistinctNames(assets)
  {
    hide PlannedUpTo, Base, Before, NameText, Plannable, Stem, NodeFits;
    var g := FirstOfUse(s, assets, n, m);
    var h := FirstOfUse(s, assets, i, j);
    NamesSplit(s, n, m, 1, i, j, 1);
    if g == h {
      UsesApart(s, assets[g], n, m, i, j);
    }
  }

  lemma SameUse(s: Spec, assets: seq<Planned>, g: nat, h: nat)
    requires Plannable(s) && PlannedUpTo(s, assets, |s.nodes|, 0, 0) && DistinctStems(s) && g < |assets| && h < |assets|
    requires assets[g].name == assets[h].name
    ensures g == h
  {
    hide PlannedUpTo, Base, Before, NameText, Plannable, Stem, NodeFits;
    var n, m, p := AssetOf(s, assets, g);
    var i, j, k := AssetOf(s, assets, h);
    NamesSplit(s, n, m, p + 1, i, j, k + 1);
    assert Used(s, n, m) && Used(s, i, j);
  }

  /** The names of a plan are pairwise distinct exactly if the stems of its uses are. */
  lemma NamesDistinctExactly(s: Spec, assets: seq<Planned>)
    requires Plannable(s) && PlannedUpTo(s, assets, |s.nodes|, 0, 0)
    ensures DistinctNames(assets) <==> DistinctStems(s)
  {
    hide PlannedUpTo, Plannable, Stem;
    if DistinctStems(s) {
      forall g, h | 0 <= g < h < |assets| ensures assets[g].name != assets[h].name {
        if assets[g].name == assets[h].name {
          SameUse(s, assets, g, h);
        }
      }
    } else {
      var n: nat, m: nat, i: nat, j: nat :|
        Used(s, n, m) && Used(s, i, j) && (n != i || m != j) && Stem(s, n, m) == Stem(s, i, j);
      SharedStemRepeats(s, assets, n, m, i, j);
    }
  }

  /** What the import asks of its desired assets holds of a plan exactly under the same condition. */
  lemma PlanImportable(s: Spec, assets: seq<Planned>, desired: seq<Inventory.Asset>)
    requires Plannable(s) && PlannedUpTo(s, assets, |s.nodes|, 0, 0)
    requires |desired| == |assets| && forall g :: 0 <= g < |assets| ==> desired[g].name == assets[g].name
    ensures Inventory.DistinctNames(desired) <==> DistinctStems(s)
  {
    hide PlannedUpTo, Plannable, DistinctStems;
    NamesDistinctExactly(s, assets);
  }

  // ---- Where it fails ----

  /** Two protocol specifications of one name, both used on a node, or one protocol on two nodes of one
      code, repeat names. */
  lemma SharedPartsRepeat(s: Spec, assets: seq<Planned>, n: nat, m: nat, i: nat, j: nat)
    requires Plannable(s) && PlannedUpTo(s, assets, |s.nodes|, 0, 0) && Used(s, n, m) && Used(s, i, j)
    requires (n != i || m != j) && s.protocols[m].name == s.protocols[j].name && s.nodes[n].code == s.nodes[i].code
    ensures !DistinctNames(assets)
  {
    hide PlannedUpTo, Plannable, Used;
    SharedStemRepeats(s, assets, n, m, i, j);
  }

  /** Distinct protocol names and distinct node codes are not enough: "a-b" on "c" and "a" on "b-c". */
  function DashedSpec(): Spec {
    Spec("lt-", "generated",
         [NodeSpec("one", "c", Some(Prefix(256, 29))), NodeSpec("two", "b-c", Some(Prefix(512, 29)))],
         [ProtocolSpec("a-b", "ssh", "", 22, 0, Some(map["c" := 1])),
             ProtocolSpec("a", "rdp", "", 3389, 0, Some(map["b-c" := 1]))])
  }

  predicate DistinctParts(s: Spec) {
    && (forall i, j :: 0 <= i < j < |s.nodes| ==> s.nodes[i].code != s.nodes[j].code)
    && (forall i, j :: 0 <= i < j < |s.protocols| ==> s.protocols[i].name != s.protocols[j].name)
  }

  lemma EightAddresses(p: Prefix)
    requires p.bits == 29 && ValidPrefix(p)
    ensures Size(p) == 8
  {
    assert Pow2(3) == 2 * Pow2(2) && Pow2(2) == 2 * Pow2(1) && Pow2(1) == 2 * Pow2(0);
  }

  lemma OnePerNode(s: Spec)
    requires s == DashedSpec()
    ensures Before(s, 0, 0) == 0 && Before(s, 0, 1) == 1 && Before(s, 0, 2) == 1 && PerNode(s, 0) == 1
    ensures Before(s, 1, 0) == 0 && Before(s, 1, 1) == 0 && Before(s, 1, 2) == 1 && PerNode(s, 1) == 1
    ensures Used(s, 0, 0) && Used(s, 1, 1)
  {
    assert "c" != "b-c" && |s.protocols| == 2 && |s.nodes| == 2;
  }

  lemma DashedPlannable(s: Spec)
    requires s == DashedSpec()
    ensures Plannable(s) && DistinctParts(s) && DisjointNetworks(s)
  {
    hide Before, Size, PerNode;
    OnePerNode(s);
    EightAddresses(s.nodes[0].prefix.value);
    EightAddresses(s.nodes[1].prefix.value);
    assert NodeFits(s, 0) && NodeFits(s, 1);
  }

  /** Every plan of it has two assets named "lt-a-b-c-0001". */
  lemma DashRepeatsName(assets: seq<Planned>)
    requires PlannedUpTo(DashedSpec(), assets, 2, 0, 0)
    ensures var s := DashedSpec();
            Plannable(s) && DistinctParts(s) && DisjointNetworks(s) && !DistinctStems(s) && !DistinctNames(assets)
  {
    hide PlannedUpTo, Plannable, DisjointNetworks;
    var s := DashedSpec();
    DashedPlannable(s);
    OnePerNode(s);
    assert Stem(s, 0, 0) == "a-b" + "-" + "c" == "a-b-c";
    assert Stem(s, 1, 1) == "a" + "-" + "b-c" == "a-b-c";
    SharedStemRepeats(s, assets, 0, 0, 1, 1);
  }
}
