/** Address planning: each node's assets receive consecutive addresses of its network (prefix notation of
    section 3.1 of RFC 4632), numbered across all nodes. */
module Addresses {
  import opened Wrappers

  const IPV4 := 0x1_0000_0000

  /** A parsed IPv4 prefix. */
  datatype Prefix = Prefix(address: nat, bits: nat)
  datatype NodeSpec = NodeSpec(backend: string, code: string, prefix: Option<Prefix>)
  datatype ProtocolSpec = ProtocolSpec(name: string, protocol: string, dbType: string, port: int, perNode: int,
                                       byNode: Option<map<string, int>>)
  datatype Spec = Spec(prefix: string, marker: string, nodes: seq<NodeSpec>, protocols: seq<ProtocolSpec>)

  /** A planned asset; its address is an integer. */
  datatype Planned = Planned(name: string, marker: string, backend: string, ip: int, protocol: string, dbType: string,
                             port: int, nodeIndex: nat, protocolIndex: nat, globalIndex: nat)

  // ---- Names ----

  function Digits(n: nat): string {
    if n < 10 then [DigitChar(n)] else Digits(n / 10) + [DigitChar(n % 10)]
  }

  function DigitChar(d: nat): char
    requires d < 10
  {
    '0' + d as char
  }

  function Zeros(n: nat): string { if n == 0 then "" else "0" + Zeros(n - 1) }

  /** %04d */
  function Padded(n: nat): string {
    var digits := Digits(n);
    if |digits| < 4 then Zeros(4 - |digits|) + digits else digits
  }

  /** %s%s-%s-%04d of prefix, protocol name, node code and index */
  function NameText(prefix: string, protocolName: string, code: string, index: nat): string {
    prefix + (protocolName + "-" + code) + "-" + Padded(index)
  }

  function Count(p: ProtocolSpec, code: string): int {
    if p.byNode.Some? then if code in p.byNode.value then p.byNode.value[code] else 0 else p.perNode
  }

  predicate ValidProtocol(p: ProtocolSpec) {
    p.name != "" && p.protocol != "" && p.port >= 1 && (p.perNode >= 1 || (p.byNode.Some? && |p.byNode.value| > 0))
  }

  function Pow2(n: nat): (p: nat)
    ensures p >= 1
  {
    if n == 0 then 1 else 2 * Pow2(n - 1)
  }

  predicate ValidPrefix(p: Prefix) { p.address < IPV4 && p.bits <= 32 }

  function Size(p: Prefix): nat
    requires ValidPrefix(p)
  {
    Pow2(32 - p.bits)
  }

  /** The masked address. */
  function Network(p: Prefix): int
    requires ValidPrefix(p)
  {
    p.address - p.address % Size(p)
  }

  function Broadcast(p: Prefix): int
    requires ValidPrefix(p)
  {
    Network(p) + Size(p) - 1
  }

  /** How many assets the first `j` protocols put on the node. */
  function Before(s: Spec, i: nat, j: nat): int
    requires i < |s.nodes| && j <= |s.protocols|
  {
    if j == 0 then 0 else Before(s, i, j - 1) + Count(s.protocols[j - 1], s.nodes[i].code)
  }

  function PerNode(s: Spec, i: nat): int
    requires i < |s.nodes|
  {
    Before(s, i, |s.protocols|)
  }

  /** How many assets the first `i` nodes receive. */
  function Base(s: Spec, i: nat): int
    requires i <= |s.nodes|
  {
    if i == 0 then 0 else Base(s, i - 1) + PerNode(s, i - 1)
  }

  predicate NodeFits(s: Spec, i: nat)
    requires i < |s.nodes|
  {
    && s.nodes[i].prefix.Some? && ValidPrefix(s.nodes[i].prefix.value)
    && (forall j :: 0 <= j < |s.protocols| ==> Count(s.protocols[j], s.nodes[i].code) >= 0)
    && PerNode(s, i) <= Size(s.nodes[i].prefix.value) - 2
  }

  function NodeNetwork(s: Spec, i: nat): int
    requires i < |s.nodes| && NodeFits(s, i)
  {
    Network(s.nodes[i].prefix.value)
  }

  function NodeBroadcast(s: Spec, i: nat): int
    requires i < |s.nodes| && NodeFits(s, i)
  {
    Broadcast(s.nodes[i].prefix.value)
  }

  predicate Plannable(s: Spec) {
    && s.prefix != "" && s.marker != ""
    && (forall j :: 0 <= j < |s.protocols| ==> ValidProtocol(s.protocols[j]))
    && (forall i :: 0 <= i < |s.nodes| ==> NodeFits(s, i))
  }

  /** Asset `p` of protocol `m` of node `n` exists. */
  predicate Placed(s: Spec, n: int, m: int, p: int) {
    0 <= n < |s.nodes| && 0 <= m < |s.protocols| && 0 <= p < Count(s.protocols[m], s.nodes[n].code) && NodeFits(s, n)
  }

  /** It comes before asset `k` of protocol `j` of node `i`. */
  predicate Precedes(n: int, m: int, p: int, i: int, j: int, k: int) {
    n < i || (n == i && (m < j || (m == j && p < k)))
  }

  predicate IsAsset(a: Planned, s: Spec, n: nat, m: nat, p: nat)
    requires Placed(s, n, m, p)
  {
    var protocol, node := s.protocols[m], s.nodes[n];
    && a.name == NameText(s.prefix, protocol.name, node.code, p + 1) && a.marker == s.marker
    && a.backend == node.backend
    && a.protocol == protocol.protocol && a.dbType == protocol.dbType && a.port == protocol.port
    && a.protocolIndex == p + 1 && a.nodeIndex == n + 1
    && a.ip == Network(node.prefix.value) + 1 + Before(s, n, m) + p
  }

  /** What the three nested loops have appended before asset `k` of protocol `j` of node `i`. */
  ghost predicate PlannedUpTo(s: Spec, assets: seq<Planned>, i: nat, j: nat, k: int)
    requires i <= |s.nodes| && j <= |s.protocols| && (i < |s.nodes| || j == 0)
  {
    && |assets| == Base(s, i) + (if i < |s.nodes| then Before(s, i, j) else 0) + k
    && (forall g :: 0 <= g < |assets| ==> assets[g].globalIndex == g + 1)
    && (forall n, m, p :: Placed(s, n, m, p) && Precedes(n, m, p, i, j, k) ==>
          var g := Base(s, n) + Before(s, n, m) + p;
          0 <= g < |assets| && IsAsset(assets[g], s, n, m, p))
  }

  /** The checks on one node, before its addresses are given out. */
  method CheckNode(s: Spec, i: nat) returns (ok: bool)
    requires i < |s.nodes|
    requires s.nodes[i].prefix.Some? ==> ValidPrefix(s.nodes[i].prefix.value)
    ensures ok <==> NodeFits(s, i)
  {
    if s.nodes[i].prefix.None? {
      return false;
    }
    var perNode := 0;
    for j := 0 to |s.protocols|
      invariant perNode == Before(s, i, j)
      invariant forall k :: 0 <= k < j ==> Count(s.protocols[k], s.nodes[i].code) >= 0
    {
      var count := Count(s.protocols[j], s.nodes[i].code);
      if count < 0 {
        return false;
      }
      perNode := perNode + count;
    }
    return perNode <= Size(s.nodes[i].prefix.value) - 2;
  }

  method Plan(s: Spec) returns (r: Result<seq<Planned>>)
    requires forall i :: 0 <= i < |s.nodes| && s.nodes[i].prefix.Some? ==> ValidPrefix(s.nodes[i].prefix.value)
    ensures r.Ok? <==> Plannable(s)
    ensures r.Ok? ==> PlannedUpTo(s, r.value, |s.nodes|, 0, 0)
  {
    hide Before, NodeFits, ValidProtocol, PlannedUpTo, Network, NameText;
    if s.prefix == "" || s.marker == "" {
      return Err;
    }
    for j := 0 to |s.protocols|
      invariant forall k :: 0 <= k < j ==> ValidProtocol(s.protocols[k])
    {
      if !ValidProtocol(s.protocols[j]) {
        return Err;
      }
    }
    var assets: seq<Planned> := [];
    var globalIndex := 0;
    NothingPlanned(s);
    for i := 0 to |s.nodes|
      invariant forall n :: 0 <= n < i ==> NodeFits(s, n)
      invariant PlannedUpTo(s, assets, i, 0, 0) && globalIndex == |assets|
    {
      var fits := CheckNode(s, i);
      if !fits {
        return Err;
      }
      FittingNode(s, i);
      var address := Network(s.nodes[i].prefix.value) + 1;
      BeforeNothing(s, i);
      for j := 0 to |s.protocols|
        invariant PlannedUpTo(s, assets, i, j, 0) && globalIndex == |assets|
        invariant address == Network(s.nodes[i].prefix.value) + 1 + Before(s, i, j)
      {
        var count := Count(s.protocols[j], s.nodes[i].code);
        var k := 0;
        while k < count
          invariant 0 <= k <= count
          invariant PlannedUpTo(s, assets, i, j, k) && globalIndex == |assets|
          invariant address == Network(s.nodes[i].prefix.value) + 1 + Before(s, i, j) + k
        {
          globalIndex := globalIndex + 1;
          var protocol, node := s.protocols[j], s.nodes[i];
          var a := Planned(NameText(s.prefix, protocol.name, node.code, k + 1), s.marker, node.backend, address,
                           protocol.protocol, protocol.dbType, protocol.port, i + 1, k + 1, globalIndex);
          AssetPlanned(s, assets, i, j, k, a);
          assets := assets + [a];
          address := address + 1;
          k := k + 1;
        }
        ProtocolPlanned(s, assets, i, j);
      }
      NodePlanned(s, assets, i);
    }
    return Ok(assets);
  }

  lemma NothingPlanned(s: Spec)
    ensures PlannedUpTo(s, [], 0, 0, 0)
  {
  }

  lemma BeforeNothing(s: Spec, i: nat)
    requires i < |s.nodes|
    ensures Before(s, i, 0) == 0
  {
  }

  lemma FittingNode(s: Spec, i: nat)
    requires i < |s.nodes| && NodeFits(s, i)
    ensures s.nodes[i].prefix.Some? && ValidPrefix(s.nodes[i].prefix.value)
    ensures forall j :: 0 <= j < |s.protocols| ==> Count(s.protocols[j], s.nodes[i].code) >= 0
  {
  }

  lemma AssetPlanned(s: Spec, assets: seq<Planned>, i: nat, j: nat, k: nat, a: Planned)
    requires i < |s.nodes| && j < |s.protocols| && Placed(s, i, j, k) && PlannedUpTo(s, assets, i, j, k)
    requires IsAsset(a, s, i, j, k) && a.globalIndex == |assets| + 1
    ensures PlannedUpTo(s, assets + [a], i, j, k + 1)
  {
    hide Before, Base, NodeFits, IsAsset;
    var more := assets + [a];
    forall n, m, p | Placed(s, n, m, p) && Precedes(n, m, p, i, j, k + 1)
      ensures var g := Base(s, n) + Before(s, n, m) + p; 0 <= g < |more| && IsAsset(more[g], s, n, m, p)
    {
      if !Precedes(n, m, p, i, j, k) {
        assert n == i && m == j && p == k;
      }
    }
  }

  lemma ProtocolPlanned(s: Spec, assets: seq<Planned>, i: nat, j: nat)
    requires i < |s.nodes| && j < |s.protocols| && Count(s.protocols[j], s.nodes[i].code) >= 0
    requires PlannedUpTo(s, assets, i, j, Count(s.protocols[j], s.nodes[i].code))
    ensures PlannedUpTo(s, assets, i, j + 1, 0)
    ensures Before(s, i, j + 1) == Before(s, i, j) + Count(s.protocols[j], s.nodes[i].code)
  {
    hide Base, NodeFits, IsAsset;
    forall n, m, p | Placed(s, n, m, p) && Precedes(n, m, p, i, j + 1, 0)
      ensures Precedes(n, m, p, i, j, Count(s.protocols[j], s.nodes[i].code))
    {
    }
  }

  lemma NodePlanned(s: Spec, assets: seq<Planned>, i: nat)
    requires i < |s.nodes| && PlannedUpTo(s, assets, i, |s.protocols|, 0)
    ensures PlannedUpTo(s, assets, i + 1, 0, 0)
  {
    hide NodeFits, IsAsset, Before;
    if i + 1 < |s.nodes| {
      BeforeNothing(s, i + 1);
    }
    forall n, m, p | Placed(s, n, m, p) && Precedes(n, m, p, i + 1, 0, 0)
      ensures Precedes(n, m, p, i, |s.protocols|, 0)
    {
    }
  }

  // ---- What a plan is ----

  /** The `o`-th asset of a node belongs to some protocol. */
  lemma {:induction false} InProtocol(s: Spec, n: nat, j: nat, o: nat) returns (m: nat, p: nat)
    requires n < |s.nodes| && NodeFits(s, n) && j <= |s.protocols| && o < Before(s, n, j)
    ensures Placed(s, n, m, p) && o == Before(s, n, m) + p
  {
    if o >= Before(s, n, j - 1) {
      m, p := j - 1, o - Before(s, n, j - 1);
    } else {
      m, p := InProtocol(s, n, j - 1, o);
    }
  }

  /** A node's assets are at network+1, network+2 and on, none at the network or the broadcast address. */
  lemma NodeAddresses(s: Spec, assets: seq<Planned>, n: nat, o: nat)
    requires Plannable(s) && PlannedUpTo(s, assets, |s.nodes|, 0, 0) && n < |s.nodes| && o < PerNode(s, n)
    ensures var g := Base(s, n) + o;
            && 0 <= g < |assets| && assets[g].nodeIndex == n + 1 && assets[g].globalIndex == g + 1
            && assets[g].ip == NodeNetwork(s, n) + 1 + o
            && NodeNetwork(s, n) < assets[g].ip < NodeBroadcast(s, n)
  {
    hide Base, Before, Network;
    FittingNode(s, n);
    assert PerNode(s, n) <= Size(s.nodes[n].prefix.value) - 2 by { NodeRoom(s, n); }
    var m, p := InProtocol(s, n, |s.protocols|, o);
    assert Precedes(n, m, p, |s.nodes|, 0, 0);
  }

  lemma NodeRoom(s: Spec, n: nat)
    requires n < |s.nodes| && NodeFits(s, n)
    ensures PerNode(s, n) <= Size(s.nodes[n].prefix.value) - 2 && PerNode(s, n) >= 0
  {
    Natural(s, n, |s.protocols|);
  }

  lemma {:induction false} Natural(s: Spec, n: nat, j: nat)
    requires n < |s.nodes| && NodeFits(s, n) && j <= |s.protocols|
    ensures Before(s, n, j) >= 0
  {
    if j > 0 {
      Natural(s, n, j - 1);
    }
  }

  /** Every asset belongs to some node. */
  lemma {:induction false} InNode(s: Spec, i: nat, g: nat) returns (n: nat, o: nat)
    requires Plannable(s) && i <= |s.nodes| && g < Base(s, i)
    ensures n < i && o < PerNode(s, n) && g == Base(s, n) + o
  {
    if g >= Base(s, i - 1) {
      n, o := i - 1, g - Base(s, i - 1);
    } else {
      n, o := InNode(s, i - 1, g);
    }
  }

  /** The networks of different nodes do not overlap. */
  predicate DisjointNetworks(s: Spec)
    requires Plannable(s)
  {
    forall i, j :: 0 <= i < j < |s.nodes| ==>
      NodeBroadcast(s, i) < NodeNetwork(s, j) || NodeBroadcast(s, j) < NodeNetwork(s, i)
  }

  /** Over disjoint networks no address is planned twice. */
  lemma AddressesDistinct(s: Spec, assets: seq<Planned>, g: nat, h: nat)
    requires Plannable(s) && PlannedUpTo(s, assets, |s.nodes|, 0, 0) && DisjointNetworks(s) && g < h < |assets|
    ensures assets[g].ip != assets[h].ip
  {
    hide Before, Network, PlannedUpTo, NodeFits;
    assert |assets| == Base(s, |s.nodes|) by { PlannedLength(s, assets); }
    var n, o := InNode(s, |s.nodes|, g);
    var m, p := InNode(s, |s.nodes|, h);
    NodeAddresses(s, assets, n, o);
    NodeAddresses(s, assets, m, p);
    FittingNode(s, n);
    FittingNode(s, m);
  }

  lemma PlannedLength(s: Spec, assets: seq<Planned>)
    requires PlannedUpTo(s, assets, |s.nodes|, 0, 0)
    ensures |assets| == Base(s, |s.nodes|)
  {
  }

  lemma AssetOf(s: Spec, assets: seq<Planned>, g: nat) returns (n: nat, m: nat, p: nat)
    requires Plannable(s) && PlannedUpTo(s, assets, |s.nodes|, 0, 0) && g < |assets|
    ensures Placed(s, n, m, p) && g == Base(s, n) + Before(s, n, m) + p && IsAsset(assets[g], s, n, m, p)
  {
    hide Base, Before, IsAsset;
    var o;
    PlannedLength(s, assets);
    n, o := InNode(s, |s.nodes|, g);
    m, p := InProtocol(s, n, |s.protocols|, o);
    assert Precedes(n, m, p, |s.nodes|, 0, 0);
  }

  lemma {:induction false} BeforeGrows(s: Spec, n: nat, i: nat, j: nat)
    requires n < |s.nodes| && NodeFits(s, n) && i < j <= |s.protocols|
    ensures Before(s, n, i) + Count(s.protocols[i], s.nodes[n].code) <= Before(s, n, j)
  {
    if i < j - 1 {
      BeforeGrows(s, n, i, j - 1);
    }
  }

  // ---- What a network and a plan are ----

  /** A prefix of n bits leaves 2^(32 - n) addresses, from the multiple of that many at or below the address on. */
  lemma NetworkExactly(p: Prefix)
    requires ValidPrefix(p)
    ensures Size(p) * Pow2(p.bits) == 0x1_0000_0000
    ensures Network(p) % Size(p) == 0 && Network(p) <= p.address < Network(p) + Size(p)
    ensures Broadcast(p) + 1 == Network(p) + Size(p)
    ensures p.bits == 24 ==> Size(p) == 256
  {
    PowersAdd(32 - p.bits, p.bits);
    PowersOfTwo();
    NetworkMultiple(p.address, Size(p));
  }

  lemma {:induction false} PowersAdd(a: nat, b: nat)
    ensures Pow2(a) * Pow2(b) == Pow2(a + b)
  {
    if a > 0 {
      PowersAdd(a - 1, b);
      assert Pow2(a) * Pow2(b) == 2 * (Pow2(a - 1) * Pow2(b));
    }
  }

  lemma PowersOfTwo()
    ensures Pow2(8) == 256 && Pow2(32) == 0x1_0000_0000
  {
    assert Pow2(4) == 16;
    PowersAdd(4, 4);
    PowersAdd(8, 8);
    PowersAdd(16, 16);
  }

  lemma NetworkMultiple(a: nat, size: nat)
    requires size > 0
    ensures (a - a % size) % size == 0 && a - a % size <= a < a - a % size + size
  {
    var q := a / size;
    assert a - a % size == q * size;
    MultipleRest(q, size);
  }

  lemma {:induction false} MultipleRest(q: nat, size: nat)
    requires size > 0
    ensures (q * size) % size == 0
  {
    var d, r := q * size / size, q * size % size;
    assert q * size == d * size + r && 0 <= r < size;
    if d < q {
      ProductGrows(d + 1, q, size);
    } else if d > q {
      ProductGrows(q + 1, d, size);
    }
  }

  lemma ProductGrows(a: nat, b: nat, size: nat)
    requires a <= b
    ensures a * size <= b * size
  {
  }

  /** How many assets a protocol puts on a node: what is said of that node, nothing if others are named, and otherwise
      the same on every node. */
  lemma CountExactly(p: ProtocolSpec, code: string)
    ensures match p.byNode
            case None => Count(p, code) == p.perNode
            case Some(m) => (code in m ==> Count(p, code) == m[code]) && (code !in m ==> Count(p, code) == 0)
  {
  }

  /** A plan is found exactly if generated names have their prefix and marker; every protocol a name, a kind, a port and
      some count; and every node a network with two addresses more than its assets, none of them counted negative. */
  lemma PlannableExactly(s: Spec)
    ensures Plannable(s) <==>
              && |s.prefix| > 0 && |s.marker| > 0
              && (forall j :: 0 <= j < |s.protocols| ==> Specified(s.protocols[j]))
              && (forall i :: 0 <= i < |s.nodes| ==> HasRoom(s, i))
  {
    hide ValidProtocol, Specified, NodeFits, HasRoom;
    forall p ensures ValidProtocol(p) <==> Specified(p) {
      SpecifiedIs(p);
    }
    forall i | 0 <= i < |s.nodes| ensures NodeFits(s, i) <==> HasRoom(s, i) {
      RoomIs(s, i);
    }
    assert s.prefix != "" <==> |s.prefix| > 0;
    assert s.marker != "" <==> |s.marker| > 0;
  }

  predicate HasRoom(s: Spec, i: nat)
    requires i < |s.nodes|
  {
    match s.nodes[i].prefix
    case None => false
    case Some(p) =>
      && ValidPrefix(p) && PerNode(s, i) + 2 <= Size(p)
      && forall j :: 0 <= j < |s.protocols| ==> !(Count(s.protocols[j], s.nodes[i].code) < 0)
  }

  lemma RoomIs(s: Spec, i: nat)
    requires i < |s.nodes|
    ensures NodeFits(s, i) <==> HasRoom(s, i)
  {
    hide PerNode, Size, Count;
  }

  predicate Specified(p: ProtocolSpec) {
    && |p.name| > 0 && |p.protocol| > 0 && p.port > 0
    && (p.perNode > 0 || (p.byNode.Some? && exists code :: code in p.byNode.value))
  }

  lemma SpecifiedIs(p: ProtocolSpec)
    ensures ValidProtocol(p) <==> Specified(p)
  {
    if p.byNode.Some? {
      var keys := p.byNode.value.Keys;
      assert keys == {} <==> |keys| == 0;
      assert |p.byNode.value| == |keys|;
      assert forall code :: code in p.byNode.value <==> code in keys;
      if keys != {} {
        var code :| code in keys;
      }
    }
  }

  /** Prefix, protocol name, dash, node code, dash and the index in at least four digits. */
  lemma NameExample()
    ensures NameText("lt-", "ssh", "n1", 7) == "lt-ssh-n1-0007" && NameText("", "a", "b", 12345) == "a-b-12345"
  {
    assert Digits(7) == "7" && Zeros(3) == "000";
    assert Digits(12345) == "12345" by {
      assert Digits(1) == "1" && Digits(12) == "12" && Digits(123) == "123" && Digits(1234) == "1234";
    }
  }
}
