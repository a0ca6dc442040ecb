/** Overriding a scenario's total: largest-remainder scaling of the protocol counts and of their mode
    splits. Go's floating-point shares are read as exact; fractions are kept as numerators over the
    common denominator. */
module Scaling {
  import opened Wrappers
  import opened Sums
  import opened Scenario
  import opened Accounting
  import opened Configuration

  /** int(x) of the exact quotient n / d: towards zero. */
  function Truncated(n: int, d: int): int
    requires d > 0
  {
    if n >= 0 then n / d else -((-n) / d)
  }

  // ---- Mode splits ----

  /** Raise the part with the larger remainder, the browser part on a tie, until the target is reached. */
  function RaiseModes(m: ModeCounts, browserExact: int, directExact: int, d: int, target: int): ModeCounts
    decreases target - m.browser - m.direct
  {
    if m.browser + m.direct >= target then m
    else if browserExact - m.browser * d >= directExact - m.direct * d
    then RaiseModes(m.(browser := m.browser + 1), browserExact, directExact, d, target)
    else RaiseModes(m.(direct := m.direct + 1), browserExact, directExact, d, target)
  }

  function ScaledModes(original: ModeCounts, originalTotal: int, target: int): ModeCounts {
    if originalTotal <= 0 || target <= 0 then ModeCounts(0, 0)
    else
      var browser, direct := original.browser * target, original.direct * target;
      RaiseModes(ModeCounts(Truncated(direct, originalTotal), Truncated(browser, originalTotal)), browser, direct,
          originalTotal, target)
  }

  method ScaleModeCounts(original: ModeCounts, originalTotal: int, target: int) returns (r: ModeCounts)
    ensures r == ScaledModes(original, originalTotal, target)
  {
    if originalTotal <= 0 || target <= 0 {
      return ModeCounts(0, 0);
    }
    var browser, direct := original.browser * target, original.direct * target;
    r := ModeCounts(Truncated(direct, originalTotal), Truncated(browser, originalTotal));
    while r.browser + r.direct < target
      invariant RaiseModes(r, browser, direct, originalTotal, target) == ScaledModes(original, originalTotal, target)
      decreases target - r.browser - r.direct
    {
      if browser - r.browser * originalTotal >= direct - r.direct * originalTotal {
        r := r.(browser := r.browser + 1);
      } else {
        r := r.(direct := r.direct + 1);
      }
    }
  }

  /** `share` is the floor or the ceiling of n / d. */
  predicate Rounds(share: int, n: int, d: int) {
    (share - 1) * d < n < (share + 1) * d
  }

  lemma TruncatedShare(n: int, d: int)
    requires n >= 0 && d > 0
    ensures var w := Truncated(n, d); 0 <= w && 0 <= n - w * d < d
  {
  }

  /** A floor rounds; with a remainder, so does the next integer. */
  lemma SharesRound(w: int, n: int, d: int)
    requires d > 0 && 0 <= n - w * d < d
    ensures Rounds(w, n, d)
    ensures n - w * d > 0 ==> Rounds(w + 1, n, d)
  {
    assert (w - 1) * d == w * d - d && (w + 1) * d == w * d + d && (w + 2) * d == w * d + 2 * d;
  }

  lemma ZeroShare(w: int, d: int)
    requires d > 0 && 0 <= w && 0 <= 0 - w * d < d
    ensures w == 0
  {
  }

  /** A split that adds up is scaled to a split that adds up, each part to floor or ceiling. */
  lemma ModesScale(m: ModeCounts, count: int, target: int)
    requires Splits(m, count) && count > 0 && target >= 0
    ensures var r := ScaledModes(m, count, target);
            && Splits(r, target)
            && Rounds(r.browser, m.browser * target, count) && Rounds(r.direct, m.direct * target, count)
            && (m.browser == 0 ==> r.browser == 0) && (m.direct == 0 ==> r.direct == 0)
  {
    hide Truncated, RaiseModes, Rounds;
    var browser, direct := m.browser * target, m.direct * target;
    Shares(m.browser, m.direct, target);
    if target > 0 {
      TruncatedShare(browser, count);
      TruncatedShare(direct, count);
      RaisedOnce(Truncated(browser, count), Truncated(direct, count), browser, direct, count, target);
    } else {
      SharesRound(0, browser, count);
      SharesRound(0, direct, count);
    }
  }

  lemma Shares(a: nat, b: nat, target: nat)
    ensures a * target >= 0 && b * target >= 0
    ensures a * target + b * target == (a + b) * target
    ensures target == 0 ==> a * target == 0 && b * target == 0
    ensures a == 0 ==> a * target == 0
    ensures b == 0 ==> b * target == 0
  {
  }

  lemma RaisedOnce(b: int, d: int, browser: int, direct: int, count: int, target: int)
    requires count > 0 && 0 <= b && 0 <= d && target > 0
    requires 0 <= browser - b * count < count && 0 <= direct - d * count < count
    requires browser + direct == count * target
    ensures var r := RaiseModes(ModeCounts(d, b), browser, direct, count, target);
            && Splits(r, target) && Rounds(r.browser, browser, count) && Rounds(r.direct, direct, count)
            && (browser == 0 ==> r.browser == 0) && (direct == 0 ==> r.direct == 0)
  {
    hide Rounds;
    var x, y := browser - b * count, direct - d * count;
    assert x + y == (target - b - d) * count;
    OneMissing(target - b - d, x + y, count);
    SharesRound(b, browser, count);
    SharesRound(d, direct, count);
    if browser == 0 {
      ZeroShare(b, count);
    }
    if direct == 0 {
      ZeroShare(d, count);
    }
    if b + d < target {
      RaisedAtTarget(ModeCounts(d, b + 1), browser, direct, count, target);
      RaisedAtTarget(ModeCounts(d + 1, b), browser, direct, count, target);
    }
  }

  lemma RaisedAtTarget(m: ModeCounts, browser: int, direct: int, count: int, target: int)
    requires m.browser + m.direct >= target
    ensures RaiseModes(m, browser, direct, count, target) == m
  {
  }

  lemma OneMissing(missing: int, rest: int, count: int)
    requires count > 0 && rest == missing * count && 0 <= rest < 2 * count
    ensures missing == 0 || missing == 1
  {
    Multiples(missing, count);
  }

  lemma Multiples(a: int, c: int)
    requires c > 0
    ensures a >= 2 ==> a * c >= 2 * c
    ensures a <= -1 ==> a * c <= -c
  {
  }

  // ---- Protocol counts ----

  datatype Remainder = Remainder(protocol: Protocol, fraction: int, order: nat)

  function Whole(c: Config, total: int, p: Protocol): int
    requires c.total > 0
  {
    Truncated(Count(c, p) * total, c.total)
  }

  /** The fractional part of the exact share, times the old total. */
  function Fraction(c: Config, total: int, p: Protocol): int
    requires c.total > 0
  {
    Count(c, p) * total - Whole(c, total, p) * c.total
  }

  function Remainders(c: Config, total: int, n: nat): (r: seq<Remainder>)
    requires c.total > 0 && n <= |ORDER|
    ensures |r| == n
    ensures forall k :: 0 <= k < n ==> r[k] == Remainder(ORDER[k], Fraction(c, total, ORDER[k]), k)
  {
    if n == 0 then []
    else Remainders(c, total, n - 1) + [Remainder(ORDER[n - 1], Fraction(c, total, ORDER[n - 1]), n - 1)]
  }

  function Wholes(c: Config, total: int, n: nat): map<Protocol, int>
    requires c.total > 0 && n <= |ORDER|
  {
    if n == 0 then map[] else Wholes(c, total, n - 1)[ORDER[n - 1] := Whole(c, total, ORDER[n - 1])]
  }

  function WholeSum(c: Config, total: int, n: nat): int
    requires c.total > 0 && n <= |ORDER|
  {
    if n == 0 then 0 else WholeSum(c, total, n - 1) + Whole(c, total, ORDER[n - 1])
  }

  predicate Precedes(a: Remainder, b: Remainder) {
    if a.fraction == b.fraction then a.order < b.order else a.fraction > b.fraction
  }

  function InsertRemainder(x: Remainder, s: seq<Remainder>): seq<Remainder> {
    if s == [] || !Precedes(s[0], x) then [x] + s else [s[0]] + InsertRemainder(x, s[1..])
  }

  /** sort.SliceStable by falling fraction, then by order. */
  function SortedRemainders(s: seq<Remainder>): (r: seq<Remainder>)
    ensures |r| == |s|
  {
    if s == [] then [] else
      SortedKeepsLength(s[0], SortedRemainders(s[1..]));
      InsertRemainder(s[0], SortedRemainders(s[1..]))
  }

  lemma {:induction false} SortedKeepsLength(x: Remainder, s: seq<Remainder>)
    ensures |InsertRemainder(x, s)| == |s| + 1
  {
    if s != [] && Precedes(s[0], x) {
      SortedKeepsLength(x, s[1..]);
    }
  }

  /** The remaining jobs go round the protocols in that order. */
  function Raised(scaled: map<Protocol, int>, s: seq<Remainder>, k: nat): map<Protocol, int>
    requires s != []
  {
    if k == 0 then scaled else Add(INTS, Raised(scaled, s, k - 1), s[(k - 1) % |s|].protocol, 1)
  }

  function Missing(c: Config, total: int): nat
    requires c.total > 0
  {
    if total > WholeSum(c, total, |ORDER|) then total - WholeSum(c, total, |ORDER|) else 0
  }

  function ScaledProtocols(c: Config, total: int): map<Protocol, int>
    requires c.total > 0
  {
    Raised(Wholes(c, total, |ORDER|), SortedRemainders(Remainders(c, total, |ORDER|)), Missing(c, total))
  }

  function ScaledModesOf(c: Config, scaled: map<Protocol, int>): map<Protocol, ModeCounts> {
    map p | p in c.executionModes :: ScaledModes(c.executionModes[p], Count(c, p), Lookup(INTS, scaled, p))
  }

  function Scaled(c: Config, total: int): Config
    requires c.total > 0
  {
    var scaled := ScaledProtocols(c, total);
    Config(total, scaled, ScaledModesOf(c, scaled))
  }

  function Narrowed(c: Config, selected: Protocol, total: int): Config {
    Config(total, map[selected := total],
           if selected in c.executionModes
           then map[selected := ScaledModes(c.executionModes[selected], Count(c, selected), total)] else map[])
  }

  /** applyRuntimeOverrides, given the parsed overrides of the total and of the protocol. */
  function Overridden(c: Config, total: Option<int>, selected: Option<Protocol>): Result<Config> {
    var target := if total.Some? then total.value else c.total;
    if total.Some? && total.value < 1 then Err
    else if selected.Some? then if selected.value in ORDER then Ok(Narrowed(c, selected.value, target)) else Err
    else if total.None? then Ok(c)
    else if c.total < 1 then Err
    else Ok(Scaled(c, target))
  }

  method ApplyRuntimeOverrides(c: Config, total: Option<int>, selected: Option<Protocol>) returns (r: Result<Config>)
    ensures r == Overridden(c, total, selected)
  {
    hide ScaledModes, Truncated, SortedRemainders;
    var target := c.total;
    if total.Some? {
      if total.value < 1 {
        return Err;
      }
      target := total.value;
    }
    if selected.Some? {
      var p := selected.value;
      if p !in ORDER {
        return Err;
      }
      if p in c.executionModes {
        var modes := ScaleModeCounts(c.executionModes[p], Count(c, p), target);
        return Ok(Config(target, map[p := target], map[p := modes]));
      }
      return Ok(Config(target, map[p := target], map[]));
    }
    if total.None? {
      return Ok(c);
    }
    if c.total < 1 {
      return Err;
    }
    var scaled: map<Protocol, int>, remainders: seq<Remainder>, given := map[], [], 0;
    for n := 0 to |ORDER|
      invariant scaled == Wholes(c, target, n) && remainders == Remainders(c, target, n) &&
                  given == WholeSum(c, target, n)
    {
      var p := ORDER[n];
      var exact := Count(c, p) * target;
      var whole := Truncated(exact, c.total);
      scaled := scaled[p := whole];
      given := given + whole;
      remainders := remainders + [Remainder(p, exact - whole * c.total, n)];
    }
    remainders := SortedRemainders(remainders);
    ghost var wholes := scaled;
    var i := 0;
    while i < target - given
      invariant 0 <= i <= Missing(c, target) && scaled == Raised(wholes, remainders, i)
    {
      scaled := Add(INTS, scaled, remainders[i % |remainders|].protocol, 1);
      i := i + 1;
    }
    var modes: map<Protocol, ModeCounts> := map[];
    var remaining := c.executionModes.Keys;
    while remaining != {}
      invariant remaining <= c.executionModes.Keys && modes.Keys == c.executionModes.Keys - remaining
      invariant forall p :: p in modes ==>
                  modes[p] == ScaledModes(c.executionModes[p], Count(c, p), Lookup(INTS, scaled, p))
      decreases remaining
    {
      var p :| p in remaining;
      var m := ScaleModeCounts(c.executionModes[p], Count(c, p), Lookup(INTS, scaled, p));
      modes := modes[p := m];
      remaining := remaining - {p};
    }
    assert modes == ScaledModesOf(c, scaled);
    return Ok(Config(target, scaled, modes));
  }
}
