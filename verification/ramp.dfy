/** The ramp plan: when each job is launched. Durations are whole nanoseconds; the floating-point
    arithmetic behind them is read as exact. */
module Ramp {
  import opened Scenario

  datatype Scheduled = Scheduled(job: Job, at: int)

  /** time.Duration(x): towards zero. */
  function Duration(x: real): int { if x >= 0.0 then x.Floor else -((-x).Floor) }

  /** A random number in [0, 1) for each job. */
  type Draws = f: nat -> real | forall n :: 0.0 <= f(n) < 1.0 witness (n: nat) => 0.0

  /** The middle of the job's slot, moved by the jitter. */
  function Moment(i: nat, step: real, jitterFraction: real, draws: Draws): real {
    (i as real + 0.5) * step + (draws(i) * 2.0 - 1.0) * step * jitterFraction
  }

  function Offset(i: nat, n: nat, ramp: int, jitterFraction: real, draws: Draws): int
    requires n > 0
  {
    var at := Duration(Moment(i, ramp as real / n as real, jitterFraction, draws));
    var late := if at < 0 then 0 else at;
    if late >= ramp then ramp - 1 else late
  }

  function InsertStable(x: Scheduled, s: seq<Scheduled>): seq<Scheduled> {
    if s == [] || x.at <= s[0].at then [x] + s else [s[0]] + InsertStable(x, s[1..])
  }

  /** sort.SliceStable by launch time. */
  function SortedPlan(s: seq<Scheduled>): seq<Scheduled> {
    if s == [] then [] else InsertStable(s[0], SortedPlan(s[1..]))
  }

  function Unsorted(jobs: seq<Job>, ramp: int, jitterFraction: real, draws: Draws): (r: seq<Scheduled>)
    ensures |r| == |jobs|
  {
    seq(|jobs|, i requires 0 <= i < |jobs| => Scheduled(jobs[i], Offset(i, |jobs|, ramp, jitterFraction, draws)))
  }

  method Plan(jobs: seq<Job>, ramp: int, jitterFraction: real, draws: Draws) returns (plan: seq<Scheduled>)
    ensures plan == SortedPlan(Unsorted(jobs, ramp, jitterFraction, draws))
  {
    hide SortedPlan, Moment, Duration;
    plan := [];
    var n := |jobs|;
    for i := 0 to n
      invariant plan == Unsorted(jobs, ramp, jitterFraction, draws)[..i]
    {
      var step := ramp as real / n as real;
      var at := Duration(Moment(i, step, jitterFraction, draws));
      if at < 0 {
        at := 0;
      }
      if at >= ramp {
        at := ramp - 1;
      }
      plan := plan + [Scheduled(jobs[i], at)];
      assert Scheduled(jobs[i], at) == Unsorted(jobs, ramp, jitterFraction, draws)[i];
    }
    assert plan == Unsorted(jobs, ramp, jitterFraction, draws)[..n] == Unsorted(jobs, ramp, jitterFraction, draws);
    plan := SortedPlan(plan);
  }

  // ---- Every job stays in its slot ----

  lemma Product(a: real, b: real)
    requires a >= 0.0 && b >= 0.0
    ensures a * b >= 0.0
    ensures a > 0.0 && b > 0.0 ==> a * b > 0.0
  {
  }

  lemma Distribute(a: real, b: real, c: real)
    ensures (a + b) * c == a * c + b * c
  {
  }

  lemma Ascends(a: real, b: real, c: real)
    requires a <= b && c >= 0.0
    ensures a * c <= b * c
  {
    Product(b - a, c);
    Distribute(b - a, a, c);
  }

  /** Where slot `i` begins; the next slot begins where it ends. */
  function SlotStart(i: nat, step: real): real { i as real * step }

  lemma SlotsAscend(i: nat, j: nat, step: real)
    requires i <= j && step >= 0.0
    ensures 0.0 <= SlotStart(i, step) <= SlotStart(j, step)
  {
    Product(i as real, step);
    Ascends(i as real, j as real, step);
  }

  lemma NextSlot(i: nat, step: real)
    ensures SlotStart(i + 1, step) == SlotStart(i, step) + step
  {
    Distribute(i as real, 1.0, step);
  }

  /** A jitter of at most half a slot either way, the upper end excluded. */
  lemma JitterBounds(j: real, width: real, half: real)
    requires -1.0 <= j < 1.0 && 0.0 <= width <= half && half > 0.0
    ensures -half <= j * width < half
  {
    if j >= 0.0 {
      Product(j, width);
      Ascends(width, half, j);
      Shortened(j, half);
      Commute(j, width);
      Commute(j, half);
    } else {
      Narrow(-j, width, half);
      Negated(j, width);
    }
  }

  lemma Narrow(k: real, width: real, half: real)
    requires 0.0 < k <= 1.0 && 0.0 <= width <= half
    ensures 0.0 <= k * width <= half
  {
    Product(k, width);
    Ascends(width, half, k);
    Ascends(k, 1.0, half);
    Commute(k, width);
    Commute(k, half);
    assert 1.0 * half == half;
  }

  lemma Shortened(j: real, half: real)
    requires 0.0 <= j < 1.0 && half > 0.0
    ensures j * half < half
  {
    Product(1.0 - j, half);
    Distribute(1.0 - j, j, half);
  }

  lemma Commute(a: real, b: real)
    ensures a * b == b * a
  {
  }

  lemma Negated(a: real, b: real)
    ensures -a * b == -(a * b)
  {
  }

  lemma MomentInSlot(i: nat, step: real, jitterFraction: real, draws: Draws)
    requires step > 0.0 && 0.0 <= jitterFraction <= 0.5
    ensures SlotStart(i, step) <= Moment(i, step, jitterFraction, draws) < SlotStart(i + 1, step)
  {
    hide SlotStart;
    var j := draws(i) * 2.0 - 1.0;
    var half := step * 0.5;
    Middle(i, step);
    NextSlot(i, step);
    Product(step, jitterFraction);
    Product(step, 0.5 - jitterFraction);
    Distribute(jitterFraction, 0.5 - jitterFraction, step);
    JitterBounds(j, step * jitterFraction, half);
    Reassociate(j, step, jitterFraction);
  }

  lemma Middle(i: nat, step: real)
    ensures (i as real + 0.5) * step == SlotStart(i, step) + step * 0.5
  {
    Distribute(i as real, 0.5, step);
  }

  lemma Reassociate(a: real, b: real, c: real)
    ensures a * b * c == a * (b * c)
  {
  }

  lemma FloorInSlot(x: real, low: real, high: real, ramp: int)
    requires 0.0 <= low <= x < high <= ramp as real
    ensures 0 <= Duration(x) < ramp && Duration(x) == x.Floor
  {
  }

  /** The slots divide the ramp. */
  lemma StepOf(n: nat, ramp: int)
    requires n > 0 && ramp >= 1
    ensures var step := ramp as real / n as real; step > 0.0 && SlotStart(n, step) == ramp as real
  {
    var step := ramp as real / n as real;
    assert n as real * step == ramp as real;
    if step <= 0.0 {
      Product(n as real, -step);
      Negated(step, n as real);
      Commute(n as real, -step);
      Commute(n as real, step);
    }
  }

  /** The offset of job `i` is its moment rounded down, inside its own slot; clamping changes nothing. */
  lemma OffsetInSlot(i: nat, n: nat, ramp: int, jitterFraction: real, draws: Draws)
    requires i < n && ramp >= 1 && 0.0 <= jitterFraction <= 0.5
    ensures var step, at := ramp as real / n as real, Offset(i, n, ramp, jitterFraction, draws);
            && 0 <= at < ramp && at == Moment(i, step, jitterFraction, draws).Floor
            && SlotStart(i, step) <= Moment(i, step, jitterFraction, draws) < SlotStart(i + 1, step)
  {
    hide Moment, SlotStart, Duration;
    var step := ramp as real / n as real;
    StepOf(n, ramp);
    SlotsAscend(0, i, step);
    SlotsAscend(i + 1, n, step);
    MomentInSlot(i, step, jitterFraction, draws);
    FloorInSlot(Moment(i, step, jitterFraction, draws), SlotStart(i, step), SlotStart(i + 1, step), ramp);
  }

  lemma FloorsRise(x: real, y: real)
    requires x <= y
    ensures x.Floor <= y.Floor
  {
  }

  lemma OffsetsRise(i: nat, j: nat, n: nat, ramp: int, jitterFraction: real, draws: Draws)
    requires i < j < n && ramp >= 1 && 0.0 <= jitterFraction <= 0.5
    ensures Offset(i, n, ramp, jitterFraction, draws) <= Offset(j, n, ramp, jitterFraction, draws)
  {
    hide Moment, Offset, SlotStart;
    var step := ramp as real / n as real;
    StepOf(n, ramp);
    OffsetInSlot(i, n, ramp, jitterFraction, draws);
    OffsetInSlot(j, n, ramp, jitterFraction, draws);
    SlotsAscend(i + 1, j, step);
    FloorsRise(Moment(i, step, jitterFraction, draws), Moment(j, step, jitterFraction, draws));
  }

  lemma {:induction false} SortedAlready(s: seq<Scheduled>)
    requires forall i, j :: 0 <= i < j < |s| ==> s[i].at <= s[j].at
    ensures SortedPlan(s) == s
  {
    if s != [] {
      SortedAlready(s[1..]);
    }
  }

  /** For a positive ramp and a jitter of at most half a slot, whatever is drawn: the plan keeps the order
      of the jobs and launches each within the ramp, in its own slot. */
  lemma PlanKeepsOrder(jobs: seq<Job>, ramp: int, jitterFraction: real, draws: Draws)
    requires ramp >= 1 && 0.0 <= jitterFraction <= 0.5
    ensures var plan := SortedPlan(Unsorted(jobs, ramp, jitterFraction, draws));
            && |plan| == |jobs|
            && (forall i :: 0 <= i < |plan| ==> plan[i].job == jobs[i] && 0 <= plan[i].at < ramp)
            && (forall i, j :: 0 <= i < j < |plan| ==> plan[i].at <= plan[j].at)
  {
    hide Offset, SortedPlan;
    var s := Unsorted(jobs, ramp, jitterFraction, draws);
    forall i, j | 0 <= i < j < |s| ensures s[i].at <= s[j].at {
      OffsetsRise(i, j, |jobs|, ramp, jitterFraction, draws);
    }
    forall i | 0 <= i < |s| ensures 0 <= s[i].at < ramp {
      OffsetInSlot(i, |jobs|, ramp, jitterFraction, draws);
    }
    SortedAlready(s);
  }

  // ---- For every jitter ----

  /** The moment as one fraction of the ramp: of 2n halves of slots, the middle of slot `i` is 2i + 1 halves on, and
      the jitter moves it by up to its fraction of a slot either way. */
  lemma MomentExactly(i: nat, n: nat, ramp: int, jitterFraction: real, draws: Draws)
    requires n > 0
    ensures 2.0 * n as real * Moment(i, ramp as real / n as real, jitterFraction, draws)
         == (2.0 * i as real + 1.0 + 2.0 * jitterFraction * (2.0 * draws(i) - 1.0)) * ramp as real
  {
    var step, d, f := ramp as real / n as real, draws(i) * 2.0 - 1.0, jitterFraction;
    assert n as real * step == ramp as real;
    Reassociate(d, step, f);
    Commute(step, f);
    Reassociate(d, f, step);
    Distribute(i as real + 0.5, d * f, step);
    Scaled(n as real, i as real + 0.5 + d * f, step, ramp as real);
    Commute(d, f);
  }

  lemma Scaled(n: real, x: real, step: real, ramp: real)
    requires n * step == ramp
    ensures 2.0 * n * (x * step) == (2.0 * x) * ramp
  {
    Reassociate(n, x, step);
    Commute(n, x);
    Reassociate(x, n, step);
    assert n * (x * step) == x * ramp;
    Reassociate(2.0, n, x * step);
    Reassociate(2.0, x, ramp);
  }

  /** The offset is that moment without its fraction, kept inside the ramp. */
  lemma OffsetExactly(i: nat, n: nat, ramp: int, jitterFraction: real, draws: Draws)
    requires n > 0
    ensures var at, x := Offset(i, n, ramp, jitterFraction, draws),
              Moment(i, ramp as real / n as real, jitterFraction, draws);
            if ramp <= 0 then at == ramp - 1
            else if x < 1.0 then at == 0
            else if x >= ramp as real then at == ramp - 1
            else at as real <= x < at as real + 1.0
  {
    hide Moment;
  }

  predicate Rising(s: seq<Scheduled>) { forall i, j :: 0 <= i < j < |s| ==> s[i].at <= s[j].at }

  /** The launches of one time, in their order. */
  function LaunchedAt(s: seq<Scheduled>, at: int): seq<Scheduled> {
    if s == [] then [] else (if s[0].at == at then [s[0]] else []) + LaunchedAt(s[1..], at)
  }

  lemma {:induction false} InsertKeeps(x: Scheduled, s: seq<Scheduled>)
    ensures multiset(InsertStable(x, s)) == multiset(s) + multiset{x}
  {
    if s != [] && x.at > s[0].at {
      InsertKeeps(x, s[1..]);
      assert s == [s[0]] + s[1..];
    }
  }

  lemma {:induction false} InsertRises(x: Scheduled, s: seq<Scheduled>)
    requires Rising(s)
    ensures Rising(InsertStable(x, s))
  {
    if s != [] && x.at > s[0].at {
      var rest := InsertStable(x, s[1..]);
      InsertRises(x, s[1..]);
      InsertKeeps(x, s[1..]);
      hide InsertStable;
      forall j | 0 <= j < |rest| ensures s[0].at <= rest[j].at {
        assert rest[j] in multiset(rest);
        assert rest[j] == x || rest[j] in s[1..];
      }
      FirstRises(s[0], rest);
    }
  }

  lemma FirstRises(x: Scheduled, s: seq<Scheduled>)
    requires Rising(s) && forall j :: 0 <= j < |s| ==> x.at <= s[j].at
    ensures Rising([x] + s)
  {
  }

  lemma {:induction false} InsertLaunches(x: Scheduled, s: seq<Scheduled>, at: int)
    ensures LaunchedAt(InsertStable(x, s), at) == (if x.at == at then [x] else []) + LaunchedAt(s, at)
  {
    hide LaunchedAt;
    var r := InsertStable(x, s);
    LaunchedStep(r, at);
    if s == [] || x.at <= s[0].at {
      assert r[1..] == s;
    } else {
      InsertLaunches(x, s[1..], at);
      LaunchedStep(s, at);
      assert r[1..] == InsertStable(x, s[1..]);
      assert LaunchedAt(r, at) == (if s[0].at == at then [s[0]] else []) + LaunchedAt(r[1..], at);
    }
  }

  /** For every jitter: the plan launches the same jobs by rising offsets, those of one offset in their order. */
  lemma {:induction false} PlanSorted(s: seq<Scheduled>, at: int)
    ensures var r := SortedPlan(s);
            Rising(r) && multiset(r) == multiset(s) && LaunchedAt(r, at) == LaunchedAt(s, at)
  {
    hide InsertStable, Rising, LaunchedAt;
    LaunchedStep(s, at);
    if s != [] {
      PlanSorted(s[1..], at);
      InsertRises(s[0], SortedPlan(s[1..]));
      InsertKeeps(s[0], SortedPlan(s[1..]));
      InsertLaunches(s[0], SortedPlan(s[1..]), at);
      assert s == [s[0]] + s[1..];
    }
  }

  lemma LaunchedStep(s: seq<Scheduled>, at: int)
    ensures s == [] ==> LaunchedAt(s, at) == [] && Rising(s)
    ensures s != [] ==> LaunchedAt(s, at) == (if s[0].at == at then [s[0]] else []) + LaunchedAt(s[1..], at)
  {
  }
}
