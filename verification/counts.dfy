/** The counters of a report and the check that they can describe a run. */
module Accounting {
  import opened Sums

  datatype Counts = Counts(
    planned: int, used: int, duplicates: int, unused: int, started: int, startFailures: int,
    runtimeFailures: int, maintained: int, retries: int, retrySuccesses: int, retriesExhausted: int)

  const ZERO := Counts(0, 0, 0, 0, 0, 0, 0, 0, 0, 0, 0)
  const COUNTS := Monoid(ZERO, AddCounts)
  const INTS := Monoid(0, (a: int, b: int) => a + b)

  function AddCounts(a: Counts, b: Counts): Counts {
    Counts(a.planned + b.planned, a.used + b.used, a.duplicates + b.duplicates, a.unused + b.unused,
           a.started + b.started, a.startFailures + b.startFailures, a.runtimeFailures + b.runtimeFailures,
           a.maintained + b.maintained, a.retries + b.retries, a.retrySuccesses + b.retrySuccesses,
           a.retriesExhausted + b.retriesExhausted)
  }

  predicate ValidCounts(c: Counts) {
    && 0 <= c.used <= c.planned && 0 <= c.unused && 0 <= c.duplicates
    && 0 <= c.started && 0 <= c.startFailures && c.started + c.startFailures == c.used
    && 0 <= c.runtimeFailures <= c.started
    && 0 <= c.maintained == c.started - c.runtimeFailures
    && 0 <= c.retrySuccesses <= c.retries && 0 <= c.retriesExhausted <= c.retries
  }

  /** What Snapshot derives: maintained and unused are computed from the other counters. */
  function Derived(c: Counts): Counts {
    c.(maintained := c.started - c.runtimeFailures, unused := c.planned - c.used)
  }

  lemma CountsCommutative()
    ensures Commutative(COUNTS)
  {
  }

  lemma IntsCommutative()
    ensures Commutative(INTS)
  {
  }
}
