/** What one job contributes to the tracker's counters and evidence and to the scheduler's own counts. */
module Accounts {
  import opened Sums
  import opened Ledgers
  import opened Accounting
  import opened Evidence

  datatype Account = Account(counts: Counts, facts: Facts, startNotes: int, runtimeNotes: int)

  const NOTHING_DONE := Account(ZERO, NO_FACTS, 0, 0)
  const ACCOUNTS := Monoid(NOTHING_DONE, AddAccounts)

  function AddAccounts(a: Account, b: Account): Account {
    Account(AddCounts(a.counts, b.counts), MergeFacts(a.facts, b.facts), a.startNotes + b.startNotes,
        a.runtimeNotes + b.runtimeNotes)
  }

  function CountsPart(a: Account): Counts { a.counts }

  function FactsPart(a: Account): Facts { a.facts }

  function DerivedPart(a: Account): Counts { Derived(a.counts) }

  function PlannedPart(a: Account): int { a.counts.planned }

  lemma AccountsCommutative()
    ensures Commutative(ACCOUNTS)
  {
    hide AddCounts, MergeFacts;
    CountsCommutative();
    FactsCommutative();
    forall a, b ensures AddAccounts(a, b) == AddAccounts(b, a) {
      assert COUNTS.plus(a.counts, b.counts) == COUNTS.plus(b.counts, a.counts);
      assert FACTS.plus(a.facts, b.facts) == FACTS.plus(b.facts, a.facts);
    }
    forall a, b, c ensures AddAccounts(AddAccounts(a, b), c) == AddAccounts(a, AddAccounts(b, c)) {
      assert COUNTS.plus(COUNTS.plus(a.counts, b.counts), c.counts) ==
               COUNTS.plus(a.counts, COUNTS.plus(b.counts, c.counts));
      assert FACTS.plus(FACTS.plus(a.facts, b.facts), c.facts) == FACTS.plus(a.facts, FACTS.plus(b.facts, c.facts));
    }
    forall a ensures AddAccounts(NOTHING_DONE, a) == a {
      assert COUNTS.plus(COUNTS.zero, a.counts) == a.counts;
      assert FACTS.plus(FACTS.zero, a.facts) == a.facts;
    }
  }

  lemma CountsPartIsSum()
    ensures Homomorphism(ACCOUNTS, COUNTS, CountsPart)
  {
    hide AddCounts, MergeFacts;
  }

  lemma FactsPartIsSum()
    ensures Homomorphism(ACCOUNTS, FACTS, FactsPart)
  {
    hide AddCounts, MergeFacts;
  }

  lemma DerivedAdds(a: Counts, b: Counts)
    ensures Derived(AddCounts(a, b)) == AddCounts(Derived(a), Derived(b))
  {
  }

  lemma DerivedPartIsSum()
    ensures Homomorphism(ACCOUNTS, COUNTS, DerivedPart)
  {
    hide MergeFacts, AddCounts, Derived;
    forall a: Account, b: Account ensures DerivedPart(AddAccounts(a, b)) == AddCounts(DerivedPart(a), DerivedPart(b)) {
      DerivedAdds(a.counts, b.counts);
    }
    NothingDerived();
  }

  lemma NothingDerived()
    ensures Derived(ZERO) == ZERO
  {
  }

  lemma PlannedPartIsSum()
    ensures Homomorphism(ACCOUNTS, INTS, PlannedPart)
  {
    hide MergeFacts;
    forall a: Account, b: Account ensures PlannedPart(AddAccounts(a, b)) == PlannedPart(a) + PlannedPart(b) {
    }
  }
}
