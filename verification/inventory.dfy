/** Importing the desired assets into the remote inventory, in batches, resumable after any interruption. */
module Inventory {
  import opened Wrappers

  datatype Asset = Asset(name: string, marker: string, ip: string, protocol: string, dbType: string, port: int)
  datatype RemoteAsset = RemoteAsset(
    id: string, name: string, ip: string, description: string, protocol: string, dbType: string, port: int,
    accountCount: int, defaultAccountID: string)

  function NormalizeDBType(value: string): string { if value == "-" then "" else value }

  predicate RemoteMatches(wanted: Asset, found: RemoteAsset) {
    && found.description == wanted.marker && found.ip == wanted.ip && found.protocol == wanted.protocol
    && NormalizeDBType(found.dbType) == NormalizeDBType(wanted.dbType) && found.port == wanted.port
    && found.id != "" && found.accountCount == 1 && found.defaultAccountID != ""
  }

  // ---- Reconciliation ----

  function Named(remote: seq<RemoteAsset>, name: string): seq<RemoteAsset> {
    if remote == [] then []
    else
      var n := |remote| - 1;
      Named(remote[..n], name) + if remote[n].name == name then [remote[n]] else []
  }

  predicate Assigned(remote: seq<RemoteAsset>, ip: string) {
    exists k :: 0 <= k < |remote| && remote[k].ip == ip
  }

  datatype Finding = Exact | Missing | Conflict

  function Find(remote: seq<RemoteAsset>, wanted: Asset): Finding {
    var matches := Named(remote, wanted.name);
    if |matches| > 1 then Conflict
    else if |matches| == 1 then if RemoteMatches(wanted, matches[0]) then Exact else Conflict
    else if Assigned(remote, wanted.ip) then Conflict
    else Missing
  }

  /** The record has the name. */
  predicate NamedAt(remote: seq<RemoteAsset>, k: int, name: string) {
    0 <= k < |remote| && remote[k].name == name
  }

  /** The record is the one the asset would be imported as, with one account of its own. */
  predicate SameRecord(wanted: Asset, found: RemoteAsset) {
    && found.description == wanted.marker && found.ip == wanted.ip && found.port == wanted.port
    && found.protocol == wanted.protocol
    && (found.dbType == wanted.dbType || (found.dbType in {"", "-"} && wanted.dbType in {"", "-"}))
    && found.id != "" && found.accountCount == 1 && found.defaultAccountID != ""
  }

  /** One record of the name gives that record, two give at least two, and none gives none. */
  lemma {:induction false} NamedAt1(remote: seq<RemoteAsset>, name: string, k: int)
    requires NamedAt(remote, k, name) && forall j :: NamedAt(remote, j, name) ==> j == k
    ensures Named(remote, name) == [remote[k]]
  {
    hide Named;
    var n := |remote| - 1;
    NamedStep(remote, name);
    assert forall j :: NamedAt(remote[..n], j, name) ==> NamedAt(remote, j, name) && j != n;
    if k == n {
      NamedNone(remote[..n], name);
    } else {
      assert NamedAt(remote[..n], k, name);
      assert !NamedAt(remote, n, name);
      NamedAt1(remote[..n], name, k);
    }
  }

  lemma NamedStep(remote: seq<RemoteAsset>, name: string)
    ensures remote == [] ==> Named(remote, name) == []
    ensures remote != [] ==>
              var n := |remote| - 1;
              Named(remote, name) == Named(remote[..n], name) + if NamedAt(remote, n, name) then [remote[n]] else []
  {
  }

  lemma {:induction false} NamedNone(remote: seq<RemoteAsset>, name: string)
    requires forall j :: !NamedAt(remote, j, name)
    ensures Named(remote, name) == []
  {
    NamedStep(remote, name);
    if remote != [] {
      var n := |remote| - 1;
      assert forall j :: NamedAt(remote[..n], j, name) ==> NamedAt(remote, j, name);
      NamedNone(remote[..n], name);
    }
  }

  lemma {:induction false} NamedMany(remote: seq<RemoteAsset>, name: string, j: int, k: int)
    requires NamedAt(remote, j, name) && NamedAt(remote, k, name) && j <= k
    ensures |Named(remote, name)| >= if j < k then 2 else 1
  {
    hide Named;
    var n := |remote| - 1;
    NamedStep(remote, name);
    if k < n {
      NamedMany(remote[..n], name, j, k);
    } else if j < n {
      NamedMany(remote[..n], name, j, j);
    }
  }

  lemma MatchIsSame(wanted: Asset, found: RemoteAsset)
    ensures RemoteMatches(wanted, found) <==> SameRecord(wanted, found)
  {
  }

  /** An asset is there if exactly one record has its name, and that one is the same; it is missing if no record has
      its name or its address; and anything else is a conflict. */
  lemma FindExactly(remote: seq<RemoteAsset>, wanted: Asset)
    ensures Find(remote, wanted) == Exact <==>
              exists k :: NamedAt(remote, k, wanted.name) && SameRecord(wanted, remote[k])
                          && forall j :: NamedAt(remote, j, wanted.name) ==> j == k
    ensures Find(remote, wanted) == Missing <==>
              forall k :: 0 <= k < |remote| ==> remote[k].name != wanted.name && remote[k].ip != wanted.ip
  {
    hide Named, RemoteMatches, SameRecord;
    var name := wanted.name;
    if k :| NamedAt(remote, k, name) {
      assert remote[k].name == name;
      NamedMany(remote, name, k, k);
      if j :| NamedAt(remote, j, name) && j != k {
        NamedMany(remote, name, if j < k then j else k, if j < k then k else j);
      } else {
        NamedAt1(remote, name, k);
        MatchIsSame(wanted, remote[k]);
      }
    } else {
      NamedNone(remote, name);
      assert forall k :: 0 <= k < |remote| ==> NamedAt(remote, k, name) || remote[k].name != name;
    }
  }

  predicate Compatible(desired: seq<Asset>, remote: seq<RemoteAsset>) {
    forall a :: a in desired ==> Find(remote, a) != Conflict
  }

  function MissingOf(desired: seq<Asset>, remote: seq<RemoteAsset>): seq<Asset> {
    if desired == [] then []
    else
      var n := |desired| - 1;
      MissingOf(desired[..n], remote) + if Find(remote, desired[n]) == Missing then [desired[n]] else []
  }

  function ExactOf(desired: seq<Asset>, remote: seq<RemoteAsset>): nat {
    if desired == [] then 0
    else
      var n := |desired| - 1;
      ExactOf(desired[..n], remote) + if Find(remote, desired[n]) == Exact then 1 else 0
  }

  /** The number of matching assets in front of the first one that conflicts. */
  ghost predicate StopsAt(desired: seq<Asset>, remote: seq<RemoteAsset>, exact: nat) {
    exists k :: 0 <= k < |desired| && Find(remote, desired[k]) == Conflict
                && Compatible(desired[..k], remote) && exact == ExactOf(desired[..k], remote)
  }

  /** The remote records by name and by address. */
  method Index(existing: seq<RemoteAsset>) returns (byName: map<string, seq<RemoteAsset>>,
               byIP: map<string, seq<RemoteAsset>>)
    ensures forall name :: (if name in byName then byName[name] else []) == Named(existing, name)
    ensures forall ip :: (ip in byIP && byIP[ip] != []) <==> Assigned(existing, ip)
  {
    hide Named, Assigned;
    byName, byIP := map[], map[];
    var n := 0;
    NothingIndexed(existing);
    while n < |existing|
      invariant n <= |existing|
      invariant forall name :: (if name in byName then byName[name] else []) == Named(existing[..n], name)
      invariant forall ip :: (ip in byIP && byIP[ip] != []) <==> Assigned(existing[..n], ip)
    {
      var a := existing[n];
      IndexNext(existing, n);
      byName := byName[a.name := (if a.name in byName then byName[a.name] else []) + [a]];
      byIP := byIP[a.ip := (if a.ip in byIP then byIP[a.ip] else []) + [a]];
      n := n + 1;
    }
    assert existing[..n] == existing;
  }

  lemma NothingIndexed(existing: seq<RemoteAsset>)
    ensures forall name :: Named(existing[..0], name) == []
    ensures forall ip :: !Assigned(existing[..0], ip)
  {
  }

  /** Which of the desired assets are missing; refused if any of them conflicts with what exists. */
  method Reconcile(desired: seq<Asset>, existing: seq<RemoteAsset>) returns (ok: bool, missing: seq<Asset>, exact: nat)
    ensures ok <==> Compatible(desired, existing)
    ensures ok ==> missing == MissingOf(desired, existing) && exact == ExactOf(desired, existing)
    ensures ok ==> exact + |missing| == |desired|
    ensures !ok ==> missing == [] && StopsAt(desired, existing, exact)
  {
    hide RemoteMatches, Named, Assigned, MissingOf, ExactOf, Compatible, StopsAt;
    var byName, byIP := Index(existing);
    NothingSurveyed(desired, existing);
    missing, exact := [], 0;
    var n := 0;
    while n < |desired|
      invariant n <= |desired| && missing == MissingOf(desired[..n], existing) && exact + |missing| == n
      invariant exact == ExactOf(desired[..n], existing) && Compatible(desired[..n], existing)
    {
      var wanted := desired[n];
      SurveyNext(desired, existing, n);
      var matches := if wanted.name in byName then byName[wanted.name] else [];
      assert matches == Named(existing, wanted.name);
      n := n + 1;
      if |matches| > 1 {
        return false, [], exact;
      }
      if |matches| == 1 {
        if !RemoteMatches(wanted, matches[0]) {
          return false, [], exact;
        }
        exact := exact + 1;
        continue;
      }
      if wanted.ip in byIP && byIP[wanted.ip] != [] {
        return false, [], exact;
      }
      missing := missing + [wanted];
    }
    assert desired[..n] == desired;
    ok := true;
  }

  lemma NothingSurveyed(desired: seq<Asset>, existing: seq<RemoteAsset>)
    ensures var none := desired[..0];
            MissingOf(none, existing) == [] && ExactOf(none, existing) == 0 && Compatible(none, existing)
  {
  }

  lemma SurveyNext(desired: seq<Asset>, existing: seq<RemoteAsset>, n: nat)
    requires n < |desired| && Compatible(desired[..n], existing)
    ensures var finding, front, more := Find(existing, desired[n]), desired[..n], desired[..n + 1];
            && MissingOf(more, existing)
               == MissingOf(front, existing) + (if finding == Missing then [desired[n]] else [])
            && ExactOf(more, existing) == ExactOf(front, existing) + (if finding == Exact then 1 else 0)
            && if finding != Conflict then Compatible(more, existing)
               else !Compatible(desired, existing) && StopsAt(desired, existing, ExactOf(front, existing))
  {
    hide Find;
    assert desired[..n + 1][..n] == desired[..n];
    assert desired[n] in desired;
  }

  lemma IndexNext(existing: seq<RemoteAsset>, n: nat)
    requires n < |existing|
    ensures forall name :: Named(existing[..n + 1], name) == Named(existing[..n], name) + if existing[n].name ==
              name then [existing[n]] else []
    ensures forall ip :: Assigned(existing[..n + 1], ip) <==> Assigned(existing[..n], ip) || existing[n].ip == ip
  {
    assert existing[..n + 1][..n] == existing[..n];
    forall ip ensures Assigned(existing[..n + 1], ip) <==> Assigned(existing[..n], ip) || existing[n].ip == ip {
      if existing[n].ip == ip {
        assert existing[..n + 1][n].ip == ip;
      }
      if Assigned(existing[..n], ip) {
        var k :| 0 <= k < n && existing[..n][k].ip == ip;
        assert existing[..n + 1][k].ip == ip;
      }
    }
  }

  // ---- The remote inventory ----

  predicate DistinctNames(assets: seq<Asset>) {
    forall i, j :: 0 <= i < j < |assets| ==> assets[i].name != assets[j].name
  }

  predicate DistinctIPs(assets: seq<Asset>) {
    forall i, j :: 0 <= i < j < |assets| ==> assets[i].ip != assets[j].ip
  }

  predicate Wants(batch: seq<Asset>, name: string) {
    exists k :: 0 <= k < |batch| && batch[k].name == name
  }

  /** Records an import has created: of some assets of the batch, each at most once. */
  predicate Created(batch: seq<Asset>, added: seq<RemoteAsset>, faithful: bool) {
    && (forall i, j :: 0 <= i < j < |added| ==> added[i].name != added[j].name)
    && (forall i :: 0 <= i < |added| ==> Wanted(batch, added[i], faithful))
  }

  predicate Wanted(batch: seq<Asset>, record: RemoteAsset, faithful: bool) {
    exists k :: 0 <= k < |batch| && batch[k].name == record.name && batch[k].ip == record.ip
                && (faithful ==> RemoteMatches(batch[k], record))
  }

  predicate Has(added: seq<RemoteAsset>, name: string) {
    exists i :: 0 <= i < |added| && added[i].name == name
  }

  lemma HasMore(added: seq<RemoteAsset>, record: RemoteAsset)
    ensures forall name :: Has(added + [record], name) <==> Has(added, name) || record.name == name
  {
    var more := added + [record];
    assert more[|added|] == record;
    assert forall i :: 0 <= i < |added| ==> more[i] == added[i];
  }

  predicate Complete(batch: seq<Asset>, added: seq<RemoteAsset>) {
    forall a :: a in batch ==> Has(added, a.name)
  }

  /** Distinct names, none of them present: what no import should lack. */
  predicate Importable(remote: seq<RemoteAsset>, batch: seq<Asset>) {
    DistinctNames(batch) && forall a :: a in batch ==> Named(remote, a.name) == []
  }

  /** The inventory behind the API. Every call may fail, an import also half-way; a faithful inventory
      creates records that match, and all of them when it reports success. It keeps a record of the imports asked
      of it and of the number of failed calls; `clashed` says that some import has named an asset twice or one
      that was present. */
  class InventoryAPI {
    const faithful: bool
    var remote: seq<RemoteAsset>
    ghost var clashed: bool
    ghost var batches: seq<seq<Asset>>
    ghost var failures: nat

    constructor (faithful: bool, remote: seq<RemoteAsset>)
      ensures this.faithful == faithful && this.remote == remote && !clashed && batches == [] && failures == 0
    {
      this.faithful, this.remote := faithful, remote;
      clashed, batches, failures := false, [], 0;
    }

    method ListAssets() returns (r: Option<seq<RemoteAsset>>)
      modifies this`failures
      ensures r.Some? ==> r.value == remote
      ensures failures == old(failures) + if r.None? then 1 else 0
    {
      var fails: bool := *;
      if fails {
        failures := failures + 1;
        return None;
      }
      return Some(remote);
    }

    method ImportAssets(batch: seq<Asset>) returns (ok: bool, ghost added: seq<RemoteAsset>)
      modifies this
      ensures clashed == (old(clashed) || !Importable(old(remote), batch))
      ensures remote == old(remote) + added && (DistinctNames(batch) ==> Created(batch, added, faithful))
      ensures faithful && ok ==> Complete(batch, added)
      ensures batches == old(batches) + [batch] && failures == old(failures) + if ok then 0 else 1
    {
      hide Named, RemoteMatches;
      clashed := clashed || !Importable(remote, batch);
      var records: seq<RemoteAsset> := [];
      var n := 0;
      var all := true;
      while n < |batch|
        invariant n <= |batch| && Begun(batch, n, records, faithful) && remote == old(remote)
        invariant clashed == (old(clashed) || !Importable(old(remote), batch))
        invariant batches == old(batches) && failures == old(failures)
        invariant all ==> forall k :: 0 <= k < n ==> Has(records, batch[k].name)
      {
        var creates: bool := *;
        var record: RemoteAsset := *;
        BegunMore(batch, n, records, record, faithful);
        if creates && record.name == batch[n].name && record.ip == batch[n].ip && (faithful ==>
            RemoteMatches(batch[n], record)) {
          HasMore(records, record);
          records := records + [record];
        } else {
          all := false;
        }
        n := n + 1;
      }
      remote := remote + records;
      added := records;
      ok := *;
      if faithful && !all {
        ok := false;
      }
      batches := batches + [batch];
      failures := failures + if ok then 0 else 1;
      assert all ==> Complete(batch, added);
    }
  }

  /** Some of the first `n` assets of the batch have been created, in order. */
  ghost predicate Begun(batch: seq<Asset>, n: nat, records: seq<RemoteAsset>, faithful: bool)
    requires n <= |batch|
  {
    && (DistinctNames(batch) ==> Created(batch, records, faithful))
    && (forall i :: 0 <= i < |records| ==> Wants(batch[..n], records[i].name))
  }

  lemma WantsMore(batch: seq<Asset>, n: nat, name: string)
    requires n < |batch|
    ensures Wants(batch[..n], name) ==> Wants(batch[..n + 1], name)
    ensures Wants(batch[..n + 1], batch[n].name)
    ensures Wants(batch[..n], name) && DistinctNames(batch) ==> name != batch[n].name
  {
    assert batch[..n + 1][n] == batch[n];
    assert forall k :: 0 <= k < n ==> batch[..n + 1][k] == batch[..n][k] == batch[k];
  }

  lemma BegunMore(batch: seq<Asset>, n: nat, records: seq<RemoteAsset>, record: RemoteAsset, faithful: bool)
    requires n < |batch| && Begun(batch, n, records, faithful)
    ensures Begun(batch, n + 1, records, faithful)
    ensures record.name == batch[n].name && record.ip == batch[n].ip && (faithful ==>
              RemoteMatches(batch[n], record)) ==>
              Begun(batch, n + 1, records + [record], faithful)
  {
    hide RemoteMatches, DistinctNames, Wants, Wanted;
    forall i | 0 <= i < |records|
      ensures Wants(batch[..n + 1], records[i].name) && (DistinctNames(batch) ==> records[i].name != batch[n].name)
    {
      WantsMore(batch, n, records[i].name);
    }
    WantsMore(batch, n, batch[n].name);
    if record.name == batch[n].name && record.ip == batch[n].ip && (faithful ==> RemoteMatches(batch[n], record)) {
      WantedNow(batch, n, record, faithful);
    }
  }

  lemma WantedNow(batch: seq<Asset>, n: nat, record: RemoteAsset, faithful: bool)
    requires n < |batch| && record.name == batch[n].name && record.ip == batch[n].ip
    requires faithful ==> RemoteMatches(batch[n], record)
    ensures Wanted(batch, record, faithful)
  {
    hide RemoteMatches;
  }

  // ---- What an import changes ----

  lemma {:induction false} NamedConcat(a: seq<RemoteAsset>, b: seq<RemoteAsset>, name: string)
    ensures Named(a + b, name) == Named(a, name) + Named(b, name)
  {
    if b == [] {
      assert a + b == a;
    } else {
      assert (a + b)[..|a + b| - 1] == a + b[..|b| - 1];
      NamedConcat(a, b[..|b| - 1], name);
    }
  }

  lemma {:induction false} NamedMembers(s: seq<RemoteAsset>, name: string)
    ensures forall r :: r in Named(s, name) <==> r in s && r.name == name
    ensures Named(s, name) == [] <==> forall r :: r in s ==> r.name != name
  {
    if s != [] {
      NamedMembers(s[..|s| - 1], name);
    }
  }

  lemma {:induction false} NamedOnce(s: seq<RemoteAsset>, name: string)
    requires forall i, j :: 0 <= i < j < |s| ==> s[i].name != s[j].name
    ensures |Named(s, name)| <= 1
  {
    if s != [] {
      var n := |s| - 1;
      NamedOnce(s[..n], name);
      NamedMembers(s[..n], name);
    }
  }

  /** Existing records stay; names outside the batch are untouched; names of the batch appear at most once. */
  ghost predicate Extends(before: seq<RemoteAsset>, after: seq<RemoteAsset>, batch: seq<Asset>) {
    && before <= after
    && (forall name: string :: !Wants(batch, name) ==> Named(after, name) == Named(before, name))
    && (forall a :: a in batch ==> |Named(after, a.name)| <= 1)
  }

  lemma ImportExtends(before: seq<RemoteAsset>, batch: seq<Asset>, added: seq<RemoteAsset>, faithful: bool)
    requires Created(batch, added, faithful) && forall a :: a in batch ==> Named(before, a.name) == []
    ensures Extends(before, before + added, batch)
  {
    hide RemoteMatches, Named;
    forall name: string | !Wants(batch, name) ensures Named(before + added, name) == Named(before, name) {
      NamedConcat(before, added, name);
      NamedMembers(added, name);
      forall r | r in added ensures r.name != name {
        assert Wanted(batch, r, faithful);
      }
      assert Named(before, name) + [] == Named(before, name);
    }
    forall a | a in batch ensures |Named(before + added, a.name)| <= 1 {
      NamedConcat(before, added, a.name);
      NamedOnce(added, a.name);
    }
  }

  /** What runs of Apply may do to the inventory: add records of desired assets that were absent, each once. */
  ghost predicate OnlyAdds(before: seq<RemoteAsset>, after: seq<RemoteAsset>, desired: seq<Asset>) {
    && before <= after
    && forall name: string ::
         if Named(before, name) != [] then Named(after, name) == Named(before, name)
         else |Named(after, name)| <= 1 && (Named(after, name) != [] ==> Wants(desired, name))
  }

  lemma NothingAdded(remote: seq<RemoteAsset>, desired: seq<Asset>)
    ensures OnlyAdds(remote, remote, desired)
  {
  }

  lemma AddsFurther(a: seq<RemoteAsset>, b: seq<RemoteAsset>, c: seq<RemoteAsset>, desired: seq<Asset>)
    requires OnlyAdds(a, b, desired) && OnlyAdds(b, c, desired)
    ensures OnlyAdds(a, c, desired)
  {
    hide Named;
  }

  lemma ExtendsOnlyAdds(before: seq<RemoteAsset>, after: seq<RemoteAsset>, batch: seq<Asset>, desired: seq<Asset>)
    requires Extends(before, after, batch) && (forall a :: a in batch ==> a in desired && Named(before, a.name) == [])
    ensures OnlyAdds(before, after, desired)
  {
    hide Named;
    forall name: string | Wants(batch, name)
      ensures Named(before, name) == [] && |Named(after, name)| <= 1 && Wants(desired, name)
    {
      var k :| 0 <= k < |batch| && batch[k].name == name;
      assert batch[k] in batch && batch[k] in desired;
    }
  }

  /** What was found to match keeps matching. */
  lemma ExactStays(before: seq<RemoteAsset>, after: seq<RemoteAsset>, desired: seq<Asset>, a: Asset)
    requires OnlyAdds(before, after, desired) && Find(before, a) == Exact
    ensures Find(after, a) == Exact
  {
    hide Named, Assigned, RemoteMatches;
  }

  lemma {:induction false} MissingMembers(desired: seq<Asset>, remote: seq<RemoteAsset>)
    ensures forall a :: a in MissingOf(desired, remote) <==> a in desired && Find(remote, a) == Missing
  {
    hide Find;
    if desired != [] {
      var n := |desired| - 1;
      MissingMembers(desired[..n], remote);
      assert desired == desired[..n] + [desired[n]];
    }
  }

  lemma {:induction false} MissingDistinct(desired: seq<Asset>, remote: seq<RemoteAsset>)
    requires DistinctNames(desired)
    ensures DistinctNames(MissingOf(desired, remote))
  {
    hide Find;
    if desired != [] {
      var n := |desired| - 1;
      MissingDistinct(desired[..n], remote);
      MissingMembers(desired[..n], remote);
      var front := MissingOf(desired[..n], remote);
      hide MissingOf;
      forall i | 0 <= i < |front| ensures front[i].name != desired[n].name {
        assert front[i] in front;
        assert front[i] in desired[..n];
      }
    }
  }

  lemma MissingAbsent(remote: seq<RemoteAsset>, a: Asset)
    requires Find(remote, a) == Missing
    ensures Named(remote, a.name) == [] && !Assigned(remote, a.ip)
  {
    hide RemoteMatches;
  }

  /** A faithful import causes no conflict, when the desired addresses are distinct. */
  lemma FaithfulCompatible(desired: seq<Asset>, before: seq<RemoteAsset>, batch: seq<Asset>, added: seq<RemoteAsset>)
    requires Compatible(desired, before) && DistinctNames(desired) && DistinctIPs(desired)
    requires Created(batch, added, true) && forall a :: a in batch ==> a in desired && Named(before, a.name) == []
    ensures Compatible(desired, before + added)
    ensures forall a :: a in batch && Has(added, a.name) ==> Find(before + added, a) == Exact
  {
    hide Find, Created;
    forall a | a in desired
      ensures Find(before + added, a) != Conflict
      ensures a in batch && Has(added, a.name) ==> Find(before + added, a) == Exact
    {
      if Has(added, a.name) {
        CreatedExact(desired, before, batch, added, a);
      } else {
        NotCreated(desired, before, batch, added, a);
      }
    }
  }

  lemma CreatedExact(desired: seq<Asset>, before: seq<RemoteAsset>, batch: seq<Asset>, added: seq<RemoteAsset>,
                     a: Asset)
    requires DistinctNames(desired) && Created(batch, added, true) && a in desired && Has(added, a.name)
    requires forall b :: b in batch ==> b in desired && Named(before, b.name) == []
    ensures Find(before + added, a) == Exact
  {
    hide Named, RemoteMatches, Assigned;
    var i :| 0 <= i < |added| && added[i].name == a.name;
    assert Wanted(batch, added[i], true);
    var k :| 0 <= k < |batch| && batch[k].name == added[i].name && batch[k].ip == added[i].ip &&
          RemoteMatches(batch[k], added[i]);
    assert batch[k] in batch;
    SameAsset(desired, batch[k], a);
    NamedConcat(before, added, a.name);
    NamedOnce(added, a.name);
    NamedMembers(added, a.name);
    assert added[i] in Named(added, a.name);
    assert Named(before + added, a.name) == [added[i]];
  }

  lemma SameAsset(desired: seq<Asset>, a: Asset, b: Asset)
    requires a in desired && b in desired
    requires (DistinctNames(desired) && a.name == b.name) || (DistinctIPs(desired) && a.ip == b.ip)
    ensures a == b
  {
    var i :| 0 <= i < |desired| && desired[i] == a;
    var j :| 0 <= j < |desired| && desired[j] == b;
  }

  lemma NotCreated(desired: seq<Asset>, before: seq<RemoteAsset>, batch: seq<Asset>, added: seq<RemoteAsset>, a: Asset)
    requires Find(before, a) != Conflict && DistinctIPs(desired) && Created(batch, added, true) && a in desired &&
               !Has(added, a.name)
    requires forall b :: b in batch ==> b in desired
    ensures Find(before + added, a) == Find(before, a)
  {
    hide Named, RemoteMatches;
    NamedConcat(before, added, a.name);
    NamedMembers(added, a.name);
    assert Named(before, a.name) + [] == Named(before, a.name);
    forall k | 0 <= k < |before + added| && (before + added)[k].ip == a.ip ensures Assigned(before, a.ip) {
      if k >= |before| {
        AddressTaken(desired, batch, added, a, k - |before|);
      }
      assert before[k].ip == a.ip;
    }
    if Assigned(before, a.ip) {
      var k :| 0 <= k < |before| && before[k].ip == a.ip;
      assert (before + added)[k].ip == a.ip;
    }
  }

  /** Only the record created for an asset has that asset's address. */
  lemma AddressTaken(desired: seq<Asset>, batch: seq<Asset>, added: seq<RemoteAsset>, a: Asset, i: nat)
    requires DistinctIPs(desired) && Created(batch, added, true) && a in desired && !Has(added, a.name) && i < |added|
    requires forall b :: b in batch ==> b in desired
    ensures added[i].ip != a.ip
  {
    hide RemoteMatches;
    assert Wanted(batch, added[i], true);
    var j :| 0 <= j < |batch| && batch[j].name == added[i].name && batch[j].ip == added[i].ip;
    assert batch[j] in batch;
    if batch[j].ip == a.ip {
      SameAsset(desired, batch[j], a);
    }
  }

  // ---- Apply ----

  datatype ApplyOptions = ApplyOptions(execute: bool, limit: int, batchSize: int)
  datatype ApplyReport = ApplyReport(desired: nat, existing: nat, pending: nat, created: nat)

  /** Where a run ended: before or at the first reconciliation, as a dry run, in the middle of the batches, or done. */
  datatype End = NotListed | Refused | DryRun | ImportFailed | Unlisted | Contradicted | Unresolved | Done

  function Limited(desired: seq<Asset>, limit: int): seq<Asset> {
    if 0 < limit < |desired| then desired[..limit] else desired
  }

  /** The first `done` missing assets are there, the rest are not. */
  ghost predicate Progress(remote: seq<RemoteAsset>, missing: seq<Asset>, done: nat) {
    && done <= |missing|
    && (forall k :: 0 <= k < done ==> Find(remote, missing[k]) == Exact)
    && (forall k :: done <= k < |missing| ==> Named(remote, missing[k].name) == [])
  }

  lemma BatchAbsent(remote: seq<RemoteAsset>, missing: seq<Asset>, done: nat, end: nat)
    requires Progress(remote, missing, done) && done <= end <= |missing| && DistinctNames(missing)
    ensures DistinctNames(missing[done..end]) && forall a :: a in missing[done..end] ==> Named(remote, a.name) == []
  {
    hide Named, Find;
  }

  /** After a batch has been imported and reconciled, its assets are there too. */
  lemma BatchDone(before: seq<RemoteAsset>, after: seq<RemoteAsset>, desired: seq<Asset>, missing: seq<Asset>,
                  done: nat, end: nat)
    requires Progress(before, missing, done) && done <= end <= |missing| && DistinctNames(missing)
    requires Extends(before, after, missing[done..end]) && OnlyAdds(before, after, desired)
    requires forall a :: a in missing[done..end] ==> Find(after, a) == Exact
    ensures Progress(after, missing, end)
  {
    hide Named, Find;
    forall k | 0 <= k < end ensures Find(after, missing[k]) == Exact {
      if k < done {
        ExactStays(before, after, desired, missing[k]);
      } else {
        assert missing[k] == missing[done..end][k - done];
      }
    }
    forall k | end <= k < |missing| ensures Named(after, missing[k].name) == [] {
      assert !Wants(missing[done..end], missing[k].name);
    }
  }

  lemma {:induction false} NoneMissing(desired: seq<Asset>, remote: seq<RemoteAsset>)
    requires Compatible(desired, remote)
    ensures MissingOf(desired, remote) == [] <==> forall a :: a in desired ==> Find(remote, a) == Exact
  {
    hide Find;
    MissingMembers(desired, remote);
    if MissingOf(desired, remote) != [] {
      assert MissingOf(desired, remote)[0] in MissingOf(desired, remote);
    }
  }

  /** All that a run promises about the inventory it found and the one it leaves. */
  ghost predicate Resumable(before: seq<RemoteAsset>, after: seq<RemoteAsset>, desired: seq<Asset>, faithful: bool) {
    && OnlyAdds(before, after, desired)
    && (faithful && DistinctIPs(desired) && Compatible(desired, before) ==> Compatible(desired, after))
  }

  lemma ResumableFurther(a: seq<RemoteAsset>, b: seq<RemoteAsset>, c: seq<RemoteAsset>, desired: seq<Asset>,
                         faithful: bool)
    requires Resumable(a, b, desired, faithful) && Resumable(b, c, desired, faithful)
    ensures Resumable(a, c, desired, faithful)
  {
    hide OnlyAdds, Compatible;
    AddsFurther(a, b, c, desired);
  }

  lemma ImportResumable(before: seq<RemoteAsset>, batch: seq<Asset>, added: seq<RemoteAsset>, desired: seq<Asset>,
                        faithful: bool, ok: bool)
    requires Created(batch, added, faithful) && (faithful && ok ==> Complete(batch, added)) && DistinctNames(desired)
    requires forall a :: a in batch ==> a in desired && Named(before, a.name) == []
    ensures Extends(before, before + added, batch) && Resumable(before, before + added, desired, faithful)
    ensures faithful && DistinctIPs(desired) && Compatible(desired, before) && ok ==>
              forall a :: a in batch ==> Find(before + added, a) == Exact
  {
    hide Extends, OnlyAdds, Compatible, Find, Created, DistinctIPs, DistinctNames;
    ImportExtends(before, batch, added, faithful);
    ExtendsOnlyAdds(before, before + added, batch, desired);
    if faithful && DistinctIPs(desired) && Compatible(desired, before) {
      FaithfulCompatible(desired, before, batch, added);
    }
  }

  /** A positive limit cuts longer lists to their beginning. */
  lemma LimitedExactly(desired: seq<Asset>, limit: int)
    ensures Limited(desired, limit) <= desired
    ensures |Limited(desired, limit)| == if limit >= 1 && limit <= |desired| then limit else |desired|
  {
  }

  lemma LimitedNames(desired: seq<Asset>, limit: int)
    requires DistinctNames(desired)
    ensures DistinctNames(Limited(desired, limit))
  {
  }

  function BatchSize(o: ApplyOptions): int { if o.batchSize < 1 || o.batchSize > 50 then 50 else o.batchSize }

  /** The batch after the first `done` missing assets. */
  function NextBatch(missing: seq<Asset>, done: nat, size: int): seq<Asset>
    requires done <= |missing| && size > 0
  {
    missing[done..if done + size > |missing| then |missing| else done + size]
  }

  /** In some batches of at most `size`, none empty, exactly these assets were sent, in order. */
  predicate SentAs(batches: seq<seq<Asset>>, assets: seq<Asset>, size: int) {
    if batches == [] then assets == []
    else
      var n := |batches| - 1;
      var rest := |assets| - |batches[n]|;
      && 0 < |batches[n]| <= size && 0 <= rest && assets[rest..] == batches[n]
      && SentAs(batches[..n], assets[..rest], size)
  }

  lemma SentNext(batches: seq<seq<Asset>>, assets: seq<Asset>, batch: seq<Asset>, size: int)
    requires SentAs(batches, assets, size) && 0 < |batch| <= size
    ensures SentAs(batches + [batch], assets + batch, size)
  {
    assert (batches + [batch])[..|batches|] == batches;
    assert (assets + batch)[..|assets|] == assets;
  }

  /** A run that got past the reconciliation and stopped in a batch. */
  predicate Midway(end: End) { end in {ImportFailed, Unlisted, Contradicted, Unresolved} }

  /** All batches but the last are full. */
  predicate AllFull(batches: seq<seq<Asset>>, size: int) {
    forall k :: 0 <= k < |batches| - 1 ==> |batches[k]| == size
  }

  lemma BatchIs(missing: seq<Asset>, done: nat, size: int)
    requires done < |missing| && size > 0
    ensures var batch := NextBatch(missing, done, size);
            && 0 < |batch| <= size && done + |batch| == (if done + size < |missing| then done + size else |missing|)
            && batch == missing[done..done + |batch|] && missing[..done] + batch == missing[..done + |batch|]
  {
  }

  /** All of them are full. */
  predicate EachFull(batches: seq<seq<Asset>>, size: int) {
    forall b :: b in batches ==> |b| == size
  }

  lemma FullNext(batches: seq<seq<Asset>>, batch: seq<Asset>, size: int)
    requires EachFull(batches, size)
    ensures AllFull(batches + [batch], size) && (|batch| == size ==> EachFull(batches + [batch], size))
  {
    forall k | 0 <= k < |batches| ensures |(batches + [batch])[k]| == size {
      assert (batches + [batch])[k] == batches[k] && batches[k] in batches;
    }
  }

  /** The size asked for, if it is one of 1 to 50. */
  lemma SizeOfBatches(o: ApplyOptions)
    ensures 1 <= BatchSize(o) <= 50 && (1 <= o.batchSize <= 50 <==> BatchSize(o) == o.batchSize)
    ensures BatchSize(o) != o.batchSize ==> BatchSize(o) == 50
  {
  }

  /** The report of a run that got past the reconciliation. */
  predicate Surveyed(desired: seq<Asset>, before: seq<RemoteAsset>, report: ApplyReport) {
    && Compatible(desired, before) && report.existing == ExactOf(desired, before)
    && report.created + report.pending == |MissingOf(desired, before)|
    && report.existing + report.created + report.pending == report.desired
  }

  /** A run that was not stopped: what it counts as created is what it sent. */
  predicate Went(desired: seq<Asset>, before: seq<RemoteAsset>, o: ApplyOptions, report: ApplyReport, end: End,
                 sent: seq<seq<Asset>>)
  {
    && Surveyed(desired, before, report) && end == (if o.execute then Done else DryRun)
    && (if o.execute then report.pending == 0 else report.created == 0)
    && SentAs(sent, MissingOf(desired, before)[..report.created], BatchSize(o)) && AllFull(sent, BatchSize(o))
  }

  /** A run that was stopped in a batch: that batch was sent, but not counted. */
  predicate Stopped(desired: seq<Asset>, before: seq<RemoteAsset>, o: ApplyOptions, report: ApplyReport, end: End,
                    after: seq<RemoteAsset>, sent: seq<seq<Asset>>)
  {
    && Surveyed(desired, before, report) && o.execute && report.pending > 0
    && var missing := MissingOf(desired, before);
       var batch := NextBatch(missing, report.created, BatchSize(o));
       && SentAs(sent, missing[..report.created] + batch, BatchSize(o)) && AllFull(sent, BatchSize(o))
       && (end == Contradicted ==> !Compatible(batch, after))
       && (end == Unresolved ==> Compatible(batch, after) && MissingOf(batch, after) != [])
  }

  predicate ByFailure(end: End) { end in {NotListed, ImportFailed, Unlisted} }

  /** The first `done` missing assets are there and match. */
  predicate Resolved(missing: seq<Asset>, done: nat, remote: seq<RemoteAsset>) {
    done <= |missing| && forall k :: 0 <= k < done ==> Find(remote, missing[k]) == Exact
  }

  /** What a run promises for distinct names: it can be resumed, what it counts is there, and a faithful
      inventory that was compatible stops it only by a failure. */
  ghost predicate Safe(desired: seq<Asset>, before: seq<RemoteAsset>, o: ApplyOptions, report: ApplyReport, end: End,
                       after: seq<RemoteAsset>, faithful: bool)
  {
    && Resumable(before, after, desired, faithful) && Resolved(MissingOf(desired, before), report.created, after)
    && (end == Done ==> forall a :: a in desired ==> Find(after, a) == Exact)
    && (faithful && DistinctIPs(desired) && Compatible(desired, before) ==>
          ByFailure(end) || end == if o.execute then Done else DryRun)
  }

  method Apply(api: InventoryAPI, all: seq<Asset>, o: ApplyOptions) returns (report: ApplyReport, end: End)
    modifies api
    ensures old(api.batches) <= api.batches && old(api.remote) <= api.remote
    ensures var desired, sent := Limited(all, o.limit), api.batches[|old(api.batches)|..];
            && report.desired == |desired|
            && (end == NotListed ==> report == ApplyReport(|desired|, 0, 0, 0) && sent == [])
            && (end == Refused ==>
                  report.created == report.pending == 0 && sent == [] &&
                  StopsAt(desired, old(api.remote), report.existing))
            && (end in {DryRun, Done} ==> Went(desired, old(api.remote), o, report, end, sent))
            && (Midway(end) ==> Stopped(desired, old(api.remote), o, report, end, api.remote, sent))
    ensures api.failures == old(api.failures) + if ByFailure(end) then 1 else 0
    ensures end in {NotListed, Refused, DryRun} ==> api.remote == old(api.remote)
    ensures DistinctNames(all) ==>
              && api.clashed == old(api.clashed)
              && Safe(Limited(all, o.limit), old(api.remote), o, report, end, api.remote, api.faithful)
  {
    hide Find, Compatible, DistinctNames, MissingOf, ExactOf, StopsAt, Went, Stopped, SentAs, Safe, Limited;
    var desired := Limited(all, o.limit);
    if DistinctNames(all) {
      LimitedNames(all, o.limit);
    }
    ghost var first := api.remote;
    report := ApplyReport(|desired|, 0, 0, 0);
    var existing := api.ListAssets();
    assert api.batches[|old(api.batches)|..] == [];
    if existing.None? {
      SafeAlready(desired, first, o, report, NotListed, api.faithful);
      return report, NotListed;
    }
    var ok, missing, exact := Reconcile(desired, existing.value);
    report := report.(existing := exact, pending := |missing|);
    if !ok {
      SafeAlready(desired, first, o, report, Refused, api.faithful);
      return report, Refused;
    }
    NothingSent(desired, first, o, report);
    if !o.execute {
      SafeAlready(desired, first, o, report, DryRun, api.faithful);
      return report, DryRun;
    }
    report, end := ImportMissing(api, desired, missing, o, report);
  }

  /** What holds between two batches, for distinct names. */
  ghost predicate Steady(first: seq<RemoteAsset>, remote: seq<RemoteAsset>, desired: seq<Asset>, done: nat,
                         faithful: bool) {
    Progress(remote, MissingOf(desired, first), done) && Resumable(first, remote, desired, faithful)
  }

  /** What has been sent and counted before the batch that begins at `start`. */
  ghost predicate Underway(missing: seq<Asset>, o: ApplyOptions, survey: ApplyReport, report: ApplyReport, start: int,
                           sent: seq<seq<Asset>>)
  {
    && 0 <= start && report.created == (if start < |missing| then start else |missing|)
    && report == survey.(created := report.created, pending := |missing| - report.created)
    && SentAs(sent, missing[..report.created], BatchSize(o)) && AllFull(sent, BatchSize(o))
    && (start < |missing| ==> EachFull(sent, BatchSize(o)))
  }

  lemma UnderwayNext(missing: seq<Asset>, o: ApplyOptions, survey: ApplyReport, report: ApplyReport, start: int,
                     sent: seq<seq<Asset>>)
    requires Underway(missing, o, survey, report, start, sent) && start < |missing|
    ensures var batch := NextBatch(missing, start, BatchSize(o));
            && SentAs(sent + [batch], missing[..start] + batch, BatchSize(o)) && AllFull(sent + [batch], BatchSize(o))
            && |batch| <= report.pending
            && Underway(missing, o, survey,
                 report.(created := report.created + |batch|, pending := report.pending - |batch|),
                 start + BatchSize(o), sent + [batch])
  {
    hide SentAs, AllFull, EachFull, NextBatch;
    var batch := NextBatch(missing, start, BatchSize(o));
    SizeOfBatches(o);
    BatchIs(missing, start, BatchSize(o));
    SentNext(sent, missing[..start], batch, BatchSize(o));
    FullNext(sent, batch, BatchSize(o));
  }

  /** The batches. */
  method ImportMissing(api: InventoryAPI, desired: seq<Asset>, missing: seq<Asset>, o: ApplyOptions,
                       survey: ApplyReport)
    returns (report: ApplyReport, end: End)
    requires Surveyed(desired, api.remote, survey) && missing == MissingOf(desired, api.remote)
    requires survey.created == 0 && o.execute
    modifies api
    ensures old(api.batches) <= api.batches && old(api.remote) <= api.remote && report.desired == survey.desired
    ensures var sent := api.batches[|old(api.batches)|..];
            && (end == Done || Midway(end))
            && (end == Done ==> Went(desired, old(api.remote), o, report, end, sent))
            && (Midway(end) ==> Stopped(desired, old(api.remote), o, report, end, api.remote, sent))
    ensures api.failures == old(api.failures) + if ByFailure(end) then 1 else 0
    ensures DistinctNames(desired) ==>
              && api.clashed == old(api.clashed)
              && Safe(desired, old(api.remote), o, report, end, api.remote, api.faithful)
  {
    hide Find, Compatible, DistinctNames, MissingOf, ExactOf, Went, Stopped, SentAs, AllFull, EachFull, Safe, Steady,
         Created, Complete, Importable, BatchSize, NextBatch;
    SizeOfBatches(o);
    ghost var first := api.remote;
    report := survey;
    NothingSent(desired, first, o, report);
    StartSteady(desired, first, api.faithful);
    var start := 0;
    ghost var sent: seq<seq<Asset>> := [];
    while start < |missing|
      invariant Underway(missing, o, survey, report, start, sent)
      invariant first <= api.remote && api.failures == old(api.failures) && api.batches == old(api.batches) + sent
      invariant DistinctNames(desired) ==>
                  api.clashed == old(api.clashed) && Steady(first, api.remote, desired, report.created, api.faithful)
    {
      var batch := NextBatch(missing, start, BatchSize(o));
      BatchIs(missing, start, BatchSize(o));
      ghost var before := api.remote;
      if DistinctNames(desired) {
        BatchFresh(first, before, desired, start, start + |batch|, api.faithful);
      }
      UnderwayNext(missing, o, survey, report, start, sent);
      var trouble;
      ghost var added;
      trouble, added := ImportBatch(api, batch);
      sent := sent + [batch];
      assert api.batches[|old(api.batches)|..] == sent;
      if DistinctNames(desired) {
        BatchSteady(first, before, added, desired, start, start + |batch|, api.faithful, trouble);
      }
      if trouble.Some? {
        if DistinctNames(desired) {
          SafeStopped(first, before, added, desired, start, start + |batch|, api.faithful, trouble.value, o, report);
        }
        StoppedThere(desired, first, o, report, trouble.value, api.remote, sent);
        return report, trouble.value;
      }
      report := report.(created := report.created + |batch|, pending := report.pending - |batch|);
      start := start + BatchSize(o);
    }
    assert missing[..|missing|] == missing;
    assert api.batches[|old(api.batches)|..] == sent;
    AllSent(desired, first, o, report, sent);
    if DistinctNames(desired) {
      SafeDone(first, api.remote, desired, api.faithful, o, report);
    }
    end := Done;
  }

  lemma SafeAlready(desired: seq<Asset>, remote: seq<RemoteAsset>, o: ApplyOptions, report: ApplyReport, end: End,
                    faithful: bool)
    requires report.created == 0 && end in {NotListed, Refused, DryRun}
    requires end == Refused ==> !Compatible(desired, remote)
    requires end == DryRun ==> !o.execute
    ensures Safe(desired, remote, o, report, end, remote, faithful)
  {
    hide Compatible, Resumable, Find, MissingOf;
    ResumableAlready(remote, desired, faithful);
  }

  lemma StartSteady(desired: seq<Asset>, first: seq<RemoteAsset>, faithful: bool)
    ensures DistinctNames(desired) ==> Steady(first, first, desired, 0, faithful)
  {
    hide DistinctNames, Progress, Resumable, MissingOf;
    ResumableAlready(first, desired, faithful);
    if DistinctNames(desired) {
      StartProgress(desired, first, MissingOf(desired, first));
    }
  }

  lemma BatchFresh(first: seq<RemoteAsset>, remote: seq<RemoteAsset>, desired: seq<Asset>, done: nat, end: nat,
                   faithful: bool)
    requires DistinctNames(desired) && Steady(first, remote, desired, done, faithful)
    requires done <= end <= |MissingOf(desired, first)|
    ensures var batch := MissingOf(desired, first)[done..end]; Importable(remote, batch) && DistinctNames(batch)
  {
    hide DistinctNames, Progress, Resumable, MissingOf, Named;
    StartProgress(desired, first, MissingOf(desired, first));
    BatchAbsent(remote, MissingOf(desired, first), done, end);
  }

  lemma BatchSteady(first: seq<RemoteAsset>, before: seq<RemoteAsset>, added: seq<RemoteAsset>, desired: seq<Asset>,
                    done: nat, end: nat, faithful: bool, trouble: Option<End>)
    requires DistinctNames(desired) && Steady(first, before, desired, done, faithful)
    requires done <= end <= |MissingOf(desired, first)|
    requires Created(MissingOf(desired, first)[done..end], added, faithful)
    requires faithful && trouble != Some(ImportFailed) ==> Complete(MissingOf(desired, first)[done..end], added)
    requires trouble.None? ==>
               forall a :: a in MissingOf(desired, first)[done..end] ==> Find(before + added, a) == Exact
    ensures trouble.None? ==> Steady(first, before + added, desired, end, faithful)
  {
    hide DistinctNames, Progress, Resumable, MissingOf, Named, Created, Complete, Find;
    StartProgress(desired, first, MissingOf(desired, first));
    BatchImported(first, before, added, desired, MissingOf(desired, first), done, end, faithful,
      trouble != Some(ImportFailed));
  }

  lemma SafeStopped(first: seq<RemoteAsset>, before: seq<RemoteAsset>, added: seq<RemoteAsset>, desired: seq<Asset>,
                    done: nat, end: nat, faithful: bool, trouble: End, o: ApplyOptions, report: ApplyReport)
    requires DistinctNames(desired) && Steady(first, before, desired, done, faithful) && report.created == done
    requires done <= end <= |MissingOf(desired, first)|
    requires Created(MissingOf(desired, first)[done..end], added, faithful)
    requires faithful && trouble != ImportFailed ==> Complete(MissingOf(desired, first)[done..end], added)
    requires Midway(trouble)
    requires trouble == Contradicted ==> !Compatible(MissingOf(desired, first)[done..end], before + added)
    requires trouble == Unresolved ==>
               && Compatible(MissingOf(desired, first)[done..end], before + added)
               && MissingOf(MissingOf(desired, first)[done..end], before + added) != []
    ensures Safe(desired, first, o, report, trouble, before + added, faithful)
  {
    hide DistinctNames, DistinctIPs, Progress, Resumable, Resolved, MissingOf, Named, Created, Complete, Find,
         Compatible;
    var missing := MissingOf(desired, first);
    StartProgress(desired, first, missing);
    BatchImported(first, before, added, desired, missing, done, end, faithful, trouble != ImportFailed);
    if trouble == Unresolved {
      NoneMissing(missing[done..end], before + added);
    }
  }

  lemma SafeDone(first: seq<RemoteAsset>, remote: seq<RemoteAsset>, desired: seq<Asset>, faithful: bool,
                 o: ApplyOptions, report: ApplyReport)
    requires DistinctNames(desired) && Compatible(desired, first) && o.execute
    requires report.created == |MissingOf(desired, first)|
    requires Steady(first, remote, desired, |MissingOf(desired, first)|, faithful)
    ensures Safe(desired, first, o, report, Done, remote, faithful)
  {
    hide DistinctNames, DistinctIPs, Resumable, MissingOf, Named, Find, Compatible;
    AllExact(desired, first, remote, MissingOf(desired, first), faithful);
  }

  /** One batch: import it, list what is there now, and reconcile the batch with that. */
  method ImportBatch(api: InventoryAPI, batch: seq<Asset>) returns (trouble: Option<End>, ghost added: seq<RemoteAsset>)
    modifies api
    ensures api.clashed == (old(api.clashed) || !Importable(old(api.remote), batch))
    ensures api.remote == old(api.remote) + added && (DistinctNames(batch) ==> Created(batch, added, api.faithful))
    ensures api.faithful && trouble != Some(ImportFailed) ==> Complete(batch, added)
    ensures api.batches == old(api.batches) + [batch]
    ensures api.failures == old(api.failures) + if trouble in {Some(ImportFailed), Some(Unlisted)} then 1 else 0
    ensures match trouble
            case None => forall a :: a in batch ==> Find(api.remote, a) == Exact
            case Some(end) =>
              && Midway(end) && (end == Contradicted ==> !Compatible(batch, api.remote))
              && (end == Unresolved ==> Compatible(batch, api.remote) && MissingOf(batch, api.remote) != [])
  {
    hide Find, Compatible, DistinctNames, Created, Complete, MissingOf, ExactOf, StopsAt, Importable;
    var imported;
    imported, added := api.ImportAssets(batch);
    if !imported {
      return Some(ImportFailed), added;
    }
    var current := api.ListAssets();
    if current.None? {
      return Some(Unlisted), added;
    }
    var ok, unresolved, matched := Reconcile(batch, current.value);
    if !ok {
      return Some(Contradicted), added;
    }
    NoneMissing(batch, api.remote);
    if |unresolved| != 0 || matched != |batch| {
      return Some(Unresolved), added;
    }
    trouble := None;
  }

  lemma NothingSent(desired: seq<Asset>, before: seq<RemoteAsset>, o: ApplyOptions, report: ApplyReport)
    requires Surveyed(desired, before, report) && report.created == 0
    ensures SentAs([], MissingOf(desired, before)[..0], BatchSize(o))
    ensures AllFull([], BatchSize(o)) && EachFull([], BatchSize(o))
    ensures !o.execute ==> Went(desired, before, o, report, DryRun, [])
  {
    hide Compatible, MissingOf, ExactOf;
  }

  lemma AllSent(desired: seq<Asset>, before: seq<RemoteAsset>, o: ApplyOptions, report: ApplyReport,
                sent: seq<seq<Asset>>)
    requires Surveyed(desired, before, report) && o.execute && report.pending == 0
    requires SentAs(sent, MissingOf(desired, before), BatchSize(o)) && AllFull(sent, BatchSize(o))
    ensures Went(desired, before, o, report, Done, sent)
  {
    hide Compatible, MissingOf, ExactOf, SentAs;
    var missing := MissingOf(desired, before);
    assert missing[..|missing|] == missing;
  }

  lemma StoppedThere(desired: seq<Asset>, before: seq<RemoteAsset>, o: ApplyOptions, report: ApplyReport, end: End,
                     after: seq<RemoteAsset>, sent: seq<seq<Asset>>)
    requires Surveyed(desired, before, report) && o.execute && report.pending > 0
    requires var missing := MissingOf(desired, before);
             var batch := NextBatch(missing, report.created, BatchSize(o));
             && SentAs(sent, missing[..report.created] + batch, BatchSize(o)) && AllFull(sent, BatchSize(o))
             && (end == Contradicted ==> !Compatible(batch, after))
             && (end == Unresolved ==> Compatible(batch, after) && MissingOf(batch, after) != [])
    ensures Stopped(desired, before, o, report, end, after, sent)
  {
    hide Compatible, MissingOf, ExactOf, SentAs;
  }

  lemma ResumableAlready(remote: seq<RemoteAsset>, desired: seq<Asset>, faithful: bool)
    ensures Resumable(remote, remote, desired, faithful)
  {
    hide Compatible;
    NothingAdded(remote, desired);
  }

  /** Importing a batch of what is missing: the run stays resumable; once the batch is found there the
      progress is real; and a faithful inventory leaves no conflict and nothing unresolved. */
  lemma BatchImported(first: seq<RemoteAsset>, before: seq<RemoteAsset>, added: seq<RemoteAsset>, desired: seq<Asset>,
                      missing: seq<Asset>, done: nat, end: nat, faithful: bool, imported: bool)
    requires DistinctNames(desired) && DistinctNames(missing) && (forall a :: a in missing ==> a in desired)
    requires done <= end <= |missing| && Progress(before, missing, done) && Resumable(first, before, desired, faithful)
    requires Created(missing[done..end], added, faithful) && (faithful && imported ==>
               Complete(missing[done..end], added))
    ensures var batch, after := missing[done..end], before + added;
            && Resumable(first, after, desired, faithful) && Resolved(missing, done, after)
            && ((forall a :: a in batch ==> Find(after, a) == Exact) ==> Progress(after, missing, end))
            && (faithful && DistinctIPs(desired) && Compatible(desired, first) ==>
                  Compatible(batch, after) && (imported ==> forall a :: a in batch ==> Find(after, a) == Exact))
  {
    hide Find, Extends, Compatible, Named, DistinctNames, DistinctIPs, Progress, Created, Complete, OnlyAdds;
    var batch, after := missing[done..end], before + added;
    BatchAbsent(before, missing, done, end);
    ImportResumable(before, batch, added, desired, faithful, imported);
    ResumableFurther(first, before, after, desired, faithful);
    ResolvedStay(before, after, desired, missing, done);
    PartCompatible(batch, desired, after);
    if forall a :: a in batch ==> Find(after, a) == Exact {
      BatchDone(before, after, desired, missing, done, end);
    }
  }

  lemma ResolvedStay(before: seq<RemoteAsset>, after: seq<RemoteAsset>, desired: seq<Asset>, missing: seq<Asset>,
                     done: nat)
    requires Progress(before, missing, done) && OnlyAdds(before, after, desired)
    ensures Resolved(missing, done, after)
  {
    hide Find, OnlyAdds, Named;
    forall k | 0 <= k < done ensures Find(after, missing[k]) == Exact {
      ExactStays(before, after, desired, missing[k]);
    }
  }

  lemma PartCompatible(batch: seq<Asset>, desired: seq<Asset>, remote: seq<RemoteAsset>)
    requires forall a :: a in batch ==> a in desired
    ensures Compatible(desired, remote) ==> Compatible(batch, remote)
  {
  }

  lemma StartProgress(desired: seq<Asset>, remote: seq<RemoteAsset>, missing: seq<Asset>)
    requires missing == MissingOf(desired, remote) && DistinctNames(desired)
    ensures Progress(remote, missing, 0) && DistinctNames(missing)
    ensures forall a :: a in missing ==> a in desired
  {
    hide Find, Named, Assigned, MissingOf;
    MissingMembers(desired, remote);
    MissingDistinct(desired, remote);
    forall k | 0 <= k < |missing| ensures Named(remote, missing[k].name) == [] {
      assert missing[k] in missing;
      MissingAbsent(remote, missing[k]);
    }
  }

  lemma AllExact(desired: seq<Asset>, before: seq<RemoteAsset>, after: seq<RemoteAsset>, missing: seq<Asset>,
                 faithful: bool)
    requires Compatible(desired, before) && missing == MissingOf(desired, before)
    requires Resumable(before, after, desired, faithful) && Progress(after, missing, |missing|)
    ensures forall a :: a in desired ==> Find(after, a) == Exact
  {
    hide Find, OnlyAdds;
    MissingMembers(desired, before);
    forall a | a in desired ensures Find(after, a) == Exact {
      if a in missing {
        var k :| 0 <= k < |missing| && missing[k] == a;
      } else {
        ExactStays(before, after, desired, a);
      }
    }
  }

  /** Any number of runs, each possibly interrupted: together they only add what was absent, each once, and
      once one is done every desired asset is present exactly once and matches. A faithful inventory that was
      compatible interrupts a run only by a failure, so that with more runs than failures one is done. */
  method ApplyAgain(api: InventoryAPI, desired: seq<Asset>, o: ApplyOptions, runs: nat) returns (end: Option<End>)
    modifies api
    ensures old(api.remote) <= api.remote && (end == None <==> runs == 0)
    ensures old(api.failures) <= api.failures <= old(api.failures) + runs
    ensures DistinctNames(desired) ==>
              && api.clashed == old(api.clashed)
              && Resumable(old(api.remote), api.remote, Limited(desired, o.limit), api.faithful)
              && (end == Some(Done) ==> forall a :: a in Limited(desired, o.limit) ==> Find(api.remote, a) == Exact)
              && (Importing(old(api.remote), Limited(desired, o.limit), o, api.faithful) ==>
                    runs > api.failures - old(api.failures) ==> end == Some(Done))
  {
    hide Find, Compatible, DistinctNames, DistinctIPs, Resumable, Limited, Went, Stopped, StopsAt;
    end := None;
    ghost var wanted, first := Limited(desired, o.limit), api.remote;
    ResumableAlready(first, wanted, api.faithful);
    var n := 0;
    while n < runs && end != Some(Done)
      invariant n <= runs && first <= api.remote && (end == None <==> n == 0)
      invariant old(api.failures) <= api.failures <= old(api.failures) + n
      invariant end == Some(Done) ==> api.failures < old(api.failures) + n
      invariant DistinctNames(desired) ==>
                  && api.clashed == old(api.clashed) && Resumable(first, api.remote, wanted, api.faithful)
                  && (end == Some(Done) ==> forall a :: a in wanted ==> Find(api.remote, a) == Exact)
                  && (Importing(first, wanted, o, api.faithful) && end != Some(Done) ==>
                        api.failures == old(api.failures) + n)
    {
      ghost var before := api.remote;
      var report, e := Apply(api, desired, o);
      if DistinctNames(desired) {
        if Importing(first, wanted, o, api.faithful) {
          ImportingStays(first, before, wanted, o, api.faithful);
        }
        ResumableFurther(first, before, api.remote, wanted, api.faithful);
      }
      end := Some(e);
      n := n + 1;
    }
  }

  /** A faithful inventory in which distinct desired assets conflict with nothing, and a run that may import. */
  ghost predicate Importing(remote: seq<RemoteAsset>, desired: seq<Asset>, o: ApplyOptions, faithful: bool) {
    faithful && o.execute && DistinctIPs(desired) && Compatible(desired, remote)
  }

  lemma ImportingStays(before: seq<RemoteAsset>, after: seq<RemoteAsset>, desired: seq<Asset>, o: ApplyOptions,
                       faithful: bool)
    requires Resumable(before, after, desired, faithful) && Importing(before, desired, o, faithful)
    ensures Importing(after, desired, o, faithful)
  {
    hide Compatible, OnlyAdds;
  }
}
