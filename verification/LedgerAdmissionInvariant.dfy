/**
 * Admission keeps the ledger invariant although it may merge identities first: a merge can push
 * the merged identity over its quota, and the tests that follow decide whether it is committed.
 */
module LedgerAdmissionInvariant {
  import opened Prelude
  import opened Sums
  import opened LedgerTables
  import opened LedgerTransactions
  import opened LedgerAdmission
  import opened LedgerInvariant

  /** The invariant, with the limits of one identity left open. */
  ghost predicate InvBut(l: Ledger, limits: Limits, day: nat, open_: nat) {
    && RowsOk(l, day)
    && BudgetOk(l, limits)
    && ChargesOk(l)
    && IdsOk(l)
    && forall i :: i != open_ ==>
         && Committed(l, i, day) <= limits.dailyQuotaBytes
         && ActiveSessions(l.uploads, i) <= limits.maxActiveSessions
  }

  // Merging identities.

  lemma MergedTotals(l: Ledger, primary: nat, other: nat)
    requires |l.chargedOn| == |l.uploads| && primary != other
    ensures var after := Reassigned(l.uploads, primary, other);
            && TotalHeld(after) == TotalHeld(l.uploads)
            && (forall i :: TotalHeldBy(after, i) == if i == primary then TotalHeldBy(l.uploads, primary) + TotalHeldBy(l.uploads, other)
                                                     else if i == other then 0 else TotalHeldBy(l.uploads, i))
            && (forall i :: i != primary ==> ActiveSessions(after, i) <= ActiveSessions(l.uploads, i))
  {
    var after := Reassigned(l.uploads, primary, other);
    assert HeldColumn(after) == HeldColumn(l.uploads);
    forall i
      ensures TotalHeldBy(after, i) == if i == primary then TotalHeldBy(l.uploads, primary) + TotalHeldBy(l.uploads, other)
                                       else if i == other then 0 else TotalHeldBy(l.uploads, i)
    {
      if i == primary {
        SumMerge(HeldByColumn(l.uploads, primary), HeldByColumn(l.uploads, other), HeldByColumn(after, primary));
      } else if i == other {
        SumZero(HeldByColumn(after, other));
      } else {
        assert HeldByColumn(after, i) == HeldByColumn(l.uploads, i);
      }
    }
    forall i | i != primary ensures ActiveSessions(after, i) <= ActiveSessions(l.uploads, i) {
      SumAtMost(ActiveColumn(after, i), ActiveColumn(l.uploads, i));
    }
  }

  lemma MergedCharges(l: Ledger, primary: nat, other: nat, i: nat, d: nat)
    requires ChargesOk(l) && primary != other
    ensures Used(MergedUsage(l.daily, primary, other), i, d)
            == TotalCharged(Reassigned(l.uploads, primary, other), l.chargedOn, i, d)
  {
    var after := Reassigned(l.uploads, primary, other);
    assert Used(l.daily, primary, d) == TotalCharged(l.uploads, l.chargedOn, primary, d);
    assert Used(l.daily, other, d) == TotalCharged(l.uploads, l.chargedOn, other, d);
    if i == primary {
      SumMerge(ChargeColumn(l.uploads, l.chargedOn, primary, d), ChargeColumn(l.uploads, l.chargedOn, other, d),
               ChargeColumn(after, l.chargedOn, primary, d));
      assert (other, d) in l.daily ==> d in DaysOf(l.daily, other);
    } else if i == other {
      SumZero(ChargeColumn(after, l.chargedOn, other, d));
    } else {
      assert ChargeColumn(after, l.chargedOn, i, d) == ChargeColumn(l.uploads, l.chargedOn, i, d);
      assert Used(l.daily, i, d) == TotalCharged(l.uploads, l.chargedOn, i, d);
    }
  }

  lemma MergedIds(l: Ledger, primary: nat, other: nat)
    requires IdsOk(l) && primary != other && primary in l.ids.known
    requires MergeIdentity(l, primary, other).Ok?
    ensures IdsOk(MergeIdentity(l, primary, other).value)
  {
    var next := MergeIdentity(l, primary, other).value;
    forall key | key in next.daily ensures key.0 in next.ids.known && next.daily[key] <= SQL_MAX {
      if key.0 == primary {
        if (other, key.1) in l.daily {
          assert (other, key.1).1 in DaysOf(l.daily, other);
        }
      }
    }
  }

  /** A merge moves every row of `other` to `primary`, which afterwards may exceed its limits; nobody else is affected. */
  lemma MergeKeepsInv(l: Ledger, limits: Limits, day: nat, primary: nat, other: nat)
    requires InvBut(l, limits, day, primary) && primary != other && primary in l.ids.known
    requires MergeIdentity(l, primary, other).Ok?
    ensures InvBut(MergeIdentity(l, primary, other).value, limits, day, primary)
    ensures primary in MergeIdentity(l, primary, other).value.ids.known
  {
    var next := MergeIdentity(l, primary, other).value;
    MergedTotals(l, primary, other);
    MergedIds(l, primary, other);
    forall i, d ensures Used(next.daily, i, d) == TotalCharged(next.uploads, next.chargedOn, i, d) {
      MergedCharges(l, primary, other, i, d);
    }
    forall s: nat | s < |next.uploads| ensures RowOk(next, s, day) {
      assert RowOk(l, s, day);
    }
    forall i | i != primary
      ensures Committed(next, i, day) <= limits.dailyQuotaBytes
      ensures ActiveSessions(next.uploads, i) <= limits.maxActiveSessions
    {
      assert Committed(l, i, day) <= limits.dailyQuotaBytes;
      if i == other {
        MergedCharges(l, primary, other, i, day);
        SumZero(ChargeColumn(next.uploads, next.chargedOn, other, day));
      }
    }
  }

  lemma {:induction false} MergeAllKeepsInv(l: Ledger, limits: Limits, day: nat, primary: nat, others: seq<nat>)
    requires InvBut(l, limits, day, primary) && primary !in others && primary in l.ids.known
    requires MergeAll(l, primary, others).Ok?
    ensures var next := MergeAll(l, primary, others).value;
            && InvBut(next, limits, day, primary)
            && primary in next.ids.known
            && |next.uploads| == |l.uploads|
    decreases |others|
  {
    if others != [] {
      var n := |others| - 1;
      assert others[n] in others;
      MergeAllKeepsInv(l, limits, day, primary, others[..n]);
      MergeKeepsInv(MergeAll(l, primary, others[..n]).value, limits, day, primary, others[n]);
    }
  }

  predicate Increasing(ids: seq<nat>) {
    forall i, j :: 0 <= i < j < |ids| ==> ids[i] < ids[j]
  }

  /** Some secret's hash of the address names the identity. */
  predicate Names(hashes: map<(nat, nat), nat>, secrets: seq<nat>, ip: nat, identity: nat) {
    exists k :: 0 <= k < |secrets| && (secrets[k], ip) in hashes && hashes[(secrets[k], ip)] == identity
  }

  lemma {:induction false} InsertSortedIsSorted(ids: seq<nat>, id: nat)
    requires id !in ids && Increasing(ids)
    ensures Increasing(InsertSorted(ids, id))
    ensures forall x: nat :: x in InsertSorted(ids, id) <==> x in ids || x == id
    decreases |ids|
  {
    if ids != [] && id >= ids[0] {
      InsertSortedIsSorted(ids[1..], id);
      assert forall x: nat :: x in ids <==> x == ids[0] || x in ids[1..];
      var rest := InsertSorted(ids[1..], id);
      forall j | 0 <= j < |rest| ensures ids[0] < rest[j] {
        assert rest[j] in rest;
        assert ids[0] in ids;
      }
    }
  }

  /** The identities found are in increasing order, and exactly those some secret's hash of the address names. */
  lemma {:induction false} FoundIdentitiesAre(hashes: map<(nat, nat), nat>, secrets: seq<nat>, ip: nat)
    ensures Increasing(FoundIdentities(hashes, secrets, ip))
    ensures forall x: nat :: x in FoundIdentities(hashes, secrets, ip) <==> Names(hashes, secrets, ip, x)
    decreases |secrets|
  {
    if secrets != [] {
      var n := |secrets| - 1;
      var earlier := FoundIdentities(hashes, secrets[..n], ip);
      FoundIdentitiesAre(hashes, secrets[..n], ip);
      var hash := (secrets[n], ip);
      forall x: nat
        ensures Names(hashes, secrets, ip, x) <==> Names(hashes, secrets[..n], ip, x) || (hash in hashes && hashes[hash] == x)
      {
        assert forall k :: 0 <= k < n ==> secrets[..n][k] == secrets[k];
      }
      if hash in hashes && hashes[hash] !in earlier {
        InsertSortedIsSorted(earlier, hashes[hash]);
      }
    }
  }

  lemma {:induction false} MergedHashes(l: Ledger, primary: nat, others: seq<nat>)
    requires primary !in others && MergeAll(l, primary, others).Ok?
    ensures var hashes := MergeAll(l, primary, others).value.ids.hashes;
            && hashes.Keys == l.ids.hashes.Keys
            && forall h :: h in hashes ==> hashes[h] == if l.ids.hashes[h] in others then primary else l.ids.hashes[h]
    decreases |others|
  {
    if others != [] {
      var n := |others| - 1;
      assert forall x :: x in others <==> x in others[..n] || x == others[n];
      MergedHashes(l, primary, others[..n]);
    }
  }

  /** After a lookup every secret's hash of the address names the resolved identity: its aliases are one. */
  lemma ResolvedAliases(l: Ledger, secrets: seq<nat>, ip: nat, secret: nat)
    requires ResolveIdentity(l, secrets, ip).Ok? && secret in secrets
    ensures var resolved := ResolveIdentity(l, secrets, ip).value;
            Lookup(resolved.ledger.ids.hashes, (secret, ip)) == Some(resolved.identity)
  {
    var found := FoundIdentities(l.ids.hashes, secrets, ip);
    FoundIdentitiesAre(l.ids.hashes, secrets, ip);
    if (secret, ip) in l.ids.hashes {
      var k :| 0 <= k < |secrets| && secrets[k] == secret;
      assert Names(l.ids.hashes, secrets, ip, l.ids.hashes[(secret, ip)]);
      assert found == [found[0]] + found[1..];
    }
    if found != [] {
      MergedHashes(l, found[0], found[1..]);
    }
  }

  /** The ledger a lookup leaves keeps the invariant, except that the resolved identity may be over its limits. */
  lemma ResolveKeepsInv(l: Ledger, limits: Limits, day: nat, secrets: seq<nat>, ip: nat)
    requires Inv(l, limits, day) && ResolveIdentity(l, secrets, ip).Ok?
    ensures var resolved := ResolveIdentity(l, secrets, ip).value;
            && InvBut(resolved.ledger, limits, day, resolved.identity)
            && resolved.identity in resolved.ledger.ids.known
            && |resolved.ledger.uploads| == |l.uploads|
  {
    var found := FoundIdentities(l.ids.hashes, secrets, ip);
    FoundIdentitiesAre(l.ids.hashes, secrets, ip);
    if found != [] {
      assert found[0] in found;
      assert InvBut(l, limits, day, found[0]);
      MergeAllKeepsInv(l, limits, day, found[0], found[1..]);
      SameRows(MergeAll(l, found[0], found[1..]).value, ResolveIdentity(l, secrets, ip).value.ledger, limits, day, found[0]);
    } else {
      SameRows(l, ResolveIdentity(l, secrets, ip).value.ledger, limits, day, l.ids.next);
    }
  }

  lemma SameRows(l: Ledger, next: Ledger, limits: Limits, day: nat, open_: nat)
    requires InvBut(l, limits, day, open_) && next == l.(ids := next.ids) && IdsOk(next)
    ensures InvBut(next, limits, day, open_)
  {
    forall s: nat | s < |next.uploads| ensures RowOk(next, s, day) {
      assert RowOk(l, s, day);
    }
    forall i | i != open_ ensures Committed(next, i, day) <= limits.dailyQuotaBytes {
      assert Committed(l, i, day) <= limits.dailyQuotaBytes;
    }
  }

  // Reservation.

  lemma AdmitKeepsInv(l: Ledger, limits: Limits, identity: nat, bytes: nat, request: ReserveRequest, now: nat, env: ReserveEnv)
    requires InvBut(l, limits, DayOf(now), identity) && identity in l.ids.known && env.created.Ok?
    requires RefusedByLimits(l, limits, identity, bytes, DayOf(now)).None?
    ensures Inv(Admitted(l, identity, bytes, request, now, env), limits, DayOf(now))
  {
    var next := Admitted(l, identity, bytes, request, now, env);
    RowAppended(l.uploads, l.chargedOn, next.uploads[|l.uploads|], DayOf(now));
    forall s: nat | s < |next.uploads| ensures RowOk(next, s, DayOf(now)) {
      if s < |l.uploads| {
        assert RowOk(l, s, DayOf(now));
      }
    }
    forall i ensures Committed(next, i, DayOf(now)) <= limits.dailyQuotaBytes
    {
      assert i != identity ==> Committed(l, i, DayOf(now)) <= limits.dailyQuotaBytes;
    }
    forall i ensures ActiveSessions(next.uploads, i) <= limits.maxActiveSessions {
      assert i != identity ==> Committed(l, i, DayOf(now)) <= limits.dailyQuotaBytes;
    }
  }

  /** What a committed reservation consists of. */
  lemma ReserveCommits(l: Ledger, limits: Limits, secrets: seq<nat>, request: ReserveRequest, now: nat, env: ReserveEnv)
    requires Reserve(l, limits, secrets, request, now, env).result.Ok?
    ensures request.ip.Some? && env.created.Ok? && ResolveIdentity(l, secrets, request.ip.value).Ok?
    ensures var resolved := ResolveIdentity(l, secrets, request.ip.value).value;
            var bytes := Requested(limits, request.declared);
            && RefusedByLimits(resolved.ledger, limits, resolved.identity, bytes, DayOf(now)).None?
            && (request.expiry.Some? ==> request.token !in resolved.ledger.caps)
            && Reserve(l, limits, secrets, request, now, env)
               == Step(Ok(|resolved.ledger.uploads|), Admitted(resolved.ledger, resolved.identity, bytes, request, now, env))
  {
  }

  /** A committed reservation keeps the invariant, merges included; a refused one leaves the ledger as it was. */
  lemma ReserveKeepsInv(l: Ledger, limits: Limits, secrets: seq<nat>, request: ReserveRequest, now: nat, env: ReserveEnv)
    requires Inv(l, limits, DayOf(now))
    ensures var step := Reserve(l, limits, secrets, request, now, env);
            && Inv(step.after, limits, DayOf(now))
            && (step.result.Ok? ==> step.result.value == |l.uploads| && |step.after.uploads| == |l.uploads| + 1)
  {
    var step := Reserve(l, limits, secrets, request, now, env);
    if step.result.Ok? {
      ReserveCommits(l, limits, secrets, request, now, env);
      ResolveKeepsInv(l, limits, DayOf(now), secrets, request.ip.value);
      var resolved := ResolveIdentity(l, secrets, request.ip.value).value;
      AdmitKeepsInv(resolved.ledger, limits, resolved.identity, Requested(limits, request.declared), request, now, env);
    }
  }

  // Opening.

  /** The invariant of a database whose stored budget and limits are not yet trusted. */
  ghost predicate Stored(l: Ledger, day: nat) {
    RowsOk(l, day) && ChargesOk(l) && IdsOk(l)
  }

  /** Validation fails or establishes the invariant for the new limits, whatever budget was stored. */
  lemma ValidateEstablishesInv(l: Ledger, limits: Limits, secrets: seq<nat>, now: nat, files: FileAnswers)
    requires Stored(l, DayOf(now))
    ensures var step := ValidateStartup(l, limits, secrets, now, files);
            step.result.Ok? ==> Inv(step.after, limits, DayOf(now))
  {
    var step := ValidateStartup(l, limits, secrets, now, files);
    if step.result.Ok? {
      forall s: nat | s < |l.uploads| ensures RowOk(step.after, s, DayOf(now)) {
        assert RowOk(l, s, DayOf(now));
      }
      forall i
        ensures Committed(step.after, i, DayOf(now)) <= limits.dailyQuotaBytes
        ensures ActiveSessions(l.uploads, i) <= limits.maxActiveSessions
      {
        IdentityFits(l, limits, i, DayOf(now));
      }
    }
  }

  lemma IdentityFits(l: Ledger, limits: Limits, i: nat, day: nat)
    requires CommitmentsFit(l, limits, day)
    ensures Committed(l, i, day) <= limits.dailyQuotaBytes && ActiveSessions(l.uploads, i) <= limits.maxActiveSessions
  {
    if k :| 0 <= k < |l.uploads| && l.uploads[k].state.IsReserved() && l.uploads[k].identity == i {
    } else {
      SumZero(HeldByColumn(l.uploads, i));
      SumZero(ActiveColumn(l.uploads, i));
      assert (i, day) in l.daily ==> (i, day).1 == day;
    }
  }
}
