/**
 * What every ledger transaction keeps: the reservation budget and the daily usage equal the
 * totals of the session rows, every identity's commitments stay within its limits, and the
 * outboxes agree with the session states.
 */
module LedgerInvariant {
  import opened Prelude
  import opened LedgerTables
  import opened LedgerTransactions

  /** Session s agrees with its rows in both outboxes. */
  ghost predicate RowOk(l: Ledger, s: nat, day: nat)
    requires s < |l.uploads| && |l.chargedOn| == |l.uploads|
  {
    var u := l.uploads[s];
    && (!u.state.IsReserved() ==> u.reserved == 0)
    && (u.state.IsReserved() ==> u.actual.None? && s !in l.settlements)
    && (u.state == Uploaded || u.state == Probing || u.state == Queued ==> u.actual.Some?)
    && (u.actual.Some? ==> l.chargedOn[s] <= day)
    && (s in l.settlements ==>
          && (u.state == Uploaded || u.state == Expired)
          && u.actual == Some(l.settlements[s].actual)
          && l.settlements[s].day == l.chargedOn[s]
          && (l.settlements[s].possible ==> u.state == Uploaded))
    && (s in l.cleanups || s in l.removed ==> u.state.IsTerminal())
    && (u.state.IsTerminal() && u.path.Some? ==> s in l.cleanups || s in l.removed)
  }

  ghost predicate RowsOk(l: Ledger, day: nat) {
    && |l.chargedOn| == |l.uploads|
    && (forall s :: s in l.settlements ==> s < |l.uploads|)
    && (forall s :: s in l.cleanups ==> s < |l.uploads|)
    && (forall s :: s in l.removed ==> s < |l.uploads|)
    && (forall s :: 0 <= s < |l.uploads| ==> RowOk(l, s, day))
  }

  /** The budget is the total of what active sessions hold, and within its limit. */
  ghost predicate BudgetOk(l: Ledger, limits: Limits) {
    l.budget == TotalHeld(l.uploads) <= limits.maxGlobalReserved
  }

  /** `daily_usage` of every identity and day is the total charged to its sessions that day. */
  ghost predicate ChargesOk(l: Ledger) {
    && |l.chargedOn| == |l.uploads|
    && forall i, d :: Used(l.daily, i, d) == TotalCharged(l.uploads, l.chargedOn, i, d)
  }

  /** What an identity has used today and still holds. */
  function Committed(l: Ledger, identity: nat, day: nat): nat {
    Used(l.daily, identity, day) + TotalHeldBy(l.uploads, identity)
  }

  ghost predicate QuotaOk(l: Ledger, limits: Limits, day: nat) {
    forall i ::
      && Committed(l, i, day) <= limits.dailyQuotaBytes
      && ActiveSessions(l.uploads, i) <= limits.maxActiveSessions
  }

  /** The foreign keys into `ip_identities`, and the width of the usage column. */
  ghost predicate IdsOk(l: Ledger) {
    && (forall s :: 0 <= s < |l.uploads| ==> l.uploads[s].identity in l.ids.known)
    && (forall key :: key in l.daily ==> key.0 in l.ids.known && l.daily[key] <= SQL_MAX)
    && (forall h :: h in l.ids.hashes ==> l.ids.hashes[h] in l.ids.known)
    && (forall i :: i in l.ids.known ==> i < l.ids.next)
  }

  ghost predicate Inv(l: Ledger, limits: Limits, day: nat) {
    && RowsOk(l, day)
    && BudgetOk(l, limits)
    && ChargesOk(l)
    && QuotaOk(l, limits, day)
    && IdsOk(l)
  }

  lemma EmptyLedgerInv(limits: Limits, day: nat)
    ensures Inv(EMPTY_LEDGER, limits, day)
  {
  }

  /** Nothing has been charged to a day that has not come. */
  lemma FutureUnused(l: Ledger, identity: nat, today: nat, day: nat)
    requires RowsOk(l, today) && ChargesOk(l) && today < day
    ensures Used(l.daily, identity, day) == 0
  {
    var column := ChargeColumn(l.uploads, l.chargedOn, identity, day);
    forall k | 0 <= k < |column| ensures column[k] == 0 {
      assert RowOk(l, k, today);
    }
    Sums.SumZero(column);
  }

  /** The invariant survives the passing of days: an unused day leaves only what is held. */
  lemma DayRollover(l: Ledger, limits: Limits, today: nat, day: nat)
    requires Inv(l, limits, today) && today <= day
    ensures Inv(l, limits, day)
  {
    forall s | 0 <= s < |l.uploads| ensures RowOk(l, s, day) {
      assert RowOk(l, s, today);
    }
    forall i ensures Committed(l, i, day) <= limits.dailyQuotaBytes {
      assert Committed(l, i, today) <= limits.dailyQuotaBytes;
      if today < day {
        FutureUnused(l, i, today, day);
      }
    }
    forall i ensures ActiveSessions(l.uploads, i) <= limits.maxActiveSessions {
      assert Committed(l, i, today) <= limits.dailyQuotaBytes;
    }
  }

  /** Only the rows of session s differ in the outboxes of the two states. */
  ghost predicate OnlyOutboxesOf(l: Ledger, next: Ledger, s: nat) {
    && (forall k: nat :: k != s ==> Lookup(next.settlements, k) == Lookup(l.settlements, k))
    && (forall k: nat :: k != s ==> (k in next.cleanups <==> k in l.cleanups))
    && (forall k: nat :: k != s ==> (k in next.removed <==> k in l.removed))
  }

  /** The totals of `next` follow a change of session s from row `u` to row `v`. */
  ghost predicate TotalsFollow(l: Ledger, next: Ledger, s: nat, v: Upload, day: nat)
    requires s < |l.uploads| && |l.chargedOn| == |l.uploads|
  {
    var u := l.uploads[s];
    && next.uploads == l.uploads[s := v]
    && next.chargedOn == l.chargedOn[s := day]
    && v.identity == u.identity
    && next.budget + Held(u) == l.budget + Held(v)
    && forall i, d :: Used(next.daily, i, d) + Charge(u, l.chargedOn[s], i, d) == Used(l.daily, i, d) + Charge(v, day, i, d)
  }

  /** A transaction that touches one session keeps the invariant when its own row and totals are right. */
  lemma OneSessionKeepsInv(l: Ledger, next: Ledger, limits: Limits, today: nat, s: nat, v: Upload, day: nat)
    requires Inv(l, limits, today) && s < |l.uploads|
    requires TotalsFollow(l, next, s, v, day) && OnlyOutboxesOf(l, next, s)
    requires RowOk(next, s, today)
    requires next.budget <= limits.maxGlobalReserved
    requires Used(next.daily, v.identity, today) + Held(v) + TotalHeldBy(l.uploads, v.identity)
             <= limits.dailyQuotaBytes + Held(l.uploads[s])
    requires v.state.IsReserved() ==> l.uploads[s].state.IsReserved()
    requires next.ids == l.ids
    requires forall key :: key in next.daily ==> (key in l.daily || key.0 == v.identity) && next.daily[key] <= SQL_MAX
    ensures Inv(next, limits, today)
  {
    RowReplaced(l.uploads, l.chargedOn, s, v, day);
    forall k: nat | k < |next.uploads| ensures RowOk(next, k, today) {
      if k != s {
        assert RowOk(l, k, today);
        assert Lookup(next.settlements, k) == Lookup(l.settlements, k);
      }
    }
    forall k: nat | k in next.settlements ensures k < |next.uploads| {
      if k != s { assert Lookup(next.settlements, k) == Lookup(l.settlements, k); }
    }
    forall i ensures Committed(next, i, today) <= limits.dailyQuotaBytes
    {
      assert Committed(l, i, today) <= limits.dailyQuotaBytes;
      assert TotalHeldBy(next.uploads, i) + HeldBy(l.uploads[s], i) == TotalHeldBy(l.uploads, i) + HeldBy(v, i);
      if i != v.identity {
        assert Charge(v, day, i, today) == 0 == Charge(l.uploads[s], l.chargedOn[s], i, today);
      }
    }
    forall i ensures ActiveSessions(next.uploads, i) <= limits.maxActiveSessions
    {
      assert Committed(l, i, today) <= limits.dailyQuotaBytes;
      assert ActiveSessions(next.uploads, i) + ActiveFor(l.uploads[s], i) == ActiveSessions(l.uploads, i) + ActiveFor(v, i);
    }
  }

  /** What a session holds is covered by the budget and by its identity's commitments. */
  lemma HeldIsCovered(l: Ledger, limits: Limits, today: nat, s: nat)
    requires Inv(l, limits, today) && s < |l.uploads|
    ensures Held(l.uploads[s]) == l.uploads[s].reserved <= l.budget
    ensures l.uploads[s].reserved <= TotalHeldBy(l.uploads, l.uploads[s].identity)
    ensures Committed(l, l.uploads[s].identity, today) <= limits.dailyQuotaBytes
  {
    assert RowOk(l, s, today);
    var u := l.uploads[s];
    RowReplaced(l.uploads, l.chargedOn, s, u, l.chargedOn[s]);
    assert HeldBy(u, u.identity) <= TotalHeldBy(l.uploads, u.identity);
  }

  /** A transaction that changes neither bytes held nor bytes charged of a session. */
  lemma PlainUpdateKeepsInv(l: Ledger, next: Ledger, limits: Limits, today: nat, s: nat, v: Upload)
    requires Inv(l, limits, today) && s < |l.uploads|
    requires next.uploads == l.uploads[s := v] && next.chargedOn == l.chargedOn
    requires next.budget == l.budget && next.daily == l.daily && next.ids == l.ids
    requires v.identity == l.uploads[s].identity && v.actual == l.uploads[s].actual && v.reserved == l.uploads[s].reserved
    requires v.state.IsReserved() == l.uploads[s].state.IsReserved()
    requires OnlyOutboxesOf(l, next, s)
    requires RowOk(next, s, today)
    ensures Inv(next, limits, today)
  {
    HeldIsCovered(l, limits, today, s);
    OneSessionKeepsInv(l, next, limits, today, s, v, l.chargedOn[s]);
  }

  lemma ClaimLeaseKeepsInv(l: Ledger, limits: Limits, s: nat, token: nat, duration: Duration, now: nat, today: nat)
    requires Inv(l, limits, today)
    ensures Inv(ClaimLease(l, s, token, duration, now).after, limits, today)
  {
    var step := ClaimLease(l, s, token, duration, now);
    if step.result.Ok? {
      assert RowOk(l, s, today);
      PlainUpdateKeepsInv(l, step.after, limits, today, s, step.after.uploads[s]);
    }
  }

  lemma RenewLeaseKeepsInv(l: Ledger, limits: Limits, s: nat, token: nat, duration: Duration, now: nat, today: nat)
    requires Inv(l, limits, today)
    ensures Inv(RenewLease(l, s, token, duration, now).after, limits, today)
  {
    var step := RenewLease(l, s, token, duration, now);
    if step.result.Ok? {
      assert RowOk(l, s, today);
      PlainUpdateKeepsInv(l, step.after, limits, today, s, step.after.uploads[s]);
    }
  }

  /** A session that holds more than before, within quota and budget. */
  lemma GrownKeepsInv(l: Ledger, limits: Limits, day: nat, s: nat, bytes: nat, lease: Option<nat>)
    requires Inv(l, limits, day) && s < |l.uploads| && l.uploads[s].state.IsReserved() && l.uploads[s].reserved <= bytes
    requires Committed(l, l.uploads[s].identity, day) + bytes <= limits.dailyQuotaBytes + l.uploads[s].reserved
    requires l.budget + bytes <= limits.maxGlobalReserved + l.uploads[s].reserved
    ensures Inv(l.(uploads := l.uploads[s := l.uploads[s].(reserved := bytes, lease := lease)],
                   budget := l.budget + bytes - l.uploads[s].reserved), limits, day)
  {
    var next := l.(uploads := l.uploads[s := l.uploads[s].(reserved := bytes, lease := lease)],
                   budget := l.budget + bytes - l.uploads[s].reserved);
    assert RowOk(l, s, day);
    OneSessionKeepsInv(l, next, limits, day, s, next.uploads[s], l.chargedOn[s]);
  }

  lemma GrowKeepsInv(l: Ledger, limits: Limits, s: nat, required: nat, lease: Option<Duration>, now: nat, env: ExpandEnv)
    requires Inv(l, limits, DayOf(now)) && limits.Valid() && s < |l.uploads|
    requires MayExpand(l.uploads[s], lease, now) && l.uploads[s].reserved < required <= limits.maxFileBytes
    ensures var step := Grow(l, limits, s, l.uploads[s], required, lease, now, env);
            && Inv(step.after, limits, DayOf(now))
            && (step.result == Err(AccountingInvariant) ==> AccountingInvariant in EnvErrors(env))
  {
    var u := l.uploads[s];
    var step := Grow(l, limits, s, u, required, lease, now, env);
    HeldIsCovered(l, limits, DayOf(now), s);
    if step.result.Ok? {
      GrownKeepsInv(l, limits, DayOf(now), s, required, step.after.uploads[s].lease);
    }
  }

  /** Expansion stays within the quota and the budget, and never meets the accounting error by itself. */
  lemma ExpandKeepsInv(l: Ledger, limits: Limits, s: nat, token: nat, required: nat,
                       lease: Option<Duration>, now: nat, env: ExpandEnv)
    requires Inv(l, limits, DayOf(now)) && limits.Valid()
    ensures var step := Expand(l, limits, s, token, required, lease, now, env);
            && Inv(step.after, limits, DayOf(now))
            && (step.result == Err(AccountingInvariant) ==> AccountingInvariant in EnvErrors(env))
  {
    if 0 < required <= limits.maxFileBytes && s < |l.uploads| && MayExpand(l.uploads[s], lease, now)
       && l.uploads[s].reserved < required {
      GrowKeepsInv(l, limits, s, required, lease, now, env);
    }
  }

  /** The errors the environment itself may hand to an expansion. */
  function EnvErrors(env: ExpandEnv): set<LimitError> {
    (if env.fileError.Some? then {env.fileError.value} else {})
    + (if env.available.Err? then {env.available.error} else {})
    + (if env.resizeError.Some? then {env.resizeError.value} else {})
    + (if env.availableAfter.Err? then {env.availableAfter.error} else {})
  }

  /** Rejecting a session that is not settled or no longer pending. */
  lemma RejectKeepsInv(l: Ledger, next: Ledger, limits: Limits, s: nat, today: nat)
    requires Inv(l, limits, today) && s < |l.uploads| && !l.uploads[s].state.IsTerminal() && s !in l.settlements
    requires l.uploads[s].reserved <= l.budget
    requires next == l.(uploads := l.uploads[s := l.uploads[s].(state := Rejected, reserved := 0)],
                        budget := l.budget - l.uploads[s].reserved,
                        cleanups := EnqueueCleanup(l.cleanups, l.uploads, s))
    ensures Inv(next, limits, today)
  {
    HeldIsCovered(l, limits, today, s);
    assert RowOk(l, s, today);
    OneSessionKeepsInv(l, next, limits, today, s, next.uploads[s], l.chargedOn[s]);
  }

  lemma TransitionKeepsInv(l: Ledger, limits: Limits, s: nat, token: nat, target: UploadState,
                           fileError: Option<LimitError>, today: nat)
    requires Inv(l, limits, today)
    ensures var step := Transition(l, s, token, target, fileError);
            && Inv(step.after, limits, today)
            && (step.result == Err(AccountingInvariant) ==> fileError == Some(AccountingInvariant))
  {
    var step := Transition(l, s, token, target, fileError);
    if s < |l.uploads| {
      HeldIsCovered(l, limits, today, s);
      assert RowOk(l, s, today);
    }
    if step.result.Ok? {
      if target == Rejected {
        RejectKeepsInv(l, step.after, limits, s, today);
      } else {
        PlainUpdateKeepsInv(l, step.after, limits, today, s, step.after.uploads[s]);
      }
    }
  }

  /** Retiring a session that keeps its charge. */
  lemma RetireKeepsInv(l: Ledger, limits: Limits, today: nat, s: nat)
    requires Inv(l, limits, today) && s < |l.uploads|
    requires l.uploads[s].state != Rejected && !DeliveryPossible(l, s)
    ensures l.uploads[s].reserved <= l.budget
    ensures Inv(Retire(l, s, l.uploads[s].actual, l.budget - l.uploads[s].reserved), limits, today)
  {
    HeldIsCovered(l, limits, today, s);
    assert RowOk(l, s, today);
    var next := Retire(l, s, l.uploads[s].actual, l.budget - l.uploads[s].reserved);
    OneSessionKeepsInv(l, next, limits, today, s, next.uploads[s], l.chargedOn[s]);
  }

  lemma ExpireKeepsInv(l: Ledger, limits: Limits, s: nat, token: nat, today: nat)
    requires Inv(l, limits, today)
    ensures var step := Expire(l, s, token);
            Inv(step.after, limits, today) && step.result != Err(AccountingInvariant)
  {
    var step := Expire(l, s, token);
    if s < |l.uploads| && l.uploads[s].state != Rejected && !DeliveryPossible(l, s) {
      RetireKeepsInv(l, limits, today, s);
    }
  }

  /**
   * A reservation guarantees its settlement: neither the quota nor the accounting test can refuse it,
   * whatever the day on which it settles.
   */
  lemma ReservationGuaranteesSettlement(l: Ledger, limits: Limits, s: nat, actual: nat, day: nat)
    requires Inv(l, limits, day) && limits.Valid() && s < |l.uploads|
    requires actual <= l.uploads[s].reserved
    ensures SettledUsage(l, limits, l.uploads[s], actual, day) == Ok(l.budget - l.uploads[s].reserved)
  {
    HeldIsCovered(l, limits, day, s);
  }

  lemma SettleKeepsInv(l: Ledger, limits: Limits, s: nat, token: nat, actual: nat, now: nat, env: SettleEnv)
    requires Inv(l, limits, DayOf(now)) && limits.Valid()
    ensures var step := Settle(l, limits, s, token, actual, now, env);
            Inv(step.after, limits, DayOf(now))
  {
    var step := Settle(l, limits, s, token, actual, now, env);
    if step.result.Ok? {
      ReservationGuaranteesSettlement(l, limits, s, actual, DayOf(now));
      SettledKeepsInv(l, limits, s, actual, now);
    }
  }

  lemma SettledKeepsInv(l: Ledger, limits: Limits, s: nat, actual: nat, now: nat)
    requires Inv(l, limits, DayOf(now)) && limits.Valid()
    requires s < |l.uploads| && l.uploads[s].state == Receiving && actual <= l.uploads[s].reserved <= l.budget
    ensures Inv(Settled(l, s, actual, now, l.budget - l.uploads[s].reserved), limits, DayOf(now))
  {
    var next := Settled(l, s, actual, now, l.budget - l.uploads[s].reserved);
    HeldIsCovered(l, limits, DayOf(now), s);
    assert RowOk(l, s, DayOf(now));
    OneSessionKeepsInv(l, next, limits, DayOf(now), s, next.uploads[s], DayOf(now));
  }

  /** A settlement is refused exactly for the reasons a caller can see; quota and accounting are not among them. */
  lemma SettleOutcome(l: Ledger, limits: Limits, s: nat, token: nat, actual: nat, now: nat, env: SettleEnv)
    requires Inv(l, limits, DayOf(now)) && limits.Valid()
    requires env.pinError.None? && env.verifyError.None? && !env.late
    ensures Settle(l, limits, s, token, actual, now, env).result.Ok? <==>
              && actual <= limits.maxFileBytes
              && s < |l.uploads| && l.uploads[s].token == token
              && l.uploads[s].state == Receiving
              && actual <= l.uploads[s].reserved
  {
    if s < |l.uploads| && actual <= l.uploads[s].reserved {
      ReservationGuaranteesSettlement(l, limits, s, actual, DayOf(now));
    }
  }

  // How long a receiver's lease lasts.

  /** A claim or renewal never outlives the session's capability. */
  lemma LeaseWithinCapability(l: Ledger, s: nat, token: nat, duration: Duration, now: nat)
    ensures var step := ClaimLease(l, s, token, duration, now);
            step.result.Ok? ==> now < step.result.value <= l.caps[token].expires
                                && step.after.uploads[s].lease == Some(step.result.value)
    ensures var step := RenewLease(l, s, token, duration, now);
            step.result.Ok? ==> now < step.result.value <= l.caps[token].expires
                                && step.after.uploads[s].lease == Some(step.result.value)
  {
  }

  /** An expansion that grows does not look at that expiry: its lease stays within it exactly when the duration does. */
  lemma ExpansionLease(l: Ledger, limits: Limits, s: nat, token: nat, required: nat, duration: Duration,
                       now: nat, env: ExpandEnv)
    requires Expand(l, limits, s, token, required, Some(duration), now, env).result.Ok?
    requires required > l.uploads[s].reserved
    ensures var lease := Expand(l, limits, s, token, required, Some(duration), now, env).after.uploads[s].lease;
            && lease.Some? && token in l.caps
            && (lease.value <= l.caps[token].expires <==> now + LeaseSeconds(duration) <= l.caps[token].expires)
  {
  }
}
