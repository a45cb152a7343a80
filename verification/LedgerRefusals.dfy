/**
 * Every refusal is true: the error a transaction answers with names a reason the caller can check in the tables
 * and the arguments, or is the error the environment reported. On a ledger that satisfies the invariant the
 * error for inconsistent accounting is kept for one case: the totals of all owners of an address leave 64 bits.
 */
module LedgerRefusals {
  import opened Prelude
  import opened LedgerTables
  import opened LedgerTransactions
  import opened LedgerAdmission
  import opened LedgerInvariant
  import opened LedgerOutcomes
  import opened LedgerReservation

  /** Why a session and its token are not accepted. */
  predicate Stranger(l: Ledger, s: nat, token: nat, e: LimitError) {
    || (e == UnknownSession && |l.uploads| <= s)
    || (e == Unauthorized && s < |l.uploads| && l.uploads[s].token != token)
  }

  /** Why a lease of this length cannot be had. */
  predicate LeaseRefusal(l: Ledger, s: nat, token: nat, duration: Duration, now: nat, e: LimitError) {
    || (e == CapabilityExpired && ((duration.secs == 0 && duration.nanos == 0) || !CapabilityLive(l, s, token, now)))
    || (e == InvalidConfiguration && now + RoundedUp(duration) > 0x7fff_ffff_ffff_ffff)
  }

  lemma ClaimRefusal(l: Ledger, s: nat, token: nat, duration: Duration, now: nat)
    ensures var result := ClaimLease(l, s, token, duration, now).result;
            result.Err? ==>
              if !Known(l, s, token) then Stranger(l, s, token, result.error)
              else
                || (result.error == InvalidTransition && l.uploads[s].state != Reserved)
                || LeaseRefusal(l, s, token, duration, now, result.error)
  {
  }

  lemma RenewRefusal(l: Ledger, s: nat, token: nat, duration: Duration, now: nat)
    ensures var result := RenewLease(l, s, token, duration, now).result;
            result.Err? ==>
              if !Known(l, s, token) then Stranger(l, s, token, result.error)
              else
                || (result.error == InvalidTransition
                      && !(l.uploads[s].state == Receiving && l.uploads[s].lease.Some? && now < l.uploads[s].lease.value))
                || LeaseRefusal(l, s, token, duration, now, result.error)
  {
  }

  /** Why a session that may grow gets no more bytes. */
  predicate NoRoom(l: Ledger, limits: Limits, s: nat, delta: nat, lease: Option<Duration>, now: nat, env: ExpandEnv, e: LimitError)
    requires s < |l.uploads|
  {
    var u := l.uploads[s];
    || (e == DailyQuotaExceeded && Committed(l, u.identity, now / 86_400) + delta > limits.dailyQuotaBytes)
    || (e == GlobalCapacityExceeded && l.budget + delta > limits.maxGlobalReserved)
    || (e == DiskSafetyMargin && env.available.Ok? && env.available.value < delta + limits.diskSafetyMargin)
    || (e == DiskSafetyMargin && env.availableAfter.Ok? && env.availableAfter.value < limits.diskSafetyMargin)
    || env.available == Err(e) || env.resizeError == Some(e) || env.availableAfter == Err(e)
    || (e == CapabilityExpired && lease.Some? && (u.token !in l.caps || l.caps[u.token].session != s || now >= SQL_MAX))
    || (e == InvalidConfiguration && lease.Some? && now + RoundedUp(lease.value) > SQL_MAX)
  }

  lemma ExpandRefusal(l: Ledger, limits: Limits, s: nat, token: nat, required: nat, lease: Option<Duration>, now: nat, env: ExpandEnv)
    requires Inv(l, limits, DayOf(now)) && limits.Valid()
    ensures var result := Expand(l, limits, s, token, required, lease, now, env).result;
            result.Err? ==>
              || (result.error == InvalidSize && required == 0)
              || (result.error == FileTooLarge && required > limits.maxFileBytes)
              || (if !Known(l, s, token) then Stranger(l, s, token, result.error) else
                  || (result.error == InvalidTransition && !MayGrow(l.uploads[s], lease, now))
                  || env.fileError == Some(result.error)
                  || (l.uploads[s].reserved < required &&
                      NoRoom(l, limits, s, required - l.uploads[s].reserved, lease, now, env, result.error)))
  {
    if s < |l.uploads| {
      assert Committed(l, l.uploads[s].identity, DayOf(now)) <= limits.dailyQuotaBytes;
    }
  }

  lemma TransitionRefusal(l: Ledger, limits: Limits, s: nat, token: nat, target: UploadState, fileError: Option<LimitError>, day: nat)
    requires Inv(l, limits, day)
    ensures var result := Transition(l, s, token, target, fileError).result;
            result.Err? ==>
              if !Known(l, s, token) then Stranger(l, s, token, result.error)
              else
                || (result.error == InvalidTransition
                      && !(LegalMove(l.uploads[s].state, target) && (l.uploads[s].state == Uploaded ==> s !in l.settlements)))
                || (l.uploads[s].state == Uploaded && fileError == Some(result.error))
  {
    TransitionOutcome(l, limits, s, token, target, fileError, day);
  }

  lemma ExpireRefusal(l: Ledger, limits: Limits, s: nat, token: nat, day: nat)
    requires Inv(l, limits, day)
    ensures var result := Expire(l, s, token).result;
            result.Err? ==>
              || Stranger(l, s, token, result.error)
              || (Known(l, s, token) && result.error == InvalidTransition
                  && (l.uploads[s].state == Rejected || (s in l.settlements && l.settlements[s].possible)))
  {
    ExpireOutcome(l, limits, s, token, day);
  }

  lemma SettleRefusal(l: Ledger, limits: Limits, s: nat, token: nat, actual: nat, now: nat, env: SettleEnv)
    requires Inv(l, limits, DayOf(now)) && limits.Valid()
    ensures var result := Settle(l, limits, s, token, actual, now, env).result;
            result.Err? ==>
              || (result.error == FileTooLarge && actual > limits.maxFileBytes)
              || (if !Known(l, s, token) then Stranger(l, s, token, result.error) else
                  || (result.error == InvalidTransition && l.uploads[s].state != Receiving)
                  || (result.error == SettlementExceedsReservation && actual > l.uploads[s].reserved)
                  || env.pinError == Some(result.error) || env.verifyError == Some(result.error)
                  || (result.error == OperationTimedOut && env.late))
  {
    if s < |l.uploads| && l.uploads[s].state == Receiving && actual <= l.uploads[s].reserved {
      ReservationGuaranteesSettlement(l, limits, s, actual, DayOf(now));
    }
  }

  /** Why a delivery cannot be claimed, marked or acknowledged. */
  lemma DeliveryRefusal(l: Ledger, s: nat, attempt: nat, fileError: Option<LimitError>)
    ensures var result := BeginDelivery(l, s, attempt).result;
            result.Err? ==>
              || (result.error == Database && |l.uploads| <= s)
              || (result.error == InvalidTransition && s < |l.uploads|
                  && !(Deliverable(l, s) && l.settlements[s].attempt == None))
    ensures var result := MarkDelivery(l, s, attempt, fileError).result;
            result.Err? ==>
              || (result.error == Database && |l.uploads| <= s)
              || (result.error == InvalidTransition && s < |l.uploads|
                  && !(Deliverable(l, s) && l.settlements[s].attempt == Some(attempt)))
              || (fileError == Some(result.error) && s < |l.uploads| && l.uploads[s].state == Uploaded)
    ensures var result := Acknowledge(l, s, fileError).result;
            result.Err? ==>
              || (result.error == Database && |l.uploads| <= s)
              || (result.error == InvalidTransition && s < |l.uploads| && l.uploads[s].state != Uploaded)
              || (fileError == Some(result.error) && s in l.settlements)
  {
  }

  /** Why the caller or the environment stops a reservation. */
  predicate Unacceptable(l: Ledger, limits: Limits, request: ReserveRequest, env: ReserveEnv, e: LimitError) {
    var bytes := Asked(limits, request.declared);
    || (e == InvalidSize && bytes == 0)
    || (e == FileTooLarge && bytes > limits.maxFileBytes)
    || (e == InvalidIp && request.ip == None)
    || (e == OperationTimedOut && (env.lateAtStart || env.lateAfterScan || env.lateAtCommit))
    || (e == GlobalCapacityExceeded && env.entries.Ok? && env.entries.value >= 4096)
    || (e == DiskSafetyMargin && env.available.Ok? && env.available.value < bytes + limits.diskSafetyMargin)
    || (e == DiskSafetyMargin && env.availableAfter.Ok? && env.availableAfter.value < limits.diskSafetyMargin)
    || (e == Database && request.expiry.Some? && request.token in l.caps)
    || env.entries == Err(e) || env.available == Err(e) || env.created == Err(e) || env.availableAfter == Err(e)
    || env.capabilityError == Some(e)
  }

  /** Why the owners of the address leave no room. */
  ghost predicate Unaffordable(l: Ledger, limits: Limits, owners: set<nat>, bytes: nat, day: nat, e: LimitError) {
    || (e == InvalidSize && !SumsFit(l, owners))
    || (e == SessionLimitExceeded && |OpenOf(l.uploads, owners)| >= limits.maxActiveSessions)
    || (e == DailyQuotaExceeded
        && UsedOf(l.daily, owners, day, l.ids.next) + HeldOf(l.uploads, owners) + bytes > limits.dailyQuotaBytes)
    || (e == GlobalCapacityExceeded && l.budget + bytes > limits.maxGlobalReserved)
    || (e == AccountingInvariant && UsedOf(l.daily, owners, day, l.ids.next) + HeldOf(l.uploads, owners) + bytes >= U64_LIMIT)
  }

  lemma ReserveRefusal(l: Ledger, limits: Limits, secrets: seq<nat>, request: ReserveRequest, now: nat, env: ReserveEnv)
    requires Inv(l, limits, DayOf(now)) && limits.Valid()
    ensures var result := Reserve(l, limits, secrets, request, now, env).result;
            result.Err? ==>
              || Unacceptable(l, limits, request, env, result.error)
              || (request.ip.Some?
                  && Unaffordable(l, limits, Owners(l, secrets, request.ip.value), Asked(limits, request.declared), now / 86_400,
                                  result.error))
  {
    var result := Reserve(l, limits, secrets, request, now, env).result;
    if request.ip.Some? && result.Err? && RefusedEarly(limits, request, env).None? {
      LooksUp(l, secrets, request.ip.value);
      if ResolveIdentity(l, secrets, request.ip.value).Ok? {
        TestsRefuse(l, limits, secrets, request, now, env);
      } else {
        MergeErrorIs(l, secrets, request.ip.value);
      }
    }
  }

  lemma TestsRefuse(l: Ledger, limits: Limits, secrets: seq<nat>, request: ReserveRequest, now: nat, env: ReserveEnv)
    requires Inv(l, limits, DayOf(now)) && limits.Valid()
    requires request.ip.Some? && RefusedEarly(limits, request, env).None? && ResolveIdentity(l, secrets, request.ip.value).Ok?
    requires Reserve(l, limits, secrets, request, now, env).result.Err?
    ensures var e := Reserve(l, limits, secrets, request, now, env).result.error;
            || Unacceptable(l, limits, request, env, e)
            || Unaffordable(l, limits, Owners(l, secrets, request.ip.value), Asked(limits, request.declared), now / 86_400, e)
  {
    LooksUp(l, secrets, request.ip.value);
    var resolved := ResolveIdentity(l, secrets, request.ip.value).value;
    LimitsRefuse(l, resolved.ledger, limits, Owners(l, secrets, request.ip.value), resolved.identity,
                 Asked(limits, request.declared), now / 86_400);
    LateRefuse(l, resolved.ledger, limits, request, env);
  }

  lemma LimitsRefuse(l: Ledger, found: Ledger, limits: Limits, owners: set<nat>, identity: nat, bytes: nat, day: nat)
    requires Totals(l, found, owners, identity) && limits.Valid()
    requires found.budget == l.budget <= limits.maxGlobalReserved && bytes <= limits.maxFileBytes
    ensures RefusedByLimits(found, limits, identity, bytes, day).Some? ==>
              Unaffordable(l, limits, owners, bytes, day, RefusedByLimits(found, limits, identity, bytes, day).value)
  {
    assert Used(found.daily, identity, day) == UsedOf(l.daily, owners, day, l.ids.next);
  }

  lemma LateRefuse(l: Ledger, found: Ledger, limits: Limits, request: ReserveRequest, env: ReserveEnv)
    requires found.caps == l.caps
    ensures var late := RefusedLate(found, limits, Asked(limits, request.declared), request, env);
            late.Some? ==> Unacceptable(l, limits, request, env, late.value)
  {
  }

  /** A lookup fails only for a sum of usage that does not fit. */
  lemma MergeErrorIs(l: Ledger, secrets: seq<nat>, ip: nat)
    ensures ResolveIdentity(l, secrets, ip).Err? ==> ResolveIdentity(l, secrets, ip).error == InvalidSize
  {
    var found := FoundIdentities(l.ids.hashes, secrets, ip);
    if found != [] {
      MergeAllErrorIs(l, found[0], found[1..]);
    }
  }

  lemma {:induction false} MergeAllErrorIs(l: Ledger, primary: nat, others: seq<nat>)
    ensures MergeAll(l, primary, others).Err? ==> MergeAll(l, primary, others).error == InvalidSize
    decreases |others|
  {
    if others != [] {
      MergeAllErrorIs(l, primary, others[..|others| - 1]);
    }
  }
}
