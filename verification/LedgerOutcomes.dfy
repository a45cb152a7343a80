/**
 * What a caller can rely on in each transaction on one session: when it succeeds, told from what the
 * caller can see, what it then has changed, and that it keeps the ledger invariant. On a ledger that
 * satisfies the invariant no transaction is ever refused for its accounting alone.
 */
module LedgerOutcomes {
  import opened Prelude
  import opened LedgerTables
  import opened LedgerTransactions
  import opened LedgerAdmission
  import opened LedgerInvariant
  import opened LedgerRecovery
  import opened LedgerReconciliation

  /** The session exists and its token is presented. */
  predicate Known(l: Ledger, s: nat, token: nat) {
    s < |l.uploads| && l.uploads[s].token == token
  }

  predicate CapabilityLive(l: Ledger, s: nat, token: nat, now: nat) {
    token in l.caps && l.caps[token].session == s && now < l.caps[token].expires
  }

  /** The duration in whole seconds, a part of a second counted as one. */
  function RoundedUp(duration: Duration): nat {
    duration.secs + if duration.nanos > 0 then 1 else 0
  }

  /** It is the least whole number of seconds that is not shorter. */
  lemma RoundedUpIsLeast(duration: Duration)
    requires duration.nanos < 1_000_000_000
    ensures var exact := 1_000_000_000 * duration.secs + duration.nanos;
            exact <= 1_000_000_000 * RoundedUp(duration) < exact + 1_000_000_000
  {
  }

  /** A lease of this length can be stored. */
  predicate Storable(duration: Duration, now: nat) {
    (duration.secs > 0 || duration.nanos > 0) && now + RoundedUp(duration) <= SQL_MAX
  }

  /** The lease ends with the requested duration, rounded up, or with the capability if that ends first. */
  predicate LeaseGranted(l: Ledger, token: nat, duration: Duration, now: nat, lease: nat) {
    token in l.caps && now < lease == Min(now + RoundedUp(duration), l.caps[token].expires)
  }

  /** Nobody gets anywhere with a session that does not exist or with the wrong token for it. */
  lemma TokenGuards(l: Ledger, limits: Limits, s: nat, token: nat, duration: Duration, required: nat, lease: Option<Duration>,
                    now: nat, expandEnv: ExpandEnv, target: UploadState, fileError: Option<LimitError>,
                    actual: nat, settleEnv: SettleEnv, receipt: Receipt)
    requires !Known(l, s, token)
    ensures ClaimLease(l, s, token, duration, now) == Failed(l, if s < |l.uploads| then Unauthorized else UnknownSession)
    ensures RenewLease(l, s, token, duration, now) == Failed(l, if s < |l.uploads| then Unauthorized else UnknownSession)
    ensures Transition(l, s, token, target, fileError) == Failed(l, if s < |l.uploads| then Unauthorized else UnknownSession)
    ensures Expire(l, s, token) == Failed(l, if s < |l.uploads| then Unauthorized else UnknownSession)
    ensures var step := Expand(l, limits, s, token, required, lease, now, expandEnv); step.result.Err? && step.after == l
    ensures var step := Settle(l, limits, s, token, actual, now, settleEnv); step.result.Err? && step.after == l
    ensures var step := CompensateLate(l, s, token, receipt); step.result.Err? && step.after == l
  {
  }

  lemma ClaimOutcome(l: Ledger, limits: Limits, s: nat, token: nat, duration: Duration, now: nat)
    ensures var step := ClaimLease(l, s, token, duration, now);
            && (step.result.Err? ==> step.after == l)
            && (step.result.Ok? <==>
                  && Known(l, s, token) && l.uploads[s].state == Reserved
                  && CapabilityLive(l, s, token, now) && Storable(duration, now))
            && (step.result.Ok? ==>
                  && LeaseGranted(l, token, duration, now, step.result.value)
                  && step.after == l.(uploads := l.uploads[s := l.uploads[s].(state := Receiving, lease := Some(step.result.value))]))
            && forall day :: Inv(l, limits, day) ==> Inv(step.after, limits, day)
  {
    forall day | Inv(l, limits, day) ensures Inv(ClaimLease(l, s, token, duration, now).after, limits, day) {
      ClaimLeaseKeepsInv(l, limits, s, token, duration, now, day);
    }
  }

  lemma RenewOutcome(l: Ledger, limits: Limits, s: nat, token: nat, duration: Duration, now: nat)
    ensures var step := RenewLease(l, s, token, duration, now);
            && (step.result.Err? ==> step.after == l)
            && (step.result.Ok? <==>
                  && Known(l, s, token) && l.uploads[s].state == Receiving && LeaseLive(l.uploads[s].lease, now)
                  && CapabilityLive(l, s, token, now) && Storable(duration, now))
            && (step.result.Ok? ==>
                  && LeaseGranted(l, token, duration, now, step.result.value)
                  && step.after == l.(uploads := l.uploads[s := l.uploads[s].(lease := Some(step.result.value))]))
            && forall day :: Inv(l, limits, day) ==> Inv(step.after, limits, day)
  {
    forall day | Inv(l, limits, day) ensures Inv(RenewLease(l, s, token, duration, now).after, limits, day) {
      RenewLeaseKeepsInv(l, limits, s, token, duration, now, day);
    }
  }

  ghost predicate SameElsewhere<V>(table: map<nat, V>, next: map<nat, V>, key: nat) {
    forall k: nat :: k != key ==> Lookup(next, k) == Lookup(table, k)
  }

  /** A reservation of an open session may grow; a receiver's, with a lease to be renewed, only under a live lease. */
  predicate MayGrow(u: Upload, lease: Option<Duration>, now: nat) {
    && (u.state == Reserved || u.state == Receiving)
    && (lease.Some? ==>
          && u.state == Receiving && u.lease.Some? && now < u.lease.value
          && (lease.value.secs > 0 || lease.value.nanos > 0))
  }

  /** The disk reports at least this many free bytes. */
  predicate HasFree(answer: Result<nat, LimitError>, bytes: nat) {
    answer.Ok? && bytes <= answer.value
  }

  /** There is room for a reservation of `required` bytes in place of the present one. */
  predicate RoomFor(l: Ledger, limits: Limits, s: nat, required: nat, lease: Option<Duration>, now: nat, env: ExpandEnv)
    requires s < |l.uploads| && l.uploads[s].reserved <= required
  {
    var u := l.uploads[s];
    var delta := required - u.reserved;
    && Committed(l, u.identity, now / 86_400) + delta <= limits.dailyQuotaBytes
    && l.budget + delta <= limits.maxGlobalReserved
    && HasFree(env.available, delta + limits.diskSafetyMargin)
    && env.resizeError.None?
    && HasFree(env.availableAfter, limits.diskSafetyMargin)
    && (lease.Some? ==> u.token in l.caps && l.caps[u.token].session == s && now < SQL_MAX && Storable(lease.value, now))
  }

  /** The session holds `bytes`, and the budget has moved by the difference. */
  ghost predicate HoldsNow(l: Ledger, next: Ledger, s: nat, bytes: nat)
    requires s < |l.uploads|
  {
    && s < |next.uploads|
    && next.uploads == l.uploads[s := l.uploads[s].(reserved := bytes, lease := next.uploads[s].lease)]
    && next.budget + l.uploads[s].reserved == l.budget + bytes
    && next == l.(uploads := next.uploads, budget := next.budget)
  }

  lemma GrowOutcome(l: Ledger, limits: Limits, s: nat, required: nat, lease: Option<Duration>, now: nat, env: ExpandEnv)
    requires Inv(l, limits, DayOf(now)) && limits.Valid() && s < |l.uploads|
    requires MayGrow(l.uploads[s], lease, now) && l.uploads[s].reserved < required <= limits.maxFileBytes
    ensures var step := Grow(l, limits, s, l.uploads[s], required, lease, now, env);
            && (step.result.Ok? <==> RoomFor(l, limits, s, required, lease, now, env))
            && (step.result.Ok? ==> step.result.value == required && HoldsNow(l, step.after, s, required))
  {
  }

  lemma ExpandOutcome(l: Ledger, limits: Limits, s: nat, token: nat, required: nat, lease: Option<Duration>,
                      now: nat, env: ExpandEnv)
    requires Inv(l, limits, DayOf(now)) && limits.Valid()
    ensures var step := Expand(l, limits, s, token, required, lease, now, env);
            && Inv(step.after, limits, DayOf(now))
            && (step.result.Ok? <==>
                  && 0 < required <= limits.maxFileBytes
                  && Known(l, s, token) && MayGrow(l.uploads[s], lease, now) && env.fileError.None?
                  && (l.uploads[s].reserved < required ==> RoomFor(l, limits, s, required, lease, now, env)))
            && (step.result.Ok? ==>
                  && required <= step.result.value && (step.result.value == required || step.result.value == l.uploads[s].reserved)
                  && HoldsNow(l, step.after, s, step.result.value))
            && (step.result.Err? ==> step.after == l)
  {
    ExpandKeepsInv(l, limits, s, token, required, lease, now, env);
    if 0 < required <= limits.maxFileBytes && Known(l, s, token) && MayGrow(l.uploads[s], lease, now)
       && env.fileError.None? && l.uploads[s].reserved < required {
      GrowOutcome(l, limits, s, required, lease, now, env);
    }
  }

  /** A session is taken up by a receiver, then probed and queued once uploaded, and rejected from any open state. */
  predicate LegalMove(from: UploadState, to: UploadState) {
    || (from == Reserved && to == Receiving)
    || (from == Uploaded && to == Probing)
    || (from == Probing && to == Queued)
    || (from in {Reserved, Receiving, Uploaded, Probing, Queued} && to == Rejected)
  }

  /** A first attempt to remove the session's file, if it has one, is due at once; a row that is there stays as it is. */
  predicate QueuedForCleanup(l: Ledger, next: Ledger, s: nat)
    requires s < |l.uploads|
  {
    next.cleanups == if l.uploads[s].path == None || s in l.cleanups then l.cleanups else l.cleanups[s := Cleanup(0, 0, None)]
  }

  /** The session has moved to `target`, and a rejected one has given its reservation and its file up. */
  ghost predicate MovedTo(l: Ledger, next: Ledger, s: nat, target: UploadState)
    requires s < |l.uploads|
  {
    var freed := if target == Rejected then l.uploads[s].reserved else 0;
    && next.uploads == l.uploads[s := l.uploads[s].(state := target, reserved := l.uploads[s].reserved - freed)]
    && next.budget + freed == l.budget
    && (if target == Rejected then QueuedForCleanup(l, next, s) else next.cleanups == l.cleanups)
    && next == l.(uploads := next.uploads, budget := next.budget, cleanups := next.cleanups)
  }

  lemma TransitionOutcome(l: Ledger, limits: Limits, s: nat, token: nat, target: UploadState,
                          fileError: Option<LimitError>, day: nat)
    requires Inv(l, limits, day)
    ensures var step := Transition(l, s, token, target, fileError);
            && (step.result.Ok? <==>
                  && Known(l, s, token) && LegalMove(l.uploads[s].state, target)
                  && (l.uploads[s].state == Uploaded ==> s !in l.settlements && fileError.None?))
            && (step.result.Ok? ==> MovedTo(l, step.after, s, target))
            && (step.result.Err? ==> step.after == l)
            && Inv(step.after, limits, day)
  {
    if s < |l.uploads| {
      HeldIsCovered(l, limits, day, s);
    }
    TransitionKeepsInv(l, limits, s, token, target, fileError, day);
  }

  /** The session is expired: it holds nothing, its capability is dead, its file is to go, its charge stands. */
  ghost predicate Ousted(l: Ledger, next: Ledger, s: nat)
    requires s < |l.uploads|
  {
    && next.uploads == l.uploads[s := Ended(l.uploads[s])]
    && next.budget + l.uploads[s].reserved == l.budget
    && (l.uploads[s].token in next.caps ==> next.caps[l.uploads[s].token].expires == 0)
    && QueuedForCleanup(l, next, s)
    && SameElsewhere(l.caps, next.caps, l.uploads[s].token)
    && next == l.(uploads := next.uploads, budget := next.budget, caps := next.caps, cleanups := next.cleanups)
  }

  lemma ExpireOutcome(l: Ledger, limits: Limits, s: nat, token: nat, day: nat)
    requires Inv(l, limits, day)
    ensures var step := Expire(l, s, token);
            && (step.result.Ok? <==> Known(l, s, token) && l.uploads[s].state != Rejected && !DeliveryPossible(l, s))
            && (step.result.Ok? ==> if l.uploads[s].state == Expired then step.after == l else Ousted(l, step.after, s))
            && (step.result.Err? ==> step.after == l)
            && Inv(step.after, limits, day)
  {
    if s < |l.uploads| {
      HeldIsCovered(l, limits, day, s);
      assert RowOk(l, s, day);
    }
    ExpireKeepsInv(l, limits, s, token, day);
  }

  /** The bytes are charged to the session's identity and day, its reservation is free, and its settlement pends. */
  ghost predicate ChargedFor(l: Ledger, next: Ledger, s: nat, actual: nat, now: nat)
    requires s < |l.uploads|
  {
    var u := l.uploads[s];
    && next.uploads == l.uploads[s := u.(state := Uploaded, reserved := 0, actual := Some(actual), lease := None)]
    && next.budget + u.reserved == l.budget
    && (forall i, d :: Used(next.daily, i, d) == Used(l.daily, i, d) + if i == u.identity && d == now / 86_400 then actual else 0)
    && next.settlements == l.settlements[s := Settlement(now / 86_400, actual, now, false, None)]
    && next.cleanups == l.cleanups && next.caps == l.caps && next.ids == l.ids
  }

  lemma SettleEffect(l: Ledger, limits: Limits, s: nat, token: nat, actual: nat, now: nat, env: SettleEnv)
    requires Inv(l, limits, DayOf(now)) && limits.Valid()
    ensures var step := Settle(l, limits, s, token, actual, now, env);
            && (step.result.Ok? <==>
                  && actual <= limits.maxFileBytes
                  && Known(l, s, token) && l.uploads[s].state == Receiving && actual <= l.uploads[s].reserved
                  && env == SettleEnv(None, None, false))
            && (step.result.Ok? ==>
                  && step.result.value == Receipt(s, l.uploads[s].identity, now / 86_400, actual)
                  && ChargedFor(l, step.after, s, actual, now))
            && (step.result.Err? ==> step.after == l)
            && Inv(step.after, limits, DayOf(now))
  {
    SettleKeepsInv(l, limits, s, token, actual, now, env);
    if s < |l.uploads| && actual <= l.uploads[s].reserved {
      ReservationGuaranteesSettlement(l, limits, s, actual, DayOf(now));
    }
  }

  /** Only the settlement row of session s differs. */
  predicate OnlyRowOf(l: Ledger, next: Ledger, s: nat, row: Settlement) {
    next == l.(settlements := l.settlements[s := row])
  }

  /** An uploaded session with a settlement row nobody has marked. */
  predicate Deliverable(l: Ledger, s: nat) {
    s < |l.uploads| && l.uploads[s].state == Uploaded && Pending(l, s)
  }

  /** A delivery attempt is claimed at most once: after a begin every other begin fails. */
  lemma BeginOutcome(l: Ledger, limits: Limits, s: nat, attempt: nat)
    ensures var step := BeginDelivery(l, s, attempt);
            && (step.result.Err? ==> step.after == l)
            && (step.result.Ok? <==> Deliverable(l, s) && l.settlements[s].attempt.None?)
            && (step.result.Ok? ==>
                  && OnlyRowOf(l, step.after, s, l.settlements[s].(attempt := Some(attempt)))
                  && forall other :: BeginDelivery(step.after, s, other).result.Err?)
            && forall day :: Inv(l, limits, day) ==> Inv(step.after, limits, day)
  {
    forall day | Inv(l, limits, day) ensures Inv(BeginDelivery(l, s, attempt).after, limits, day) {
      BeginDeliveryKeepsInv(l, limits, s, attempt, day);
    }
  }

  /** A mark stands against everything but its own abort: afterwards the session cannot be expired or compensated. */
  lemma MarkOutcome(l: Ledger, limits: Limits, s: nat, attempt: nat, fileError: Option<LimitError>)
    ensures var step := MarkDelivery(l, s, attempt, fileError);
            && (step.result.Err? ==> step.after == l)
            && (step.result.Ok? <==> Deliverable(l, s) && l.settlements[s].attempt == Some(attempt) && fileError.None?)
            && (step.result.Ok? ==>
                  && OnlyRowOf(l, step.after, s, l.settlements[s].(possible := true))
                  && (forall token :: Expire(step.after, s, token).result.Err?)
                  && (forall token, receipt :: CompensateLate(step.after, s, token, receipt).result.Err?))
            && forall day :: Inv(l, limits, day) ==> Inv(step.after, limits, day)
  {
    forall day | Inv(l, limits, day) ensures Inv(MarkDelivery(l, s, attempt, fileError).after, limits, day) {
      MarkDeliveryKeepsInv(l, limits, s, attempt, fileError, day);
    }
  }

  /** After an acknowledgement the charge can no longer be given back by recovery, and a second one changes nothing. */
  lemma AcknowledgeOutcome(l: Ledger, limits: Limits, s: nat, fileError: Option<LimitError>)
    ensures var step := Acknowledge(l, s, fileError);
            && (step.result.Err? ==> step.after == l)
            && (step.result.Ok? <==>
                  s < |l.uploads| && l.uploads[s].state == Uploaded && (s in l.settlements ==> fileError.None?))
            && (step.result.Ok? ==>
                  && step.after == l.(settlements := l.settlements - {s})
                  && forall again :: Acknowledge(step.after, s, again) == Step(Ok(()), step.after))
            && forall day :: Inv(l, limits, day) ==> Inv(step.after, limits, day)
  {
    var step := Acknowledge(l, s, fileError);
    if step.result.Ok? {
      assert step.after.settlements == l.settlements - {s};
    }
    forall day | Inv(l, limits, day) ensures Inv(Acknowledge(l, s, fileError).after, limits, day) {
      AcknowledgeKeepsInv(l, limits, s, fileError, day);
    }
  }

  /** The receipt is the one the pending settlement of session s gave, the identity aside. */
  predicate OwnReceipt(l: Ledger, s: nat, receipt: Receipt) {
    receipt.session == s && s in l.settlements
    && receipt.day == l.settlements[s].day && receipt.actual == l.settlements[s].actual
  }

  /**
   * Late compensation with its own receipt of a session whose settlement pends, still uploaded or expired by
   * hand, gives the charge back exactly when the session still has the identity of the receipt and the usage
   * row exists.
   */
  lemma CompensationOutcome(l: Ledger, limits: Limits, s: nat, token: nat, receipt: Receipt, day: nat)
    requires Inv(l, limits, day) && Pending(l, s) && Known(l, s, token) && OwnReceipt(l, s, receipt)
    ensures var step := CompensateLate(l, s, token, receipt);
            && (step.result.Ok? <==> l.uploads[s].identity == receipt.identity && UsageKey(l, s) in l.daily)
            && (step.result.Ok? ==> Compensated(step.after, s))
            && (step.result.Err? ==> step == Failed(l, AccountingInvariant))
            && Inv(step.after, limits, day)
  {
    PendingIsCovered(l, limits, day, s);
    assert RowOk(l, s, day);
    CompensateLateKeepsInv(l, limits, s, token, receipt, day);
  }

  /**
   * A merge between settlement and compensation that gives the session another identity makes the compensation
   * fail, although it would have succeeded before. The intent stays, and recovery, which goes by the identity
   * stored with the session, can still refund it.
   */
  lemma MergeStopsCompensation(l: Ledger, limits: Limits, day: nat, primary: nat, other: nat, s: nat, token: nat, receipt: Receipt)
    requires Inv(l, limits, day) && Deliverable(l, s) && Known(l, s, token) && OwnReceipt(l, s, receipt)
    requires UsageKey(l, s) in l.daily
    requires l.uploads[s].identity == receipt.identity == other != primary
    requires MergeIdentity(l, primary, other).Ok?
    ensures CompensateLate(l, s, token, receipt).result == Ok(())
    ensures var merged := MergeIdentity(l, primary, other).value;
            && CompensateLate(merged, s, token, receipt) == Failed(merged, AccountingInvariant)
            && Deliverable(merged, s) && merged.settlements == l.settlements
            && RecoverRow(merged, s).result == Ok(true) && Compensated(RecoverRow(merged, s).after, s)
  {
    CompensationOutcome(l, limits, s, token, receipt, day);
    PendingRow(l, limits, day, s);
    MergedRow(l, primary, other, s);
    var merged := MergeIdentity(l, primary, other).value;
    assert Deliverable(merged, s);
    RefundsPending(merged, s);
  }

  lemma PendingRow(l: Ledger, limits: Limits, day: nat, s: nat)
    requires Inv(l, limits, day) && Deliverable(l, s)
    ensures l.uploads[s].actual == Some(l.settlements[s].actual) && l.uploads[s].reserved == 0
    ensures UsageKey(l, s) in l.daily ==> l.daily[UsageKey(l, s)] >= l.settlements[s].actual
  {
    PendingIsCovered(l, limits, day, s);
    assert RowOk(l, s, day);
  }

  lemma MergedRow(l: Ledger, primary: nat, other: nat, s: nat)
    requires s < |l.uploads| && l.uploads[s].identity == other != primary && MergeIdentity(l, primary, other).Ok?
    requires s in l.settlements && UsageKey(l, s) in l.daily
    ensures var merged := MergeIdentity(l, primary, other).value;
            && merged.settlements == l.settlements && |merged.uploads| == |l.uploads|
            && merged.uploads[s] == l.uploads[s].(identity := primary)
            && UsageKey(merged, s) in merged.daily && merged.daily[UsageKey(merged, s)] >= l.daily[UsageKey(l, s)]
  {
    assert UsageKey(l, s).1 in DaysOf(l.daily, other);
  }

  lemma RefundsPending(l: Ledger, s: nat)
    requires Deliverable(l, s) && l.uploads[s].actual == Some(l.settlements[s].actual) && l.uploads[s].reserved == 0
    requires UsageKey(l, s) in l.daily && l.daily[UsageKey(l, s)] >= l.settlements[s].actual
    ensures RecoverRow(l, s).result == Ok(true) && Compensated(RecoverRow(l, s).after, s)
  {
  }

  /** A compensation that commits leaves an expired session without settlement row; any other changes nothing. */
  lemma CompensationCommits(l: Ledger, s: nat, token: nat, receipt: Receipt)
    ensures var step := CompensateLate(l, s, token, receipt);
            && (step.result.Err? ==> step.after == l)
            && (step.result.Ok? ==>
                  && Known(l, s, token) && !DeliveryPossible(l, s) && l.uploads[s].identity == receipt.identity
                  && step.after.uploads[s].state == Expired && s !in step.after.settlements)
  {
  }

  /** The receipt still fits what the session holds: a charge of the same bytes that its usage row covers, or none. */
  predicate Fits(l: Ledger, s: nat, receipt: Receipt)
    requires s < |l.uploads|
  {
    match l.uploads[s].state
    case Reserved | Receiving => true
    case Uploaded | Expired =>
      l.uploads[s].actual.Some? || l.uploads[s].state == Uploaded ==>
        && l.uploads[s].actual == Some(receipt.actual)
        && (receipt.identity, receipt.day) in l.daily && receipt.actual <= l.daily[(receipt.identity, receipt.day)]
    case Probing | Queued | Rejected => false
  }

  /** The session has expired without charge, reservation, settlement row or capability; the charge is off the usage row. */
  ghost predicate Relieved(l: Ledger, next: Ledger, s: nat, receipt: Receipt)
    requires s < |l.uploads|
  {
    var u := l.uploads[s];
    && next.uploads == l.uploads[s := u.(state := Expired, reserved := 0, actual := None,
                                         lease := if u.state == Expired then u.lease else None)]
    && next.budget + u.reserved == l.budget
    && (forall i: nat, d: nat ::
          Used(next.daily, i, d)
          == Used(l.daily, i, d) - if u.actual.Some? && i == receipt.identity && d == receipt.day then receipt.actual else 0)
    && next.settlements == l.settlements - {s}
    && (u.token in next.caps ==> next.caps[u.token].expires == 0) && SameElsewhere(l.caps, next.caps, u.token)
    && (if u.state == Expired then next.cleanups == l.cleanups else QueuedForCleanup(l, next, s))
    && next.ids == l.ids && next.removed == l.removed
  }

  lemma LateRelieves(l: Ledger, s: nat, token: nat, receipt: Receipt)
    requires s < |l.uploads| && Known(l, s, token) && l.uploads[s].reserved <= l.budget
    requires !l.uploads[s].state.IsReserved() ==> l.uploads[s].reserved == 0
    requires l.uploads[s].state.IsReserved() ==> l.uploads[s].actual.None?
    requires CompensateLate(l, s, token, receipt).result.Ok?
    ensures Relieved(l, CompensateLate(l, s, token, receipt).after, s, receipt)
  {
  }

  /**
   * Late compensation of any session with any receipt: when it succeeds, and the whole of what it leaves. Of a
   * session that has only a reservation it takes that away.
   */
  lemma LateOutcome(l: Ledger, limits: Limits, s: nat, token: nat, receipt: Receipt, day: nat)
    requires Inv(l, limits, day)
    ensures var step := CompensateLate(l, s, token, receipt);
            && (step.result.Ok? <==>
                  && receipt.session == s && Known(l, s, token) && !(s in l.settlements && l.settlements[s].possible)
                  && l.uploads[s].identity == receipt.identity && Fits(l, s, receipt))
            && (step.result.Ok? ==> Relieved(l, step.after, s, receipt))
            && (step.result.Err? ==> step.after == l)
  {
    if Known(l, s, token) {
      HeldIsCovered(l, limits, day, s);
      assert RowOk(l, s, day);
      if CompensateLate(l, s, token, receipt).result.Ok? {
        LateRelieves(l, s, token, receipt);
      }
    }
  }

  /** Two seconds after the first failure, twice as long after each further one, up to 256 seconds. */
  function RetryDelay(attempts: nat): nat {
    if attempts == 0 then 1 else if attempts > 8 then 256 else 2 * RetryDelay(attempts - 1)
  }

  lemma BackoffIsDelay(attempts: nat)
    ensures Backoff(attempts) == RetryDelay(attempts)
  {
    assert RetryDelay(8) == 2 * RetryDelay(7) && RetryDelay(7) == 2 * RetryDelay(6) && RetryDelay(6) == 2 * RetryDelay(5);
    assert RetryDelay(5) == 2 * RetryDelay(4) && RetryDelay(4) == 2 * RetryDelay(3) && RetryDelay(3) == 2 * RetryDelay(2);
  }

  /**
   * The row of an attempt that did not remove the file: one attempt more, and a second later with the cursor of
   * the page, or after a growing delay with the cursor as it was.
   */
  ghost predicate Retried(row: Cleanup, next: Cleanup, deletion: Deletion, now: nat) {
    && next.attempts == row.attempts + 1
    && match deletion
       case Removed => false
       case Continue(cursor) => next.cursor == cursor && next.nextAttempt == now + 1
       case Error => next.cursor == row.cursor && next.nextAttempt == now + RetryDelay(row.attempts + 1)
  }

  /** A removal attempt ends a cleanup row exactly when the file was removed, and leaves every other table alone. */
  lemma CleanupOutcome(l: Ledger, limits: Limits, s: nat, deletion: Deletion, now: nat)
    ensures var next := RecordCleanup(l, s, deletion, now);
            && (forall k :: k in next.cleanups <==> k in l.cleanups && (k == s ==> !deletion.Removed?))
            && (forall k :: k in l.cleanups && k != s ==> next.cleanups[k] == l.cleanups[k])
            && (s in next.cleanups ==> Retried(l.cleanups[s], next.cleanups[s], deletion, now))
            && next.removed == l.removed + (if s in l.cleanups && deletion.Removed? then {s} else {})
            && next == l.(cleanups := next.cleanups, removed := next.removed)
            && forall day :: Inv(l, limits, day) ==> Inv(next, limits, day)
  {
    if s in l.cleanups { BackoffIsDelay(l.cleanups[s].attempts + 1); }
    forall day | Inv(l, limits, day) ensures Inv(RecordCleanup(l, s, deletion, now), limits, day) {
      RecordCleanupKeepsInv(l, limits, s, deletion, now, day);
    }
  }
}
