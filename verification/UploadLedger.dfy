/**
 * The upload ledger as an object that updates its tables in place. Each public method is one
 * immediate transaction: it either commits what the specification function says or leaves every
 * table as it was.
 */
module UploadLedgers {
  import opened Prelude
  import opened LedgerTables
  import T = LedgerTransactions
  import A = LedgerAdmission
  import opened LedgerTransactions
  import opened LedgerAdmission
  import opened LedgerInvariant
  import opened LedgerRecovery
  import opened LedgerReconciliation
  import opened LedgerSelection
  import opened LedgerAdmissionInvariant
  import opened LedgerReservation
  import opened LedgerOpening
  import opened LedgerStartup
  import opened LedgerOutcomes
  import opened LedgerSteps

  /** A pass that fails on some prefix of its rows fails on all of them. */
  lemma {:induction false} PassFails(l: Ledger, rows: seq<nat>, n: nat)
    requires n <= |rows| && RecoverRows(l, rows[..n]).result.Err?
    ensures RecoverRows(l, rows).result == RecoverRows(l, rows[..n]).result
    decreases |rows|
  {
    if n < |rows| {
      assert rows[..|rows| - 1][..n] == rows[..n];
      PassFails(l, rows[..|rows| - 1], n);
    } else {
      assert rows[..n] == rows;
    }
  }

  lemma {:induction false} ExpiryFails(l: Ledger, rows: seq<nat>, active: set<nat>, n: nat)
    requires n <= |rows| && ExpireRows(l, rows[..n], active).result.Err?
    ensures ExpireRows(l, rows, active).result == ExpireRows(l, rows[..n], active).result
    decreases |rows|
  {
    if n < |rows| {
      assert rows[..|rows| - 1][..n] == rows[..n];
      ExpiryFails(l, rows[..|rows| - 1], active, n);
    } else {
      assert rows[..n] == rows;
    }
  }

  /** The first error of the start-up loop is the error of the whole loop. */
  lemma {:induction false} FirstErrorStays(uploads: seq<Upload>, maxFileBytes: nat, errors: map<nat, LimitError>, i: nat, n: nat)
    requires i <= n <= |uploads|
    ensures var first := FirstFileError(uploads, maxFileBytes, errors, i);
            first.Some? ==> FirstFileError(uploads, maxFileBytes, errors, n) == first
    decreases n - i
  {
    if i < n {
      FirstErrorStays(uploads, maxFileBytes, errors, i, n - 1);
    }
  }

  lemma {:induction false} MergeFails(l: Ledger, primary: nat, others: seq<nat>, n: nat)
    requires n <= |others| && MergeAll(l, primary, others[..n]).Err?
    ensures MergeAll(l, primary, others) == MergeAll(l, primary, others[..n])
    decreases |others|
  {
    if n < |others| {
      assert others[..|others| - 1][..n] == others[..n];
      MergeFails(l, primary, others[..|others| - 1], n);
    } else {
      assert others[..n] == others;
    }
  }

  /** Once every day of `other` has been added to `primary`, dropping the rows of `other` completes the merge. */
  lemma MergedIs(daily: map<(nat, nat), nat>, added: map<(nat, nat), nat>, primary: nat, other: nat)
    requires primary != other
    requires forall d :: d in DaysOf(daily, other) ==>
               (primary, d) in added && added[(primary, d)] == Used(daily, primary, d) + Used(daily, other, d)
    requires forall key: (nat, nat) :: !(key.0 == primary && key.1 in DaysOf(daily, other)) ==>
               Lookup(added, key) == Lookup(daily, key)
    ensures (map key | key in added && key.0 != other :: added[key]) == MergedUsage(daily, primary, other)
  {
    var merged, left := MergedUsage(daily, primary, other), map key | key in added && key.0 != other :: added[key];
    forall key: (nat, nat) ensures Lookup(left, key) == Lookup(merged, key) {
      if (other, key.1) in daily {
        assert (other, key.1).1 in DaysOf(daily, other);
      }
      assert (key.0 == primary && key.1 in DaysOf(daily, other)) || Lookup(added, key) == Lookup(daily, key);
    }
    SameLookups(left, merged);
  }

  lemma WithHashesAre(hashes: map<(nat, nat), nat>, secrets: seq<nat>, ip: nat, identity: nat, key: (nat, nat))
    ensures Lookup(WithHashes(hashes, secrets, ip, identity), key)
            == if key in hashes then Some(hashes[key]) else if key.0 in secrets && key.1 == ip then Some(identity) else None
  {
    var added := map secret | secret in secrets && (secret, ip) !in hashes :: (secret, ip) := identity;
    if key.0 in secrets && key.1 == ip && key !in hashes {
      assert (key.0, ip) == key && key in added;
    }
  }

  /** The hash of one more secret. */
  lemma OneMoreHash(hashes: map<(nat, nat), nat>, secrets: seq<nat>, i: nat, ip: nat, identity: nat)
    requires i < |secrets|
    ensures var known := WithHashes(hashes, secrets[..i], ip, identity);
            WithHashes(hashes, secrets[..i + 1], ip, identity)
            == if (secrets[i], ip) in known then known else known[(secrets[i], ip) := identity]
  {
    var known, longer := WithHashes(hashes, secrets[..i], ip, identity), WithHashes(hashes, secrets[..i + 1], ip, identity);
    var next := if (secrets[i], ip) in known then known else known[(secrets[i], ip) := identity];
    assert forall x :: x in secrets[..i + 1] <==> x in secrets[..i] || x == secrets[i];
    WithHashesAre(hashes, secrets[..i], ip, identity, (secrets[i], ip));
    forall key: (nat, nat) ensures Lookup(longer, key) == Lookup(next, key) {
      WithHashesAre(hashes, secrets[..i], ip, identity, key);
      WithHashesAre(hashes, secrets[..i + 1], ip, identity, key);
    }
    SameLookups(longer, next);
  }

  lemma SameLookups(a: map<(nat, nat), nat>, b: map<(nat, nat), nat>)
    requires forall key: (nat, nat) :: Lookup(a, key) == Lookup(b, key)
    ensures a == b
  {
    forall key: (nat, nat) ensures (key in a <==> key in b) && (key in a ==> a[key] == b[key]) {
      assert Lookup(a, key) == Lookup(b, key);
    }
  }

  class UploadLedger {
    const limits: Limits
    const secrets: seq<nat>
    var uploads: seq<Upload>
    var budget: nat
    var daily: map<(nat, nat), nat>
    var settlements: map<nat, Settlement>
    var cleanups: map<nat, Cleanup>
    var caps: map<nat, Capability>
    var ids: Identities
    ghost var chargedOn: seq<nat>
    ghost var removed: set<nat>

    /** The tables as one value. */
    ghost function Contents(): Ledger
      reads this
    {
      Ledger(uploads, budget, daily, settlements, cleanups, caps, ids, chargedOn, removed)
    }

    /** The tables agree with each other and are within the limits on the given day. */
    ghost predicate Valid(day: nat)
      reads this
    {
      limits.Valid() && Inv(Contents(), limits, day)
    }

    constructor (limits: Limits, secrets: seq<nat>)
      ensures this.limits == limits && this.secrets == secrets
      ensures Contents() == EMPTY_LEDGER
    {
      this.limits, this.secrets := limits, secrets;
      uploads, budget, daily, settlements, cleanups, caps := [], 0, map[], map[], map[], map[];
      ids := Identities({}, 1, map[]);
      chargedOn, removed := [], {};
    }

    method ClaimLease(s: nat, token: nat, duration: Duration, now: nat) returns (r: Result<nat, LimitError>)
      modifies this`uploads
      ensures Step(r, Contents()) == T.ClaimLease(old(Contents()), s, token, duration, now)
      ensures r.Err? ==> Contents() == old(Contents())
      ensures r.Ok? <==>
                && Known(old(Contents()), s, token) && old(uploads)[s].state == Reserved
                && CapabilityLive(old(Contents()), s, token, now) && Storable(duration, now)
      ensures r.Ok? ==>
                && LeaseGranted(old(Contents()), token, duration, now, r.value)
                && uploads == old(uploads)[s := old(uploads)[s].(state := Receiving, lease := Some(r.value))]
      ensures forall day :: old(Valid(day)) ==> Valid(day)
    {
      ClaimOutcome(Contents(), limits, s, token, duration, now);
      if s >= |uploads| { return Err(UnknownSession); }
      var u := uploads[s];
      if u.token != token { return Err(Unauthorized); }
      if u.state != Reserved { return Err(InvalidTransition); }
      if token !in caps || caps[token].session != s { return Err(CapabilityExpired); }
      r := NewLeaseExpiry(now, duration, caps[token].expires);
      if r.Ok? {
        uploads := uploads[s := u.(state := Receiving, lease := Some(r.value))];
      }
    }

    method RenewLease(s: nat, token: nat, duration: Duration, now: nat) returns (r: Result<nat, LimitError>)
      modifies this`uploads
      ensures Step(r, Contents()) == T.RenewLease(old(Contents()), s, token, duration, now)
      ensures r.Err? ==> Contents() == old(Contents())
      ensures r.Ok? <==>
                && Known(old(Contents()), s, token) && old(uploads)[s].state == Receiving
                && LeaseLive(old(uploads)[s].lease, now)
                && CapabilityLive(old(Contents()), s, token, now) && Storable(duration, now)
      ensures r.Ok? ==>
                && LeaseGranted(old(Contents()), token, duration, now, r.value)
                && uploads == old(uploads)[s := old(uploads)[s].(lease := Some(r.value))]
      ensures forall day :: old(Valid(day)) ==> Valid(day)
    {
      RenewOutcome(Contents(), limits, s, token, duration, now);
      if s >= |uploads| { return Err(UnknownSession); }
      var u := uploads[s];
      if u.token != token { return Err(Unauthorized); }
      if u.state != Receiving { return Err(InvalidTransition); }
      if u.lease.None? || u.lease.value <= now { return Err(InvalidTransition); }
      if token !in caps || caps[token].session != s { return Err(CapabilityExpired); }
      r := NewLeaseExpiry(now, duration, caps[token].expires);
      if r.Ok? {
        uploads := uploads[s := u.(lease := Some(r.value))];
      }
    }

    method Expand(s: nat, token: nat, required: nat, lease: Option<Duration>, now: nat, env: ExpandEnv)
      returns (r: Result<nat, LimitError>)
      modifies this`uploads, this`budget
      ensures Step(r, Contents()) == T.Expand(old(Contents()), limits, s, token, required, lease, now, env)
      ensures old(Valid(DayOf(now))) ==>
                && Valid(DayOf(now))
                && (r.Ok? <==>
                      && 0 < required <= limits.maxFileBytes
                      && Known(old(Contents()), s, token) && MayGrow(old(uploads)[s], lease, now) && env.fileError.None?
                      && (old(uploads)[s].reserved < required ==>
                            RoomFor(old(Contents()), limits, s, required, lease, now, env)))
                && (r.Ok? ==> required <= r.value && HoldsNow(old(Contents()), Contents(), s, r.value))
                && (r.Err? ==> Contents() == old(Contents()))
    {
      if Valid(DayOf(now)) { ExpandOutcome(Contents(), limits, s, token, required, lease, now, env); }
      if required == 0 { return Err(InvalidSize); }
      if required > limits.maxFileBytes { return Err(FileTooLarge); }
      if s >= |uploads| { return Err(UnknownSession); }
      if uploads[s].token != token { return Err(Unauthorized); }
      if !MayExpand(uploads[s], lease, now) { return Err(InvalidTransition); }
      if env.fileError.Some? { return Err(env.fileError.value); }
      if required <= uploads[s].reserved { return Ok(uploads[s].reserved); }
      r := Grow(s, required, lease, now, env);
    }

    /** The part of an expansion that allocates; it renews a receiver's lease after the allocation. */
    method Grow(s: nat, required: nat, lease: Option<Duration>, now: nat, env: ExpandEnv)
      returns (r: Result<nat, LimitError>)
      requires s < |uploads| && uploads[s].reserved < required
      modifies this`uploads, this`budget
      ensures Step(r, Contents()) == T.Grow(old(Contents()), limits, s, old(uploads[s]), required, lease, now, env)
    {
      var u := uploads[s];
      var delta := required - u.reserved;
      var used, held := Used(daily, u.identity, DayOf(now)), TotalHeldBy(uploads, u.identity);
      if used + held + delta >= U64_LIMIT { return Err(AccountingInvariant); }
      if used + held + delta > limits.dailyQuotaBytes { return Err(DailyQuotaExceeded); }
      var nextReserved := budget + delta;
      if nextReserved >= U64_LIMIT { return Err(AccountingInvariant); }
      if nextReserved > limits.maxGlobalReserved { return Err(GlobalCapacityExceeded); }
      var disk := DiskCheck(env.available, delta + limits.diskSafetyMargin);
      if disk.Some? { return Err(disk.value); }
      if env.resizeError.Some? { return Err(env.resizeError.value); }
      disk := DiskCheck(env.availableAfter, limits.diskSafetyMargin);
      if disk.Some? { return Err(disk.value); }
      var renewed := u.lease;
      if lease.Some? {
        if u.token !in caps || caps[u.token].session != s { return Err(CapabilityExpired); }
        var expiry := NewLeaseExpiry(now, lease.value, SQL_MAX);
        if expiry.Err? { return Err(expiry.error); }
        renewed := Some(expiry.value);
      }
      uploads := uploads[s := u.(reserved := required, lease := renewed)];
      budget := nextReserved;
      r := Ok(required);
    }

    method Transition(s: nat, token: nat, target: UploadState, fileError: Option<LimitError>)
      returns (r: Result<(), LimitError>)
      modifies this`uploads, this`budget, this`cleanups
      ensures Step(r, Contents()) == T.Transition(old(Contents()), s, token, target, fileError)
      ensures forall day :: old(Valid(day)) ==>
                && Valid(day)
                && (r.Ok? <==>
                      && Known(old(Contents()), s, token) && LegalMove(old(uploads)[s].state, target)
                      && (old(uploads)[s].state == Uploaded ==> s !in old(settlements) && fileError.None?))
                && (r.Ok? ==> MovedTo(old(Contents()), Contents(), s, target))
                && (r.Err? ==> Contents() == old(Contents()))
    {
      forall day | Valid(day) { TransitionOutcome(Contents(), limits, s, token, target, fileError, day); }
      if s >= |uploads| { return Err(UnknownSession); }
      var u := uploads[s];
      if u.token != token { return Err(Unauthorized); }
      if !TransitionIsLegal(u.state, target) { return Err(InvalidTransition); }
      if u.state == Uploaded {
        if s in settlements { return Err(InvalidTransition); }
        if fileError.Some? { return Err(fileError.value); }
      }
      if target == Rejected {
        if u.reserved > budget { return Err(AccountingInvariant); }
        budget := budget - u.reserved;
        uploads := uploads[s := u.(state := target, reserved := 0)];
        cleanups := EnqueueCleanup(cleanups, uploads, s);
      } else {
        uploads := uploads[s := u.(state := target)];
      }
      r := Ok(());
    }

    /** Marks session s expired, gives its reservation back, and hands its file to cleanup. */
    method RetireSession(s: nat, actual: Option<nat>)
      requires s < |uploads| && uploads[s].reserved <= budget
      modifies this`uploads, this`budget, this`caps, this`cleanups
      ensures Contents() == Retire(old(Contents()), s, actual, old(budget) - old(uploads[s].reserved))
    {
      var u := uploads[s];
      budget := budget - u.reserved;
      uploads := uploads[s := u.(state := Expired, reserved := 0, lease := None, actual := actual)];
      caps := Revoke(caps, u.token);
      cleanups := EnqueueCleanup(cleanups, uploads, s);
    }

    method Expire(s: nat, token: nat) returns (r: Result<(), LimitError>)
      modifies this`uploads, this`budget, this`caps, this`cleanups
      ensures Step(r, Contents()) == T.Expire(old(Contents()), s, token)
      ensures forall day :: old(Valid(day)) ==>
                && Valid(day)
                && (r.Ok? <==>
                      && Known(old(Contents()), s, token)
                      && old(uploads)[s].state != Rejected && !DeliveryPossible(old(Contents()), s))
                && (r.Ok? && old(uploads)[s].state != Expired ==> Ousted(old(Contents()), Contents(), s))
                && (r.Err? || old(uploads)[s].state == Expired ==> Contents() == old(Contents()))
    {
      forall day | Valid(day) { ExpireOutcome(Contents(), limits, s, token, day); }
      if s >= |uploads| { return Err(UnknownSession); }
      var u := uploads[s];
      if u.token != token { return Err(Unauthorized); }
      if u.state == Expired { return Ok(()); }
      if u.state == Rejected { return Err(InvalidTransition); }
      if s in settlements && settlements[s].possible { return Err(InvalidTransition); }
      if u.reserved > budget { return Err(AccountingInvariant); }
      RetireSession(s, u.actual);
      r := Ok(());
    }

    method Settle(s: nat, token: nat, actual: nat, now: nat, env: SettleEnv) returns (r: Result<Receipt, LimitError>)
      modifies this`uploads, this`budget, this`daily, this`settlements, this`chargedOn
      ensures Step(r, Contents()) == T.Settle(old(Contents()), limits, s, token, actual, now, env)
      ensures old(Valid(DayOf(now))) ==>
                && Valid(DayOf(now))
                && (r.Ok? <==>
                      && actual <= limits.maxFileBytes && env == SettleEnv(None, None, false)
                      && Known(old(Contents()), s, token) && old(uploads)[s].state == Receiving
                      && actual <= old(uploads)[s].reserved)
                && (r.Ok? ==>
                      && r.value == Receipt(s, old(uploads)[s].identity, DayOf(now), actual)
                      && ChargedFor(old(Contents()), Contents(), s, actual, now))
                && (r.Err? ==> Contents() == old(Contents()))
    {
      if Valid(DayOf(now)) { SettleEffect(Contents(), limits, s, token, actual, now, env); }
      if actual > limits.maxFileBytes { return Err(FileTooLarge); }
      var day := DayOf(now);
      if s >= |uploads| { return Err(UnknownSession); }
      var u := uploads[s];
      if u.token != token { return Err(Unauthorized); }
      if u.state != Receiving { return Err(InvalidTransition); }
      if env.pinError.Some? { return Err(env.pinError.value); }
      if actual > u.reserved { return Err(SettlementExceedsReservation); }
      var used, held := Used(daily, u.identity, day), TotalHeldBy(uploads, u.identity);
      if held < u.reserved { return Err(AccountingInvariant); }
      if used + actual + (held - u.reserved) >= U64_LIMIT { return Err(AccountingInvariant); }
      if used + actual + (held - u.reserved) > limits.dailyQuotaBytes { return Err(DailyQuotaExceeded); }
      if budget < u.reserved { return Err(AccountingInvariant); }
      if env.verifyError.Some? { return Err(env.verifyError.value); }
      if env.late { return Err(OperationTimedOut); }
      daily := ChargeUsage(daily, u.identity, day, actual);
      uploads := uploads[s := u.(state := Uploaded, reserved := 0, actual := Some(actual), lease := None)];
      settlements := settlements[s := Settlement(day, actual, now, false, None)];
      budget := budget - u.reserved;
      chargedOn := if s < |chargedOn| then chargedOn[s := day] else chargedOn;
      r := Ok(Receipt(s, u.identity, day, actual));
    }

    method BeginDelivery(s: nat, attempt: nat) returns (r: Result<(), LimitError>)
      modifies this`settlements
      ensures Step(r, Contents()) == T.BeginDelivery(old(Contents()), s, attempt)
      ensures r.Err? ==> Contents() == old(Contents())
      ensures r.Ok? <==> Deliverable(old(Contents()), s) && old(settlements)[s].attempt.None?
      ensures r.Ok? ==>
                && OnlyRowOf(old(Contents()), Contents(), s, old(settlements)[s].(attempt := Some(attempt)))
                && forall other :: T.BeginDelivery(Contents(), s, other).result.Err?
      ensures forall day :: old(Valid(day)) ==> Valid(day)
    {
      BeginOutcome(Contents(), limits, s, attempt);
      if s >= |uploads| { return Err(Database); }
      if uploads[s].state != Uploaded { return Err(InvalidTransition); }
      if s !in settlements { return Err(InvalidTransition); }
      var row := settlements[s];
      if row.attempt.Some? || row.possible { return Err(InvalidTransition); }
      settlements := settlements[s := row.(attempt := Some(attempt))];
      r := Ok(());
    }

    method MarkDelivery(s: nat, attempt: nat, fileError: Option<LimitError>) returns (r: Result<(), LimitError>)
      modifies this`settlements
      ensures Step(r, Contents()) == T.MarkDelivery(old(Contents()), s, attempt, fileError)
      ensures r.Err? ==> Contents() == old(Contents())
      ensures r.Ok? <==>
                Deliverable(old(Contents()), s) && old(settlements)[s].attempt == Some(attempt) && fileError.None?
      ensures r.Ok? ==>
                && OnlyRowOf(old(Contents()), Contents(), s, old(settlements)[s].(possible := true))
                && (forall token :: T.Expire(Contents(), s, token).result.Err?)
                && (forall token, receipt :: T.CompensateLate(Contents(), s, token, receipt).result.Err?)
      ensures forall day :: old(Valid(day)) ==> Valid(day)
    {
      MarkOutcome(Contents(), limits, s, attempt, fileError);
      if s >= |uploads| { return Err(Database); }
      if uploads[s].state != Uploaded { return Err(InvalidTransition); }
      if fileError.Some? { return Err(fileError.value); }
      if s !in settlements { return Err(InvalidTransition); }
      var row := settlements[s];
      if row.attempt != Some(attempt) || row.possible { return Err(InvalidTransition); }
      settlements := settlements[s := row.(possible := true)];
      r := Ok(());
    }

    method Acknowledge(s: nat, fileError: Option<LimitError>) returns (r: Result<(), LimitError>)
      modifies this`settlements
      ensures Step(r, Contents()) == T.Acknowledge(old(Contents()), s, fileError)
      ensures r.Err? ==> Contents() == old(Contents())
      ensures r.Ok? <==>
                s < |old(uploads)| && old(uploads)[s].state == Uploaded && (s in old(settlements) ==> fileError.None?)
      ensures r.Ok? ==>
                && settlements == old(settlements) - {s}
                && forall again :: T.Acknowledge(Contents(), s, again) == Step(Ok(()), Contents())
      ensures forall day :: old(Valid(day)) ==> Valid(day)
    {
      AcknowledgeOutcome(Contents(), limits, s, fileError);
      if s >= |uploads| { return Err(Database); }
      if uploads[s].state != Uploaded { return Err(InvalidTransition); }
      if s !in settlements { return Ok(()); }
      if fileError.Some? { return Err(fileError.value); }
      settlements := settlements - {s};
      r := Ok(());
    }

    /** Takes a refund off the usage row; false if the row does not cover it. */
    method Refund(identity: nat, day: nat, bytes: nat) returns (covered: bool)
      modifies this`daily
      ensures var refund := RefundUsage(old(daily), identity, day, bytes);
              covered == refund.Ok? && daily == if covered then refund.value else old(daily)
    {
      var key := (identity, day);
      if key !in daily || daily[key] < bytes { return false; }
      daily := daily[key := daily[key] - bytes];
      if daily[key] == 0 {
        daily := daily - {key};
        assert daily == old(daily) - {key};
      }
      covered := true;
    }

    method CompensateLate(s: nat, token: nat, receipt: Receipt) returns (r: Result<(), LimitError>)
      modifies this`uploads, this`budget, this`daily, this`settlements, this`caps, this`cleanups
      ensures Step(r, Contents()) == T.CompensateLate(old(Contents()), s, token, receipt)
      ensures r.Err? ==> Contents() == old(Contents())
      ensures r.Ok? ==>
                && Known(old(Contents()), s, token) && !DeliveryPossible(old(Contents()), s)
                && uploads[s].state == Expired && s !in settlements
      ensures Pending(old(Contents()), s) && Known(old(Contents()), s, token) && OwnReceipt(old(Contents()), s, receipt) ==>
                forall day :: old(Valid(day)) ==>
                  && Valid(day)
                  && (r.Ok? <==>
                        old(uploads)[s].identity == receipt.identity && UsageKey(old(Contents()), s) in old(daily))
                  && (r.Ok? ==> Compensated(Contents(), s))
      ensures forall day :: old(Valid(day)) ==>
                && (r.Ok? <==>
                      && receipt.session == s && Known(old(Contents()), s, token)
                      && !(s in old(settlements) && old(settlements)[s].possible)
                      && old(uploads)[s].identity == receipt.identity && Fits(old(Contents()), s, receipt))
                && (r.Ok? ==> Relieved(old(Contents()), Contents(), s, receipt))
    {
      forall day | Valid(day) { LateOutcome(Contents(), limits, s, token, receipt, day); }
      CompensationCommits(Contents(), s, token, receipt);
      if Pending(Contents(), s) && Known(Contents(), s, token) && OwnReceipt(Contents(), s, receipt) {
        forall day | Valid(day) { CompensationOutcome(Contents(), limits, s, token, receipt, day); }
      }
      if receipt.session != s { return Err(AccountingInvariant); }
      if s >= |uploads| { return Err(UnknownSession); }
      var u := uploads[s];
      if u.token != token { return Err(Unauthorized); }
      if s in settlements && settlements[s].possible { return Err(InvalidTransition); }
      if u.identity != receipt.identity { return Err(AccountingInvariant); }
      r := TakeBack(s, receipt);
    }

    /** Gives back what the session was charged or still holds, and drops its settlement row. */
    method TakeBack(s: nat, receipt: Receipt) returns (r: Result<(), LimitError>)
      requires s < |uploads| && receipt.session == s && uploads[s].identity == receipt.identity
      requires !DeliveryPossible(Contents(), s)
      modifies this`uploads, this`budget, this`daily, this`settlements, this`caps, this`cleanups
      ensures Step(r, Contents()) == T.CompensateLate(old(Contents()), s, old(uploads)[s].token, receipt)
    {
      var u := uploads[s];
      match u.state {
        case Uploaded =>
          if u.actual != Some(receipt.actual) { return Err(AccountingInvariant); }
          var covered := Refund(receipt.identity, receipt.day, receipt.actual);
          if !covered { return Err(AccountingInvariant); }
          uploads := uploads[s := u.(state := Expired, actual := None, reserved := 0, lease := None)];
          caps := Revoke(caps, u.token);
          cleanups := EnqueueCleanup(cleanups, uploads, s);
        case Reserved | Receiving =>
          if u.reserved > budget { return Err(AccountingInvariant); }
          RetireSession(s, None);
        case Expired =>
          if u.actual.Some? {
            if u.actual.value != receipt.actual { return Err(AccountingInvariant); }
            var covered := Refund(receipt.identity, receipt.day, receipt.actual);
            if !covered { return Err(AccountingInvariant); }
            uploads := uploads[s := u.(actual := None)];
          }
          caps := Revoke(caps, u.token);
        case _ => return Err(InvalidTransition);
      }
      settlements := settlements - {s};
      r := Ok(());
    }

    // Recovery. The row methods work inside a transaction: on an error the caller rolls back.

    method RecoverRow(s: nat) returns (r: Result<bool, LimitError>)
      requires s in settlements
      modifies this`uploads, this`daily, this`settlements, this`caps, this`cleanups
      ensures r == T.RecoverRow(old(Contents()), s).result
      ensures r.Ok? ==> Contents() == T.RecoverRow(old(Contents()), s).after
    {
      var row := settlements[s];
      if s >= |uploads| { return Err(Database); }
      var u := uploads[s];
      if row.possible {
        if u.state != Uploaded || u.actual != Some(row.actual) { return Err(AccountingInvariant); }
        return Ok(false);
      }
      match u.state {
        case Uploaded =>
          if u.actual != Some(row.actual) { return Err(AccountingInvariant); }
          var covered := Refund(u.identity, row.day, row.actual);
          if !covered { return Err(AccountingInvariant); }
          uploads := uploads[s := u.(state := Expired, actual := None, reserved := 0, lease := None)];
          caps := Revoke(caps, u.token);
          cleanups := EnqueueCleanup(cleanups, uploads, s);
        case Expired =>
          if u.actual.Some? {
            if u.actual.value != row.actual { return Err(AccountingInvariant); }
            var covered := Refund(u.identity, row.day, row.actual);
            if !covered { return Err(AccountingInvariant); }
            uploads := uploads[s := u.(actual := None)];
          }
          cleanups := EnqueueCleanup(cleanups, uploads, s);
        case _ => return Err(AccountingInvariant);
      }
      settlements := settlements - {s};
      r := Ok(true);
    }

    method RecoverRows(rows: seq<nat>) returns (r: Result<nat, LimitError>)
      modifies this`uploads, this`daily, this`settlements, this`caps, this`cleanups
      ensures r == T.RecoverRows(old(Contents()), rows).result
      ensures r.Ok? ==> Contents() == T.RecoverRows(old(Contents()), rows).after
    {
      ghost var start := Contents();
      var count := 0;
      for i := 0 to |rows|
        invariant T.RecoverRows(start, rows[..i]) == Step(Ok(count), Contents())
      {
        var s := rows[i];
        assert rows[..i + 1][..i] == rows[..i];
        if s !in settlements {
          PassFails(start, rows, i + 1);
          return Err(Database);
        }
        var refunded := RecoverRow(s);
        if refunded.Err? {
          PassFails(start, rows, i + 1);
          return Err(refunded.error);
        }
        count := count + if refunded.value then 1 else 0;
      }
      assert rows[..|rows|] == rows;
      r := Ok(count);
    }

    method Recover(before: Option<int>, maximum: nat, failClosed: bool, only: Option<nat>)
      returns (r: Result<nat, LimitError>)
      modifies this`uploads, this`daily, this`settlements, this`caps, this`cleanups
      ensures r == T.Recover(old(Contents()), before, maximum, failClosed, only).result
      ensures r.Ok? ==> Contents() == T.Recover(old(Contents()), before, maximum, failClosed, only).after
      ensures forall day :: old(Valid(day)) ==>
                && RecoversAs(old(Contents()), limits, day, before, maximum, failClosed, only, Step(r, Contents()))
                && (r == Err(PendingSettlementRecoveryLimit) <==>
                      failClosed && |AllDue(old(settlements), before, only)| > maximum)
                && (r.Ok? ==> RefundsReached(old(Contents()), Contents(), before, only, maximum))
    {
      forall day | Valid(day) { RecoveryReaches(Contents(), limits, day, before, maximum, failClosed, only); }
      var rows := DueRows(settlements, before, only, |uploads|);
      if |rows| > maximum && failClosed {
        r := Err(PendingSettlementRecoveryLimit);
      } else {
        r := RecoverRows(Take(rows, maximum));
      }
      forall day | old(Valid(day)) {
        RecoversSo(old(Contents()), limits, day, before, maximum, failClosed, only, Step(r, Contents()));
      }
    }

    method AbortDelivery(s: nat, attempt: nat, lateAtStart: bool, lateAtCommit: bool)
      returns (r: Result<(), LimitError>)
      modifies this`uploads, this`daily, this`settlements, this`caps, this`cleanups
      ensures Step(r, Contents()) == T.AbortDelivery(old(Contents()), s, attempt, lateAtStart, lateAtCommit)
      ensures r.Err? ==> Contents() == old(Contents())
      ensures forall day :: old(Valid(day)) ==>
                Valid(day) && (r.Ok? ==> Compensated(Contents(), s))
      ensures forall day :: old(Valid(day)) ==> (r.Ok? <==> CanAbort(old(Contents()), s, attempt, lateAtStart, lateAtCommit))
    {
      forall day | Valid(day) { AbortOutcome(Contents(), limits, s, attempt, lateAtStart, lateAtCommit, day); }
      forall day | Valid(day) { AbortSucceeds(Contents(), limits, s, attempt, lateAtStart, lateAtCommit, day); }
      if lateAtStart { return Err(OperationTimedOut); }
      if s !in settlements || settlements[s].attempt != Some(attempt) {
        if s < |uploads| && uploads[s].state == Expired && uploads[s].actual == None && uploads[s].reserved == 0
           && s !in settlements
        {
          return Ok(());
        }
        return Err(InvalidTransition);
      }
      var saved := (uploads, daily, settlements, caps, cleanups);
      settlements := settlements[s := settlements[s].(possible := false)];
      var compensated := Recover(None, 1, true, Some(s));
      if compensated.Ok? && compensated.value == 1 && !lateAtCommit {
        return Ok(());
      }
      uploads, daily, settlements, caps, cleanups := saved.0, saved.1, saved.2, saved.3, saved.4;
      if compensated.Err? { return Err(compensated.error); }
      if compensated.value != 1 { return Err(AccountingInvariant); }
      r := Err(OperationTimedOut);
    }

    // Expiry of abandoned sessions.

    method ExpireRow(s: nat) returns (r: Result<(), LimitError>)
      requires s < |uploads|
      modifies this`uploads, this`budget, this`caps, this`cleanups
      ensures r == T.ExpireRow(old(Contents()), s).result
      ensures r.Ok? ==> Contents() == T.ExpireRow(old(Contents()), s).after
    {
      if !uploads[s].state.IsReserved() {
        cleanups := EnqueueCleanup(cleanups, uploads, s);
        return Ok(());
      }
      if uploads[s].reserved > budget { return Err(AccountingInvariant); }
      RetireSession(s, uploads[s].actual);
      r := Ok(());
    }

    method ExpireRows(rows: seq<nat>, active: set<nat>) returns (r: Result<(), LimitError>)
      modifies this`uploads, this`budget, this`caps, this`cleanups
      ensures r == T.ExpireRows(old(Contents()), rows, active).result
      ensures r.Ok? ==> Contents() == T.ExpireRows(old(Contents()), rows, active).after
    {
      ghost var start := Contents();
      for i := 0 to |rows|
        invariant T.ExpireRows(start, rows[..i], active) == Step(Ok(()), Contents())
      {
        var s := rows[i];
        assert rows[..i + 1][..i] == rows[..i];
        if s !in active {
          if s >= |uploads| {
            ExpiryFails(start, rows, active, i + 1);
            return Err(Database);
          }
          var expired := ExpireRow(s);
          if expired.Err? {
            ExpiryFails(start, rows, active, i + 1);
            return expired;
          }
        }
      }
      assert rows[..|rows|] == rows;
      r := Ok(());
    }

    method ExpireAbandoned(now: nat, active: set<nat>) returns (r: Result<(), LimitError>)
      modifies this`uploads, this`budget, this`caps, this`cleanups
      ensures r == T.ExpireAbandoned(old(Contents()), now, active).result
      ensures r.Ok? ==> Contents() == T.ExpireAbandoned(old(Contents()), now, active).after
      ensures forall day :: old(Valid(day)) ==>
                && r.Ok? && Valid(day) && ExpiredTo(old(Contents()), Contents(), AbandonedSet(old(Contents()), now, active))
    {
      forall day | Valid(day) { ExpireAbandonedOutcome(Contents(), limits, day, now, active); }
      r := ExpireRows(AbandonedRows(uploads, caps, now, |uploads|), active);
    }

    /** The transaction of the periodic reconciliation; an error rolls everything back. */
    method Reconcile(now: nat, active: set<nat>) returns (r: Result<(), LimitError>)
      modifies this`uploads, this`budget, this`daily, this`settlements, this`caps, this`cleanups
      ensures Step(r, Contents()) == T.Reconcile(old(Contents()), now, active)
      ensures r.Err? ==> Contents() == old(Contents())
      ensures forall day :: old(Valid(day)) ==>
                Valid(day) && (r.Ok? ==> RefundsReached(old(Contents()), Contents(), Some(now - 30), None, 64))
    {
      forall day | Valid(day) { ReconcileOutcome(Contents(), limits, day, now, active); }
      forall day | Valid(day) && T.Reconcile(Contents(), now, active).result.Ok? {
        ReconcileReaches(Contents(), limits, day, now, active);
      }
      var saved := (uploads, budget, daily, settlements, caps, cleanups);
      var recovered := Recover(Some(now - SETTLEMENT_ACK_GRACE_SECONDS), MAX_CLEANUP_JOBS_PER_PASS, false, None);
      if recovered.Err? {
        uploads, budget, daily, settlements, caps, cleanups := saved.0, saved.1, saved.2, saved.3, saved.4, saved.5;
        return Err(recovered.error);
      }
      r := ExpireAbandoned(now, active);
      if r.Err? {
        uploads, budget, daily, settlements, caps, cleanups := saved.0, saved.1, saved.2, saved.3, saved.4, saved.5;
      }
    }

    /** Records the outcome of one attempt to remove the file of an expired or rejected session. */
    method RecordCleanup(s: nat, deletion: Deletion, now: nat)
      modifies this`cleanups, this`removed
      ensures Contents() == T.RecordCleanup(old(Contents()), s, deletion, now)
      ensures forall k :: k in cleanups <==> k in old(cleanups) && (k == s ==> !deletion.Removed?)
      ensures removed == old(removed) + if s in old(cleanups) && deletion.Removed? then {s} else {}
      ensures s in cleanups ==> Retried(old(cleanups)[s], cleanups[s], deletion, now)
      ensures forall k :: k in cleanups && k != s ==> cleanups[k] == old(cleanups)[k]
      ensures forall day :: old(Valid(day)) ==> Valid(day)
    {
      CleanupOutcome(Contents(), limits, s, deletion, now);
      if s !in cleanups { return; }
      var row := cleanups[s];
      match deletion {
        case Removed =>
          cleanups := cleanups - {s};
          removed := removed + {s};
        case Continue(cursor) =>
          cleanups := cleanups[s := Cleanup(row.attempts + 1, now + 1, cursor)];
        case Error =>
          cleanups := cleanups[s := row.(attempts := row.attempts + 1, nextAttempt := now + Backoff(row.attempts + 1))];
      }
    }

    // Admission.

    method FindIdentities(ip: nat) returns (found: seq<nat>)
      ensures found == FoundIdentities(ids.hashes, secrets, ip)
    {
      found := [];
      for i := 0 to |secrets|
        invariant found == FoundIdentities(ids.hashes, secrets[..i], ip)
      {
        assert secrets[..i + 1][..i] == secrets[..i];
        var hash := (secrets[i], ip);
        if hash in ids.hashes && ids.hashes[hash] !in found {
          found := InsertSorted(found, ids.hashes[hash]);
        }
      }
      assert secrets[..|secrets|] == secrets;
    }

    /** Adds every usage row of `other` to the row of `primary` of the same day, then drops them. */
    method MergeUsage(primary: nat, other: nat) returns (fits: bool)
      requires primary != other
      modifies this`daily
      ensures fits <==> forall d :: d in DaysOf(old(daily), other) ==>
                          Used(old(daily), primary, d) + Used(old(daily), other, d) <= SQL_MAX
      ensures fits ==> daily == MergedUsage(old(daily), primary, other)
    {
      var days := DaysOf(daily, other);
      var left := days;
      while left != {}
        invariant left <= days
        invariant forall d :: d in days - left ==>
                    && Used(old(daily), primary, d) + Used(old(daily), other, d) <= SQL_MAX
                    && (primary, d) in daily
                    && daily[(primary, d)] == Used(old(daily), primary, d) + Used(old(daily), other, d)
        invariant forall key: (nat, nat) :: !(key.0 == primary && key.1 in days - left) ==>
                    Lookup(daily, key) == Lookup(old(daily), key)
        decreases |left|
      {
        var d :| d in left;
        var combined := Used(daily, primary, d) + Used(daily, other, d);
        if combined > SQL_MAX {
          assert d in days;
          return false;
        }
        daily := daily[(primary, d) := combined];
        left := left - {d};
      }
      MergedIs(old(daily), daily, primary, other);
      daily := map key | key in daily && key.0 != other :: daily[key];
      fits := true;
    }

    method MergeIdentity(primary: nat, other: nat) returns (r: Result<(), LimitError>)
      requires primary != other
      modifies this`uploads, this`daily, this`ids
      ensures r.Ok? <==> A.MergeIdentity(old(Contents()), primary, other).Ok?
      ensures r.Ok? ==> Contents() == A.MergeIdentity(old(Contents()), primary, other).value
      ensures r.Err? ==> r.error == A.MergeIdentity(old(Contents()), primary, other).error
    {
      uploads := Reassigned(uploads, primary, other);
      var fits := MergeUsage(primary, other);
      if !fits { return Err(InvalidSize); }
      ids := ids.(known := ids.known - {other}, hashes := RenamedHashes(ids.hashes, primary, other));
      r := Ok(());
    }

    method MergeIdentities(primary: nat, others: seq<nat>) returns (r: Result<(), LimitError>)
      requires primary !in others
      modifies this`uploads, this`daily, this`ids
      ensures r.Ok? <==> MergeAll(old(Contents()), primary, others).Ok?
      ensures r.Ok? ==> Contents() == MergeAll(old(Contents()), primary, others).value
      ensures r.Err? ==> r.error == MergeAll(old(Contents()), primary, others).error
    {
      ghost var start := Contents();
      for i := 0 to |others|
        invariant MergeAll(start, primary, others[..i]) == Ok(Contents())
      {
        assert others[..i + 1][..i] == others[..i];
        assert others[i] in others;
        var merged := MergeIdentity(primary, others[i]);
        if merged.Err? {
          MergeFails(start, primary, others, i + 1);
          return merged;
        }
      }
      assert others[..|others|] == others;
      r := Ok(());
    }

    method AddHashes(ip: nat, identity: nat)
      modifies this`ids
      ensures ids == old(ids).(hashes := WithHashes(old(ids.hashes), secrets, ip, identity))
    {
      ghost var start := ids;
      for i := 0 to |secrets|
        invariant ids == start.(hashes := ids.hashes)
        invariant ids.hashes == WithHashes(start.hashes, secrets[..i], ip, identity)
      {
        OneMoreHash(start.hashes, secrets, i, ip, identity);
        if (secrets[i], ip) !in ids.hashes {
          ids := ids.(hashes := ids.hashes[(secrets[i], ip) := identity]);
        }
      }
      assert secrets[..|secrets|] == secrets;
    }

    method ResolveIdentity(ip: nat) returns (r: Result<nat, LimitError>)
      modifies this`uploads, this`daily, this`ids
      ensures r.Ok? <==> A.ResolveIdentity(old(Contents()), secrets, ip).Ok?
      ensures r.Ok? ==> A.ResolveIdentity(old(Contents()), secrets, ip).value == Resolved(r.value, Contents())
      ensures r.Err? ==> r.error == A.ResolveIdentity(old(Contents()), secrets, ip).error
    {
      var found := FindIdentities(ip);
      var identity := ids.next;
      if found == [] {
        ids := ids.(known := ids.known + {identity}, next := identity + 1);
      } else {
        identity := found[0];
        FoundIdentitiesAre(ids.hashes, secrets, ip);
        var merged := MergeIdentities(identity, found[1..]);
        if merged.Err? { return Err(merged.error); }
      }
      AddHashes(ip, identity);
      r := Ok(identity);
    }

    /** Admits an upload; an error rolls back, merged identities included. */
    method Reserve(request: ReserveRequest, now: nat, env: ReserveEnv) returns (r: Result<nat, LimitError>)
      modifies this`uploads, this`budget, this`daily, this`caps, this`ids, this`chargedOn
      ensures Step(r, Contents()) == A.Reserve(old(Contents()), limits, secrets, request, now, env)
      ensures r.Err? ==> Contents() == old(Contents())
      ensures old(Valid(DayOf(now))) ==>
                && (r.Ok? <==>
                      && Acceptable(old(Contents()), limits, request, env)
                      && Affordable(old(Contents()), limits, Owners(old(Contents()), secrets, request.ip.value),
                                    Asked(limits, request.declared), now / 86_400))
                && (r.Ok? ==>
                      r.value == |old(uploads)| && ReservedFor(old(Contents()), Contents(), limits, secrets, request, now, env))
      ensures old(Valid(DayOf(now))) ==> Valid(DayOf(now))
    {
      if Valid(DayOf(now)) {
        ReserveKeepsInv(Contents(), limits, secrets, request, now, env);
        ReserveOutcome(Contents(), limits, secrets, request, now, env);
      }
      var early := RefusedEarly(limits, request, env);
      if early.Some? { return Err(early.value); }
      var saved := (uploads, daily, ids);
      var identity := ResolveIdentity(request.ip.value);
      if identity.Err? {
        uploads, daily, ids := saved.0, saved.1, saved.2;
        return Err(identity.error);
      }
      var bytes := Requested(limits, request.declared);
      var refused := CheckAdmission(identity.value, bytes, request, now, env);
      if refused.Some? {
        uploads, daily, ids := saved.0, saved.1, saved.2;
        return Err(refused.value);
      }
      r := Ok(|uploads|);
      InsertSession(identity.value, bytes, request, now, env);
    }

    method InsertSession(identity: nat, bytes: nat, request: ReserveRequest, now: nat, env: ReserveEnv)
      requires env.created.Ok?
      modifies this`uploads, this`budget, this`caps, this`chargedOn
      ensures Contents() == Admitted(old(Contents()), identity, bytes, request, now, env)
    {
      if request.expiry.Some? {
        caps := caps[request.token := Capability(|uploads|, request.expiry.value)];
      }
      uploads := uploads
                 + [Upload(identity, request.token, Reserved, bytes, None, DayOf(now), Some(env.path), env.created.value, None)];
      budget := budget + bytes;
      chargedOn := chargedOn + [DayOf(now)];
    }

    method CheckAdmission(identity: nat, bytes: nat, request: ReserveRequest, now: nat, env: ReserveEnv)
      returns (refused: Option<LimitError>)
      ensures refused == FirstError(RefusedByLimits(Contents(), limits, identity, bytes, DayOf(now)),
                                    RefusedLate(Contents(), limits, bytes, request, env))
    {
      if ActiveSessions(uploads, identity) >= limits.maxActiveSessions { return Some(SessionLimitExceeded); }
      var committed := Used(daily, identity, DayOf(now)) + TotalHeldBy(uploads, identity) + bytes;
      if committed >= U64_LIMIT { return Some(AccountingInvariant); }
      if committed > limits.dailyQuotaBytes { return Some(DailyQuotaExceeded); }
      if budget + bytes >= U64_LIMIT { return Some(AccountingInvariant); }
      if budget + bytes > limits.maxGlobalReserved { return Some(GlobalCapacityExceeded); }
      refused := DiskCheck(env.available, bytes + limits.diskSafetyMargin);
      if refused.Some? { return; }
      if env.created.Err? { return Some(env.created.error); }
      refused := DiskCheck(env.availableAfter, limits.diskSafetyMargin);
      if refused.Some? { return; }
      if request.expiry.Some? {
        if env.capabilityError.Some? { return env.capabilityError; }
        if request.token in caps { return Some(Database); }
      }
      refused := if env.lateAtCommit then Some(OperationTimedOut) else None;
    }

    // Opening.

    /** Visits the active sessions in order of id: first the size of the row, then its file. */
    method CheckFiles(files: FileAnswers) returns (error: Option<LimitError>)
      ensures error == FirstFileError(uploads, limits.maxFileBytes, files.errors, |uploads|)
      ensures error.None? <==> forall k: nat :: !Unfit(uploads, limits.maxFileBytes, files.errors, k)
      ensures forall k: nat :: FirstUnfit(uploads, limits.maxFileBytes, files.errors, k) ==>
                error == Some(if uploads[k].reserved > limits.maxFileBytes then ExistingCommitmentsExceedLimits else files.errors[k])
    {
      FirstFileErrorIs(uploads, limits.maxFileBytes, files.errors);
      error := None;
      for i := 0 to |uploads|
        invariant error.None? && FirstFileError(uploads, limits.maxFileBytes, files.errors, i) == error
      {
        if uploads[i].state.IsReserved() {
          error := if uploads[i].reserved > limits.maxFileBytes then Some(ExistingCommitmentsExceedLimits)
                   else Lookup(files.errors, i);
          assert FirstFileError(uploads, limits.maxFileBytes, files.errors, i + 1) == error;
          if error.Some? {
            FirstErrorStays(uploads, limits.maxFileBytes, files.errors, i + 1, |uploads|);
            return;
          }
        }
      }
    }

    /** The start-up checks; on success the stored budget is what the active sessions hold. */
    method ValidateStartup(now: nat, files: FileAnswers) returns (r: Result<(), LimitError>)
      modifies this`budget
      ensures Step(r, Contents()) == A.ValidateStartup(old(Contents()), limits, secrets, now, files)
    {
      var active := TotalHeld(uploads);
      if active > limits.maxGlobalReserved { return Err(ExistingCommitmentsExceedLimits); }
      var file := CheckFiles(files);
      if file.Some? { return Err(file.value); }
      var tables := Ledger(uploads, budget, daily, settlements, cleanups, caps, ids, [], {});
      if !CommitmentsFit(tables, limits, DayOf(now)) { return Err(ExistingCommitmentsExceedLimits); }
      if !SecretsRetained(tables, secrets, DayOf(now)) { return Err(SecretRetentionRequired); }
      if active > 0 && files.margin.Some? { return Err(files.margin.value); }
      budget := active;
      r := Ok(());
    }

    method Open(now: nat, files: FileAnswers) returns (r: Result<(), LimitError>)
      modifies this`uploads, this`budget, this`daily, this`settlements, this`caps, this`cleanups
      ensures Step(r, Contents()) == A.Open(old(Contents()), limits, secrets, now, files)
      ensures r.Err? ==> Contents() == old(Contents())
      ensures r.Ok? && old(Stored(Contents(), DayOf(now))) ==>
                Valid(DayOf(now)) && forall s :: s in settlements ==> settlements[s].possible
      ensures old(Stored(Contents(), DayOf(now))) ==> Answers(old(Contents()), limits, secrets, now, files, r)
      ensures r.Ok? && old(Stored(Contents(), DayOf(now))) ==> Opened(old(Contents()), Contents(), now)
    {
      if Stored(Contents(), DayOf(now)) { StoredOpens(Contents(), limits, secrets, now, files); }
      if !limits.Valid() || |secrets| == 0 || |secrets| > 4 { return Err(InvalidConfiguration); }
      var saved := (uploads, budget, daily, settlements, caps, cleanups);
      r := StartUp(now, files);
      if r.Err? {
        uploads, budget, daily, settlements, caps, cleanups := saved.0, saved.1, saved.2, saved.3, saved.4, saved.5;
      }
    }

    /** The steps of the start-up transaction; on an error the caller rolls back. */
    method StartUp(now: nat, files: FileAnswers) returns (r: Result<(), LimitError>)
      requires limits.Valid() && 0 < |secrets| <= 4
      modifies this`uploads, this`budget, this`daily, this`settlements, this`caps, this`cleanups
      ensures r == A.Open(old(Contents()), limits, secrets, now, files).result
      ensures r.Ok? ==> Contents() == A.Open(old(Contents()), limits, secrets, now, files).after
    {
      var recovered := Recover(None, MAX_STARTUP_SETTLEMENT_RECOVERIES, true, None);
      if recovered.Err? { return Err(recovered.error); }
      r := ExpireAbandoned(now, {});
      if r.Err? { return; }
      r := ValidateStartup(now, files);
    }

    // Any transaction.

    /** One transaction of a process that uses this ledger. */
    method Perform(t: Transaction, now: nat)
      requires UsesSecrets(t, secrets)
      modifies this
      ensures Contents() == Effect(old(Contents()), limits, t, now)
    {
      match t {
        case Ordinary(op) => Serve(op, now);
        case SettleOne(s, token, actual, env) => var _ := Settle(s, token, actual, now, env);
        case BeginOne(s, attempt) => var _ := BeginDelivery(s, attempt);
        case MarkOne(s, attempt, fileError) => var _ := MarkDelivery(s, attempt, fileError);
        case AbortOne(s, attempt, lateAtStart, lateAtCommit) => var _ := AbortDelivery(s, attempt, lateAtStart, lateAtCommit);
        case AcknowledgeOne(s, fileError) => var _ := Acknowledge(s, fileError);
        case CompensateOne(s, token, receipt) =>
          if ReceiptHeld(uploads, settlements, s, receipt) {
            var _ := CompensateLate(s, token, receipt);
          }
      }
    }

    method Serve(op: Service, now: nat)
      requires op.DoReserve? ==> op.secrets == secrets
      modifies this
      ensures Contents() == ServiceEffect(old(Contents()), limits, op, now)
    {
      match op {
        case DoReserve(_, request, env) => var _ := Reserve(request, now, env);
        case DoClaim(s, token, duration) => var _ := ClaimLease(s, token, duration, now);
        case DoRenew(s, token, duration) => var _ := RenewLease(s, token, duration, now);
        case DoExpand(s, token, required, lease, env) => var _ := Expand(s, token, required, lease, now, env);
        case DoTransition(s, token, target, fileError) => var _ := Transition(s, token, target, fileError);
        case DoExpire(s, token) => var _ := Expire(s, token);
        case DoReconcile(active) => var _ := Reconcile(now, active);
        case DoCleanup(s, deletion) => RecordCleanup(s, deletion, now);
      }
    }
  }

  /** A reservation hashes addresses with the secrets of its process. */
  predicate UsesSecrets(t: Transaction, secrets: seq<nat>) {
    t.Ordinary? && t.service.DoReserve? ==> t.service.secrets == secrets
  }
}
