/**
 * What the transactions of the rest of the service may do to a session that has been settled:
 * keep its charge, or give back a charge nobody has acknowledged or marked as delivered.
 */
module LedgerFrames {
  import opened Prelude
  import opened LedgerTables
  import opened LedgerTransactions
  import opened LedgerAdmission
  import opened LedgerInvariant
  import opened LedgerRecovery
  import opened LedgerReconciliation

  /** Session s is past settlement: it can no longer hold bytes. */
  predicate IsSettled(l: Ledger, s: nat) {
    s < |l.uploads| && !l.uploads[s].state.IsReserved()
  }

  /** The charge of session s and its settlement row are as they were. */
  predicate ChargeStays(l: Ledger, next: Ledger, s: nat)
    requires s < |l.uploads| <= |next.uploads|
  {
    next.uploads[s].actual == l.uploads[s].actual && Lookup(next.settlements, s) == Lookup(l.settlements, s)
  }

  /** A pending charge of session s was given back. */
  predicate ChargeReturned(l: Ledger, next: Ledger, s: nat)
    requires s < |l.uploads| <= |next.uploads|
  {
    Pending(l, s) && s !in next.settlements && next.uploads[s].state == Expired && next.uploads[s].actual == None
  }

  predicate Kept(l: Ledger, next: Ledger, s: nat) {
    && |l.uploads| <= |next.uploads|
    && |l.chargedOn| <= |next.chargedOn|
    && (IsSettled(l, s) && s < |l.chargedOn| ==>
          && IsSettled(next, s)
          && next.chargedOn[s] == l.chargedOn[s]
          && (ChargeStays(l, next, s) || ChargeReturned(l, next, s))
          && (DeliveryPossible(l, s) ==> next.uploads[s].state == l.uploads[s].state)
          && (l.uploads[s].state.IsTerminal() ==> next.uploads[s].state == l.uploads[s].state))
  }

  ghost predicate AllKept(l: Ledger, next: Ledger) {
    forall s: nat :: Kept(l, next, s)
  }

  /** Every table row of session s is the same. */
  predicate Untouched(l: Ledger, next: Ledger, s: nat) {
    && (s < |l.uploads| ==> s < |next.uploads| && next.uploads[s] == l.uploads[s])
    && (s < |l.chargedOn| ==> s < |next.chargedOn| && next.chargedOn[s] == l.chargedOn[s])
    && Lookup(next.settlements, s) == Lookup(l.settlements, s)
  }

  ghost predicate OnlyTouches(l: Ledger, next: Ledger, s: nat) {
    && |l.uploads| == |next.uploads| && |l.chargedOn| == |next.chargedOn|
    && forall k: nat :: k != s ==> Untouched(l, next, k)
  }

  predicate SameButIdentity(u: Upload, v: Upload) {
    v == u.(identity := v.identity)
  }

  lemma ReserveKeeps(l: Ledger, limits: Limits, secrets: seq<nat>, request: ReserveRequest, now: nat, env: ReserveEnv)
    ensures AllKept(l, Reserve(l, limits, secrets, request, now, env).after)
  {
    if Reserve(l, limits, secrets, request, now, env).result.Ok? {
      var found := FoundIdentities(l.ids.hashes, secrets, request.ip.value);
      if found != [] {
        MergesKeepRows(l, found[0], found[1..]);
      }
    }
  }

  /** Merging identities changes nothing of a session but its identity. */
  lemma {:induction false} MergesKeepRows(l: Ledger, primary: nat, others: seq<nat>)
    ensures MergeAll(l, primary, others).Ok? ==>
              var next := MergeAll(l, primary, others).value;
              && |next.uploads| == |l.uploads|
              && next.settlements == l.settlements && next.chargedOn == l.chargedOn
              && (forall s: nat :: s < |l.uploads| ==> SameButIdentity(l.uploads[s], next.uploads[s]))
    decreases |others|
  {
    if others != [] {
      MergesKeepRows(l, primary, others[..|others| - 1]);
    }
  }

  lemma LeaseKeeps(l: Ledger, s: nat, token: nat, duration: Duration, now: nat)
    ensures AllKept(l, ClaimLease(l, s, token, duration, now).after)
    ensures AllKept(l, RenewLease(l, s, token, duration, now).after)
  {
  }

  lemma ExpandKeeps(l: Ledger, limits: Limits, s: nat, token: nat, required: nat, lease: Option<Duration>,
                    now: nat, env: ExpandEnv)
    ensures AllKept(l, Expand(l, limits, s, token, required, lease, now, env).after)
  {
  }

  lemma TransitionKeeps(l: Ledger, limits: Limits, s: nat, token: nat, target: UploadState,
                        fileError: Option<LimitError>, today: nat)
    requires Inv(l, limits, today)
    ensures AllKept(l, Transition(l, s, token, target, fileError).after)
  {
    if s < |l.uploads| {
      assert RowOk(l, s, today);
    }
  }

  lemma ExpireKeeps(l: Ledger, s: nat, token: nat)
    ensures AllKept(l, Expire(l, s, token).after)
  {
  }

  lemma CleanupKeeps(l: Ledger, s: nat, deletion: Deletion, now: nat)
    ensures AllKept(l, RecordCleanup(l, s, deletion, now))
  {
  }

  lemma SettleKeeps(l: Ledger, limits: Limits, s: nat, token: nat, actual: nat, now: nat, env: SettleEnv)
    ensures AllKept(l, Settle(l, limits, s, token, actual, now, env).after)
  {
  }

  /** Giving back the pending charges of some rows, then ending active sessions. */
  lemma RefundsKeep(l: Ledger, limits: Limits, today: nat, middle: Ledger, rows: seq<nat>, next: Ledger, gone: set<nat>)
    requires Inv(l, limits, today) && RowsGivenBack(l, middle, rows) && ExpiredTo(middle, next, gone)
    requires AllActive(middle, gone)
    ensures AllKept(l, next)
  {
    forall s: nat ensures Kept(l, next, s) {
      if s < |l.uploads| {
        assert RowOk(l, s, today);
        assert Lookup(middle.settlements, s) == if s in rows && Pending(l, s) then None else Lookup(l.settlements, s);
      }
    }
  }

  lemma ReconcileKeeps(l: Ledger, limits: Limits, now: nat, active: set<nat>, today: nat)
    requires Inv(l, limits, today)
    ensures AllKept(l, Reconcile(l, now, active).after)
  {
    ReconcileOutcome(l, limits, today, now, active);
    var rows := Visited(l, Some(now - SETTLEMENT_ACK_GRACE_SECONDS), MAX_CLEANUP_JOBS_PER_PASS, None);
    var next := Reconcile(l, now, active).after;
    if Reconcile(l, now, active).result.Ok? {
      var middle :| GivenBack(l, middle, rows) && OutboxFollows(l, middle, rows) && Inv(middle, limits, today)
                    && ExpiredTo(middle, next, AbandonedSet(middle, now, active))
                    && AllActive(middle, AbandonedSet(middle, now, active));
      RefundsKeep(l, limits, today, middle, rows, next, AbandonedSet(middle, now, active));
    }
  }

  lemma DeliveryTouchesOne(l: Ledger, s: nat, attempt: nat, fileError: Option<LimitError>)
    ensures OnlyTouches(l, BeginDelivery(l, s, attempt).after, s)
    ensures OnlyTouches(l, MarkDelivery(l, s, attempt, fileError).after, s)
    ensures OnlyTouches(l, Acknowledge(l, s, fileError).after, s)
  {
  }

  lemma CompensationTouchesOne(l: Ledger, s: nat, token: nat, receipt: Receipt)
    ensures OnlyTouches(l, CompensateLate(l, s, token, receipt).after, s)
  {
  }

  lemma AbortTouchesOne(l: Ledger, limits: Limits, s: nat, attempt: nat, lateAtStart: bool, lateAtCommit: bool, today: nat)
    requires Inv(l, limits, today)
    ensures OnlyTouches(l, AbortDelivery(l, s, attempt, lateAtStart, lateAtCommit).after, s)
  {
    if s in l.settlements && l.settlements[s].attempt == Some(attempt) {
      assert RowOk(l, s, today);
      UnmarkKeepsInv(l, limits, s, today);
      SingleRecovery(l.(settlements := l.settlements[s := l.settlements[s].(possible := false)]), limits, s, today);
    }
  }
}
