/**
 * The other bulk transactions: expiry of abandoned sessions, the periodic reconciliation,
 * late compensation, delivery bookkeeping, and the opening of a database.
 */
module LedgerReconciliation {
  import opened Prelude
  import opened LedgerTables
  import opened LedgerTransactions
  import opened LedgerInvariant
  import opened LedgerRecovery

  // Expiry of abandoned sessions.

  /** A session row once its session has been expired with its charge kept. */
  function Ended(u: Upload): Upload {
    u.(state := Expired, reserved := 0, lease := None)
  }

  predicate AllActive(l: Ledger, sessions: set<nat>) {
    forall s :: s in sessions ==> s < |l.uploads| && l.uploads[s].state.IsReserved()
  }

  /** `next` is `l` with the sessions in `gone` expired; usage and settlements stay. */
  ghost predicate ExpiredTo(l: Ledger, next: Ledger, gone: set<nat>) {
    && |next.uploads| == |l.uploads|
    && next.chargedOn == l.chargedOn && next.daily == l.daily && next.ids == l.ids
    && next.settlements == l.settlements && next.removed == l.removed
    && forall k: nat :: k < |l.uploads| ==> next.uploads[k] == if k in gone then Ended(l.uploads[k]) else l.uploads[k]
  }

  ghost predicate ExpiryOutcome(l: Ledger, limits: Limits, today: nat, gone: set<nat>, step: Step<()>) {
    step.result.Ok? && Inv(step.after, limits, today) && ExpiredTo(l, step.after, gone)
  }

  lemma ExpireStep(l: Ledger, limits: Limits, today: nat, earlier: Step<()>, gone: set<nat>, s: nat, active: set<nat>)
    requires ExpiryOutcome(l, limits, today, gone, earlier)
    requires s < |l.uploads| && l.uploads[s].state.IsReserved() && s !in gone
    ensures ExpiryOutcome(l, limits, today, gone + ({s} - active), NextExpiry(l, earlier, s, active))
  {
    if s !in active {
      var middle := earlier.after;
      assert middle.uploads[s] == l.uploads[s];
      assert RowOk(middle, s, today);
      RetireKeepsInv(middle, limits, today, s);
    } else {
      assert gone + ({s} - active) == gone;
    }
  }

  /** The sessions a batch expiry of `rows` ends. */
  function Gone(rows: seq<nat>, active: set<nat>): set<nat> {
    (set s | s in rows) - active
  }

  lemma GoneStep(earlier: seq<nat>, s: nat, active: set<nat>)
    ensures Gone(earlier + [s], active) == Gone(earlier, active) + ({s} - active)
  {
  }

  /** The batch expiry never underflows the budget and expires exactly the rows it is given, except the active ones. */
  lemma {:induction false} ExpireRowsOutcome(l: Ledger, limits: Limits, today: nat, rows: seq<nat>, active: set<nat>)
    requires Inv(l, limits, today) && Distinct(rows)
    requires forall s :: s in rows ==> s < |l.uploads| && l.uploads[s].state.IsReserved()
    ensures ExpiryOutcome(l, limits, today, Gone(rows, active), ExpireRows(l, rows, active))
    decreases |rows|
  {
    if rows == [] {
      assert ExpireRows(l, rows, active) == Step(Ok(()), l);
    } else {
      var earlier, s := rows[..|rows| - 1], rows[|rows| - 1];
      assert forall k :: k in earlier ==> k in rows;
      ExpireRowsOutcome(l, limits, today, earlier, active);
      assert s in rows && s !in earlier;
      assert rows == earlier + [s];
      GoneStep(earlier, s, active);
      ExpireStep(l, limits, today, ExpireRows(l, earlier, active), Gone(earlier, active), s, active);
    }
  }

  /** The sessions the expiry of abandoned sessions ends. */
  function AbandonedSet(l: Ledger, now: nat, active: set<nat>): set<nat> {
    Gone(AbandonedRows(l.uploads, l.caps, now, |l.uploads|), active)
  }

  lemma ExpireAbandonedOutcome(l: Ledger, limits: Limits, today: nat, now: nat, active: set<nat>)
    requires Inv(l, limits, today)
    ensures var step := ExpireAbandoned(l, now, active);
            && step.result.Ok?
            && Inv(step.after, limits, today)
            && ExpiredTo(l, step.after, AbandonedSet(l, now, active))
    ensures forall s: nat :: s in AbandonedSet(l, now, active) <==>
              && s < |l.uploads| && s !in active
              && var u := l.uploads[s];
                 || (u.state == Receiving && !(u.lease.Some? && now < u.lease.value))
                 || (u.state == Reserved
                     && !(u.token in l.caps && l.caps[u.token].session == s && now < l.caps[u.token].expires))
  {
    ExpireRowsOutcome(l, limits, today, AbandonedRows(l.uploads, l.caps, now, |l.uploads|), active);
  }

  /** The periodic reconciliation fails only on the zero-byte case of recovery, and otherwise keeps the invariant. */
  lemma ReconcileOutcome(l: Ledger, limits: Limits, today: nat, now: nat, active: set<nat>)
    requires Inv(l, limits, today)
    ensures var step := Reconcile(l, now, active);
            var rows := Visited(l, Some(now - SETTLEMENT_ACK_GRACE_SECONDS), MAX_CLEANUP_JOBS_PER_PASS, None);
            && Inv(step.after, limits, today)
            && (step.result.Ok? <==> ZeroRefundsCovered(l, rows))
            && (step.result.Err? ==> step == Failed(l, AccountingInvariant))
            && (step.result.Ok? ==> exists middle ::
                  && GivenBack(l, middle, rows) && OutboxFollows(l, middle, rows) && Inv(middle, limits, today)
                  && ExpiredTo(middle, step.after, AbandonedSet(middle, now, active))
                  && AllActive(middle, AbandonedSet(middle, now, active)))
  {
    var cutoff := Some(now - SETTLEMENT_ACK_GRACE_SECONDS);
    RecoverOutcome(l, limits, today, cutoff, MAX_CLEANUP_JOBS_PER_PASS, false, None);
    var recovered := Recover(l, cutoff, MAX_CLEANUP_JOBS_PER_PASS, false, None);
    if recovered.result.Ok? {
      ExpireAbandonedOutcome(recovered.after, limits, today, now, active);
      assert ExpiredTo(recovered.after, Reconcile(l, now, active).after, AbandonedSet(recovered.after, now, active));
    }
  }

  // Delivery bookkeeping.

  lemma BeginDeliveryKeepsInv(l: Ledger, limits: Limits, s: nat, attempt: nat, today: nat)
    requires Inv(l, limits, today)
    ensures Inv(BeginDelivery(l, s, attempt).after, limits, today)
  {
    var step := BeginDelivery(l, s, attempt);
    if step.result.Ok? {
      assert RowOk(l, s, today);
      PlainUpdateKeepsInv(l, step.after, limits, today, s, l.uploads[s]);
    }
  }

  lemma MarkDeliveryKeepsInv(l: Ledger, limits: Limits, s: nat, attempt: nat, fileError: Option<LimitError>, today: nat)
    requires Inv(l, limits, today)
    ensures Inv(MarkDelivery(l, s, attempt, fileError).after, limits, today)
  {
    var step := MarkDelivery(l, s, attempt, fileError);
    if step.result.Ok? {
      assert RowOk(l, s, today);
      PlainUpdateKeepsInv(l, step.after, limits, today, s, l.uploads[s]);
    }
  }

  lemma AcknowledgeKeepsInv(l: Ledger, limits: Limits, s: nat, fileError: Option<LimitError>, today: nat)
    requires Inv(l, limits, today)
    ensures Inv(Acknowledge(l, s, fileError).after, limits, today)
  {
    var step := Acknowledge(l, s, fileError);
    if step.result.Ok? && s in l.settlements {
      assert RowOk(l, s, today);
      PlainUpdateKeepsInv(l, step.after, limits, today, s, l.uploads[s]);
    }
  }

  /** The row an abort first takes its delivery mark off. */
  lemma UnmarkKeepsInv(l: Ledger, limits: Limits, s: nat, today: nat)
    requires Inv(l, limits, today) && s in l.settlements
    ensures Inv(l.(settlements := l.settlements[s := l.settlements[s].(possible := false)]), limits, today)
  {
    assert RowOk(l, s, today);
    PlainUpdateKeepsInv(l, l.(settlements := l.settlements[s := l.settlements[s].(possible := false)]),
                        limits, today, s, l.uploads[s]);
  }

  /** The due rows of one session are that session alone. */
  lemma {:induction false} OnlyRow(settlements: map<nat, Settlement>, s: nat, n: nat)
    requires s in settlements
    ensures DueRows(settlements, None, Some(s), n) == if s < n then [s] else []
  {
    if n > 0 {
      OnlyRow(settlements, s, n - 1);
    }
  }

  /**
   * A committed abort leaves the session compensated: expired, its charge given back, no settlement row.
   * It fails on accounting only when the charge is zero bytes and its usage row is gone.
   */
  lemma AbortOutcome(l: Ledger, limits: Limits, s: nat, attempt: nat, lateAtStart: bool, lateAtCommit: bool, today: nat)
    requires Inv(l, limits, today)
    ensures var step := AbortDelivery(l, s, attempt, lateAtStart, lateAtCommit);
            && Inv(step.after, limits, today)
            && (step.result.Ok? ==> Compensated(step.after, s))
            && (step.result.Ok? ==> step.after == l || (s in l.settlements && l.settlements[s].attempt == Some(attempt)))
            && (step.result == Err(AccountingInvariant) ==>
                  s in l.settlements && l.settlements[s].actual == 0 && UsageKey(l, s) !in l.daily)
  {
    if s in l.settlements && l.settlements[s].attempt == Some(attempt) {
      assert RowOk(l, s, today);
      var unmarked := l.(settlements := l.settlements[s := l.settlements[s].(possible := false)]);
      UnmarkKeepsInv(l, limits, s, today);
      SingleRecovery(unmarked, limits, s, today);
    }
  }

  predicate CanAbort(l: Ledger, s: nat, attempt: nat, lateAtStart: bool, lateAtCommit: bool) {
    && !lateAtStart
    && if s in l.settlements && l.settlements[s].attempt == Some(attempt)
       then UsageKey(l, s) in l.daily && !lateAtCommit
       else Compensated(l, s)
  }

  /**
   * An abort in time commits exactly when its attempt still has the row and the charge's usage row is there,
   * or when the session has been compensated before.
   */
  lemma AbortSucceeds(l: Ledger, limits: Limits, s: nat, attempt: nat, lateAtStart: bool, lateAtCommit: bool, today: nat)
    requires Inv(l, limits, today)
    ensures AbortDelivery(l, s, attempt, lateAtStart, lateAtCommit).result.Ok?
            <==> CanAbort(l, s, attempt, lateAtStart, lateAtCommit)
    ensures var result := AbortDelivery(l, s, attempt, lateAtStart, lateAtCommit).result;
            result.Err? ==>
              || (result.error == OperationTimedOut && (lateAtStart || lateAtCommit))
              || (result.error == InvalidTransition && (s in l.settlements ==> l.settlements[s].attempt != Some(attempt)))
              || (result.error == AccountingInvariant && s in l.settlements && UsageKey(l, s) !in l.daily)
  {
    if s in l.settlements && l.settlements[s].attempt == Some(attempt) {
      assert RowOk(l, s, today);
      var unmarked := l.(settlements := l.settlements[s := l.settlements[s].(possible := false)]);
      UnmarkKeepsInv(l, limits, s, today);
      SingleRecovery(unmarked, limits, s, today);
    }
  }

  /** Recovery of one pending session alone. */
  lemma SingleRecovery(l: Ledger, limits: Limits, s: nat, today: nat)
    requires Inv(l, limits, today) && Pending(l, s)
    ensures Recover(l, None, 1, true, Some(s))
            == if UsageKey(l, s) in l.daily then Step(Ok(1), RecoverRow(l, s).after) else Failed(l, AccountingInvariant)
    ensures UsageKey(l, s) in l.daily ==>
              Inv(RecoverRow(l, s).after, limits, today) && Compensated(RecoverRow(l, s).after, s)
    ensures UsageKey(l, s) !in l.daily ==> l.settlements[s].actual == 0
  {
    PendingIsCovered(l, limits, today, s);
    OnlyRow(l.settlements, s, |l.uploads|);
    RecoverRowOutcome(l, limits, today, s);
    assert [s][..0] == [];
    assert RecoverRows(l, [s]) == NextRow(l, RecoverRows(l, []), s);
    assert RowOk(l, s, today);
  }

  /** The receipt is the one session s was settled with, and the settlement is still unacknowledged if charged. */
  ghost predicate ReceiptFits(l: Ledger, s: nat, receipt: Receipt) {
    && s < |l.uploads| == |l.chargedOn|
    && (l.uploads[s].actual.Some? ==> l.chargedOn[s] == receipt.day && s in l.settlements)
  }

  /** Late compensation of a charged session with its own receipt. */
  lemma LateRefundKeepsInv(l: Ledger, limits: Limits, s: nat, receipt: Receipt, today: nat)
    requires Inv(l, limits, today) && ReceiptFits(l, s, receipt)
    requires l.uploads[s].actual == Some(receipt.actual) && l.uploads[s].identity == receipt.identity
    requires !DeliveryPossible(l, s)
    requires RefundUsage(l.daily, receipt.identity, receipt.day, receipt.actual).Ok?
    ensures var daily := RefundUsage(l.daily, receipt.identity, receipt.day, receipt.actual).value;
            var refunded := l.(daily := daily, settlements := l.settlements - {s});
            && (l.uploads[s].state == Uploaded ==> Inv(Retire(refunded, s, None, l.budget), limits, today))
            && (l.uploads[s].state == Expired ==> Inv(Forgive(refunded, s), limits, today))
  {
    assert RowOk(l, s, today);
    HeldIsCovered(l, limits, today, s);
    var daily := RefundUsage(l.daily, receipt.identity, receipt.day, receipt.actual).value;
    var refunded := l.(daily := daily, settlements := l.settlements - {s});
    var next := if l.uploads[s].state == Uploaded then Retire(refunded, s, None, l.budget) else Forgive(refunded, s);
    OneSessionKeepsInv(l, next, limits, today, s, next.uploads[s], l.chargedOn[s]);
  }

  /** Late compensation with the session's own receipt keeps the invariant. */
  lemma CompensateLateKeepsInv(l: Ledger, limits: Limits, s: nat, token: nat, receipt: Receipt, today: nat)
    requires Inv(l, limits, today)
    requires s < |l.uploads| ==> ReceiptFits(l, s, receipt)
    ensures Inv(CompensateLate(l, s, token, receipt).after, limits, today)
  {
    var step := CompensateLate(l, s, token, receipt);
    if step.result.Ok? {
      assert RowOk(l, s, today);
      var u := l.uploads[s];
      if u.actual.Some? {
        LateRefundKeepsInv(l, limits, s, receipt, today);
      } else if u.state == Expired {
        PlainUpdateKeepsInv(l, step.after, limits, today, s, u);
      } else {
        assert l.settlements - {s} == l.settlements;
        RetireKeepsInv(l, limits, today, s);
      }
    }
  }

  lemma RecordCleanupKeepsInv(l: Ledger, limits: Limits, s: nat, deletion: Deletion, now: nat, today: nat)
    requires Inv(l, limits, today)
    ensures Inv(RecordCleanup(l, s, deletion, now), limits, today)
  {
    if s in l.cleanups {
      assert RowOk(l, s, today);
      PlainUpdateKeepsInv(l, RecordCleanup(l, s, deletion, now), limits, today, s, l.uploads[s]);
    }
  }
}
