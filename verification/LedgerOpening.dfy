/**
 * Opening a database: the start-up transaction fails or establishes the ledger invariant for the
 * configured limits, whatever budget was stored and whatever limits the previous run had.
 */
module LedgerOpening {
  import opened Prelude
  import opened Sums
  import opened LedgerTables
  import opened LedgerTransactions
  import opened LedgerAdmission
  import opened LedgerInvariant
  import opened LedgerRecovery
  import opened LedgerReconciliation
  import opened LedgerAdmissionInvariant

  function ActualColumn(uploads: seq<Upload>): seq<nat> {
    seq(|uploads|, k requires 0 <= k < |uploads| => if uploads[k].actual.Some? then uploads[k].actual.value else 0)
  }

  function OnesColumn(uploads: seq<Upload>): seq<nat> {
    seq(|uploads|, k requires 0 <= k < |uploads| => 1)
  }

  /** Limits no identity can exceed, because they cover every row there is. */
  function AmpleLimits(l: Ledger): Limits {
    Limits(0, Sum(ActualColumn(l.uploads)) + TotalHeld(l.uploads), Sum(OnesColumn(l.uploads)), TotalHeld(l.uploads), 0)
  }

  /** The same tables with the budget a correct run would have stored. */
  function Rebudgeted(l: Ledger): Ledger {
    l.(budget := TotalHeld(l.uploads))
  }

  lemma StoredIsInv(l: Ledger, day: nat)
    requires Stored(l, day)
    ensures Inv(Rebudgeted(l), AmpleLimits(l), day)
  {
    var r := Rebudgeted(l);
    forall s: nat | s < |r.uploads| ensures RowOk(r, s, day) {
      assert RowOk(l, s, day);
    }
    forall i
      ensures Committed(r, i, day) <= AmpleLimits(l).dailyQuotaBytes
      ensures ActiveSessions(r.uploads, i) <= AmpleLimits(l).maxActiveSessions
    {
      assert Used(l.daily, i, day) == TotalCharged(l.uploads, l.chargedOn, i, day);
      SumAtMost(ChargeColumn(l.uploads, l.chargedOn, i, day), ActualColumn(l.uploads));
      SumAtMost(HeldByColumn(l.uploads, i), HeldColumn(l.uploads));
      SumAtMost(ActiveColumn(l.uploads, i), OnesColumn(l.uploads));
    }
  }

  /** Recovery neither reads nor writes the budget. */
  lemma {:induction false} RecoverIgnoresBudget(l: Ledger, rows: seq<nat>, budget: nat)
    ensures RecoverRows(l.(budget := budget), rows).result == RecoverRows(l, rows).result
    ensures RecoverRows(l, rows).result.Ok? ==>
              RecoverRows(l.(budget := budget), rows).after == RecoverRows(l, rows).after.(budget := budget)
    decreases |rows|
  {
    if rows != [] {
      RecoverIgnoresBudget(l, rows[..|rows| - 1], budget);
      var middle := RecoverRows(l, rows[..|rows| - 1]);
      if middle.result.Ok? && rows[|rows| - 1] in middle.after.settlements {
        RowIgnoresBudget(middle.after, rows[|rows| - 1], budget);
      }
    }
  }

  lemma RefundIgnoresBudget(l: Ledger, s: nat, daily: map<(nat, nat), nat>, budget: nat)
    requires s < |l.uploads|
    ensures Refunded(l.(budget := budget), s, daily) == Refunded(l, s, daily).(budget := budget)
  {
  }

  lemma RowIgnoresBudget(l: Ledger, s: nat, budget: nat)
    requires s in l.settlements
    ensures RecoverRow(l.(budget := budget), s).result == RecoverRow(l, s).result
    ensures RecoverRow(l, s).result.Ok? ==>
              RecoverRow(l.(budget := budget), s).after == RecoverRow(l, s).after.(budget := budget)
  {
    if s < |l.uploads| {
      var refund := RefundUsage(l.daily, l.uploads[s].identity, l.settlements[s].day, l.settlements[s].actual);
      if refund.Ok? {
        RefundIgnoresBudget(l, s, refund.value, budget);
      }
    }
  }

  /** A batch expiry that completes on a wrong budget leaves the rows a correct one would. */
  lemma {:induction false} ExpireUnderWrongBudget(l: Ledger, rows: seq<nat>, budget: nat)
    requires ExpireRows(l, rows, {}).result.Ok?
    requires ExpireRows(l.(budget := budget), rows, {}).result.Ok?
    ensures var wrong := ExpireRows(l.(budget := budget), rows, {}).after;
            wrong == ExpireRows(l, rows, {}).after.(budget := wrong.budget)
    decreases |rows|
  {
    if rows != [] {
      ExpireUnderWrongBudget(l, rows[..|rows| - 1], budget);
    }
  }

  /** A stored database stays one when only its budget changes. */
  lemma StoredAnyBudget(l: Ledger, limits: Limits, day: nat, budget: nat)
    requires Inv(l, limits, day)
    ensures Stored(l.(budget := budget), day)
  {
    forall s: nat | s < |l.uploads| ensures RowOk(l.(budget := budget), s, day) {
      assert RowOk(l, s, day);
    }
  }

  /** A ledger that satisfies the invariant may be stored and opened again with any limits. */
  lemma InvIsStored(l: Ledger, limits: Limits, day: nat)
    requires Inv(l, limits, day)
    ensures Stored(l, day)
  {
  }

  /**
   * Start-up recovery of a stored database, whatever its budget and limits: it is refused exactly when
   * there are too many rows, and otherwise completes exactly when every zero-byte refund finds its usage row.
   */
  lemma StartupRecovery(l: Ledger, day: nat)
    requires Stored(l, day)
    ensures var rows := DueRows(l.settlements, None, None, |l.uploads|);
            var result := Recover(l, None, MAX_STARTUP_SETTLEMENT_RECOVERIES, true, None).result;
            if |rows| > MAX_STARTUP_SETTLEMENT_RECOVERIES then result == Err(PendingSettlementRecoveryLimit)
            else if ZeroRefundsCovered(l, rows) then result == Ok(CountPending(l, rows))
            else result == Err(AccountingInvariant)
  {
    var r, rows := Rebudgeted(l), DueRows(l.settlements, None, None, |l.uploads|);
    StoredIsInv(l, day);
    assert l == r.(budget := l.budget);
    RecoverIgnoresBudget(r, rows, l.budget);
    RecoverOutcome(r, AmpleLimits(l), day, None, MAX_STARTUP_SETTLEMENT_RECOVERIES, true, None);
    SameRowsCovered(l, r, rows);
  }

  /** Neither the condition nor the count looks at the budget. */
  lemma {:induction false} SameRowsCovered(l: Ledger, r: Ledger, rows: seq<nat>)
    requires r == l.(budget := r.budget)
    ensures ZeroRefundsCovered(r, rows) <==> ZeroRefundsCovered(l, rows)
    ensures CountPending(r, rows) == CountPending(l, rows)
    decreases |rows|
  {
    forall earlier: seq<nat>, key: (nat, nat) ensures Survives(r, earlier, key) <==> Survives(l, earlier, key) {
      SameRefunds(l, r, earlier, key);
    }
    if rows != [] {
      SameRowsCovered(l, r, rows[..|rows| - 1]);
    }
  }

  lemma {:induction false} SameRefunds(l: Ledger, r: Ledger, rows: seq<nat>, key: (nat, nat))
    requires r == l.(budget := r.budget)
    ensures RefundedBytes(r, rows, key) == RefundedBytes(l, rows, key)
    decreases |rows|
  {
    if rows != [] {
      SameRefunds(l, r, rows[..|rows| - 1], key);
    }
  }

  /**
   * Recovery of a crashed database is total: with at most 128 rows and no pending zero-byte charge it
   * completes, refunds every pending row, keeps every marked one, and doing it again changes nothing.
   */
  lemma StartupRecoveryIsTotal(l: Ledger, day: nat)
    requires Stored(l, day)
    requires |DueRows(l.settlements, None, None, |l.uploads|)| <= MAX_STARTUP_SETTLEMENT_RECOVERIES
    requires forall s :: s in l.settlements && Pending(l, s) ==> l.settlements[s].actual > 0
    ensures var step := Recover(l, None, MAX_STARTUP_SETTLEMENT_RECOVERIES, true, None);
            && step.result.Ok?
            && Stored(step.after, day)
            && (forall s: nat :: Lookup(step.after.settlements, s) == if Pending(l, s) then None else Lookup(l.settlements, s))
            && Recover(step.after, None, MAX_STARTUP_SETTLEMENT_RECOVERIES, true, None) == Step(Ok(0), step.after)
  {
    var r, rows := Rebudgeted(l), DueRows(l.settlements, None, None, |l.uploads|);
    StoredIsInv(l, day);
    assert l == r.(budget := l.budget);
    RecoverIgnoresBudget(r, rows, l.budget);
    RecoveryIsTotalAndIdempotent(r, AmpleLimits(l), day, None, MAX_STARTUP_SETTLEMENT_RECOVERIES, true, None);
    var good := RecoverRows(r, rows).after;
    StoredAnyBudget(good, AmpleLimits(l), day, l.budget);
    RecoverIgnoresBudget(good, DueRows(good.settlements, None, None, |good.uploads|), l.budget);
    forall s: nat ensures Lookup(good.settlements, s) == if Pending(l, s) then None else Lookup(l.settlements, s) {
      if s in l.settlements {
        assert IsDue(r.settlements, None, None, s);
      } else {
        assert Lookup(good.settlements, s) == if s in rows && Pending(r, s) then None else Lookup(r.settlements, s);
      }
    }
  }

  /** Opening fails and changes nothing, or establishes the invariant for the configured limits. */
  lemma OpenOutcome(l: Ledger, limits: Limits, secrets: seq<nat>, now: nat, files: FileAnswers)
    requires Stored(l, DayOf(now))
    ensures var step := Open(l, limits, secrets, now, files);
            && (step.result.Err? ==> step.after == l)
            && (step.result.Ok? ==> Inv(step.after, limits, DayOf(now)))
            && (step.result.Ok? ==> forall s :: s in step.after.settlements ==> step.after.settlements[s].possible)
  {
    var step := Open(l, limits, secrets, now, files);
    if step.result.Ok? {
      OpenCommits(l, limits, secrets, now, files);
      OpenRecovers(l, DayOf(now));
      var recovered := Recover(l, None, MAX_STARTUP_SETTLEMENT_RECOVERIES, true, None).after;
      OpenExpires(recovered, DayOf(now), now);
      ValidateEstablishesInv(ExpireAbandoned(recovered, now, {}).after, limits, secrets, now, files);
    }
  }

  /** The three parts of an opening that commits. */
  lemma OpenCommits(l: Ledger, limits: Limits, secrets: seq<nat>, now: nat, files: FileAnswers)
    requires Open(l, limits, secrets, now, files).result.Ok?
    ensures var recovered := Recover(l, None, MAX_STARTUP_SETTLEMENT_RECOVERIES, true, None);
            var expired := ExpireAbandoned(recovered.after, now, {});
            && recovered.result.Ok? && expired.result.Ok?
            && Open(l, limits, secrets, now, files) == ValidateStartup(expired.after, limits, secrets, now, files)
            && Open(l, limits, secrets, now, files).after
               == expired.after.(budget := Open(l, limits, secrets, now, files).after.budget)
  {
  }

  lemma OpenRecovers(l: Ledger, day: nat)
    requires Stored(l, day)
    requires Recover(l, None, MAX_STARTUP_SETTLEMENT_RECOVERIES, true, None).result.Ok?
    ensures var next := Recover(l, None, MAX_STARTUP_SETTLEMENT_RECOVERIES, true, None).after;
            && Stored(next, day) && next.budget == l.budget
            && (forall s :: s in next.settlements ==> next.settlements[s].possible)
            && RowsGivenBack(Rebudgeted(l), Rebudgeted(next), DueRows(l.settlements, None, None, |l.uploads|))
            && OutboxFollows(Rebudgeted(l), Rebudgeted(next), DueRows(l.settlements, None, None, |l.uploads|))
  {
    var r := Rebudgeted(l);
    StoredIsInv(l, day);
    var rows := DueRows(l.settlements, None, None, |l.uploads|);
    assert l == r.(budget := l.budget);
    RecoverIgnoresBudget(r, rows, l.budget);
    RecoverOutcome(r, AmpleLimits(l), day, None, MAX_STARTUP_SETTLEMENT_RECOVERIES, true, None);
    var good := RecoverRows(r, rows).after;
    StoredAnyBudget(good, AmpleLimits(l), day, l.budget);
    forall s | s in good.settlements ensures good.settlements[s].possible {
      assert Lookup(good.settlements, s) == if s in rows && Pending(r, s) then None else Lookup(r.settlements, s);
    }
  }

  lemma OpenExpires(l: Ledger, day: nat, now: nat)
    requires Stored(l, day)
    requires ExpireAbandoned(l, now, {}).result.Ok?
    ensures Stored(ExpireAbandoned(l, now, {}).after, day)
    ensures ExpiredTo(l, ExpireAbandoned(l, now, {}).after, AbandonedSet(l, now, {}))
  {
    var r := Rebudgeted(l);
    StoredIsInv(l, day);
    var rows := AbandonedRows(l.uploads, l.caps, now, |l.uploads|);
    assert l == r.(budget := l.budget);
    ExpireAbandonedOutcome(r, AmpleLimits(l), day, now, {});
    ExpireUnderWrongBudget(r, rows, l.budget);
    StoredAnyBudget(ExpireRows(r, rows, {}).after, AmpleLimits(l), day, ExpireRows(l, rows, {}).after.budget);
  }
}
