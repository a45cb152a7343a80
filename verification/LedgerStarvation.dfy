/**
 * How settlements whose delivery was possible hold back the recovery of others: while a full batch of
 * marked rows is older than every other row, no periodic reconciliation refunds any of the others.
 */
module LedgerStarvation {
  import opened Prelude
  import opened LedgerTables
  import opened LedgerTransactions
  import opened LedgerInvariant
  import opened LedgerRecovery
  import opened LedgerReconciliation
  import opened LedgerFrames
  import opened LedgerSteps

  /** A full batch of marked settlement rows, older than every other row. */
  ghost predicate FullBatch(l: Ledger, batch: set<nat>) {
    && |batch| == MAX_CLEANUP_JOBS_PER_PASS
    && (forall b :: b in batch ==> b in l.settlements && l.settlements[b].possible)
    && (forall b, k :: b in batch && k in l.settlements && k !in batch ==> Before(l.settlements, b, k))
  }

  /** The settlement of session s is not in the batch. */
  ghost predicate Starving(l: Ledger, batch: set<nat>, s: nat) {
    FullBatch(l, batch) && s in l.settlements && s !in batch
  }

  /** A set of distinct entries of a sequence is no larger than the sequence. */
  lemma {:induction false} NoMoreThan(rows: seq<nat>, batch: set<nat>)
    requires forall b :: b in batch ==> b in rows
    ensures |batch| <= |rows|
    decreases |rows|
  {
    if rows == [] {
      assert batch == {};
    } else {
      var last := rows[|rows| - 1];
      var rest := batch - {last};
      forall b | b in rest ensures b in rows[..|rows| - 1] {
        var i :| 0 <= i < |rows| && rows[i] == b;
        assert rows[..|rows| - 1][i] == b;
      }
      NoMoreThan(rows[..|rows| - 1], rest);
      assert batch <= rest + {last};
    }
  }

  /** Every older row comes earlier. */
  lemma OlderComeFirst(settlements: map<nat, Settlement>, rows: seq<nat>, i: nat, b: nat)
    requires forall s :: s in rows ==> s in settlements
    requires forall p, q :: 0 <= p < q < |rows| ==> Before(settlements, rows[p], rows[q])
    requires i < |rows| && b in rows && Before(settlements, b, rows[i])
    ensures b in rows[..i]
  {
    var j :| 0 <= j < |rows| && rows[j] == b;
    assert j < i;
    assert rows[..i][j] == b;
  }

  /** A periodic pass visits rows of the batch only. */
  lemma VisitedInBatch(l: Ledger, limits: Limits, day: nat, batch: set<nat>, cutoff: int)
    requires Inv(l, limits, day) && FullBatch(l, batch)
    ensures forall k :: k in Visited(l, Some(cutoff), MAX_CLEANUP_JOBS_PER_PASS, None) ==> k in batch
  {
    var rows := DueRows(l.settlements, Some(cutoff), None, |l.uploads|);
    var visited := Visited(l, Some(cutoff), MAX_CLEANUP_JOBS_PER_PASS, None);
    DueRowsOrdered(l.settlements, Some(cutoff), None, |l.uploads|);
    forall k | k in visited ensures k in batch {
      var i :| 0 <= i < |visited| && visited[i] == k;
      assert rows[i] == k && k in rows;
      if k !in batch {
        forall b | b in batch ensures b in rows[..i] {
          assert Before(l.settlements, b, k);
          OlderComeFirst(l.settlements, rows, i, b);
        }
        NoMoreThan(rows[..i], batch);
        assert false;
      }
    }
  }

  /** A reconciliation over a full batch of marked rows refunds nothing. */
  lemma ReconcileStarves(l: Ledger, limits: Limits, day: nat, now: nat, active: set<nat>, batch: set<nat>)
    requires Inv(l, limits, day) && FullBatch(l, batch)
    ensures Reconcile(l, now, active) == ExpireAbandoned(l, now, active)
    ensures Reconcile(l, now, active).result.Ok?
    ensures Reconcile(l, now, active).after.settlements == l.settlements
    ensures Reconcile(l, now, active).after.daily == l.daily
  {
    var cutoff := now - SETTLEMENT_ACK_GRACE_SECONDS;
    VisitedInBatch(l, limits, day, batch, cutoff);
    NothingPending(l, limits, day, Visited(l, Some(cutoff), MAX_CLEANUP_JOBS_PER_PASS, None));
    ExpireAbandonedOutcome(l, limits, day, now, active);
  }

  /** The transaction neither acknowledges nor aborts a row of the batch, and does not end the settlement of s itself. */
  predicate LeavesWaiting(t: Transaction, batch: set<nat>, s: nat) {
    match t
    case AbortOne(k, _, _, _) => k !in batch && k != s
    case AcknowledgeOne(k, _) => k !in batch && k != s
    case CompensateOne(k, _, _) => k != s
    case _ => true
  }

  /** The transaction comes later than every row of the batch. */
  ghost predicate Later(l: Ledger, batch: set<nat>, now: nat) {
    forall b :: b in batch && b in l.settlements ==> l.settlements[b].createdAt < now
  }

  /** No row of the batch and not the one of s has gone or lost its mark, and a new one is younger. */
  ghost predicate BatchStands(l: Ledger, next: Ledger, batch: set<nat>, s: nat, now: nat) {
    && (forall b :: b in batch && b in l.settlements ==>
          b in next.settlements && next.settlements[b].possible && next.settlements[b].createdAt == l.settlements[b].createdAt)
    && (s in l.settlements ==> s in next.settlements)
    && (forall k :: k in next.settlements && k !in batch ==>
          if k in l.settlements then next.settlements[k].createdAt == l.settlements[k].createdAt
          else next.settlements[k].createdAt == now)
  }

  lemma StandsMeansStarving(l: Ledger, next: Ledger, batch: set<nat>, s: nat, now: nat)
    requires Starving(l, batch, s) && BatchStands(l, next, batch, s, now) && Later(l, batch, now)
    ensures Starving(next, batch, s)
  {
    forall b, k | b in batch && k in next.settlements && k !in batch ensures Before(next.settlements, b, k) {
      if k in l.settlements {
        assert Before(l.settlements, b, k);
      }
    }
  }

  /** A transaction that drops one row at most, and that one neither in the batch nor the one of s. */
  lemma OthersStand(l: Ledger, next: Ledger, k: nat, batch: set<nat>, s: nat, now: nat)
    requires Starving(l, batch, s) && k !in batch && k != s
    requires forall j: nat :: j != k ==> Lookup(next.settlements, j) == Lookup(l.settlements, j)
    requires k !in next.settlements
    ensures BatchStands(l, next, batch, s, now)
  {
    assert Lookup(next.settlements, s) == Lookup(l.settlements, s);
    forall b | b in batch ensures Lookup(next.settlements, b) == Lookup(l.settlements, b) {
      assert b != k;
    }
    forall j | j in next.settlements ensures Lookup(next.settlements, j) == Lookup(l.settlements, j) {
      assert j != k;
    }
  }

  lemma AbortKeepsOthers(l: Ledger, limits: Limits, k: nat, attempt: nat, lateAtStart: bool, lateAtCommit: bool,
                         day: nat, batch: set<nat>, s: nat, now: nat)
    requires Inv(l, limits, day) && Starving(l, batch, s) && k !in batch && k != s
    ensures BatchStands(l, AbortDelivery(l, k, attempt, lateAtStart, lateAtCommit).after, batch, s, now)
  {
    var next := AbortDelivery(l, k, attempt, lateAtStart, lateAtCommit).after;
    AbortTouchesOne(l, limits, k, attempt, lateAtStart, lateAtCommit, day);
    AbortOutcome(l, limits, k, attempt, lateAtStart, lateAtCommit, day);
    if next != l {
      AbortCommits(l, k, attempt, lateAtStart, lateAtCommit);
      forall j: nat | j != k ensures Lookup(next.settlements, j) == Lookup(l.settlements, j) {
        assert Untouched(l, next, j);
      }
      OthersStand(l, next, k, batch, s, now);
    }
  }

  lemma AbortCommits(l: Ledger, k: nat, attempt: nat, lateAtStart: bool, lateAtCommit: bool)
    ensures var step := AbortDelivery(l, k, attempt, lateAtStart, lateAtCommit); step.after != l ==> step.result.Ok?
  {
  }

  lemma CompensationStands(l: Ledger, k: nat, token: nat, receipt: Receipt, batch: set<nat>, s: nat, now: nat)
    requires Starving(l, batch, s) && k != s
    ensures BatchStands(l, CompensateLate(l, k, token, receipt).after, batch, s, now)
  {
    CompensationTouchesOne(l, k, token, receipt);
    var next := CompensateLate(l, k, token, receipt).after;
    if next != l {
      assert k !in batch && k !in next.settlements;
      forall j: nat | j != k ensures Lookup(next.settlements, j) == Lookup(l.settlements, j) {
        assert Untouched(l, next, j);
      }
      OthersStand(l, next, k, batch, s, now);
    }
  }

  lemma SettleStands(l: Ledger, limits: Limits, k: nat, token: nat, actual: nat, now: nat, env: SettleEnv, batch: set<nat>, s: nat)
    requires Inv(l, limits, DayOf(now)) && Starving(l, batch, s)
    ensures BatchStands(l, Settle(l, limits, k, token, actual, now, env).after, batch, s, now)
  {
    if k < |l.uploads| {
      assert RowOk(l, k, DayOf(now));
    }
  }

  lemma BeginStands(l: Ledger, k: nat, attempt: nat, batch: set<nat>, s: nat, now: nat)
    requires Starving(l, batch, s)
    ensures BatchStands(l, BeginDelivery(l, k, attempt).after, batch, s, now)
  {
  }

  lemma MarkStands(l: Ledger, k: nat, attempt: nat, fileError: Option<LimitError>, batch: set<nat>, s: nat, now: nat)
    requires Starving(l, batch, s)
    ensures BatchStands(l, MarkDelivery(l, k, attempt, fileError).after, batch, s, now)
  {
  }

  lemma AcknowledgeStands(l: Ledger, k: nat, fileError: Option<LimitError>, batch: set<nat>, s: nat, now: nat)
    requires Starving(l, batch, s) && k !in batch && k != s
    ensures BatchStands(l, Acknowledge(l, k, fileError).after, batch, s, now)
  {
  }

  lemma DeliveryStands(l: Ledger, limits: Limits, t: Transaction, now: nat, batch: set<nat>, s: nat)
    requires Inv(l, limits, DayOf(now)) && Starving(l, batch, s) && LeavesWaiting(t, batch, s) && !t.Ordinary?
    ensures BatchStands(l, Effect(l, limits, t, now), batch, s, now)
  {
    match t
    case SettleOne(k, token, actual, env) => SettleStands(l, limits, k, token, actual, now, env, batch, s);
    case BeginOne(k, attempt) => BeginStands(l, k, attempt, batch, s, now);
    case MarkOne(k, attempt, fileError) => MarkStands(l, k, attempt, fileError, batch, s, now);
    case AbortOne(k, attempt, lateAtStart, lateAtCommit) =>
      AbortKeepsOthers(l, limits, k, attempt, lateAtStart, lateAtCommit, DayOf(now), batch, s, now);
    case AcknowledgeOne(k, fileError) => AcknowledgeStands(l, k, fileError, batch, s, now);
    case CompensateOne(k, token, receipt) => CompensationStands(l, k, token, receipt, batch, s, now);
  }

  lemma StepStarves(l: Ledger, limits: Limits, t: Transaction, now: nat, batch: set<nat>, s: nat)
    requires Inv(l, limits, DayOf(now)) && Starving(l, batch, s) && LeavesWaiting(t, batch, s) && Later(l, batch, now)
    ensures Starving(Effect(l, limits, t, now), batch, s)
    ensures forall b :: b in batch ==> Effect(l, limits, t, now).settlements[b].createdAt == l.settlements[b].createdAt
  {
    if t.Ordinary? {
      if t.service.DoReconcile? {
        ReconcileStarves(l, limits, DayOf(now), now, t.service.active, batch);
      } else {
        ServiceKeepsSettlements(l, limits, t.service, now);
      }
    } else {
      DeliveryStands(l, limits, t, now, batch, s);
    }
    StandsMeansStarving(l, Effect(l, limits, t, now), batch, s, now);
  }

  /**
   * Starvation over passes: whatever transactions follow, any number of reconciliations among them, the
   * settlement of s stays charged and waiting as long as nobody acknowledges or aborts a row of the batch,
   * or ends the settlement of s by a request of its own.
   */
  lemma {:induction false} StarvesThroughout(l: Ledger, limits: Limits, steps: seq<Timed>, day: nat, batch: set<nat>, s: nat)
    requires Inv(l, limits, day) && limits.Valid() && Starving(l, batch, s) && Orderly(steps, day)
    requires forall i :: 0 <= i < |steps| ==> LeavesWaiting(steps[i].step, batch, s) && Later(l, batch, steps[i].now)
    ensures var next := After(l, limits, steps);
            && Starving(next, batch, s)
            && (forall b :: b in batch ==> next.settlements[b].createdAt == l.settlements[b].createdAt)
            && s < |next.uploads| && next.uploads[s].actual == Some(next.settlements[s].actual)
    decreases |steps|
  {
    AfterKeepsInv(l, limits, steps, day);
    if steps != [] {
      var earlier, last := steps[..|steps| - 1], steps[|steps| - 1];
      StarvesThroughout(l, limits, earlier, day, batch, s);
      AfterKeepsInv(l, limits, earlier, day);
      var middle := After(l, limits, earlier);
      DayRollover(middle, limits, LastDay(earlier, day), DayOf(last.now));
      assert Later(middle, batch, last.now);
      StepStarves(middle, limits, last.step, last.now, batch, s);
    }
    var next := After(l, limits, steps);
    assert RowOk(next, s, LastDay(steps, day));
  }
}
