/**
 * Which settlements a recovery refunds, told from the stored rows: the due ones that fewer than the bound
 * of other due rows come before.
 */
module LedgerSelection {
  import opened Prelude
  import opened LedgerTables
  import opened LedgerTransactions
  import opened LedgerInvariant
  import opened LedgerRecovery
  import opened LedgerReconciliation

  /** The row was stored no later than the cutoff, if there is one, and is the one asked for, if one is. */
  predicate DueBy(settlements: map<nat, Settlement>, cutoff: Option<int>, only: Option<nat>, k: nat) {
    && k in settlements
    && (cutoff == None || settlements[k].createdAt <= cutoff.value)
    && (only == None || only == Some(k))
  }

  /** The row of a is older than that of b, or as old with a smaller session. */
  predicate Older(settlements: map<nat, Settlement>, a: nat, b: nat) {
    && a in settlements && b in settlements
    && (settlements[a].createdAt < settlements[b].createdAt
        || (settlements[a].createdAt == settlements[b].createdAt && a < b))
  }

  /** The due rows that come before the row of s. */
  ghost function Ahead(settlements: map<nat, Settlement>, cutoff: Option<int>, only: Option<nat>, s: nat): set<nat>
    requires s in settlements
  {
    set k | k in settlements && DueBy(settlements, cutoff, only, k) && Older(settlements, k, s)
  }

  ghost function AllDue(settlements: map<nat, Settlement>, cutoff: Option<int>, only: Option<nat>): set<nat> {
    set k | k in settlements && DueBy(settlements, cutoff, only, k)
  }

  /** A recovery with this bound gets to the row of s. */
  ghost predicate Reached(settlements: map<nat, Settlement>, cutoff: Option<int>, only: Option<nat>, bound: nat, s: nat) {
    DueBy(settlements, cutoff, only, s) && |Ahead(settlements, cutoff, only, s)| < bound
  }

  function Elements(rows: seq<nat>): set<nat> {
    set k | k in rows
  }

  lemma {:induction false} CountDistinct(rows: seq<nat>)
    requires Distinct(rows)
    ensures |Elements(rows)| == |rows|
    decreases |rows|
  {
    if rows == [] {
      assert Elements(rows) == {};
    } else {
      var n := |rows| - 1;
      CountDistinct(rows[..n]);
      assert forall i :: 0 <= i < n ==> rows[..n][i] == rows[i] != rows[n];
      assert rows == rows[..n] + [rows[n]];
      assert Elements(rows) == Elements(rows[..n]) + {rows[n]};
      assert rows[n] !in Elements(rows[..n]);
    }
  }

  /** The selection is the due rows, oldest first: the i-th has exactly i due rows before it. */
  lemma PlaceInSelection(settlements: map<nat, Settlement>, cutoff: Option<int>, only: Option<nat>, n: nat, i: nat)
    requires forall k :: k in settlements ==> k < n
    requires i < |DueRows(settlements, cutoff, only, n)|
    ensures var s := DueRows(settlements, cutoff, only, n)[i];
            DueBy(settlements, cutoff, only, s) && |Ahead(settlements, cutoff, only, s)| == i
  {
    var rows := DueRows(settlements, cutoff, only, n);
    DueRowsOrdered(settlements, cutoff, only, n);
    var s := rows[i];
    assert s in rows;
    forall k: nat ensures k in Ahead(settlements, cutoff, only, s) <==> k in rows[..i] {
      if k in Ahead(settlements, cutoff, only, s) {
        assert k in rows;
        var j :| 0 <= j < |rows| && rows[j] == k;
        assert j < i;
        assert rows[..i][j] == k;
      }
      if k in rows[..i] {
        var j :| 0 <= j < i && rows[..i][j] == k;
        assert rows[j] == k && k in rows;
      }
    }
    assert Ahead(settlements, cutoff, only, s) == Elements(rows[..i]);
    CountDistinct(rows[..i]);
  }

  lemma SelectionSize(settlements: map<nat, Settlement>, cutoff: Option<int>, only: Option<nat>, n: nat)
    requires forall k :: k in settlements ==> k < n
    ensures |DueRows(settlements, cutoff, only, n)| == |AllDue(settlements, cutoff, only)|
  {
    var rows := DueRows(settlements, cutoff, only, n);
    DueRowsOrdered(settlements, cutoff, only, n);
    assert AllDue(settlements, cutoff, only) == Elements(rows);
    CountDistinct(rows);
  }

  /** The rows a recovery visits are those it reaches. */
  lemma VisitedAreReached(l: Ledger, cutoff: Option<int>, bound: nat, only: Option<nat>, s: nat)
    requires forall k :: k in l.settlements ==> k < |l.uploads|
    ensures s in Visited(l, cutoff, bound, only) <==> Reached(l.settlements, cutoff, only, bound, s)
  {
    var rows, visited := DueRows(l.settlements, cutoff, only, |l.uploads|), Visited(l, cutoff, bound, only);
    if s in visited {
      var i :| 0 <= i < |visited| && visited[i] == s;
      PlaceInSelection(l.settlements, cutoff, only, |l.uploads|, i);
    }
    if Reached(l.settlements, cutoff, only, bound, s) {
      assert s in rows;
      var i :| 0 <= i < |rows| && rows[i] == s;
      PlaceInSelection(l.settlements, cutoff, only, |l.uploads|, i);
      assert visited[i] == s;
    }
  }

  /** The rows are those a recovery with this bound reaches, the oldest first. */
  ghost predicate OldestFirst(settlements: map<nat, Settlement>, cutoff: Option<int>, only: Option<nat>, bound: nat, rows: seq<nat>) {
    && (forall s: nat :: s in rows <==> Reached(settlements, cutoff, only, bound, s))
    && (forall i, j :: 0 <= i < j < |rows| ==> Older(settlements, rows[i], rows[j]))
  }

  /** Rows in this order have exactly the earlier ones ahead of them. */
  lemma PlaceAmongReached(settlements: map<nat, Settlement>, cutoff: Option<int>, only: Option<nat>, bound: nat, rows: seq<nat>, i: nat)
    requires OldestFirst(settlements, cutoff, only, bound, rows) && i < |rows|
    ensures rows[i] in rows && |Ahead(settlements, cutoff, only, rows[i])| == i
  {
    var s := rows[i];
    assert s in rows;
    forall k: nat ensures k in Ahead(settlements, cutoff, only, s) <==> k in Elements(rows[..i]) {
      if k in Ahead(settlements, cutoff, only, s) {
        AheadIsReached(settlements, cutoff, only, bound, k, s);
        assert k in rows;
        var j :| 0 <= j < |rows| && rows[j] == k;
        assert rows[..i][j] == k;
      }
      if k in rows[..i] {
        var j :| 0 <= j < i && rows[..i][j] == k;
        assert rows[j] == k && k in rows;
      }
    }
    assert Ahead(settlements, cutoff, only, s) == Elements(rows[..i]);
    assert forall a, b :: 0 <= a < b < i ==> Older(settlements, rows[a], rows[b]);
    CountDistinct(rows[..i]);
  }

  lemma AheadIsReached(settlements: map<nat, Settlement>, cutoff: Option<int>, only: Option<nat>, bound: nat, k: nat, s: nat)
    requires Reached(settlements, cutoff, only, bound, s) && k in Ahead(settlements, cutoff, only, s)
    ensures Reached(settlements, cutoff, only, bound, k)
  {
    var fewer, more := Ahead(settlements, cutoff, only, k), Ahead(settlements, cutoff, only, s);
    assert fewer <= more;
    assert more == fewer + (more - fewer);
  }

  /** There is one such order, and a recovery visits the rows in it. */
  lemma VisitedOldestFirst(l: Ledger, cutoff: Option<int>, bound: nat, only: Option<nat>, rows: seq<nat>)
    requires forall k :: k in l.settlements ==> k < |l.uploads|
    ensures OldestFirst(l.settlements, cutoff, only, bound, rows) <==> rows == Visited(l, cutoff, bound, only)
  {
    var visited := Visited(l, cutoff, bound, only);
    DueRowsOrdered(l.settlements, cutoff, only, |l.uploads|);
    forall s: nat ensures s in visited <==> Reached(l.settlements, cutoff, only, bound, s) {
      VisitedAreReached(l, cutoff, bound, only, s);
    }
    if OldestFirst(l.settlements, cutoff, only, bound, rows) {
      SameOrder(l.settlements, cutoff, only, bound, rows, visited);
      SameOrder(l.settlements, cutoff, only, bound, visited, rows);
    }
  }

  lemma SameOrder(settlements: map<nat, Settlement>, cutoff: Option<int>, only: Option<nat>, bound: nat, a: seq<nat>, b: seq<nat>)
    requires OldestFirst(settlements, cutoff, only, bound, a) && OldestFirst(settlements, cutoff, only, bound, b)
    ensures a <= b
  {
    forall i | 0 <= i < |a| ensures i < |b| && a[i] == b[i] {
      PlaceAmongReached(settlements, cutoff, only, bound, a, i);
      assert a[i] in b;
      var j :| 0 <= j < |b| && b[j] == a[i];
      PlaceAmongReached(settlements, cutoff, only, bound, b, j);
    }
    if a != [] {
      var last := a[|a| - 1];
      assert |a| - 1 < |b|;
    }
  }

  /**
   * A recovery, told without saying how it selects: it refuses to start exactly when it fails closed and more
   * rows than the bound are due, and otherwise answers and leaves what a pass over the rows it reaches, oldest
   * first, does.
   */
  lemma RecoveryOutcome(l: Ledger, limits: Limits, today: nat, cutoff: Option<int>, bound: nat, failClosed: bool,
                        only: Option<nat>, rows: seq<nat>)
    requires Inv(l, limits, today) && OldestFirst(l.settlements, cutoff, only, bound, rows)
    ensures var step := Recover(l, cutoff, bound, failClosed, only);
            if failClosed && |AllDue(l.settlements, cutoff, only)| > bound then step == Failed(l, PendingSettlementRecoveryLimit)
            else PassOutcome(l, limits, today, rows, step)
  {
    VisitedOldestFirst(l, cutoff, bound, only, rows);
    SelectionSize(l.settlements, cutoff, only, |l.uploads|);
    RecoverOutcome(l, limits, today, cutoff, bound, failClosed, only);
  }

  /** What a recovery answers, and leaves if it completes. */
  ghost predicate RecoversAs(l: Ledger, limits: Limits, today: nat, cutoff: Option<int>, bound: nat, failClosed: bool,
                             only: Option<nat>, step: Step<nat>)
  {
    forall rows :: OldestFirst(l.settlements, cutoff, only, bound, rows) ==>
      if failClosed && |AllDue(l.settlements, cutoff, only)| > bound then step.result == Err(PendingSettlementRecoveryLimit)
      else PassOutcome(l, limits, today, rows, step)
  }

  lemma RecoversSo(l: Ledger, limits: Limits, today: nat, cutoff: Option<int>, bound: nat, failClosed: bool,
                   only: Option<nat>, step: Step<nat>)
    requires Inv(l, limits, today)
    requires var recovered := Recover(l, cutoff, bound, failClosed, only);
             step.result == recovered.result && (step.result.Ok? ==> step.after == recovered.after)
    ensures RecoversAs(l, limits, today, cutoff, bound, failClosed, only, step)
  {
    forall rows | OldestFirst(l.settlements, cutoff, only, bound, rows)
      ensures if failClosed && |AllDue(l.settlements, cutoff, only)| > bound
              then step.result == Err(PendingSettlementRecoveryLimit) else PassOutcome(l, limits, today, rows, step)
    {
      RecoveryOutcome(l, limits, today, cutoff, bound, failClosed, only, rows);
    }
  }

  /** Exactly the pending settlements reached have been refunded; every other row is as it was. */
  ghost predicate RefundsReached(l: Ledger, next: Ledger, cutoff: Option<int>, only: Option<nat>, bound: nat) {
    forall s: nat ::
      if Pending(l, s) && Reached(l.settlements, cutoff, only, bound, s)
      then Compensated(next, s)
      else Lookup(next.settlements, s) == Lookup(l.settlements, s)
  }

  /**
   * A completed recovery refunds a pending settlement exactly when it is due and fewer due rows than the bound
   * come before it. Where it fails closed it is refused exactly when more rows than the bound are due.
   */
  lemma RecoveryReaches(l: Ledger, limits: Limits, today: nat, cutoff: Option<int>, bound: nat, failClosed: bool, only: Option<nat>)
    requires Inv(l, limits, today)
    ensures var step := Recover(l, cutoff, bound, failClosed, only);
            && (step.result == Err(PendingSettlementRecoveryLimit) <==>
                  failClosed && |AllDue(l.settlements, cutoff, only)| > bound)
            && (step.result.Ok? ==> RefundsReached(l, step.after, cutoff, only, bound))
  {
    var step := Recover(l, cutoff, bound, failClosed, only);
    var rows := Visited(l, cutoff, bound, only);
    RecoverOutcome(l, limits, today, cutoff, bound, failClosed, only);
    SelectionSize(l.settlements, cutoff, only, |l.uploads|);
    if step.result.Ok? {
      forall s: nat
        ensures if Pending(l, s) && Reached(l.settlements, cutoff, only, bound, s)
                then Compensated(step.after, s)
                else Lookup(step.after.settlements, s) == Lookup(l.settlements, s)
      {
        VisitedAreReached(l, cutoff, bound, only, s);
        RefundedRow(l, step.after, limits, today, rows, s);
      }
    }
  }

  lemma RefundedRow(l: Ledger, next: Ledger, limits: Limits, today: nat, rows: seq<nat>, s: nat)
    requires Inv(l, limits, today) && RowsGivenBack(l, next, rows)
    ensures if s in rows && Pending(l, s) then Compensated(next, s)
            else Lookup(next.settlements, s) == Lookup(l.settlements, s)
  {
    assert Lookup(next.settlements, s) == if s in rows && Pending(l, s) then None else Lookup(l.settlements, s);
    if Pending(l, s) {
      PendingIsCovered(l, limits, today, s);
      assert RowOk(l, s, today);
    }
  }

  /** When at least as many rows are due as the bound, and none of them is marked, exactly the bound is refunded. */
  lemma FullBatchIsRefunded(l: Ledger, limits: Limits, today: nat, cutoff: Option<int>, bound: nat, only: Option<nat>)
    requires Inv(l, limits, today) && |AllDue(l.settlements, cutoff, only)| >= bound
    requires forall s :: s in AllDue(l.settlements, cutoff, only) ==> Pending(l, s)
    requires Recover(l, cutoff, bound, false, only).result.Ok?
    ensures Recover(l, cutoff, bound, false, only).result == Ok(bound)
    ensures |set s | s in l.settlements && s !in Recover(l, cutoff, bound, false, only).after.settlements| == bound
  {
    var rows := Visited(l, cutoff, bound, only);
    var next := Recover(l, cutoff, bound, false, only).after;
    RecoverOutcome(l, limits, today, cutoff, bound, false, only);
    SelectionSize(l.settlements, cutoff, only, |l.uploads|);
    forall s | s in rows ensures Pending(l, s) {
      VisitedAreReached(l, cutoff, bound, only, s);
      assert s in AllDue(l.settlements, cutoff, only);
    }
    AllCounted(l, rows);
    forall s: nat | s in l.settlements ensures s !in next.settlements <==> s in rows {
      assert Lookup(next.settlements, s) == if s in rows && Pending(l, s) then None else Lookup(l.settlements, s);
    }
    assert (set s | s in l.settlements && s !in next.settlements) == Elements(rows);
    CountDistinct(rows);
  }

  lemma {:induction false} AllCounted(l: Ledger, rows: seq<nat>)
    requires forall s :: s in rows ==> Pending(l, s)
    ensures CountPending(l, rows) == |rows|
    decreases |rows|
  {
    if rows != [] {
      assert rows[|rows| - 1] in rows;
      AllCounted(l, rows[..|rows| - 1]);
    }
  }

  /**
   * The periodic transaction: of the settlements stored at least thirty seconds ago, marked or not, it gets to
   * those that fewer than 64 come before, and refunds the pending ones among them.
   */
  lemma ReconcileReaches(l: Ledger, limits: Limits, today: nat, now: nat, active: set<nat>)
    requires Inv(l, limits, today) && Reconcile(l, now, active).result.Ok?
    ensures RefundsReached(l, Reconcile(l, now, active).after, Some(now - 30), None, 64)
  {
    var cutoff := Some(now - 30);
    var middle := Recover(l, cutoff, 64, false, None);
    RecoveryReaches(l, limits, today, cutoff, 64, false, None);
    RecoverOutcome(l, limits, today, cutoff, 64, false, None);
    ExpireAbandonedOutcome(middle.after, limits, today, now, active);
    var next := Reconcile(l, now, active).after;
    forall s: nat
      ensures if Pending(l, s) && Reached(l.settlements, cutoff, None, 64, s)
              then Compensated(next, s) else Lookup(next.settlements, s) == Lookup(l.settlements, s)
    {
      StaysCompensated(middle.after, next, AbandonedSet(middle.after, now, active), s);
    }
  }

  lemma StaysCompensated(l: Ledger, next: Ledger, gone: set<nat>, s: nat)
    requires ExpiredTo(l, next, gone) && AllActive(l, gone)
    ensures next.settlements == l.settlements
    ensures Compensated(l, s) ==> Compensated(next, s)
  {
  }

  /**
   * The periodic transaction as a whole. It completes exactly when every zero-byte refund among the rows it
   * reaches finds its usage row; then those rows are given back, and exactly the sessions abandoned after that
   * and not active are expired; otherwise nothing changes.
   */
  lemma ReconciliationOutcome(l: Ledger, limits: Limits, today: nat, now: nat, active: set<nat>, rows: seq<nat>)
    requires Inv(l, limits, today) && OldestFirst(l.settlements, Some(now - 30), None, 64, rows)
    ensures var step := Reconcile(l, now, active);
            && Inv(step.after, limits, today)
            && (step.result.Ok? <==> ZeroRefundsCovered(l, rows))
            && (step.result.Err? ==> step == Failed(l, AccountingInvariant))
            && (step.result.Ok? ==> exists middle ::
                  && GivenBack(l, middle, rows) && OutboxFollows(l, middle, rows) && Inv(middle, limits, today)
                  && ExpiredTo(middle, step.after, AbandonedSet(middle, now, active))
                  && AllActive(middle, AbandonedSet(middle, now, active)))
  {
    VisitedOldestFirst(l, Some(now - 30), 64, None, rows);
    ReconcileOutcome(l, limits, today, now, active);
  }

  // The case the code gets wrong.

  /**
   * Marked rows take places: a completed periodic pass refunds a pending settlement exactly when it is due and
   * fewer than `bound` due rows, marked ones counted, come before it; if all it reaches are marked it does nothing.
   */
  lemma MarkedRowsHoldBackRecovery(l: Ledger, limits: Limits, today: nat, cutoff: Option<int>, bound: nat, s: nat)
    requires Inv(l, limits, today) && Pending(l, s)
    ensures var step := Recover(l, cutoff, bound, false, None);
            && (step.result.Ok? ==> (s !in step.after.settlements <==> Reached(l.settlements, cutoff, None, bound, s)))
            && ((forall k: nat :: Reached(l.settlements, cutoff, None, bound, k) ==> !Pending(l, k)) ==> step == Step(Ok(0), l))
  {
    var rows := Visited(l, cutoff, bound, None);
    RecoveryReaches(l, limits, today, cutoff, bound, false, None);
    RecoverOutcome(l, limits, today, cutoff, bound, false, None);
    if forall k: nat :: Reached(l.settlements, cutoff, None, bound, k) ==> !Pending(l, k) {
      forall k | k in rows ensures !Pending(l, k) {
        VisitedAreReached(l, cutoff, bound, None, k);
      }
      NothingPending(l, limits, today, rows);
    }
  }
}
