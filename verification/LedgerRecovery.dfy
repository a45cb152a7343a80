/**
 * Recovery of unacknowledged settlements: which batches it completes, what it leaves behind,
 * and that a second pass over the same rows finds nothing to do.
 */
module LedgerRecovery {
  import opened Prelude
  import opened LedgerTables
  import opened LedgerTransactions
  import opened LedgerInvariant

  /** Session s has a settlement nobody has acknowledged or marked as delivered. */
  predicate Pending(l: Ledger, s: nat) {
    s in l.settlements && !l.settlements[s].possible
  }

  /** The usage row a refund of session s is taken from. */
  function UsageKey(l: Ledger, s: nat): (nat, nat) {
    if s < |l.uploads| && s in l.settlements then (l.uploads[s].identity, l.settlements[s].day) else (0, 0)
  }

  /** A session row once its charge has been given back. */
  function WithoutCharge(u: Upload): Upload {
    if u.state == Uploaded then u.(state := Expired, reserved := 0, lease := None, actual := None)
    else u.(actual := None)
  }

  predicate Distinct(rows: seq<nat>) {
    forall i, j :: 0 <= i < j < |rows| ==> rows[i] != rows[j]
  }

  /** What one recovered row takes from a usage row. */
  function Taken(l: Ledger, s: nat, key: (nat, nat)): nat {
    if Pending(l, s) && UsageKey(l, s) == key then l.settlements[s].actual else 0
  }

  /** What the pending sessions among `rows` were charged to one usage row. */
  function RefundedBytes(l: Ledger, rows: seq<nat>, key: (nat, nat)): nat {
    if rows == [] then 0
    else RefundedBytes(l, rows[..|rows| - 1], key) + Taken(l, rows[|rows| - 1], key)
  }

  /** Some refund among `rows` is taken from the usage row. */
  predicate IsRefunded(l: Ledger, rows: seq<nat>, key: (nat, nat)) {
    exists j :: 0 <= j < |rows| && Pending(l, rows[j]) && UsageKey(l, rows[j]) == key
  }

  /** The usage row is still there once the refunds of `rows` have been taken from it. */
  predicate Survives(l: Ledger, rows: seq<nat>, key: (nat, nat)) {
    key in l.daily && (IsRefunded(l, rows, key) ==> RefundedBytes(l, rows, key) < l.daily[key])
  }

  /** Every zero-byte refund finds its usage row; it can be told from the tables before the pass. */
  predicate ZeroRefundsCovered(l: Ledger, rows: seq<nat>) {
    forall j :: 0 <= j < |rows| && Pending(l, rows[j]) && l.settlements[rows[j]].actual == 0 ==>
      Survives(l, rows[..j], UsageKey(l, rows[j]))
  }

  /** In the session and settlement rows, `next` is `l` with the pending sessions among `rows` refunded. */
  ghost predicate RowsGivenBack(l: Ledger, next: Ledger, rows: seq<nat>) {
    && |next.uploads| == |l.uploads|
    && next.chargedOn == l.chargedOn && next.budget == l.budget && next.ids == l.ids && next.removed == l.removed
    && (forall k: nat :: k < |l.uploads| ==>
          next.uploads[k] == if k in rows && Pending(l, k) then WithoutCharge(l.uploads[k]) else l.uploads[k])
    && (forall k: nat ::
          Lookup(next.settlements, k) == if k in rows && Pending(l, k) then None else Lookup(l.settlements, k))
  }

  /** In the usage rows, `next` is `l` with the bytes of the pending sessions among `rows` refunded. */
  ghost predicate UsageGivenBack(l: Ledger, next: Ledger, rows: seq<nat>) {
    && (forall key: (nat, nat) ::
          Used(next.daily, key.0, key.1) + RefundedBytes(l, rows, key) == Used(l.daily, key.0, key.1))
    && (forall key: (nat, nat) :: key in next.daily <==> Survives(l, rows, key))
  }

  /** `next` is `l` with the charges of the pending sessions among `rows` given back, and nothing else. */
  ghost predicate GivenBack(l: Ledger, next: Ledger, rows: seq<nat>) {
    RowsGivenBack(l, next, rows) && UsageGivenBack(l, next, rows)
  }

  function CountPending(l: Ledger, rows: seq<nat>): nat {
    if rows == [] then 0
    else CountPending(l, rows[..|rows| - 1]) + if Pending(l, rows[|rows| - 1]) then 1 else 0
  }

  /** A pending session is charged, so only a zero-byte refund can miss its usage row. */
  lemma PendingIsCovered(l: Ledger, limits: Limits, today: nat, s: nat)
    requires Inv(l, limits, today) && Pending(l, s)
    ensures s < |l.uploads| && (l.uploads[s].state == Uploaded || l.uploads[s].state == Expired)
    ensures l.uploads[s].actual == Some(l.settlements[s].actual)
    ensures l.chargedOn[s] == l.settlements[s].day
    ensures l.settlements[s].actual <= Used(l.daily, UsageKey(l, s).0, UsageKey(l, s).1)
  {
    assert RowOk(l, s, today);
    var u := l.uploads[s];
    RowReplaced(l.uploads, l.chargedOn, s, u, l.chargedOn[s]);
    assert Charge(u, l.chargedOn[s], u.identity, l.chargedOn[s]) == u.actual.value;
  }

  lemma RefundKeepsInv(l: Ledger, limits: Limits, today: nat, s: nat)
    requires Inv(l, limits, today) && Pending(l, s) && UsageKey(l, s) in l.daily
    ensures RecoverRow(l, s).result == Ok(true)
    ensures Inv(RecoverRow(l, s).after, limits, today)
  {
    PendingIsCovered(l, limits, today, s);
    assert RowOk(l, s, today);
    var next := RecoverRow(l, s).after;
    HeldIsCovered(l, limits, today, s);
    RefundTables(l, limits, today, s);
    OneSessionKeepsInv(l, next, limits, today, s, WithoutCharge(l.uploads[s]), l.chargedOn[s]);
  }

  /** The tables after the refund of one row. */
  lemma RefundTables(l: Ledger, limits: Limits, today: nat, s: nat)
    requires Inv(l, limits, today) && Pending(l, s) && UsageKey(l, s) in l.daily
    ensures RecoverRow(l, s).result == Ok(true)
    ensures var next := RecoverRow(l, s).after;
            && TotalsFollow(l, next, s, WithoutCharge(l.uploads[s]), l.chargedOn[s])
            && OnlyOutboxesOf(l, next, s) && RowOk(next, s, today)
            && next.ids == l.ids && next.budget == l.budget
            && forall key :: key in next.daily ==> key in l.daily && next.daily[key] <= SQL_MAX
  {
    PendingIsCovered(l, limits, today, s);
    assert RowOk(l, s, today);
  }

  /** One row: refunded if pending, left alone if delivery was possible; the only failure is a missing usage row. */
  lemma RecoverRowOutcome(l: Ledger, limits: Limits, today: nat, s: nat)
    requires Inv(l, limits, today) && s in l.settlements
    ensures var step := RecoverRow(l, s);
            && Inv(step.after, limits, today)
            && step.result == (if Pending(l, s) && UsageKey(l, s) !in l.daily then Err(AccountingInvariant)
                               else Ok(Pending(l, s)))
  {
    assert RowOk(l, s, today);
    if Pending(l, s) {
      PendingIsCovered(l, limits, today, s);
      if UsageKey(l, s) in l.daily {
        RefundKeepsInv(l, limits, today, s);
      }
    }
  }

  lemma RowsStep(l: Ledger, middle: Ledger, rows: seq<nat>, s: nat)
    requires RowsGivenBack(l, middle, rows)
    requires s in l.settlements && s !in rows && s < |l.uploads|
    requires l.uploads[s].state == Expired ==> l.uploads[s].actual.Some?
    ensures s in middle.settlements
    ensures RecoverRow(middle, s).result == Ok(Pending(l, s)) ==>
              RowsGivenBack(l, RecoverRow(middle, s).after, rows + [s])
  {
    assert Lookup(middle.settlements, s) == Lookup(l.settlements, s);
    var next := RecoverRow(middle, s).after;
    assert forall k: nat :: k in rows + [s] <==> k in rows || k == s;
    forall k: nat | RecoverRow(middle, s).result == Ok(Pending(l, s))
      ensures Lookup(next.settlements, k)
              == if k in rows + [s] && Pending(l, k) then None else Lookup(l.settlements, k)
    {
      assert Lookup(middle.settlements, k) == if k in rows && Pending(l, k) then None else Lookup(l.settlements, k);
    }
  }

  /** The effect of one more row on the tables. */
  lemma GivenBackStep(l: Ledger, limits: Limits, today: nat, middle: Ledger, rows: seq<nat>, s: nat)
    requires Inv(middle, limits, today) && GivenBack(l, middle, rows)
    requires s in l.settlements && s in middle.settlements && s !in rows && s < |l.uploads|
    requires l.uploads[s].state == Expired ==> l.uploads[s].actual.Some?
    requires RecoverRow(middle, s).result == Ok(Pending(l, s))
    ensures GivenBack(l, RecoverRow(middle, s).after, rows + [s])
  {
    RowsStep(l, middle, rows, s);
    assert Lookup(middle.settlements, s) == Lookup(l.settlements, s);
    var next := RecoverRow(middle, s).after;
    forall key: (nat, nat)
      ensures Used(next.daily, key.0, key.1) + RefundedBytes(l, rows + [s], key) == Used(l.daily, key.0, key.1)
      ensures key in next.daily <==> Survives(l, rows + [s], key)
    {
      UsageStep(l, limits, today, middle, rows, s, key);
    }
  }

  lemma RefundedStep(l: Ledger, rows: seq<nat>, s: nat, key: (nat, nat))
    ensures IsRefunded(l, rows + [s], key) <==> IsRefunded(l, rows, key) || (Pending(l, s) && UsageKey(l, s) == key)
    ensures RefundedBytes(l, rows + [s], key)
            == RefundedBytes(l, rows, key) + Taken(l, s, key)
  {
    var all := rows + [s];
    assert all[..|rows|] == rows && all[|rows|] == s;
    assert forall j :: 0 <= j < |rows| ==> all[j] == rows[j];
  }

  lemma RecoverRowUsage(l: Ledger, limits: Limits, today: nat, s: nat, key: (nat, nat))
    requires Inv(l, limits, today) && s in l.settlements && RecoverRow(l, s).result.Ok?
    ensures var next := RecoverRow(l, s).after;
            && Used(next.daily, key.0, key.1) + Taken(l, s, key) == Used(l.daily, key.0, key.1)
            && (key in next.daily <==>
                  key in l.daily && (Pending(l, s) && UsageKey(l, s) == key ==> Taken(l, s, key) < l.daily[key]))
  {
    if Pending(l, s) {
      PendingIsCovered(l, limits, today, s);
    }
  }

  lemma UsageStep(l: Ledger, limits: Limits, today: nat, middle: Ledger, rows: seq<nat>, s: nat, key: (nat, nat))
    requires Inv(middle, limits, today) && UsageGivenBack(l, middle, rows)
    requires Lookup(middle.settlements, s) == Lookup(l.settlements, s) && s in l.settlements
    requires UsageKey(middle, s) == UsageKey(l, s)
    requires RecoverRow(middle, s).result.Ok?
    ensures var next := RecoverRow(middle, s).after;
            && Used(next.daily, key.0, key.1) + RefundedBytes(l, rows + [s], key) == Used(l.daily, key.0, key.1)
            && (key in next.daily <==> Survives(l, rows + [s], key))
  {
    RefundedStep(l, rows, s, key);
    RecoverRowUsage(middle, limits, today, s, key);
    UsageArithmetic(l, middle, RecoverRow(middle, s).after, rows, s, key);
  }

  lemma UsageArithmetic(l: Ledger, middle: Ledger, next: Ledger, rows: seq<nat>, s: nat, key: (nat, nat))
    requires UsageGivenBack(l, middle, rows)
    requires Taken(middle, s, key) == Taken(l, s, key)
    requires Pending(middle, s) == Pending(l, s) && UsageKey(middle, s) == UsageKey(l, s)
    requires IsRefunded(l, rows + [s], key) <==> IsRefunded(l, rows, key) || (Pending(l, s) && UsageKey(l, s) == key)
    requires RefundedBytes(l, rows + [s], key) == RefundedBytes(l, rows, key) + Taken(l, s, key)
    requires Used(next.daily, key.0, key.1) + Taken(l, s, key) == Used(middle.daily, key.0, key.1)
    requires key in next.daily <==>
               key in middle.daily && (Pending(l, s) && UsageKey(l, s) == key ==> Taken(l, s, key) < middle.daily[key])
    ensures Used(next.daily, key.0, key.1) + RefundedBytes(l, rows + [s], key) == Used(l.daily, key.0, key.1)
    ensures key in next.daily <==> Survives(l, rows + [s], key)
  {
    assert key in middle.daily <==> Survives(l, rows, key);
    assert Used(middle.daily, key.0, key.1) + RefundedBytes(l, rows, key) == Used(l.daily, key.0, key.1);
    if IsRefunded(l, rows, key) {
    } else {
      NothingRefunded(l, rows, key);
    }
  }

  lemma {:induction false} NothingRefunded(l: Ledger, rows: seq<nat>, key: (nat, nat))
    requires !IsRefunded(l, rows, key)
    ensures RefundedBytes(l, rows, key) == 0
    decreases |rows|
  {
    if rows != [] {
      var n := |rows| - 1;
      assert forall j :: 0 <= j < n ==> rows[..n][j] == rows[j];
      NothingRefunded(l, rows[..n], key);
    }
  }

  /** What a pass over `rows` answers and leaves. */
  ghost predicate PassOutcome(l: Ledger, limits: Limits, today: nat, rows: seq<nat>, step: Step<nat>) {
    && (step.result.Ok? <==> ZeroRefundsCovered(l, rows))
    && (step.result.Ok? ==>
          && step.result.value == CountPending(l, rows)
          && GivenBack(l, step.after, rows)
          && OutboxFollows(l, step.after, rows)
          && Inv(step.after, limits, today))
    && (step.result.Err? ==> step.result.error == AccountingInvariant)
  }

  /** The token belongs to an uploaded session whose charge is given back. */
  predicate RevokedBy(l: Ledger, rows: seq<nat>, token: nat) {
    exists j :: 0 <= j < |rows| && RevokedByRow(l, rows[j], token)
  }

  predicate RevokedByRow(l: Ledger, s: nat, token: nat) {
    Pending(l, s) && s < |l.uploads| && l.uploads[s].state == Uploaded && l.uploads[s].token == token
  }

  /** What follows from refunds: a cleanup row for each refunded session with a path, and revoked capabilities. */
  ghost predicate OutboxFollows(l: Ledger, next: Ledger, rows: seq<nat>) {
    && (forall k: nat :: Lookup(next.cleanups, k)
          == if k !in l.cleanups && k in rows && HasFileToRemove(l, k) then Some(Cleanup(0, 0, None)) else Lookup(l.cleanups, k))
    && (forall t: nat :: Lookup(next.caps, t)
          == if t in l.caps && RevokedBy(l, rows, t) then Some(l.caps[t].(expires := 0)) else Lookup(l.caps, t))
  }

  predicate HasFileToRemove(l: Ledger, s: nat) {
    Pending(l, s) && s < |l.uploads| && l.uploads[s].path.Some?
  }

  /** The effect of one more row on cleanup rows and capabilities. */
  lemma OutboxStep(l: Ledger, middle: Ledger, rows: seq<nat>, s: nat)
    requires OutboxFollows(l, middle, rows) && s in middle.settlements && s < |l.uploads|
    requires s < |middle.uploads| && middle.uploads[s] == l.uploads[s] && Pending(middle, s) == Pending(l, s)
    requires RecoverRow(middle, s).result == Ok(Pending(l, s))
    ensures OutboxFollows(l, RecoverRow(middle, s).after, rows + [s])
  {
    var next, all := RecoverRow(middle, s).after, rows + [s];
    forall t: nat ensures RevokedBy(l, all, t) <==> RevokedBy(l, rows, t) || RevokedByRow(l, s, t) {
      assert all[|rows|] == s && forall j :: 0 <= j < |rows| ==> all[j] == rows[j];
    }
    forall k: nat ensures k in all <==> k in rows || k == s {
    }
    forall k: nat ensures Lookup(next.cleanups, k)
        == if k !in l.cleanups && k in all && HasFileToRemove(l, k) then Some(Cleanup(0, 0, None)) else Lookup(l.cleanups, k)
    {
      assert Lookup(middle.cleanups, k)
          == if k !in l.cleanups && k in rows && HasFileToRemove(l, k) then Some(Cleanup(0, 0, None)) else Lookup(l.cleanups, k);
    }
    forall t: nat ensures Lookup(next.caps, t)
        == if t in l.caps && RevokedBy(l, all, t) then Some(l.caps[t].(expires := 0)) else Lookup(l.caps, t)
    {
      assert Lookup(middle.caps, t)
          == if t in l.caps && RevokedBy(l, rows, t) then Some(l.caps[t].(expires := 0)) else Lookup(l.caps, t);
    }
  }

  /**
   * A pass over distinct settlement rows: it completes exactly when every zero-byte refund finds
   * its usage row, and then gives back every pending charge among them once and touches nothing else.
   */
  lemma {:induction false} RecoverRowsOutcome(l: Ledger, limits: Limits, today: nat, rows: seq<nat>)
    requires Inv(l, limits, today) && Distinct(rows)
    requires forall s :: s in rows ==> s in l.settlements
    ensures PassOutcome(l, limits, today, rows, RecoverRows(l, rows))
    decreases |rows|
  {
    if rows == [] {
      assert RecoverRows(l, rows) == Step(Ok(0), l);
    } else {
      var n := |rows| - 1;
      var earlier, s := rows[..n], rows[n];
      RecoverRowsOutcome(l, limits, today, earlier);
      assert rows == earlier + [s];
      PassStep(l, limits, today, earlier, s, RecoverRows(l, earlier));
    }
  }

  lemma PassStep(l: Ledger, limits: Limits, today: nat, earlier: seq<nat>, s: nat, middle: Step<nat>)
    requires Inv(l, limits, today) && PassOutcome(l, limits, today, earlier, middle)
    requires s in l.settlements && s !in earlier
    ensures PassOutcome(l, limits, today, earlier + [s], NextRow(l, middle, s))
  {
    ZeroRefundsSplit(l, earlier, s);
    assert (earlier + [s])[..|earlier|] == earlier;
    if middle.result.Ok? {
      LastRow(l, limits, today, middle.after, earlier, s);
      if RecoverRow(middle.after, s).result.Ok? {
        assert RowOk(l, s, today);
        assert Lookup(middle.after.settlements, s) == Lookup(l.settlements, s);
        OutboxStep(l, middle.after, earlier, s);
      }
    }
  }

  lemma ZeroRefundsSplit(l: Ledger, earlier: seq<nat>, s: nat)
    ensures ZeroRefundsCovered(l, earlier + [s])
            <==> ZeroRefundsCovered(l, earlier) && LastCovered(l, earlier, s)
  {
    var rows := earlier + [s];
    assert forall j :: 0 <= j <= |earlier| ==> earlier[..j] == rows[..j];
    assert earlier[..|earlier|] == earlier;
    assert forall j :: 0 <= j < |earlier| ==> earlier[j] == rows[j];
    assert rows[|earlier|] == s;
  }

  /** The part of `ZeroRefundsCovered` about the row after `earlier`. */
  predicate LastCovered(l: Ledger, earlier: seq<nat>, s: nat) {
    Pending(l, s) && l.settlements[s].actual == 0 ==> Survives(l, earlier, UsageKey(l, s))
  }

  /** The last row of a pass whose earlier rows completed. */
  lemma LastRow(l: Ledger, limits: Limits, today: nat, middle: Ledger, earlier: seq<nat>, s: nat)
    requires Inv(l, limits, today) && Inv(middle, limits, today) && GivenBack(l, middle, earlier)
    requires s in l.settlements && s !in earlier
    ensures s in middle.settlements
    ensures var step := RecoverRow(middle, s);
            && (step.result.Ok? <==> LastCovered(l, earlier, s))
            && (step.result.Ok? ==>
                  && step.result.value == Pending(l, s)
                  && Inv(step.after, limits, today)
                  && GivenBack(l, step.after, earlier + [s]))
            && (step.result.Err? ==> step.result.error == AccountingInvariant)
  {
    assert RowOk(l, s, today);
    assert Lookup(middle.settlements, s) == Lookup(l.settlements, s);
    RecoverRowOutcome(middle, limits, today, s);
    assert UsageKey(middle, s) == UsageKey(l, s);
    var key := UsageKey(l, s);
    assert key in middle.daily <==> Survives(l, earlier, key);
    if Pending(l, s) {
      PendingIsCovered(middle, limits, today, s);
    }
    if RecoverRow(middle, s).result.Ok? {
      GivenBackStep(l, limits, today, middle, earlier, s);
    }
  }

  // The selection of the rows.

  lemma {:induction false} InsertRowSorted(settlements: map<nat, Settlement>, rows: seq<nat>, s: nat)
    requires s in settlements && s !in rows && forall k :: k in rows ==> k in settlements
    requires forall i, j :: 0 <= i < j < |rows| ==> Before(settlements, rows[i], rows[j])
    ensures var r := InsertRow(settlements, rows, s);
            && (forall k :: k in r <==> k in rows || k == s)
            && (forall i, j :: 0 <= i < j < |r| ==> Before(settlements, r[i], r[j]))
  {
    if rows != [] && !Before(settlements, s, rows[0]) {
      InsertRowSorted(settlements, rows[1..], s);
      assert rows[0] in rows && rows[0] != s;
      var rest := InsertRow(settlements, rows[1..], s);
      forall j | 0 <= j < |rest| ensures Before(settlements, rows[0], rest[j]) {
        assert rest[j] in rest;
        if rest[j] != s {
          var i :| 0 <= i < |rows[1..]| && rows[1..][i] == rest[j];
          assert rows[i + 1] == rest[j];
        }
      }
    }
  }

  /** The rows come oldest first and each once. */
  lemma {:induction false} DueRowsOrdered(settlements: map<nat, Settlement>, before: Option<int>, only: Option<nat>, n: nat)
    ensures var rows := DueRows(settlements, before, only, n);
            && (forall s :: s in rows ==> s in settlements)
            && (forall i, j :: 0 <= i < j < |rows| ==> Before(settlements, rows[i], rows[j]))
            && Distinct(rows)
  {
    if n > 0 {
      DueRowsOrdered(settlements, before, only, n - 1);
      if IsDue(settlements, before, only, n - 1) {
        InsertRowSorted(settlements, DueRows(settlements, before, only, n - 1), n - 1);
      }
    }
  }

  /** The rows one recovery visits. */
  function Visited(l: Ledger, before: Option<int>, maximum: nat, only: Option<nat>): seq<nat> {
    Take(DueRows(l.settlements, before, only, |l.uploads|), maximum)
  }

  lemma RecoverOutcome(l: Ledger, limits: Limits, today: nat,
                       before: Option<int>, maximum: nat, failClosed: bool, only: Option<nat>)
    requires Inv(l, limits, today)
    ensures var step := Recover(l, before, maximum, failClosed, only);
            if failClosed && |DueRows(l.settlements, before, only, |l.uploads|)| > maximum
            then step == Failed(l, PendingSettlementRecoveryLimit)
            else PassOutcome(l, limits, today, Visited(l, before, maximum, only), step)
    ensures Distinct(Visited(l, before, maximum, only))
    ensures forall s :: s in Visited(l, before, maximum, only) ==> s in l.settlements
  {
    DueRowsOrdered(l.settlements, before, only, |l.uploads|);
    RecoverRowsOutcome(l, limits, today, Visited(l, before, maximum, only));
  }

  /** Rows whose delivery was possible are passed over. */
  lemma {:induction false} NothingPending(l: Ledger, limits: Limits, today: nat, rows: seq<nat>)
    requires Inv(l, limits, today)
    requires forall s :: s in rows ==> s in l.settlements && l.settlements[s].possible
    ensures RecoverRows(l, rows) == Step(Ok(0), l)
    decreases |rows|
  {
    if rows != [] {
      NothingPending(l, limits, today, rows[..|rows| - 1]);
      RecoverRowOutcome(l, limits, today, rows[|rows| - 1]);
    }
  }

  /**
   * Recovery is total: a pass that can see all its rows, none of them charged zero bytes, completes.
   * Afterwards no due row is pending, every row whose delivery was possible is untouched, and
   * running it again changes nothing.
   */
  lemma RecoveryIsTotalAndIdempotent(l: Ledger, limits: Limits, today: nat,
                                     before: Option<int>, maximum: nat, failClosed: bool, only: Option<nat>)
    requires Inv(l, limits, today)
    requires |DueRows(l.settlements, before, only, |l.uploads|)| <= maximum
    requires forall s :: s in l.settlements && Pending(l, s) ==> l.settlements[s].actual > 0
    ensures var step := Recover(l, before, maximum, failClosed, only);
            && step.result.Ok?
            && GivenBack(l, step.after, Visited(l, before, maximum, only))
            && (forall s: nat :: IsDue(l.settlements, before, only, s) ==>
                  Lookup(step.after.settlements, s) == if Pending(l, s) then None else Lookup(l.settlements, s))
            && Inv(step.after, limits, today)
            && Recover(step.after, before, maximum, failClosed, only) == Step(Ok(0), step.after)
  {
    var rows := DueRows(l.settlements, before, only, |l.uploads|);
    assert Visited(l, before, maximum, only) == rows;
    RecoverOutcome(l, limits, today, before, maximum, failClosed, only);
    var next := Recover(l, before, maximum, failClosed, only).after;
    forall s: nat | IsDue(l.settlements, before, only, s)
      ensures Lookup(next.settlements, s) == if Pending(l, s) then None else Lookup(l.settlements, s)
    {
      assert s in rows;
    }
    SecondPass(l, next, limits, today, before, maximum, failClosed, only);
  }

  lemma SecondPass(l: Ledger, next: Ledger, limits: Limits, today: nat,
                   before: Option<int>, maximum: nat, failClosed: bool, only: Option<nat>)
    requires Inv(l, limits, today) && Inv(next, limits, today)
    requires |DueRows(l.settlements, before, only, |l.uploads|)| <= maximum
    requires RowsGivenBack(l, next, DueRows(l.settlements, before, only, |l.uploads|))
    ensures Recover(next, before, maximum, failClosed, only) == Step(Ok(0), next)
  {
    var rows := DueRows(l.settlements, before, only, |l.uploads|);
    var again := DueRows(next.settlements, before, only, |next.uploads|);
    forall s: nat | s in again ensures s in rows && s in next.settlements && next.settlements[s].possible {
      assert Lookup(next.settlements, s) == if s in rows && Pending(l, s) then None else Lookup(l.settlements, s);
    }
    DueRowsOrdered(next.settlements, before, only, |next.uploads|);
    DistinctSubset(again, rows);
    NothingPending(next, limits, today, again);
  }

  lemma {:induction false} DistinctSubset(small: seq<nat>, large: seq<nat>)
    requires Distinct(small) && forall s :: s in small ==> s in large
    ensures |small| <= |large|
    decreases |small|
  {
    if small != [] {
      var n := |small| - 1;
      var s := small[n];
      assert s in small;
      var j :| 0 <= j < |large| && large[j] == s;
      var rest := large[..j] + large[j + 1..];
      forall x | x in small[..n] ensures x in rest {
        assert x in small;
        var k :| 0 <= k < |large| && large[k] == x;
        assert k != j;
        assert if k < j then rest[k] == x else rest[k - 1] == x;
      }
      DistinctSubset(small[..n], rest);
    }
  }

  // The cases the code gets wrong.

  /** Any two pending zero-byte settlements on one usage row that holds nothing else stop recovery. */
  lemma EmptyPair(l: Ledger, limits: Limits, today: nat, a: nat, b: nat)
    requires Inv(l, limits, today) && a != b && Pending(l, a) && Pending(l, b)
    requires UsageKey(l, a) == UsageKey(l, b)
    requires Used(l.daily, UsageKey(l, a).0, UsageKey(l, a).1) == 0
    ensures Recover(l, None, MAX_STARTUP_SETTLEMENT_RECOVERIES, true, None).result
            == Err(if |DueRows(l.settlements, None, None, |l.uploads|)| > MAX_STARTUP_SETTLEMENT_RECOVERIES
                   then PendingSettlementRecoveryLimit else AccountingInvariant)
  {
    PendingIsCovered(l, limits, today, a);
    PendingIsCovered(l, limits, today, b);
    var rows := DueRows(l.settlements, None, None, |l.uploads|);
    RecoverOutcome(l, limits, today, None, MAX_STARTUP_SETTLEMENT_RECOVERIES, true, None);
    LaterIsUncovered(l, rows, a, b);
  }

  /** Of two pending zero-byte rows of one spent usage row the later finds it gone. */
  lemma LaterIsUncovered(l: Ledger, rows: seq<nat>, a: nat, b: nat)
    requires a != b && a in rows && b in rows && Pending(l, a) && Pending(l, b)
    requires UsageKey(l, a) == UsageKey(l, b)
    requires Used(l.daily, UsageKey(l, a).0, UsageKey(l, a).1) == 0
    requires l.settlements[a].actual == l.settlements[b].actual == 0
    ensures !ZeroRefundsCovered(l, rows)
  {
    var i :| 0 <= i < |rows| && rows[i] == a;
    var j :| 0 <= j < |rows| && rows[j] == b;
    var late := if i < j then j else i;
    var early := if i < j then i else j;
    assert rows[..late][early] == rows[early];
    assert IsRefunded(l, rows[..late], UsageKey(l, a));
    assert !Survives(l, rows[..late], UsageKey(l, rows[late]));
  }
}
