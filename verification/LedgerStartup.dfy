/**
 * When an opening succeeds, told from the stored tables alone: which sessions and which usage outlive the
 * start-up recovery and expiry, and what is then asked of them. A session or today's usage that no
 * remaining secret can name refuses the opening.
 */
module LedgerStartup {
  import opened Prelude
  import opened Sums
  import opened LedgerTables
  import opened LedgerTransactions
  import opened LedgerAdmission
  import opened LedgerInvariant
  import opened LedgerRecovery
  import opened LedgerReconciliation
  import opened LedgerAdmissionInvariant
  import opened LedgerSelection
  import opened LedgerOpening

  // What outlives the first two steps.

  /** An uploaded session whose charge is taken back had this token. */
  ghost predicate Forgotten(l: Ledger, token: nat) {
    exists s: nat :: s in l.settlements && RevokedByRow(l, s, token)
  }

  /** The session is open and still has a lease, or before its first lease a capability. */
  ghost predicate Lives(l: Ledger, now: nat, k: nat) {
    && k < |l.uploads|
    && var u := l.uploads[k];
       || (u.state == Receiving && u.lease.Some? && now < u.lease.value)
       || (u.state == Reserved && u.token in l.caps && l.caps[u.token] == Capability(k, l.caps[u.token].expires)
           && now < l.caps[u.token].expires && !Forgotten(l, u.token))
  }

  /** The bytes of the open sessions that live, or of those that do not. */
  ghost function HeldColumnIf(l: Ledger, now: nat, lives: bool): seq<nat> {
    seq(|l.uploads|, k requires 0 <= k < |l.uploads| =>
      if IsOpen(l.uploads[k]) && Lives(l, now, k) == lives then l.uploads[k].reserved else 0)
  }

  ghost function HeldColumnOf(l: Ledger, now: nat, identity: nat): seq<nat> {
    seq(|l.uploads|, k requires 0 <= k < |l.uploads| =>
      if Lives(l, now, k) && l.uploads[k].identity == identity then l.uploads[k].reserved else 0)
  }

  ghost function LivingOf(l: Ledger, now: nat, identity: nat): set<nat> {
    set k: nat | k < |l.uploads| && Lives(l, now, k) && l.uploads[k].identity == identity
  }

  /** What each session gives back to the usage row of an identity and day. */
  function RefundColumn(l: Ledger, identity: nat, day: nat): seq<nat> {
    seq(|l.uploads|, k requires 0 <= k < |l.uploads| =>
      if k in l.settlements && !l.settlements[k].possible && l.settlements[k].day == day && l.uploads[k].identity == identity
      then l.settlements[k].actual else 0)
  }

  /** What is left of the usage of an identity on a day. */
  function UsedStill(l: Ledger, identity: nat, day: nat): int {
    (if (identity, day) in l.daily then l.daily[(identity, day)] else 0) - Sum(RefundColumn(l, identity, day))
  }

  // The tests.

  predicate Configured(limits: Limits, secrets: seq<nat>) {
    && 1 <= limits.maxFileBytes <= 0x7fff_ffff_ffff_ffff
    && 1 <= limits.maxActiveSessions <= 0xffff_ffff
    && limits.dailyQuotaBytes <= 0x7fff_ffff_ffff_ffff
    && limits.maxGlobalReserved <= 0x7fff_ffff_ffff_ffff
    && limits.diskSafetyMargin <= 0x7fff_ffff_ffff_ffff
    && 1 <= |secrets| <= 4
  }

  /** Every refund of no bytes finds its usage row. */
  ghost predicate RefundsCovered(l: Ledger) {
    forall rows :: OldestFirst(l.settlements, None, None, 128, rows) ==> ZeroRefundsCovered(l, rows)
  }

  ghost predicate FilesFit(l: Ledger, limits: Limits, now: nat, files: FileAnswers) {
    forall k: nat :: Lives(l, now, k) ==> l.uploads[k].reserved <= limits.maxFileBytes && k !in files.errors
  }

  /** The first living session whose file does not fit decides the answer. */
  ghost predicate AnswersFile(l: Ledger, limits: Limits, now: nat, files: FileAnswers, result: Result<(), LimitError>) {
    forall k: nat :: Lives(l, now, k) && Unfit(l.uploads, limits.maxFileBytes, files.errors, k)
                     && (forall j: nat :: j < k && Lives(l, now, j) ==> !Unfit(l.uploads, limits.maxFileBytes, files.errors, j)) ==>
      result == Err(if l.uploads[k].reserved > limits.maxFileBytes then ExistingCommitmentsExceedLimits else files.errors[k])
  }

  ghost predicate IdentityFits(l: Ledger, limits: Limits, now: nat, identity: nat) {
    && |LivingOf(l, now, identity)| <= limits.maxActiveSessions
    && UsedStill(l, identity, now / 86_400) + Sum(HeldColumnOf(l, now, identity)) <= limits.dailyQuotaBytes
  }

  ghost predicate IdentitiesFit(l: Ledger, limits: Limits, now: nat) {
    && (forall k: nat :: Lives(l, now, k) ==> IdentityFits(l, limits, now, l.uploads[k].identity))
    && (forall i: nat :: UsedStill(l, i, now / 86_400) <= limits.dailyQuotaBytes)
  }

  /** Some hash of the identity was made with one of the secrets. */
  ghost predicate Named(l: Ledger, secrets: seq<nat>, identity: nat) {
    exists secret: nat, ip: nat ::
      (secret, ip) in l.ids.hashes && l.ids.hashes[(secret, ip)] == identity && secret in secrets
  }

  /** Whoever has a living session, or has used something today, can be named. */
  ghost predicate SecretsKept(l: Ledger, secrets: seq<nat>, now: nat) {
    && (forall k: nat :: Lives(l, now, k) ==> Named(l, secrets, l.uploads[k].identity))
    && (forall i: nat :: UsedStill(l, i, now / 86_400) > 0 ==> Named(l, secrets, i))
  }

  /** What an opening answers. */
  ghost predicate Answers(l: Ledger, limits: Limits, secrets: seq<nat>, now: nat, files: FileAnswers,
                          result: Result<(), LimitError>)
  {
    if !Configured(limits, secrets) then result == Err(InvalidConfiguration)
    else if |l.settlements| > 128 then result == Err(PendingSettlementRecoveryLimit)
    else if !RefundsCovered(l) || Sum(HeldColumnIf(l, now, false)) > l.budget then result == Err(AccountingInvariant)
    else AnswersValid(l, limits, secrets, now, files, result)
  }

  ghost predicate AnswersValid(l: Ledger, limits: Limits, secrets: seq<nat>, now: nat, files: FileAnswers,
                               result: Result<(), LimitError>)
  {
    var held := Sum(HeldColumnIf(l, now, true));
    if held > limits.maxGlobalReserved then result == Err(ExistingCommitmentsExceedLimits)
    else if !FilesFit(l, limits, now, files) then result.Err? && AnswersFile(l, limits, now, files, result)
    else if !IdentitiesFit(l, limits, now) then result == Err(ExistingCommitmentsExceedLimits)
    else if !SecretsKept(l, secrets, now) then result == Err(SecretRetentionRequired)
    else if held > 0 && files.margin.Some? then result == Err(files.margin.value)
    else result == Ok(())
  }

  ghost function OpenedRow(l: Ledger, now: nat, k: nat): Upload
    requires k < |l.uploads|
  {
    var u := l.uploads[k];
    if k in l.settlements && !l.settlements[k].possible
    then u.(state := Expired, reserved := 0, lease := if u.state == Uploaded then None else u.lease, actual := None)
    else if IsOpen(u) && !Lives(l, now, k) then u.(state := Expired, reserved := 0, lease := None)
    else u
  }

  /** The tables after an opening: what was taken back, what has lapsed, and what lives on. */
  ghost predicate Opened(l: Ledger, next: Ledger, now: nat) {
    && |next.uploads| == |l.uploads|
    && next.budget == Sum(HeldColumnIf(l, now, true))
    && (forall k: nat :: k < |l.uploads| ==> next.uploads[k] == OpenedRow(l, now, k))
    && (forall i: nat :: Used(next.daily, i, now / 86_400) == UsedStill(l, i, now / 86_400))
    && (forall k: nat :: Lookup(next.settlements, k)
          == if k in l.settlements && l.settlements[k].possible then Some(l.settlements[k]) else None)
  }

  // The expiry of lapsed sessions.

  function HeldIn(uploads: seq<Upload>, rows: seq<nat>): nat {
    Sum(HeldInColumn(uploads, rows))
  }

  function HeldInColumn(uploads: seq<Upload>, rows: seq<nat>): seq<nat> {
    seq(|uploads|, k requires 0 <= k < |uploads| => if k in rows then uploads[k].reserved else 0)
  }

  lemma HeldInOneMore(uploads: seq<Upload>, rows: seq<nat>, s: nat)
    requires s < |uploads| && s !in rows
    ensures HeldIn(uploads, rows + [s]) == HeldIn(uploads, rows) + uploads[s].reserved
  {
    SumPoint(HeldInColumn(uploads, rows), HeldInColumn(uploads, rows + [s]), s);
  }

  /** A batch expiry is stopped by the budget alone, and only if it does not hold what the batch frees. */
  ghost predicate BudgetDecides(l: Ledger, rows: seq<nat>, step: Step<()>) {
    if HeldIn(l.uploads, rows) > l.budget then step.result == Err(AccountingInvariant)
    else
      && step.result.Ok? && step.after.budget == l.budget - HeldIn(l.uploads, rows)
      && |step.after.uploads| == |l.uploads|
      && forall k: nat :: k < |l.uploads| && k !in rows ==> step.after.uploads[k] == l.uploads[k]
  }

  lemma BudgetStep(l: Ledger, earlier: seq<nat>, s: nat, step: Step<()>)
    requires BudgetDecides(l, earlier, step) && s !in earlier && s < |l.uploads| && l.uploads[s].state.IsReserved()
    ensures BudgetDecides(l, earlier + [s], NextExpiry(l, step, s, {}))
  {
    HeldInOneMore(l.uploads, earlier, s);
  }

  lemma {:induction false} BudgetCoversBatch(l: Ledger, rows: seq<nat>)
    requires Distinct(rows) && forall s :: s in rows ==> s < |l.uploads| && l.uploads[s].state.IsReserved()
    ensures BudgetDecides(l, rows, ExpireRows(l, rows, {}))
    decreases |rows|
  {
    if rows == [] {
      SumZero(HeldInColumn(l.uploads, rows));
    } else {
      var earlier, s := rows[..|rows| - 1], rows[|rows| - 1];
      assert rows == earlier + [s] && s in rows && s !in earlier;
      forall k | k in earlier ensures k in rows {
      }
      BudgetCoversBatch(l, earlier);
      BudgetStep(l, earlier, s, ExpireRows(l, earlier, {}));
    }
  }

  // The state the validation sees.

  lemma RecoveryAnswers(l: Ledger, day: nat)
    requires Stored(l, day)
    ensures var result := Recover(l, None, 128, true, None).result;
            if |l.settlements| > 128 then result == Err(PendingSettlementRecoveryLimit)
            else if RefundsCovered(l) then result.Ok? else result == Err(AccountingInvariant)
  {
    var rows := DueRows(l.settlements, None, None, |l.uploads|);
    StartupRecovery(l, day);
    SelectionSize(l.settlements, None, None, |l.uploads|);
    assert AllDue(l.settlements, None, None) == l.settlements.Keys;
    if |l.settlements| <= 128 {
      assert rows == Visited(l, None, 128, None);
      VisitedOldestFirst(l, None, 128, None, rows);
      forall other | OldestFirst(l.settlements, None, None, 128, other) ensures other == rows {
        VisitedOldestFirst(l, None, 128, None, other);
      }
    }
  }

  /** The tables after a completed recovery. */
  ghost predicate TakenBack(l: Ledger, next: Ledger) {
    && |next.uploads| == |l.uploads| && next.budget == l.budget && next.ids == l.ids && next.chargedOn == l.chargedOn
    && (forall k: nat :: k < |l.uploads| ==> next.uploads[k] == if Pending(l, k) then WithoutCharge(l.uploads[k]) else l.uploads[k])
    && (forall k: nat :: Lookup(next.settlements, k) == if Pending(l, k) then None else Lookup(l.settlements, k))
    && (forall t: nat :: Lookup(next.caps, t)
          == if t in l.caps && Forgotten(l, t) then Some(l.caps[t].(expires := 0)) else Lookup(l.caps, t))
  }

  lemma RecoveryTakesBack(l: Ledger, day: nat)
    requires Stored(l, day) && Recover(l, None, 128, true, None).result.Ok?
    ensures var next := Recover(l, None, 128, true, None).after; Stored(next, day) && TakenBack(l, next)
  {
    var rows := DueRows(l.settlements, None, None, |l.uploads|);
    var next := Recover(l, None, 128, true, None).after;
    OpenRecovers(l, day);
    forall k: nat ensures k in rows <==> k in l.settlements {
      assert k in rows <==> k < |l.uploads| && IsDue(l.settlements, None, None, k);
    }
    forall k: nat ensures Lookup(next.settlements, k) == if Pending(l, k) then None else Lookup(l.settlements, k) {
      assert Lookup(next.settlements, k) == if k in rows && Pending(l, k) then None else Lookup(l.settlements, k);
    }
    forall t: nat ensures Lookup(next.caps, t)
        == if t in l.caps && Forgotten(l, t) then Some(l.caps[t].(expires := 0)) else Lookup(l.caps, t)
    {
      RevokedMeansForgotten(l, rows, t);
    }
  }

  lemma RevokedMeansForgotten(l: Ledger, rows: seq<nat>, t: nat)
    requires forall k: nat :: k in rows <==> k in l.settlements
    ensures RevokedBy(Rebudgeted(l), rows, t) <==> Forgotten(l, t)
  {
    var r := Rebudgeted(l);
    if Forgotten(l, t) {
      var s: nat :| s in l.settlements && RevokedByRow(l, s, t);
      assert s in rows;
      var j :| 0 <= j < |rows| && rows[j] == s;
      assert RevokedByRow(r, rows[j], t);
    }
    if RevokedBy(r, rows, t) {
      var j :| 0 <= j < |rows| && RevokedByRow(r, rows[j], t);
      assert rows[j] in rows;
    }
  }

  /** After a recovery the abandoned sessions are the open ones that do not live. */
  lemma AbandonedDoNotLive(l: Ledger, next: Ledger, now: nat, day: nat, k: nat)
    requires Stored(l, day) && TakenBack(l, next) && k < |l.uploads|
    ensures IsAbandoned(next.uploads[k], k, next.caps, now) <==> IsOpen(l.uploads[k]) && !Lives(l, now, k)
    ensures Pending(l, k) ==> !IsOpen(l.uploads[k])
  {
    assert RowOk(l, k, day);
    var t := l.uploads[k].token;
    assert Lookup(next.caps, t) == if t in l.caps && Forgotten(l, t) then Some(l.caps[t].(expires := 0)) else Lookup(l.caps, t);
  }

  lemma ExpiryAnswers(l: Ledger, next: Ledger, now: nat, day: nat)
    requires Stored(l, day) && Stored(next, day) && TakenBack(l, next)
    ensures var result := ExpireAbandoned(next, now, {}).result;
            if Sum(HeldColumnIf(l, now, false)) > l.budget then result == Err(AccountingInvariant) else result.Ok?
  {
    var rows := AbandonedRows(next.uploads, next.caps, now, |next.uploads|);
    BudgetCoversBatch(next, rows);
    forall k: nat | k < |l.uploads|
      ensures HeldInColumn(next.uploads, rows)[k] == HeldColumnIf(l, now, false)[k]
    {
      AbandonedDoNotLive(l, next, now, day, k);
    }
    assert HeldInColumn(next.uploads, rows) == HeldColumnIf(l, now, false);
  }

  /** The sessions and settlements after recovery and expiry. */
  ghost predicate ClearedTo(l: Ledger, next: Ledger, now: nat) {
    && |next.uploads| == |l.uploads| && next.ids == l.ids && next.chargedOn == l.chargedOn
    && (forall k: nat :: k < |l.uploads| ==> next.uploads[k] == ClearedRow(l, now, k))
    && (forall k: nat :: Lookup(next.settlements, k) == if Pending(l, k) then None else Lookup(l.settlements, k))
  }

  ghost function ClearedRow(l: Ledger, now: nat, k: nat): Upload
    requires k < |l.uploads|
  {
    if Pending(l, k) then WithoutCharge(l.uploads[k])
    else if IsOpen(l.uploads[k]) && !Lives(l, now, k) then Ended(l.uploads[k]) else l.uploads[k]
  }

  lemma ExpiryClears(l: Ledger, next: Ledger, now: nat, day: nat)
    requires Stored(l, day) && Stored(next, day) && TakenBack(l, next) && ExpireAbandoned(next, now, {}).result.Ok?
    ensures var last := ExpireAbandoned(next, now, {}).after; Stored(last, day) && ClearedTo(l, last, now)
  {
    var last := ExpireAbandoned(next, now, {}).after;
    OpenExpires(next, day, now);
    forall k: nat | k < |l.uploads| ensures last.uploads[k] == ClearedRow(l, now, k) {
      AbandonedDoNotLive(l, next, now, day, k);
      assert k in AbandonedSet(next, now, {}) <==> IsAbandoned(next.uploads[k], k, next.caps, now);
    }
  }

  // What the validation finds there.

  /** The living sessions of an identity among the first n. */
  ghost function LivingBelow(l: Ledger, now: nat, identity: nat, n: nat): set<nat> {
    set k: nat | k < n && Lives(l, now, k) && l.uploads[k].identity == identity
  }

  lemma LivingOneMore(l: Ledger, now: nat, identity: nat, n: nat)
    requires n < |l.uploads|
    ensures |LivingBelow(l, now, identity, n + 1)|
            == |LivingBelow(l, now, identity, n)| + if Lives(l, now, n) && l.uploads[n].identity == identity then 1 else 0
  {
    assert LivingBelow(l, now, identity, n + 1)
           == LivingBelow(l, now, identity, n) + if Lives(l, now, n) && l.uploads[n].identity == identity then {n} else {};
  }

  lemma {:induction false} LivingCount(l: Ledger, now: nat, identity: nat, column: seq<nat>)
    requires |column| <= |l.uploads|
    requires forall k: nat :: k < |column| ==>
               column[k] == if Lives(l, now, k) && l.uploads[k].identity == identity then 1 else 0
    ensures |LivingBelow(l, now, identity, |column|)| == Sum(column)
    decreases |column|
  {
    if column == [] {
      assert LivingBelow(l, now, identity, 0) == {};
    } else {
      var n := |column| - 1;
      LivingCount(l, now, identity, column[..n]);
      LivingOneMore(l, now, identity, n);
    }
  }

  /** The open sessions the validation finds are the living ones, as they were stored. */
  lemma OpenAreLiving(l: Ledger, next: Ledger, now: nat, day: nat)
    requires Stored(l, day) && ClearedTo(l, next, now)
    ensures forall k: nat :: k < |l.uploads| ==> (next.uploads[k].state.IsReserved() <==> Lives(l, now, k))
    ensures forall k: nat :: Lives(l, now, k) ==> next.uploads[k] == l.uploads[k]
    ensures forall k: nat :: k < |l.uploads| ==> next.uploads[k].identity == l.uploads[k].identity
  {
    forall k: nat | k < |l.uploads| ensures Pending(l, k) ==> !IsOpen(l.uploads[k]) {
      assert RowOk(l, k, day);
    }
  }

  /** The totals of the validation, in the tables before the opening. */
  lemma TotalsCleared(l: Ledger, next: Ledger, now: nat, day: nat, identity: nat)
    requires Stored(l, day) && ClearedTo(l, next, now)
    ensures TotalHeld(next.uploads) == Sum(HeldColumnIf(l, now, true))
    ensures TotalHeldBy(next.uploads, identity) == Sum(HeldColumnOf(l, now, identity))
    ensures ActiveSessions(next.uploads, identity) == |LivingOf(l, now, identity)|
  {
    OpenAreLiving(l, next, now, day);
    LivingCount(l, now, identity, ActiveColumn(next.uploads, identity));
    assert LivingOf(l, now, identity) == LivingBelow(l, now, identity, |l.uploads|);
    assert HeldColumn(next.uploads) == HeldColumnIf(l, now, true);
    assert HeldByColumn(next.uploads, identity) == HeldColumnOf(l, now, identity);
  }

  /** What is left of the usage. */
  lemma UsageCleared(l: Ledger, next: Ledger, now: nat, day: nat, identity: nat, d: nat)
    requires Stored(l, day) && Stored(next, day) && ClearedTo(l, next, now)
    ensures Used(next.daily, identity, d) == UsedStill(l, identity, d)
  {
    var before := ChargeColumn(l.uploads, l.chargedOn, identity, d);
    var after := ChargeColumn(next.uploads, next.chargedOn, identity, d);
    forall k: nat | k < |l.uploads| ensures before[k] == after[k] + RefundColumn(l, identity, d)[k] {
      assert RowOk(l, k, day);
    }
    SumMerge(after, RefundColumn(l, identity, d), before);
    assert Used(l.daily, identity, d) == TotalCharged(l.uploads, l.chargedOn, identity, d);
    assert Used(next.daily, identity, d) == TotalCharged(next.uploads, next.chargedOn, identity, d);
  }

  lemma SecretsNamed(l: Ledger, next: Ledger, secrets: seq<nat>, identity: nat)
    requires next.ids == l.ids
    ensures HasSecret(next.ids.hashes, secrets, identity) <==> Named(l, secrets, identity)
  {
    if Named(l, secrets, identity) {
      var secret: nat, ip: nat :|
        (secret, ip) in l.ids.hashes && l.ids.hashes[(secret, ip)] == identity && secret in secrets;
      assert (secret, ip).0 in secrets;
    }
    if HasSecret(next.ids.hashes, secrets, identity) {
      var h :| h in l.ids.hashes && l.ids.hashes[h] == identity && h.0 in secrets;
      assert (h.0, h.1) in l.ids.hashes;
    }
  }

  lemma FilesCleared(l: Ledger, next: Ledger, limits: Limits, now: nat, day: nat, files: FileAnswers)
    requires Stored(l, day) && Stored(next, day) && ClearedTo(l, next, now)
    ensures FirstFileError(next.uploads, limits.maxFileBytes, files.errors, |next.uploads|).None?
            <==> FilesFit(l, limits, now, files)
    ensures var error := FirstFileError(next.uploads, limits.maxFileBytes, files.errors, |next.uploads|);
            error.Some? ==> AnswersFile(l, limits, now, files, Err(error.value))
  {
    OpenAreLiving(l, next, now, day);
    forall k: nat ensures Unfit(next.uploads, limits.maxFileBytes, files.errors, k)
                          <==> Lives(l, now, k) && Unfit(l.uploads, limits.maxFileBytes, files.errors, k)
    {
      assert k < |l.uploads| ==> (next.uploads[k].state.IsReserved() <==> Lives(l, now, k));
    }
    forall k: nat | Lives(l, now, k) && Unfit(l.uploads, limits.maxFileBytes, files.errors, k)
                    && forall j: nat :: j < k && Lives(l, now, j) ==> !Unfit(l.uploads, limits.maxFileBytes, files.errors, j)
      ensures FirstFileError(next.uploads, limits.maxFileBytes, files.errors, |next.uploads|)
              == Some(if l.uploads[k].reserved > limits.maxFileBytes then ExistingCommitmentsExceedLimits else files.errors[k])
    {
      assert Unfit(next.uploads, limits.maxFileBytes, files.errors, k);
      FirstUnfitDecides(next.uploads, limits.maxFileBytes, files.errors, |next.uploads|, k);
    }
  }

  /** What the validation asks of the identity of an active session. */
  predicate WithinLimits(l: Ledger, limits: Limits, day: nat, identity: nat) {
    && ActiveSessions(l.uploads, identity) <= limits.maxActiveSessions
    && Used(l.daily, identity, day) + TotalHeldBy(l.uploads, identity) <= limits.dailyQuotaBytes
  }

  lemma IdentityCleared(l: Ledger, next: Ledger, limits: Limits, now: nat, identity: nat)
    requires Stored(l, DayOf(now)) && Stored(next, DayOf(now)) && ClearedTo(l, next, now)
    ensures WithinLimits(next, limits, DayOf(now), identity) <==> IdentityFits(l, limits, now, identity)
    ensures Used(next.daily, identity, DayOf(now)) == UsedStill(l, identity, now / 86_400)
  {
    TotalsCleared(l, next, now, DayOf(now), identity);
    UsageCleared(l, next, now, DayOf(now), identity, DayOf(now));
  }

  lemma CommitmentsAre(l: Ledger, limits: Limits, day: nat)
    ensures CommitmentsFit(l, limits, day) <==>
              && (forall k: nat :: k < |l.uploads| && l.uploads[k].state.IsReserved() ==> WithinLimits(l, limits, day, l.uploads[k].identity))
              && (forall i: nat :: Used(l.daily, i, day) <= limits.dailyQuotaBytes)
  {
    UsageWithin(l.daily, day, limits.dailyQuotaBytes);
  }

  lemma IdentitiesCleared(l: Ledger, next: Ledger, limits: Limits, now: nat)
    requires Stored(l, DayOf(now)) && Stored(next, DayOf(now)) && ClearedTo(l, next, now)
    ensures CommitmentsFit(next, limits, DayOf(now)) <==> IdentitiesFit(l, limits, now)
  {
    forall i: nat
      ensures WithinLimits(next, limits, DayOf(now), i) <==> IdentityFits(l, limits, now, i)
      ensures Used(next.daily, i, DayOf(now)) == UsedStill(l, i, now / 86_400)
    {
      IdentityCleared(l, next, limits, now, i);
    }
    OpenAreLiving(l, next, now, DayOf(now));
    CommitmentsAre(next, limits, DayOf(now));
  }

  lemma UsageWithin(daily: map<(nat, nat), nat>, day: nat, bound: nat)
    ensures (forall key :: key in daily && key.1 == day ==> daily[key] <= bound) <==> (forall i: nat :: Used(daily, i, day) <= bound)
  {
    if forall i: nat :: Used(daily, i, day) <= bound {
      forall key | key in daily && key.1 == day ensures daily[key] <= bound {
        assert Used(daily, key.0, day) <= bound;
      }
    }
  }

  lemma SecretsCleared(l: Ledger, next: Ledger, secrets: seq<nat>, now: nat)
    requires Stored(l, DayOf(now)) && Stored(next, DayOf(now)) && ClearedTo(l, next, now)
    ensures SecretsRetained(next, secrets, DayOf(now)) <==> SecretsKept(l, secrets, now)
  {
    var day := DayOf(now);
    forall i: nat
      ensures Used(next.daily, i, day) == UsedStill(l, i, day)
      ensures HasSecret(next.ids.hashes, secrets, i) <==> Named(l, secrets, i)
    {
      UsageCleared(l, next, now, day, i, day);
      SecretsNamed(l, next, secrets, i);
    }
    OpenAreLiving(l, next, now, day);
    UsageNamed(next.daily, next.ids.hashes, secrets, day);
  }

  lemma UsageNamed(daily: map<(nat, nat), nat>, hashes: map<(nat, nat), nat>, secrets: seq<nat>, day: nat)
    ensures (forall key :: key in daily && key.1 == day && daily[key] > 0 ==> HasSecret(hashes, secrets, key.0))
            <==> (forall i: nat :: Used(daily, i, day) > 0 ==> HasSecret(hashes, secrets, i))
  {
    if forall i: nat :: Used(daily, i, day) > 0 ==> HasSecret(hashes, secrets, i) {
      forall key | key in daily && key.1 == day && daily[key] > 0 ensures HasSecret(hashes, secrets, key.0) {
        assert Used(daily, key.0, day) > 0;
      }
    }
  }

  lemma ValidationAnswers(l: Ledger, next: Ledger, limits: Limits, secrets: seq<nat>, now: nat, files: FileAnswers)
    requires Stored(l, DayOf(now)) && Stored(next, DayOf(now)) && ClearedTo(l, next, now)
    ensures AnswersValid(l, limits, secrets, now, files, ValidateStartup(next, limits, secrets, now, files).result)
  {
    TotalsCleared(l, next, now, DayOf(now), 0);
    FilesCleared(l, next, limits, now, DayOf(now), files);
    IdentitiesCleared(l, next, limits, now);
    SecretsCleared(l, next, secrets, now);
  }

  /** The answer of an opening, for every stored database, configuration, time and state of the files. */
  lemma OpenAnswers(l: Ledger, limits: Limits, secrets: seq<nat>, now: nat, files: FileAnswers)
    requires Stored(l, now / 86_400)
    ensures Answers(l, limits, secrets, now, files, Open(l, limits, secrets, now, files).result)
  {
    var recovered := Recover(l, None, 128, true, None);
    RecoveryAnswers(l, DayOf(now));
    if recovered.result.Ok? {
      RecoveryTakesBack(l, DayOf(now));
      ExpiryAnswers(l, recovered.after, now, DayOf(now));
      var expired := ExpireAbandoned(recovered.after, now, {});
      if expired.result.Ok? {
        ExpiryClears(l, recovered.after, now, DayOf(now));
        OpenValidates(l, limits, secrets, now, files);
        ValidationAnswers(l, expired.after, limits, secrets, now, files);
      }
    }
    OpenStops(l, limits, secrets, now, files);
  }

  /** An error of the first two steps is the answer. */
  lemma OpenStops(l: Ledger, limits: Limits, secrets: seq<nat>, now: nat, files: FileAnswers)
    ensures var recovered := Recover(l, None, 128, true, None);
            var result := Open(l, limits, secrets, now, files).result;
            if !Configured(limits, secrets) then result == Err(InvalidConfiguration)
            else if recovered.result.Err? then result == Err(recovered.result.error)
            else
              var expired := ExpireAbandoned(recovered.after, now, {}).result;
              expired.Err? ==> result == Err(expired.error)
  {
  }

  /** Once configuration, recovery and expiry allow it, the answer is that of the validation. */
  lemma OpenValidates(l: Ledger, limits: Limits, secrets: seq<nat>, now: nat, files: FileAnswers)
    requires Recover(l, None, 128, true, None).result.Ok? && ExpireAbandoned(Recover(l, None, 128, true, None).after, now, {}).result.Ok?
    ensures var cleared := ExpireAbandoned(Recover(l, None, 128, true, None).after, now, {}).after;
            Open(l, limits, secrets, now, files).result
            == if Configured(limits, secrets) then ValidateStartup(cleared, limits, secrets, now, files).result
               else Err(InvalidConfiguration)
  {
  }

  /** What an opening that succeeds leaves. */
  lemma OpenLeaves(l: Ledger, limits: Limits, secrets: seq<nat>, now: nat, files: FileAnswers)
    requires Stored(l, now / 86_400) && Open(l, limits, secrets, now, files).result.Ok?
    ensures Opened(l, Open(l, limits, secrets, now, files).after, now)
  {
    OpenCommits(l, limits, secrets, now, files);
    var recovered := Recover(l, None, 128, true, None);
    RecoveryTakesBack(l, DayOf(now));
    ExpiryClears(l, recovered.after, now, DayOf(now));
    ValidationLeaves(l, ExpireAbandoned(recovered.after, now, {}).after, limits, secrets, now, files);
  }

  lemma ValidationLeaves(l: Ledger, next: Ledger, limits: Limits, secrets: seq<nat>, now: nat, files: FileAnswers)
    requires Stored(l, DayOf(now)) && Stored(next, DayOf(now)) && ClearedTo(l, next, now)
    requires ValidateStartup(next, limits, secrets, now, files).result.Ok?
    ensures Opened(l, ValidateStartup(next, limits, secrets, now, files).after, now)
  {
    TotalsCleared(l, next, now, DayOf(now), 0);
    forall i: nat ensures Used(next.daily, i, DayOf(now)) == UsedStill(l, i, DayOf(now)) {
      UsageCleared(l, next, now, DayOf(now), i, DayOf(now));
    }
    RowsCleared(l, next, now, DayOf(now));
  }

  lemma RowsCleared(l: Ledger, next: Ledger, now: nat, day: nat)
    requires Stored(l, day) && ClearedTo(l, next, now)
    ensures forall k: nat :: k < |l.uploads| ==> next.uploads[k] == OpenedRow(l, now, k)
  {
    forall k: nat | k < |l.uploads| ensures ClearedRow(l, now, k) == OpenedRow(l, now, k) {
      assert RowOk(l, k, day);
    }
  }

  /** A database with a living session, or with usage of today, that no secret names is refused. */
  lemma LostSecretRefuses(l: Ledger, limits: Limits, secrets: seq<nat>, now: nat, files: FileAnswers, identity: nat)
    requires Stored(l, now / 86_400) && !Named(l, secrets, identity)
    requires LivingOf(l, now, identity) != {} || UsedStill(l, identity, now / 86_400) > 0
    ensures Open(l, limits, secrets, now, files).result.Err? && Open(l, limits, secrets, now, files).after == l
  {
    OpenAnswers(l, limits, secrets, now, files);
    NotKept(l, secrets, now, identity);
  }

  lemma NotKept(l: Ledger, secrets: seq<nat>, now: nat, identity: nat)
    requires !Named(l, secrets, identity)
    requires LivingOf(l, now, identity) != {} || UsedStill(l, identity, now / 86_400) > 0
    ensures !SecretsKept(l, secrets, now)
  {
    if LivingOf(l, now, identity) != {} {
      var k :| k in LivingOf(l, now, identity);
      assert Lives(l, now, k);
    }
  }


  /** The whole of an opening. */
  lemma StoredOpens(l: Ledger, limits: Limits, secrets: seq<nat>, now: nat, files: FileAnswers)
    requires Stored(l, DayOf(now))
    ensures var step := Open(l, limits, secrets, now, files);
            && Answers(l, limits, secrets, now, files, step.result)
            && (step.result.Ok? ==>
                  && Inv(step.after, limits, DayOf(now)) && Opened(l, step.after, now)
                  && forall s :: s in step.after.settlements ==> step.after.settlements[s].possible)
  {
    OpenAnswers(l, limits, secrets, now, files);
    OpenOutcome(l, limits, secrets, now, files);
    if Open(l, limits, secrets, now, files).result.Ok? {
      OpenLeaves(l, limits, secrets, now, files);
    }
  }
}
