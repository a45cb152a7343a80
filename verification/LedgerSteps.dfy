/**
 * Every transaction of the ledger as one step, sequences of such steps, and what they leave of one
 * session when they are made on behalf of others.
 */
module LedgerSteps {
  import opened Prelude
  import opened LedgerTables
  import opened LedgerTransactions
  import opened LedgerAdmission
  import opened LedgerInvariant
  import opened LedgerRecovery
  import opened LedgerReconciliation
  import opened LedgerAdmissionInvariant
  import opened LedgerFrames
  import opened LedgerAccess

  /** Ledger transactions the rest of the service runs at any time, for any session. */
  datatype Service =
    | DoReserve(secrets: seq<nat>, request: ReserveRequest, reserveEnv: ReserveEnv)
    | DoClaim(session: nat, token: nat, duration: Duration)
    | DoRenew(session: nat, token: nat, duration: Duration)
    | DoExpand(session: nat, token: nat, required: nat, lease: Option<Duration>, expandEnv: ExpandEnv)
    | DoTransition(session: nat, token: nat, target: UploadState, fileError: Option<LimitError>)
    | DoExpire(session: nat, token: nat)
    | DoReconcile(active: set<nat>)
    | DoCleanup(session: nat, deletion: Deletion)

  function ServiceEffect(l: Ledger, limits: Limits, op: Service, now: nat): Ledger {
    match op
    case DoReserve(secrets, request, env) => Reserve(l, limits, secrets, request, now, env).after
    case DoClaim(s, token, duration) => ClaimLease(l, s, token, duration, now).after
    case DoRenew(s, token, duration) => RenewLease(l, s, token, duration, now).after
    case DoExpand(s, token, required, lease, env) => Expand(l, limits, s, token, required, lease, now, env).after
    case DoTransition(s, token, target, fileError) => Transition(l, s, token, target, fileError).after
    case DoExpire(s, token) => Expire(l, s, token).after
    case DoReconcile(active) => Reconcile(l, now, active).after
    case DoCleanup(s, deletion) => RecordCleanup(l, s, deletion, now)
  }

  lemma ServiceKeepsInv(l: Ledger, limits: Limits, op: Service, now: nat)
    requires Inv(l, limits, DayOf(now)) && limits.Valid()
    ensures Inv(ServiceEffect(l, limits, op, now), limits, DayOf(now))
  {
    match op
    case DoReserve(secrets, request, env) => ReserveKeepsInv(l, limits, secrets, request, now, env);
    case DoClaim(s, token, duration) => ClaimLeaseKeepsInv(l, limits, s, token, duration, now, DayOf(now));
    case DoRenew(s, token, duration) => RenewLeaseKeepsInv(l, limits, s, token, duration, now, DayOf(now));
    case DoExpand(s, token, required, lease, env) => ExpandKeepsInv(l, limits, s, token, required, lease, now, env);
    case DoTransition(s, token, target, fileError) =>
      TransitionKeepsInv(l, limits, s, token, target, fileError, DayOf(now));
    case DoExpire(s, token) => ExpireKeepsInv(l, limits, s, token, DayOf(now));
    case DoReconcile(active) => ReconcileOutcome(l, limits, DayOf(now), now, active);
    case DoCleanup(s, deletion) => RecordCleanupKeepsInv(l, limits, s, deletion, now, DayOf(now));
  }

  lemma ServiceKeepsCharges(l: Ledger, limits: Limits, op: Service, now: nat)
    requires Inv(l, limits, DayOf(now))
    ensures AllKept(l, ServiceEffect(l, limits, op, now))
  {
    match op
    case DoReserve(secrets, request, env) => ReserveKeeps(l, limits, secrets, request, now, env);
    case DoClaim(s, token, duration) => LeaseKeeps(l, s, token, duration, now);
    case DoRenew(s, token, duration) => LeaseKeeps(l, s, token, duration, now);
    case DoExpand(s, token, required, lease, env) => ExpandKeeps(l, limits, s, token, required, lease, now, env);
    case DoTransition(s, token, target, fileError) =>
      TransitionKeeps(l, limits, s, token, target, fileError, DayOf(now));
    case DoExpire(s, token) => ExpireKeeps(l, s, token);
    case DoReconcile(active) => ReconcileKeeps(l, limits, now, active, DayOf(now));
    case DoCleanup(s, deletion) => CleanupKeeps(l, s, deletion, now);
  }

  lemma ReconcileAddsNoRows(l: Ledger, limits: Limits, active: set<nat>, now: nat)
    requires Inv(l, limits, DayOf(now))
    ensures forall s :: s in Reconcile(l, now, active).after.settlements ==> s in l.settlements
  {
    ReconcileOutcome(l, limits, DayOf(now), now, active);
    var rows := Visited(l, Some(now - SETTLEMENT_ACK_GRACE_SECONDS), MAX_CLEANUP_JOBS_PER_PASS, None);
    var next := Reconcile(l, now, active).after;
    if Reconcile(l, now, active).result.Ok? {
      var middle :| GivenBack(l, middle, rows) && OutboxFollows(l, middle, rows) && Inv(middle, limits, DayOf(now))
                    && ExpiredTo(middle, next, AbandonedSet(middle, now, active))
                    && AllActive(middle, AbandonedSet(middle, now, active));
      forall s | s in next.settlements ensures s in l.settlements {
        assert Lookup(middle.settlements, s) == if s in rows && Pending(l, s) then None else Lookup(l.settlements, s);
      }
    }
  }

  lemma ReserveKeepsSettlements(l: Ledger, limits: Limits, secrets: seq<nat>, request: ReserveRequest, now: nat, env: ReserveEnv)
    ensures Reserve(l, limits, secrets, request, now, env).after.settlements == l.settlements
  {
    if Reserve(l, limits, secrets, request, now, env).result.Ok? {
      var found := FoundIdentities(l.ids.hashes, secrets, request.ip.value);
      if found != [] {
        MergesKeepRows(l, found[0], found[1..]);
      }
    }
  }

  lemma ExpandKeepsSettlements(l: Ledger, limits: Limits, s: nat, token: nat, required: nat, lease: Option<Duration>,
                               now: nat, env: ExpandEnv)
    ensures Expand(l, limits, s, token, required, lease, now, env).after.settlements == l.settlements
  {
  }

  lemma TransitionKeepsSettlements(l: Ledger, s: nat, token: nat, target: UploadState, fileError: Option<LimitError>)
    ensures Transition(l, s, token, target, fileError).after.settlements == l.settlements
  {
  }

  lemma ServiceKeepsSettlements(l: Ledger, limits: Limits, op: Service, now: nat)
    requires !op.DoReconcile?
    ensures ServiceEffect(l, limits, op, now).settlements == l.settlements
  {
    match op
    case DoReserve(secrets, request, env) => ReserveKeepsSettlements(l, limits, secrets, request, now, env);
    case DoExpand(s, token, required, lease, env) => ExpandKeepsSettlements(l, limits, s, token, required, lease, now, env);
    case DoTransition(s, token, target, fileError) => TransitionKeepsSettlements(l, s, token, target, fileError);
    case _ =>
  }

  /** Only a settlement adds a settlement row. */
  lemma ServiceAddsNoRows(l: Ledger, limits: Limits, op: Service, now: nat)
    requires Inv(l, limits, DayOf(now))
    ensures forall s :: s in ServiceEffect(l, limits, op, now).settlements ==> s in l.settlements
  {
    if op.DoReconcile? {
      ReconcileAddsNoRows(l, limits, op.active, now);
    } else {
      ServiceKeepsSettlements(l, limits, op, now);
    }
  }

  lemma ServiceAccess(l: Ledger, limits: Limits, op: Service, now: nat)
    requires AccessOk(l)
    ensures AccessOk(ServiceEffect(l, limits, op, now))
  {
    match op
    case DoReserve(secrets, request, env) => ReserveAccess(l, limits, secrets, request, now, env);
    case DoClaim(s, token, duration) => LeaseAccess(l, s, token, duration, now);
    case DoRenew(s, token, duration) => LeaseAccess(l, s, token, duration, now);
    case DoExpand(s, token, required, lease, env) => ExpandAccess(l, limits, s, token, required, lease, now, env);
    case DoTransition(s, token, target, fileError) => TransitionAccess(l, s, token, target, fileError);
    case DoExpire(s, token) => ExpireAccess(l, s, token);
    case DoReconcile(active) => ReconcileAccess(l, now, active);
    case DoCleanup(s, deletion) => SameAccess(l, RecordCleanup(l, s, deletion, now));
  }


  /** Any transaction: those above and the settlement of a session with the delivery that follows. */
  datatype Transaction =
    | Ordinary(service: Service)
    | SettleOne(session: nat, token: nat, actual: nat, settleEnv: SettleEnv)
    | BeginOne(session: nat, attempt: nat)
    | MarkOne(session: nat, attempt: nat, fileError: Option<LimitError>)
    | AbortOne(session: nat, attempt: nat, lateAtStart: bool, lateAtCommit: bool)
    | AcknowledgeOne(session: nat, fileError: Option<LimitError>)
    | CompensateOne(session: nat, token: nat, receipt: Receipt)

  /** Only the worker that settled the session compensates it, so a charged session is still on the receipt's day. */
  predicate ReceiptHeld(uploads: seq<Upload>, settlements: map<nat, Settlement>, s: nat, receipt: Receipt) {
    s < |uploads| && uploads[s].actual.Some? ==> s in settlements && settlements[s].day == receipt.day
  }

  function Effect(l: Ledger, limits: Limits, t: Transaction, now: nat): Ledger {
    match t
    case Ordinary(op) => ServiceEffect(l, limits, op, now)
    case SettleOne(s, token, actual, env) => Settle(l, limits, s, token, actual, now, env).after
    case BeginOne(s, attempt) => BeginDelivery(l, s, attempt).after
    case MarkOne(s, attempt, fileError) => MarkDelivery(l, s, attempt, fileError).after
    case AbortOne(s, attempt, lateAtStart, lateAtCommit) => AbortDelivery(l, s, attempt, lateAtStart, lateAtCommit).after
    case AcknowledgeOne(s, fileError) => Acknowledge(l, s, fileError).after
    case CompensateOne(s, token, receipt) =>
      if ReceiptHeld(l.uploads, l.settlements, s, receipt) then CompensateLate(l, s, token, receipt).after else l
  }

  lemma EffectKeepsInv(l: Ledger, limits: Limits, t: Transaction, now: nat)
    requires Inv(l, limits, DayOf(now)) && limits.Valid()
    ensures Inv(Effect(l, limits, t, now), limits, DayOf(now))
  {
    match t
    case Ordinary(op) => ServiceKeepsInv(l, limits, op, now);
    case SettleOne(s, token, actual, env) => SettleKeepsInv(l, limits, s, token, actual, now, env);
    case BeginOne(s, attempt) => BeginDeliveryKeepsInv(l, limits, s, attempt, DayOf(now));
    case MarkOne(s, attempt, fileError) => MarkDeliveryKeepsInv(l, limits, s, attempt, fileError, DayOf(now));
    case AbortOne(s, attempt, lateAtStart, lateAtCommit) =>
      AbortOutcome(l, limits, s, attempt, lateAtStart, lateAtCommit, DayOf(now));
    case AcknowledgeOne(s, fileError) => AcknowledgeKeepsInv(l, limits, s, fileError, DayOf(now));
    case CompensateOne(s, token, receipt) =>
      if ReceiptHeld(l.uploads, l.settlements, s, receipt) {
        CompensateStepKeepsInv(l, limits, s, token, receipt, DayOf(now));
      }
  }

  lemma CompensateStepKeepsInv(l: Ledger, limits: Limits, s: nat, token: nat, receipt: Receipt, day: nat)
    requires Inv(l, limits, day) && ReceiptHeld(l.uploads, l.settlements, s, receipt)
    ensures Inv(CompensateLate(l, s, token, receipt).after, limits, day)
  {
    if s < |l.uploads| {
      assert RowOk(l, s, day);
    }
    CompensateLateKeepsInv(l, limits, s, token, receipt, day);
  }

  // Sequences of transactions.

  datatype Timed = Timed(now: nat, step: Transaction)

  function After(l: Ledger, limits: Limits, steps: seq<Timed>): Ledger {
    if steps == [] then l
    else
      var last := steps[|steps| - 1];
      Effect(After(l, limits, steps[..|steps| - 1]), limits, last.step, last.now)
  }

  /** The day does not go back. */
  predicate Orderly(steps: seq<Timed>, day: nat) {
    && (forall i :: 0 <= i < |steps| ==> day <= DayOf(steps[i].now))
    && (forall i, j :: 0 <= i < j < |steps| ==> DayOf(steps[i].now) <= DayOf(steps[j].now))
  }

  function LastDay(steps: seq<Timed>, day: nat): nat {
    if steps == [] then day else DayOf(steps[|steps| - 1].now)
  }

  /** Any transactions whatever, one after the other, keep the ledger invariant. */
  lemma {:induction false} AfterKeepsInv(l: Ledger, limits: Limits, steps: seq<Timed>, day: nat)
    requires Inv(l, limits, day) && limits.Valid() && Orderly(steps, day)
    ensures Inv(After(l, limits, steps), limits, LastDay(steps, day))
    decreases |steps|
  {
    if steps != [] {
      var earlier, last := steps[..|steps| - 1], steps[|steps| - 1];
      AfterKeepsInv(l, limits, earlier, day);
      var middle := After(l, limits, earlier);
      DayRollover(middle, limits, LastDay(earlier, day), DayOf(last.now));
      EffectKeepsInv(middle, limits, last.step, last.now);
    }
  }

  // What others leave of session s.

  /** The transaction is made on behalf of others; a renewal of the session's own lease and the removal of files count as such. */
  predicate Elsewhere(t: Transaction, s: nat) {
    match t
    case Ordinary(op) => ServesOthers(op, s)
    case SettleOne(k, _, _, _) => k != s
    case BeginOne(k, _) => k != s
    case MarkOne(k, _, _) => k != s
    case AbortOne(k, _, _, _) => k != s
    case AcknowledgeOne(k, _) => k != s
    case CompensateOne(k, _, _) => k != s
  }

  predicate ServesOthers(op: Service, s: nat) {
    match op
    case DoReserve(_, _, _) => true
    case DoClaim(k, _, _) => k != s
    case DoRenew(_, _, _) => true
    case DoExpand(k, _, _, _, _) => k != s
    case DoTransition(k, _, _, _) => k != s
    case DoExpire(k, _) => k != s
    case DoReconcile(active) => s in active
    case DoCleanup(_, _) => true
  }

  /** The row of a session but for its identity, which a merge may change, and its lease, which a heartbeat renews. */
  predicate SameButOwner(u: Upload, v: Upload) {
    v == u.(identity := v.identity, lease := v.lease)
  }

  /** A pending charge of session s has been given back and the session expired. */
  predicate GaveBack(l: Ledger, next: Ledger, s: nat)
    requires s < |l.uploads| && s < |next.uploads|
  {
    && Pending(l, s) && s !in next.settlements
    && next.uploads[s].state == Expired && next.uploads[s].actual == None && next.uploads[s].token == l.uploads[s].token
  }

  /** Session s and its settlement are as they were, or its pending charge has been given back. */
  predicate Spared(l: Ledger, next: Ledger, s: nat) {
    s < |l.uploads| ==>
      && s < |next.uploads|
      && ((SameButOwner(l.uploads[s], next.uploads[s]) && Lookup(next.settlements, s) == Lookup(l.settlements, s))
          || GaveBack(l, next, s))
  }

  lemma SparedTwice(l: Ledger, middle: Ledger, next: Ledger, s: nat)
    requires Spared(l, middle, s) && Spared(middle, next, s)
    ensures Spared(l, next, s)
  {
  }

  lemma UntouchedIsSpared(l: Ledger, next: Ledger, s: nat)
    requires Untouched(l, next, s)
    ensures Spared(l, next, s)
  {
  }

  lemma ReserveSpares(l: Ledger, limits: Limits, secrets: seq<nat>, request: ReserveRequest, now: nat, env: ReserveEnv, s: nat)
    ensures Spared(l, Reserve(l, limits, secrets, request, now, env).after, s)
  {
    if Reserve(l, limits, secrets, request, now, env).result.Ok? {
      var found := FoundIdentities(l.ids.hashes, secrets, request.ip.value);
      if found != [] {
        MergesKeepRows(l, found[0], found[1..]);
        assert s < |l.uploads| ==> SameButIdentity(l.uploads[s], MergeAll(l, found[0], found[1..]).value.uploads[s]);
      }
    }
  }

  lemma ReconcileSpares(l: Ledger, limits: Limits, now: nat, active: set<nat>, day: nat, s: nat)
    requires Inv(l, limits, day) && s in active
    ensures Spared(l, Reconcile(l, now, active).after, s)
  {
    ReconcileOutcome(l, limits, day, now, active);
    var rows := Visited(l, Some(now - SETTLEMENT_ACK_GRACE_SECONDS), MAX_CLEANUP_JOBS_PER_PASS, None);
    var next := Reconcile(l, now, active).after;
    if Reconcile(l, now, active).result.Ok? && s < |l.uploads| {
      assert RowOk(l, s, day);
      var middle :| GivenBack(l, middle, rows) && OutboxFollows(l, middle, rows) && Inv(middle, limits, day)
                    && ExpiredTo(middle, next, AbandonedSet(middle, now, active))
                    && AllActive(middle, AbandonedSet(middle, now, active));
      assert Lookup(middle.settlements, s) == if s in rows && Pending(l, s) then None else Lookup(l.settlements, s);
      assert s !in AbandonedSet(middle, now, active);
    }
  }

  lemma ServiceSpares(l: Ledger, limits: Limits, op: Service, now: nat, s: nat)
    requires Inv(l, limits, DayOf(now)) && ServesOthers(op, s)
    ensures Spared(l, ServiceEffect(l, limits, op, now), s)
  {
    match op
    case DoReserve(secrets, request, env) => ReserveSpares(l, limits, secrets, request, now, env, s);
    case DoReconcile(active) => ReconcileSpares(l, limits, now, active, DayOf(now), s);
    case DoCleanup(_, _) =>
    case DoRenew(k, token, duration) => RenewSpares(l, k, token, duration, now, s);
    case DoClaim(k, token, duration) => ClaimTouchesOne(l, k, token, duration, now, s);
    case DoExpand(k, token, required, lease, env) => ExpandTouchesOne(l, limits, k, token, required, lease, now, env, s);
    case DoTransition(k, token, target, fileError) => TransitionTouchesOne(l, k, token, target, fileError, s);
    case DoExpire(k, token) => ExpireTouchesOne(l, k, token, s);
  }

  lemma RenewSpares(l: Ledger, k: nat, token: nat, duration: Duration, now: nat, s: nat)
    ensures Spared(l, RenewLease(l, k, token, duration, now).after, s)
  {
  }

  lemma ClaimTouchesOne(l: Ledger, k: nat, token: nat, duration: Duration, now: nat, s: nat)
    requires k != s
    ensures Spared(l, ClaimLease(l, k, token, duration, now).after, s)
  {
  }

  lemma ExpandTouchesOne(l: Ledger, limits: Limits, k: nat, token: nat, required: nat, lease: Option<Duration>,
                         now: nat, env: ExpandEnv, s: nat)
    requires k != s
    ensures Spared(l, Expand(l, limits, k, token, required, lease, now, env).after, s)
  {
  }

  lemma TransitionTouchesOne(l: Ledger, k: nat, token: nat, target: UploadState, fileError: Option<LimitError>, s: nat)
    requires k != s
    ensures Spared(l, Transition(l, k, token, target, fileError).after, s)
  {
  }

  lemma ExpireTouchesOne(l: Ledger, k: nat, token: nat, s: nat)
    requires k != s
    ensures Spared(l, Expire(l, k, token).after, s)
  {
  }

  lemma DeliverySpares(l: Ledger, limits: Limits, t: Transaction, now: nat, s: nat)
    requires Inv(l, limits, DayOf(now)) && Elsewhere(t, s) && !t.Ordinary?
    ensures Spared(l, Effect(l, limits, t, now), s)
  {
    match t {
    case SettleOne(_, _, _, _) =>
    case BeginOne(k, attempt) => DeliveryTouchesOne(l, k, attempt, None);
    case MarkOne(k, attempt, fileError) => DeliveryTouchesOne(l, k, attempt, fileError);
    case AbortOne(k, attempt, lateAtStart, lateAtCommit) =>
      AbortTouchesOne(l, limits, k, attempt, lateAtStart, lateAtCommit, DayOf(now));
    case AcknowledgeOne(k, fileError) => DeliveryTouchesOne(l, k, 0, fileError);
    case CompensateOne(k, token, receipt) => CompensationTouchesOne(l, k, token, receipt);
    }
    UntouchedIsSpared(l, Effect(l, limits, t, now), s);
  }

  /** Whatever is done on behalf of others leaves a session that is not settled exactly as it was, but for identity and lease. */
  lemma EffectSpares(l: Ledger, limits: Limits, t: Transaction, now: nat, s: nat)
    requires Inv(l, limits, DayOf(now)) && Elsewhere(t, s)
    ensures Spared(l, Effect(l, limits, t, now), s)
  {
    if t.Ordinary? {
      ServiceSpares(l, limits, t.service, now, s);
    } else {
      DeliverySpares(l, limits, t, now, s);
    }
  }
}
