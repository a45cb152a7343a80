/**
 * How long a receiver's lease may last: never beyond the session's capability, unless an expansion has
 * stored a longer one. Which transactions do so, and that in every sequence of transactions nothing else can.
 */
module LedgerLeases {
  import opened Prelude
  import opened LedgerTables
  import opened LedgerTransactions
  import opened LedgerAdmission
  import opened LedgerInvariant
  import opened LedgerAdmissionInvariant
  import opened LedgerFrames
  import opened LedgerAccess
  import opened LedgerOutcomes
  import opened LedgerSteps

  /** The lease of a receiving session ends with its capability at the latest. */
  predicate LeaseFits(l: Ledger, s: nat)
    requires s < |l.uploads|
  {
    var u := l.uploads[s];
    u.state == Receiving && u.lease.Some? ==>
      u.token in l.caps && l.caps[u.token].session == s && u.lease.value <= l.caps[u.token].expires
  }

  /** No two sessions have the same token. */
  ghost predicate TokensDiffer(l: Ledger) {
    forall j, k :: 0 <= j < k < |l.uploads| ==> l.uploads[j].token != l.uploads[k].token
  }

  ghost predicate LeasesFit(l: Ledger) {
    AccessOk(l) && TokensDiffer(l) && forall s: nat :: s < |l.uploads| ==> LeaseFits(l, s)
  }

  /** A token drawn for a new session is no other session's. */
  predicate FreshToken(l: Ledger, t: Transaction) {
    t.Ordinary? && t.service.DoReserve? ==>
      forall k :: 0 <= k < |l.uploads| ==> l.uploads[k].token != t.service.request.token
  }

  /**
   * An expansion by a receiver that has to grow and finds room for it, with a lease that lasts longer than the
   * session's capability.
   */
  predicate Overlong(l: Ledger, limits: Limits, t: Transaction, now: nat) {
    && t.Ordinary? && t.service.DoExpand? && t.service.lease.Some?
    && var op := t.service;
       && Known(l, op.session, op.token)
       && MayGrow(l.uploads[op.session], op.lease, now) && op.expandEnv.fileError.None?
       && l.uploads[op.session].reserved < op.required <= limits.maxFileBytes
       && RoomFor(l, limits, op.session, op.required, op.lease, now, op.expandEnv)
       && l.caps[op.token].expires < now + RoundedUp(op.lease.value)
  }

  /** No capability changes but the one for the token, and that by revocation. */
  ghost predicate OnlyRevokedOf(caps: map<nat, Capability>, next: map<nat, Capability>, token: nat) {
    OnlyRevoked(caps, next) && forall t :: t in caps && t != token ==> next[t] == caps[t]
  }

  lemma RevokesOne(caps: map<nat, Capability>, token: nat)
    ensures OnlyRevokedOf(caps, Revoke(caps, token), token)
  {
  }

  lemma OneSessionLeases(l: Ledger, next: Ledger, s: nat)
    requires LeasesFit(l) && s < |l.uploads| == |next.uploads|
    requires next.uploads == l.uploads[s := next.uploads[s]] && next.uploads[s].token == l.uploads[s].token
    requires OnlyRevokedOf(l.caps, next.caps, l.uploads[s].token)
    requires AccessRow(next, s) && LeaseFits(next, s)
    ensures LeasesFit(next)
  {
    OneSessionAccess(l, next, s);
    forall k: nat | k < |next.uploads| ensures LeaseFits(next, k) {
      assert LeaseFits(l, k);
    }
  }

  lemma SameLeases(l: Ledger, next: Ledger)
    requires LeasesFit(l) && next.uploads == l.uploads && next.caps == l.caps
    ensures LeasesFit(next)
  {
    SameAccess(l, next);
    forall k: nat | k < |next.uploads| ensures LeaseFits(next, k) {
      assert LeaseFits(l, k);
    }
  }

  /** A transaction after which session s is no longer receiving, or has the lease it had and no capability has changed. */
  lemma EndedLeases(l: Ledger, next: Ledger, s: nat)
    requires LeasesFit(l) && s < |l.uploads| == |next.uploads| && AccessOk(next)
    requires next.uploads == l.uploads[s := next.uploads[s]]
    requires OnlyRevokedOf(l.caps, next.caps, l.uploads[s].token)
    requires next.uploads[s].token == l.uploads[s].token
    requires next.uploads[s].state == Receiving ==>
               next.uploads[s].lease.None?
               || (l.uploads[s].state == Receiving && next.uploads[s].lease == l.uploads[s].lease && next.caps == l.caps)
    ensures LeasesFit(next)
  {
    assert LeaseFits(l, s) && AccessRow(next, s);
    OneSessionLeases(l, next, s);
  }

  lemma GrantedLeases(l: Ledger, s: nat, token: nat, duration: Duration, now: nat)
    requires LeasesFit(l)
    ensures LeasesFit(ClaimLease(l, s, token, duration, now).after)
    ensures LeasesFit(RenewLease(l, s, token, duration, now).after)
  {
    LeaseAccess(l, s, token, duration, now);
    var claimed, renewed := ClaimLease(l, s, token, duration, now), RenewLease(l, s, token, duration, now);
    if claimed.result.Ok? { OneSessionLeases(l, claimed.after, s); }
    if renewed.result.Ok? { OneSessionLeases(l, renewed.after, s); }
  }

  /** What a growing expansion with a lease stores. */
  lemma StoredLease(l: Ledger, limits: Limits, s: nat, token: nat, required: nat, duration: Duration, now: nat, env: ExpandEnv)
    requires Expand(l, limits, s, token, required, Some(duration), now, env).result.Ok?
    requires required > l.uploads[s].reserved
    ensures l.uploads[s].token == token && l.uploads[s].state == Receiving
    ensures token in l.caps && l.caps[token].session == s
    ensures var next := Expand(l, limits, s, token, required, Some(duration), now, env).after;
            next.uploads == l.uploads[s := l.uploads[s].(reserved := required, lease := Some(now + RoundedUp(duration)))]
            && next.caps == l.caps
  {
  }

  lemma ExpandedLeases(l: Ledger, limits: Limits, s: nat, token: nat, required: nat, lease: Option<Duration>,
                       now: nat, env: ExpandEnv)
    requires LeasesFit(l) && Inv(l, limits, DayOf(now)) && limits.Valid()
    ensures var op := DoExpand(s, token, required, lease, env);
            !Overlong(l, limits, Ordinary(op), now) ==> LeasesFit(Expand(l, limits, s, token, required, lease, now, env).after)
  {
    var step := Expand(l, limits, s, token, required, lease, now, env);
    ExpandAccess(l, limits, s, token, required, lease, now, env);
    ExpandOutcome(l, limits, s, token, required, lease, now, env);
    if step.result.Ok? && required > l.uploads[s].reserved {
      if lease.Some? {
        StoredLease(l, limits, s, token, required, lease.value, now, env);
        if !Overlong(l, limits, Ordinary(DoExpand(s, token, required, lease, env)), now) {
          OneSessionLeases(l, step.after, s);
        }
      } else {
        EndedLeases(l, step.after, s);
      }
    } else {
      SameLeases(l, step.after);
    }
  }

  lemma RetireLeases(l: Ledger, s: nat, actual: Option<nat>, budget: nat)
    requires LeasesFit(l) && s < |l.uploads|
    ensures LeasesFit(Retire(l, s, actual, budget))
  {
    RetireAccess(l, s, actual, budget);
    RevokesOne(l.caps, l.uploads[s].token);
    EndedLeases(l, Retire(l, s, actual, budget), s);
  }

  lemma TransitionLeases(l: Ledger, s: nat, token: nat, target: UploadState, fileError: Option<LimitError>)
    requires LeasesFit(l)
    ensures LeasesFit(Transition(l, s, token, target, fileError).after)
  {
    TransitionAccess(l, s, token, target, fileError);
    var next := Transition(l, s, token, target, fileError).after;
    if next != l {
      assert AccessRow(l, s);
      EndedLeases(l, next, s);
    }
  }

  lemma ExpireLeases(l: Ledger, s: nat, token: nat)
    requires LeasesFit(l)
    ensures LeasesFit(Expire(l, s, token).after)
  {
    if s < |l.uploads| && l.uploads[s].reserved <= l.budget {
      RetireLeases(l, s, l.uploads[s].actual, l.budget - l.uploads[s].reserved);
    }
  }

  lemma SettleLeases(l: Ledger, limits: Limits, s: nat, token: nat, actual: nat, now: nat, env: SettleEnv)
    requires LeasesFit(l)
    ensures LeasesFit(Settle(l, limits, s, token, actual, now, env).after)
  {
    SettleAccess(l, limits, s, token, actual, now, env);
    var next := Settle(l, limits, s, token, actual, now, env).after;
    if next != l {
      EndedLeases(l, next, s);
    }
  }

  lemma CompensateLeases(l: Ledger, s: nat, token: nat, receipt: Receipt)
    requires LeasesFit(l)
    ensures LeasesFit(CompensateLate(l, s, token, receipt).after)
  {
    CompensateAccess(l, s, token, receipt);
    var next := CompensateLate(l, s, token, receipt).after;
    if next != l {
      RevokesOne(l.caps, l.uploads[s].token);
      EndedLeases(l, next, s);
    }
  }

  lemma RecoverRowLeases(l: Ledger, s: nat)
    requires LeasesFit(l) && s in l.settlements
    ensures LeasesFit(RecoverRow(l, s).after)
  {
    RecoverRowAccess(l, s);
    var next := RecoverRow(l, s).after;
    if next != l {
      assert AccessRow(l, s);
      RevokesOne(l.caps, l.uploads[s].token);
      EndedLeases(l, next, s);
    }
  }

  lemma {:induction false} RecoverRowsLeases(l: Ledger, rows: seq<nat>)
    requires LeasesFit(l)
    ensures LeasesFit(RecoverRows(l, rows).after)
    decreases |rows|
  {
    if rows != [] {
      var earlier, s := RecoverRows(l, rows[..|rows| - 1]), rows[|rows| - 1];
      RecoverRowsLeases(l, rows[..|rows| - 1]);
      if earlier.result.Ok? && s in earlier.after.settlements {
        RecoverRowLeases(earlier.after, s);
      }
    }
  }

  lemma {:induction false} ExpireRowsLeases(l: Ledger, rows: seq<nat>, active: set<nat>)
    requires LeasesFit(l)
    ensures LeasesFit(ExpireRows(l, rows, active).after)
    decreases |rows|
  {
    if rows != [] {
      var earlier, s := ExpireRows(l, rows[..|rows| - 1], active), rows[|rows| - 1];
      ExpireRowsLeases(l, rows[..|rows| - 1], active);
      if earlier.result.Ok? && s < |earlier.after.uploads| {
        ExpireRowLeases(earlier.after, s);
      }
    }
  }

  lemma ExpireRowLeases(l: Ledger, s: nat)
    requires LeasesFit(l) && s < |l.uploads|
    ensures LeasesFit(ExpireRow(l, s).after)
  {
    if !l.uploads[s].state.IsReserved() {
      SameLeases(l, ExpireRow(l, s).after);
    } else if l.uploads[s].reserved <= l.budget {
      RetireLeases(l, s, l.uploads[s].actual, l.budget - l.uploads[s].reserved);
    }
  }

  lemma RecoverLeases(l: Ledger, before: Option<int>, maximum: nat, failClosed: bool, only: Option<nat>)
    requires LeasesFit(l)
    ensures LeasesFit(Recover(l, before, maximum, failClosed, only).after)
  {
    RecoverRowsLeases(l, Take(DueRows(l.settlements, before, only, |l.uploads|), maximum));
  }

  lemma ReconcileLeases(l: Ledger, now: nat, active: set<nat>)
    requires LeasesFit(l)
    ensures LeasesFit(Reconcile(l, now, active).after)
  {
    var cutoff := Some(now - SETTLEMENT_ACK_GRACE_SECONDS);
    RecoverLeases(l, cutoff, MAX_CLEANUP_JOBS_PER_PASS, false, None);
    var middle := Recover(l, cutoff, MAX_CLEANUP_JOBS_PER_PASS, false, None).after;
    ExpireRowsLeases(middle, AbandonedRows(middle.uploads, middle.caps, now, |middle.uploads|), active);
  }

  lemma AbortLeases(l: Ledger, s: nat, attempt: nat, lateAtStart: bool, lateAtCommit: bool)
    requires LeasesFit(l)
    ensures LeasesFit(AbortDelivery(l, s, attempt, lateAtStart, lateAtCommit).after)
  {
    if s in l.settlements {
      var unmarked := l.(settlements := l.settlements[s := l.settlements[s].(possible := false)]);
      SameLeases(l, unmarked);
      RecoverLeases(unmarked, None, 1, true, Some(s));
    }
  }

  /** A lookup changes the identities of sessions only. */
  lemma ResolveLeases(l: Ledger, secrets: seq<nat>, ip: nat)
    requires LeasesFit(l) && ResolveIdentity(l, secrets, ip).Ok?
    ensures var next := ResolveIdentity(l, secrets, ip).value.ledger;
            && LeasesFit(next) && |next.uploads| == |l.uploads|
            && forall k: nat :: k < |l.uploads| ==> next.uploads[k].token == l.uploads[k].token
  {
    ResolveAccess(l, secrets, ip);
    var next := ResolveIdentity(l, secrets, ip).value.ledger;
    var found := FoundIdentities(l.ids.hashes, secrets, ip);
    if found != [] {
      MergesKeepRows(l, found[0], found[1..]);
    }
    forall k: nat | k < |next.uploads| ensures LeaseFits(next, k) {
      assert LeaseFits(l, k);
      assert found != [] ==> SameButIdentity(l.uploads[k], next.uploads[k]);
    }
  }

  lemma AdmittedLeases(l: Ledger, identity: nat, bytes: nat, request: ReserveRequest, now: nat, env: ReserveEnv)
    requires LeasesFit(l) && env.created.Ok? && (request.expiry.Some? ==> request.token !in l.caps)
    requires forall k :: 0 <= k < |l.uploads| ==> l.uploads[k].token != request.token
    ensures LeasesFit(Admitted(l, identity, bytes, request, now, env))
  {
    var next := Admitted(l, identity, bytes, request, now, env);
    forall k: nat | k < |next.uploads| ensures LeaseFits(next, k) && AccessRow(next, k) {
      assert k < |l.uploads| ==> LeaseFits(l, k) && AccessRow(l, k);
    }
  }

  lemma ReserveLeases(l: Ledger, limits: Limits, secrets: seq<nat>, request: ReserveRequest, now: nat, env: ReserveEnv)
    requires LeasesFit(l) && forall k :: 0 <= k < |l.uploads| ==> l.uploads[k].token != request.token
    ensures LeasesFit(Reserve(l, limits, secrets, request, now, env).after)
  {
    if Reserve(l, limits, secrets, request, now, env).result.Ok? {
      ReserveCommits(l, limits, secrets, request, now, env);
      ResolveLeases(l, secrets, request.ip.value);
      var resolved := ResolveIdentity(l, secrets, request.ip.value).value;
      AdmittedLeases(resolved.ledger, resolved.identity, Requested(limits, request.declared), request, now, env);
    }
  }

  lemma ServiceLeases(l: Ledger, limits: Limits, op: Service, now: nat)
    requires LeasesFit(l) && Inv(l, limits, DayOf(now)) && limits.Valid()
    requires FreshToken(l, Ordinary(op)) && !Overlong(l, limits, Ordinary(op), now)
    ensures LeasesFit(ServiceEffect(l, limits, op, now))
  {
    match op
    case DoReserve(secrets, request, env) => ReserveLeases(l, limits, secrets, request, now, env);
    case DoClaim(s, token, duration) => GrantedLeases(l, s, token, duration, now);
    case DoRenew(s, token, duration) => GrantedLeases(l, s, token, duration, now);
    case DoExpand(s, token, required, lease, env) => ExpandedLeases(l, limits, s, token, required, lease, now, env);
    case DoTransition(s, token, target, fileError) => TransitionLeases(l, s, token, target, fileError);
    case DoExpire(s, token) => ExpireLeases(l, s, token);
    case DoReconcile(active) => ReconcileLeases(l, now, active);
    case DoCleanup(s, deletion) => SameLeases(l, RecordCleanup(l, s, deletion, now));
  }

  lemma DeliveryLeases(l: Ledger, limits: Limits, t: Transaction, now: nat)
    requires LeasesFit(l) && !t.Ordinary?
    ensures LeasesFit(Effect(l, limits, t, now))
  {
    match t
    case SettleOne(s, token, actual, env) => SettleLeases(l, limits, s, token, actual, now, env);
    case BeginOne(s, attempt) => SameLeases(l, BeginDelivery(l, s, attempt).after);
    case MarkOne(s, attempt, fileError) => SameLeases(l, MarkDelivery(l, s, attempt, fileError).after);
    case AbortOne(s, attempt, lateAtStart, lateAtCommit) => AbortLeases(l, s, attempt, lateAtStart, lateAtCommit);
    case AcknowledgeOne(s, fileError) => SameLeases(l, Acknowledge(l, s, fileError).after);
    case CompensateOne(s, token, receipt) => CompensateLeases(l, s, token, receipt);
  }

  /** From leases that fit, a transaction leaves leases that fit if and only if it is not an overlong expansion. */
  lemma OnlyOverlongBreaks(l: Ledger, limits: Limits, t: Transaction, now: nat)
    requires LeasesFit(l) && Inv(l, limits, DayOf(now)) && limits.Valid() && FreshToken(l, t)
    ensures LeasesFit(Effect(l, limits, t, now)) <==> !Overlong(l, limits, t, now)
  {
    if Overlong(l, limits, t, now) {
      var op := t.service;
      ExpandOutcome(l, limits, op.session, op.token, op.required, op.lease, now, op.expandEnv);
      StoredLease(l, limits, op.session, op.token, op.required, op.lease.value, now, op.expandEnv);
      assert !LeaseFits(Effect(l, limits, t, now), op.session);
    } else if t.Ordinary? {
      ServiceLeases(l, limits, t.service, now);
    } else {
      DeliveryLeases(l, limits, t, now);
    }
  }

  /** Every session reserved in the sequence gets a token no session has. */
  ghost predicate FreshTokens(l: Ledger, limits: Limits, steps: seq<Timed>) {
    forall i :: 0 <= i < |steps| ==> FreshToken(After(l, limits, steps[..i]), steps[i].step)
  }

  /** Some expansion in the sequence stores a lease that is too long. */
  ghost predicate SomeOverlong(l: Ledger, limits: Limits, steps: seq<Timed>) {
    exists k :: 0 <= k < |steps| && Overlong(After(l, limits, steps[..k]), limits, steps[k].step, steps[k].now)
  }

  lemma FreshSoFar(l: Ledger, limits: Limits, steps: seq<Timed>, n: nat)
    requires FreshTokens(l, limits, steps) && n <= |steps|
    ensures FreshTokens(l, limits, steps[..n])
  {
    forall i | 0 <= i < n ensures FreshToken(After(l, limits, steps[..n][..i]), steps[..n][i].step) {
      assert steps[..n][..i] == steps[..i] && steps[..n][i] == steps[i];
    }
  }

  lemma OverlongBefore(l: Ledger, limits: Limits, steps: seq<Timed>, n: nat)
    requires n <= |steps| && SomeOverlong(l, limits, steps[..n])
    ensures SomeOverlong(l, limits, steps)
  {
    var earlier := steps[..n];
    var k :| 0 <= k < n && Overlong(After(l, limits, earlier[..k]), limits, earlier[k].step, earlier[k].now);
    assert earlier[..k] == steps[..k] && earlier[k] == steps[k];
  }

  /** In every sequence of transactions a lease outlives its capability only after an overlong expansion. */
  lemma {:induction false} LeasesFitUnlessOverlong(l: Ledger, limits: Limits, steps: seq<Timed>, day: nat)
    requires LeasesFit(l) && Inv(l, limits, day) && limits.Valid()
    requires Orderly(steps, day) && FreshTokens(l, limits, steps)
    ensures LeasesFit(After(l, limits, steps)) || SomeOverlong(l, limits, steps)
    decreases |steps|
  {
    if steps != [] {
      var n := |steps| - 1;
      FreshSoFar(l, limits, steps, n);
      LeasesFitUnlessOverlong(l, limits, steps[..n], day);
      var middle := After(l, limits, steps[..n]);
      if LeasesFit(middle) {
        LastStepFits(l, limits, steps, day);
      } else {
        OverlongBefore(l, limits, steps, n);
      }
    }
  }

  lemma LastStepFits(l: Ledger, limits: Limits, steps: seq<Timed>, day: nat)
    requires steps != [] && Inv(l, limits, day) && limits.Valid() && Orderly(steps, day) && FreshTokens(l, limits, steps)
    requires LeasesFit(After(l, limits, steps[..|steps| - 1]))
    ensures LeasesFit(After(l, limits, steps)) || SomeOverlong(l, limits, steps)
  {
    var n := |steps| - 1;
    var middle, last := After(l, limits, steps[..n]), steps[n];
    AfterKeepsInv(l, limits, steps[..n], day);
    DayRollover(middle, limits, LastDay(steps[..n], day), DayOf(last.now));
    OnlyOverlongBreaks(middle, limits, last.step, last.now);
  }
}
