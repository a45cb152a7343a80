/**
 * What the end of a session takes away: its lease and its capability. Only a receiving session, or
 * one rejected while it was receiving, has a lease; the capability of an expired session is revoked.
 */
module LedgerAccess {
  import opened Prelude
  import opened LedgerTables
  import opened LedgerTransactions
  import opened LedgerAdmission
  import opened LedgerFrames

  predicate AccessRow(l: Ledger, s: nat)
    requires s < |l.uploads|
  {
    var u := l.uploads[s];
    && (u.lease.Some? ==> u.state == Receiving || u.state == Rejected)
    && (u.state == Expired && u.token in l.caps && l.caps[u.token].session == s ==> l.caps[u.token].expires == 0)
  }

  ghost predicate AccessOk(l: Ledger) {
    forall s: nat :: s < |l.uploads| ==> AccessRow(l, s)
  }

  /** No capability changes but by revocation. */
  ghost predicate OnlyRevoked(caps: map<nat, Capability>, next: map<nat, Capability>) {
    && next.Keys == caps.Keys
    && forall t :: t in caps ==> next[t] == caps[t] || next[t] == caps[t].(expires := 0)
  }

  /** A transaction on one session. */
  lemma OneSessionAccess(l: Ledger, next: Ledger, s: nat)
    requires AccessOk(l) && s < |l.uploads| == |next.uploads|
    requires next.uploads == l.uploads[s := next.uploads[s]] && OnlyRevoked(l.caps, next.caps)
    requires AccessRow(next, s)
    ensures AccessOk(next)
  {
    forall k: nat | k < |next.uploads| ensures AccessRow(next, k) {
      assert AccessRow(l, k);
    }
  }

  lemma SameAccess(l: Ledger, next: Ledger)
    requires AccessOk(l) && next.uploads == l.uploads && next.caps == l.caps
    ensures AccessOk(next)
  {
    forall k: nat | k < |next.uploads| ensures AccessRow(next, k) {
      assert AccessRow(l, k);
    }
  }

  lemma RevokeRevokes(caps: map<nat, Capability>, token: nat)
    ensures OnlyRevoked(caps, Revoke(caps, token))
    ensures token in caps ==> Revoke(caps, token)[token].expires == 0
  {
  }

  lemma RetireAccess(l: Ledger, s: nat, actual: Option<nat>, budget: nat)
    requires AccessOk(l) && s < |l.uploads|
    ensures AccessOk(Retire(l, s, actual, budget))
  {
    RevokeRevokes(l.caps, l.uploads[s].token);
    OneSessionAccess(l, Retire(l, s, actual, budget), s);
  }

  lemma LeaseAccess(l: Ledger, s: nat, token: nat, duration: Duration, now: nat)
    requires AccessOk(l)
    ensures AccessOk(ClaimLease(l, s, token, duration, now).after)
    ensures AccessOk(RenewLease(l, s, token, duration, now).after)
  {
    var claimed, renewed := ClaimLease(l, s, token, duration, now), RenewLease(l, s, token, duration, now);
    if claimed.result.Ok? { OneSessionAccess(l, claimed.after, s); }
    if renewed.result.Ok? { OneSessionAccess(l, renewed.after, s); }
  }

  lemma ExpandAccess(l: Ledger, limits: Limits, s: nat, token: nat, required: nat, lease: Option<Duration>, now: nat, env: ExpandEnv)
    requires AccessOk(l)
    ensures AccessOk(Expand(l, limits, s, token, required, lease, now, env).after)
  {
    var next := Expand(l, limits, s, token, required, lease, now, env).after;
    if next != l {
      assert AccessRow(l, s);
      OneSessionAccess(l, next, s);
    }
  }

  lemma TransitionAccess(l: Ledger, s: nat, token: nat, target: UploadState, fileError: Option<LimitError>)
    requires AccessOk(l)
    ensures AccessOk(Transition(l, s, token, target, fileError).after)
  {
    var next := Transition(l, s, token, target, fileError).after;
    if next != l {
      assert AccessRow(l, s);
      OneSessionAccess(l, next, s);
    }
  }

  lemma ExpireAccess(l: Ledger, s: nat, token: nat)
    requires AccessOk(l)
    ensures AccessOk(Expire(l, s, token).after)
  {
    if s < |l.uploads| && l.uploads[s].reserved <= l.budget {
      RetireAccess(l, s, l.uploads[s].actual, l.budget - l.uploads[s].reserved);
    }
  }

  lemma SettleAccess(l: Ledger, limits: Limits, s: nat, token: nat, actual: nat, now: nat, env: SettleEnv)
    requires AccessOk(l)
    ensures AccessOk(Settle(l, limits, s, token, actual, now, env).after)
  {
    var next := Settle(l, limits, s, token, actual, now, env).after;
    if next != l {
      OneSessionAccess(l, next, s);
    }
  }

  lemma DeliveryAccess(l: Ledger, s: nat, attempt: nat, fileError: Option<LimitError>)
    requires AccessOk(l)
    ensures AccessOk(BeginDelivery(l, s, attempt).after)
    ensures AccessOk(MarkDelivery(l, s, attempt, fileError).after)
    ensures AccessOk(Acknowledge(l, s, fileError).after)
  {
    SameAccess(l, BeginDelivery(l, s, attempt).after);
    SameAccess(l, MarkDelivery(l, s, attempt, fileError).after);
    SameAccess(l, Acknowledge(l, s, fileError).after);
  }

  lemma CompensateAccess(l: Ledger, s: nat, token: nat, receipt: Receipt)
    requires AccessOk(l)
    ensures AccessOk(CompensateLate(l, s, token, receipt).after)
  {
    var next := CompensateLate(l, s, token, receipt).after;
    if next != l {
      assert AccessRow(l, s);
      RevokeRevokes(l.caps, l.uploads[s].token);
      OneSessionAccess(l, next, s);
    }
  }

  lemma RecoverRowAccess(l: Ledger, s: nat)
    requires AccessOk(l) && s in l.settlements
    ensures AccessOk(RecoverRow(l, s).after)
  {
    var next := RecoverRow(l, s).after;
    if next != l {
      assert AccessRow(l, s);
      RevokeRevokes(l.caps, l.uploads[s].token);
      OneSessionAccess(l, next, s);
    }
  }

  lemma {:induction false} RecoverRowsAccess(l: Ledger, rows: seq<nat>)
    requires AccessOk(l)
    ensures AccessOk(RecoverRows(l, rows).after)
    decreases |rows|
  {
    if rows != [] {
      var earlier, s := RecoverRows(l, rows[..|rows| - 1]), rows[|rows| - 1];
      RecoverRowsAccess(l, rows[..|rows| - 1]);
      if earlier.result.Ok? && s in earlier.after.settlements {
        RecoverRowAccess(earlier.after, s);
      }
    }
  }

  lemma RecoverAccess(l: Ledger, before: Option<int>, maximum: nat, failClosed: bool, only: Option<nat>)
    requires AccessOk(l)
    ensures AccessOk(Recover(l, before, maximum, failClosed, only).after)
  {
    RecoverRowsAccess(l, Take(DueRows(l.settlements, before, only, |l.uploads|), maximum));
  }

  lemma {:induction false} ExpireRowsAccess(l: Ledger, rows: seq<nat>, active: set<nat>)
    requires AccessOk(l)
    ensures AccessOk(ExpireRows(l, rows, active).after)
    decreases |rows|
  {
    if rows != [] {
      var earlier, s := ExpireRows(l, rows[..|rows| - 1], active), rows[|rows| - 1];
      ExpireRowsAccess(l, rows[..|rows| - 1], active);
      if earlier.result.Ok? && s < |earlier.after.uploads| {
        ExpireRowAccess(earlier.after, s);
      }
    }
  }

  lemma ExpireRowAccess(l: Ledger, s: nat)
    requires AccessOk(l) && s < |l.uploads|
    ensures AccessOk(ExpireRow(l, s).after)
  {
    if !l.uploads[s].state.IsReserved() {
      SameAccess(l, ExpireRow(l, s).after);
    } else if l.uploads[s].reserved <= l.budget {
      RetireAccess(l, s, l.uploads[s].actual, l.budget - l.uploads[s].reserved);
    }
  }

  lemma ReconcileAccess(l: Ledger, now: nat, active: set<nat>)
    requires AccessOk(l)
    ensures AccessOk(Reconcile(l, now, active).after)
  {
    var cutoff := Some(now - SETTLEMENT_ACK_GRACE_SECONDS);
    RecoverAccess(l, cutoff, MAX_CLEANUP_JOBS_PER_PASS, false, None);
    var middle := Recover(l, cutoff, MAX_CLEANUP_JOBS_PER_PASS, false, None).after;
    ExpireRowsAccess(middle, AbandonedRows(middle.uploads, middle.caps, now, |middle.uploads|), active);
  }

  lemma AbortAccess(l: Ledger, s: nat, attempt: nat, lateAtStart: bool, lateAtCommit: bool)
    requires AccessOk(l)
    ensures AccessOk(AbortDelivery(l, s, attempt, lateAtStart, lateAtCommit).after)
  {
    if s in l.settlements {
      var unmarked := l.(settlements := l.settlements[s := l.settlements[s].(possible := false)]);
      SameAccess(l, unmarked);
      RecoverAccess(unmarked, None, 1, true, Some(s));
    }
  }

  lemma {:induction false} MergesKeepCapabilities(l: Ledger, primary: nat, others: seq<nat>)
    ensures MergeAll(l, primary, others).Ok? ==> MergeAll(l, primary, others).value.caps == l.caps
    decreases |others|
  {
    if others != [] {
      MergesKeepCapabilities(l, primary, others[..|others| - 1]);
    }
  }

  /** A lookup changes the identities of sessions only. */
  lemma ResolveAccess(l: Ledger, secrets: seq<nat>, ip: nat)
    requires AccessOk(l) && ResolveIdentity(l, secrets, ip).Ok?
    ensures var next := ResolveIdentity(l, secrets, ip).value.ledger; AccessOk(next) && next.caps == l.caps
  {
    var next := ResolveIdentity(l, secrets, ip).value.ledger;
    var found := FoundIdentities(l.ids.hashes, secrets, ip);
    if found != [] {
      MergesKeepRows(l, found[0], found[1..]);
      MergesKeepCapabilities(l, found[0], found[1..]);
    }
    forall k: nat | k < |next.uploads| ensures AccessRow(next, k) {
      assert AccessRow(l, k);
      assert found != [] ==> SameButIdentity(l.uploads[k], next.uploads[k]);
    }
  }

  lemma ReserveAccess(l: Ledger, limits: Limits, secrets: seq<nat>, request: ReserveRequest, now: nat, env: ReserveEnv)
    requires AccessOk(l)
    ensures AccessOk(Reserve(l, limits, secrets, request, now, env).after)
  {
    var step := Reserve(l, limits, secrets, request, now, env);
    if step.result.Ok? {
      ResolveAccess(l, secrets, request.ip.value);
      var middle := ResolveIdentity(l, secrets, request.ip.value).value.ledger;
      forall k: nat | k < |step.after.uploads| ensures AccessRow(step.after, k) {
        assert k < |middle.uploads| ==> AccessRow(middle, k);
      }
    }
  }

  lemma OpenAccess(l: Ledger, limits: Limits, secrets: seq<nat>, now: nat, files: FileAnswers)
    requires AccessOk(l)
    ensures AccessOk(Open(l, limits, secrets, now, files).after)
  {
    var step := Open(l, limits, secrets, now, files);
    if step.result.Ok? {
      RecoverAccess(l, None, MAX_STARTUP_SETTLEMENT_RECOVERIES, true, None);
      var middle := Recover(l, None, MAX_STARTUP_SETTLEMENT_RECOVERIES, true, None).after;
      ExpireRowsAccess(middle, AbandonedRows(middle.uploads, middle.caps, now, |middle.uploads|), {});
      OpenKeepsAccess(l, limits, secrets, now, files);
      SameAccess(ExpireAbandoned(middle, now, {}).after, step.after);
    }
  }

  /** The validation that ends an opening changes neither sessions nor capabilities. */
  lemma OpenKeepsAccess(l: Ledger, limits: Limits, secrets: seq<nat>, now: nat, files: FileAnswers)
    requires Open(l, limits, secrets, now, files).result.Ok?
    ensures var middle := Recover(l, None, MAX_STARTUP_SETTLEMENT_RECOVERIES, true, None).after;
            var next := ExpireAbandoned(middle, now, {}).after;
            next.uploads == Open(l, limits, secrets, now, files).after.uploads
            && next.caps == Open(l, limits, secrets, now, files).after.caps
  {
  }
}
