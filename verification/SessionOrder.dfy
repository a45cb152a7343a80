/**
 * The order in which a session goes through its states, in every run: it is reserved, receives, is uploaded,
 * probed and queued in this order, and may expire or be rejected from each of these, for good.
 */
module SessionOrder {
  import opened Prelude
  import opened LedgerTables
  import opened LedgerTransactions
  import opened LedgerAdmission
  import opened LedgerInvariant
  import opened LedgerRecovery
  import opened LedgerReconciliation
  import opened LedgerAdmissionInvariant
  import opened LedgerOpening
  import opened LedgerFrames
  import opened LedgerSteps
  import opened Delivery
  import opened DeliverySafety
  import opened DeliveryOutcome

  /** The state a session may be found in after one event, by the state before it. */
  predicate MayFollow(from: UploadState, to: UploadState) {
    from == to ||
    match from
    case Reserved => to in {Receiving, Expired, Rejected}
    case Receiving => to in {Uploaded, Expired, Rejected}
    case Uploaded => to in {Probing, Expired, Rejected}
    case Probing => to in {Queued, Expired, Rejected}
    case Queued => to in {Expired, Rejected}
    case Expired => false
    case Rejected => false
  }

  predicate FollowsAt(l: Ledger, next: Ledger, s: nat) {
    && s < |next.uploads|
    && if s < |l.uploads| then MayFollow(l.uploads[s].state, next.uploads[s].state) else next.uploads[s].state == Reserved
  }

  /** No session has gone, each has moved as it may, and a new one is reserved. */
  ghost predicate InOrder(l: Ledger, next: Ledger) {
    |l.uploads| <= |next.uploads| && forall s: nat :: s < |next.uploads| ==> FollowsAt(l, next, s)
  }

  lemma ReserveInOrder(l: Ledger, limits: Limits, secrets: seq<nat>, request: ReserveRequest, now: nat, env: ReserveEnv)
    ensures InOrder(l, Reserve(l, limits, secrets, request, now, env).after)
  {
    if Reserve(l, limits, secrets, request, now, env).result.Ok? {
      ReserveCommits(l, limits, secrets, request, now, env);
      var found := FoundIdentities(l.ids.hashes, secrets, request.ip.value);
      if found != [] {
        MergesKeepRows(l, found[0], found[1..]);
      }
      var resolved := ResolveIdentity(l, secrets, request.ip.value).value.ledger;
      var next := Reserve(l, limits, secrets, request, now, env).after;
      forall s: nat | s < |next.uploads| ensures FollowsAt(l, next, s) {
        assert s < |resolved.uploads| ==> SameButIdentity(l.uploads[s], resolved.uploads[s]);
      }
    }
  }

  lemma LeaseInOrder(l: Ledger, s: nat, token: nat, duration: Duration, now: nat)
    ensures InOrder(l, ClaimLease(l, s, token, duration, now).after)
    ensures InOrder(l, RenewLease(l, s, token, duration, now).after)
  {
  }

  lemma ExpandInOrder(l: Ledger, limits: Limits, s: nat, token: nat, required: nat, lease: Option<Duration>, now: nat, env: ExpandEnv)
    ensures InOrder(l, Expand(l, limits, s, token, required, lease, now, env).after)
  {
  }

  lemma TransitionInOrder(l: Ledger, s: nat, token: nat, target: UploadState, fileError: Option<LimitError>)
    ensures InOrder(l, Transition(l, s, token, target, fileError).after)
  {
  }

  lemma ExpireInOrder(l: Ledger, s: nat, token: nat)
    ensures InOrder(l, Expire(l, s, token).after)
  {
  }

  lemma SettleInOrder(l: Ledger, limits: Limits, s: nat, token: nat, actual: nat, now: nat, env: SettleEnv)
    ensures InOrder(l, Settle(l, limits, s, token, actual, now, env).after)
  {
  }

  lemma CompensateInOrder(l: Ledger, s: nat, token: nat, receipt: Receipt)
    ensures InOrder(l, CompensateLate(l, s, token, receipt).after)
  {
  }

  lemma DeliveryInOrder(l: Ledger, s: nat, attempt: nat, fileError: Option<LimitError>)
    ensures InOrder(l, BeginDelivery(l, s, attempt).after)
    ensures InOrder(l, MarkDelivery(l, s, attempt, fileError).after)
    ensures InOrder(l, Acknowledge(l, s, fileError).after)
  {
  }

  /** Refunds of pending charges, then the expiry of active sessions. */
  lemma RefundsInOrder(l: Ledger, middle: Ledger, rows: seq<nat>, next: Ledger, gone: set<nat>)
    requires RowsGivenBack(l, middle, rows) && |next.uploads| == |middle.uploads|
    requires forall k: nat :: k < |middle.uploads| ==> next.uploads[k] == if k in gone then Ended(middle.uploads[k]) else middle.uploads[k]
    requires AllActive(middle, gone)
    ensures InOrder(l, next)
  {
    forall s: nat | s < |next.uploads| ensures FollowsAt(l, next, s) {
      assert middle.uploads[s] == if s in rows && Pending(l, s) then WithoutCharge(l.uploads[s]) else l.uploads[s];
    }
  }

  lemma ReconcileInOrder(l: Ledger, limits: Limits, now: nat, active: set<nat>, today: nat)
    requires Inv(l, limits, today)
    ensures InOrder(l, Reconcile(l, now, active).after)
  {
    ReconcileOutcome(l, limits, today, now, active);
    var rows := Visited(l, Some(now - SETTLEMENT_ACK_GRACE_SECONDS), MAX_CLEANUP_JOBS_PER_PASS, None);
    var next := Reconcile(l, now, active).after;
    if Reconcile(l, now, active).result.Ok? {
      var middle :| GivenBack(l, middle, rows) && OutboxFollows(l, middle, rows) && Inv(middle, limits, today)
                    && ExpiredTo(middle, next, AbandonedSet(middle, now, active))
                    && AllActive(middle, AbandonedSet(middle, now, active));
      RefundsInOrder(l, middle, rows, next, AbandonedSet(middle, now, active));
    }
  }

  lemma ServiceInOrder(l: Ledger, limits: Limits, op: Service, now: nat)
    requires Inv(l, limits, DayOf(now))
    ensures InOrder(l, ServiceEffect(l, limits, op, now))
  {
    match op
    case DoReserve(secrets, request, env) => ReserveInOrder(l, limits, secrets, request, now, env);
    case DoClaim(s, token, duration) => LeaseInOrder(l, s, token, duration, now);
    case DoRenew(s, token, duration) => LeaseInOrder(l, s, token, duration, now);
    case DoExpand(s, token, required, lease, env) => ExpandInOrder(l, limits, s, token, required, lease, now, env);
    case DoTransition(s, token, target, fileError) => TransitionInOrder(l, s, token, target, fileError);
    case DoExpire(s, token) => ExpireInOrder(l, s, token);
    case DoReconcile(active) => ReconcileInOrder(l, limits, now, active, DayOf(now));
    case DoCleanup(s, deletion) =>
  }

  lemma OpenInOrder(l: Ledger, limits: Limits, secrets: seq<nat>, now: nat, files: FileAnswers)
    requires Stored(l, DayOf(now))
    ensures InOrder(l, Open(l, limits, secrets, now, files).after)
  {
    if Open(l, limits, secrets, now, files).result.Ok? {
      OpenCommits(l, limits, secrets, now, files);
      var middle := Recover(l, None, MAX_STARTUP_SETTLEMENT_RECOVERIES, true, None).after;
      OpenRecovers(l, DayOf(now));
      OpenExpires(middle, DayOf(now), now);
      var next := ExpireAbandoned(middle, now, {}).after;
      var gone := AbandonedSet(middle, now, {});
      RefundsInOrder(Rebudgeted(l), Rebudgeted(middle), DueRows(l.settlements, None, None, |l.uploads|), next, gone);
      SameStates(l, Rebudgeted(l), next, Open(l, limits, secrets, now, files).after);
    }
  }

  lemma SameStates(l: Ledger, same: Ledger, next: Ledger, after: Ledger)
    requires same.uploads == l.uploads && after.uploads == next.uploads && InOrder(same, next)
    ensures InOrder(l, after)
  {
    forall s: nat | s < |after.uploads| ensures FollowsAt(l, after, s) {
      assert FollowsAt(same, next, s);
    }
  }

  lemma AbortInOrder(l: Ledger, limits: Limits, s: nat, attempt: nat, lateAtStart: bool, lateAtCommit: bool, today: nat)
    requires Inv(l, limits, today)
    ensures InOrder(l, AbortDelivery(l, s, attempt, lateAtStart, lateAtCommit).after)
  {
    var next := AbortDelivery(l, s, attempt, lateAtStart, lateAtCommit).after;
    AbortTouchesOne(l, limits, s, attempt, lateAtStart, lateAtCommit, today);
    AbortOutcome(l, limits, s, attempt, lateAtStart, lateAtCommit, today);
    AbortFailureChangesNothing(l, s, attempt, lateAtStart, lateAtCommit);
    if next != l {
      assert RowOk(l, s, today);
      forall k: nat | k < |next.uploads| ensures FollowsAt(l, next, k) {
        assert k != s ==> Untouched(l, next, k);
      }
    }
  }

  lemma JobInOrder(y: System, job: Job, fileError: Option<LimitError>, lateAtStart: bool, lateAtCommit: bool)
    requires SystemInv(y) && y.status == Serving && job.flow < |y.flows|
    ensures InOrder(y.ledger, JobStep(y, job, fileError, lateAtStart, lateAtCommit).after)
  {
    var s := y.flows[job.flow].receipt.session;
    match job
    case BeginJob(f) => DeliveryInOrder(y.ledger, s, f, fileError);
    case MarkJob(f) => DeliveryInOrder(y.ledger, s, f, fileError);
    case AbortJob(f) => AbortInOrder(y.ledger, y.limits, s, f, lateAtStart, lateAtCommit, y.today);
  }

  lemma RunJobInOrder(y: System, job: Job, fileError: Option<LimitError>, lateAtStart: bool, lateAtCommit: bool)
    requires SystemInv(y)
    ensures InOrder(y.ledger, ExchangeStep(y, RunJob(job, fileError, lateAtStart, lateAtCommit)).ledger)
  {
    Unmoved(y.ledger);
    if y.status == Serving && job.flow < |y.flows| {
      JobInOrder(y, job, fileError, lateAtStart, lateAtCommit);
    }
  }

  lemma Unmoved(l: Ledger)
    ensures InOrder(l, l)
  {
  }

  lemma ExchangeInOrder(y: System, action: Action)
    requires SystemInv(y)
    ensures InOrder(y.ledger, ExchangeStep(y, action).ledger)
  {
    Unmoved(y.ledger);
    match action
    case Compensate(f, token) =>
      if f < |y.flows| { CompensateInOrder(y.ledger, y.flows[f].receipt.session, token, y.flows[f].receipt); }
    case RunJob(job, fileError, lateAtStart, lateAtCommit) => RunJobInOrder(y, job, fileError, lateAtStart, lateAtCommit);
    case AckDelivered(f, fileError) =>
      if f < |y.flows| { DeliveryInOrder(y.ledger, y.flows[f].receipt.session, f, fileError); }
    case _ =>
  }

  lemma ReopenInOrder(y: System, limits: Limits, secrets: seq<nat>, now: nat, files: FileAnswers)
    requires SystemInv(y) && y.today == DayOf(now)
    ensures InOrder(y.ledger, Today(y, now, Reopen(limits, secrets, files)).ledger)
  {
    Unmoved(y.ledger);
    if y.status == Down {
      OpenInOrder(y.ledger, limits, secrets, now, files);
    }
  }

  lemma ServeInOrder(y: System, now: nat, op: Service)
    requires SystemInv(y) && y.today == DayOf(now)
    ensures InOrder(y.ledger, Today(y, now, Serve(op)).ledger)
  {
    Unmoved(y.ledger);
    if y.status == Serving {
      ServiceInOrder(y.ledger, y.limits, op, now);
    }
  }

  lemma AcknowledgeInOrder(y: System, now: nat, s: nat, fileError: Option<LimitError>)
    ensures InOrder(y.ledger, Today(y, now, AckPeriodic(s, fileError)).ledger)
    ensures InOrder(y.ledger, Today(y, now, AckAtStart(s, fileError)).ledger)
  {
    Unmoved(y.ledger);
    DeliveryInOrder(y.ledger, s, 0, fileError);
  }

  lemma SettlementInOrder(y: System, now: nat, action: Action)
    requires action.DoSettle?
    ensures InOrder(y.ledger, Today(y, now, action).ledger)
  {
    Unmoved(y.ledger);
    SettleInOrder(y.ledger, y.limits, action.session, action.token, action.actual, now, action.env);
  }

  lemma StepInOrder(y: System, now: nat, action: Action)
    requires SystemInv(y) && y.today == DayOf(now)
    ensures InOrder(y.ledger, Today(y, now, action).ledger)
  {
    match action
    case Serve(op) => ServeInOrder(y, now, op);
    case DoSettle(_, _, _, _) => SettlementInOrder(y, now, action);
    case Reopen(limits, secrets, files) => ReopenInOrder(y, limits, secrets, now, files);
    case AckPeriodic(s, fileError) => AcknowledgeInOrder(y, now, s, fileError);
    case AckAtStart(s, fileError) => AcknowledgeInOrder(y, now, s, fileError);
    case Crash => Unmoved(y.ledger);
    case Listen => Unmoved(y.ledger);
    case _ => ExchangeInOrder(y, action);
  }

  /** In every run each event moves each session along the order, if at all. */
  lemma RunsInOrder(limits: Limits, events: seq<Event>, e: Event)
    requires limits.Valid()
    ensures InOrder(Run(Fresh(limits), events).ledger, Do(Run(Fresh(limits), events), e).ledger)
  {
    FreshInv(limits);
    RunKeeps(Fresh(limits), events);
    var y := Run(Fresh(limits), events);
    if y.today <= DayOf(e.now) {
      TomorrowKeeps(y, DayOf(e.now));
      StepInOrder(y.(today := DayOf(e.now)), e.now, e.action);
    }
  }

  /** How far a session has come. */
  function Progress(state: UploadState): nat {
    match state
    case Reserved => 0
    case Receiving => 1
    case Uploaded => 2
    case Probing => 3
    case Queued => 4
    case Expired => 5
    case Rejected => 5
  }

  /** Over any further events a session never goes back, and stays where it ended. */
  lemma {:induction false} NeverBack(limits: Limits, before: seq<Event>, after: seq<Event>, s: nat)
    requires limits.Valid() && s < |Run(Fresh(limits), before).ledger.uploads|
    ensures var l, next := Run(Fresh(limits), before).ledger, Run(Fresh(limits), before + after).ledger;
            && s < |next.uploads|
            && Progress(l.uploads[s].state) <= Progress(next.uploads[s].state)
            && (Progress(l.uploads[s].state) == Progress(next.uploads[s].state) ==> next.uploads[s].state == l.uploads[s].state)
    decreases |after|
  {
    if after == [] {
      assert before + after == before;
    } else {
      var n := |after| - 1;
      NeverBack(limits, before, after[..n], s);
      var events := before + after;
      assert events[..|events| - 1] == before + after[..n] && events[|events| - 1] == after[n];
      RunLast(Fresh(limits), events);
      RunsInOrder(limits, before + after[..n], after[n]);
      assert FollowsAt(Run(Fresh(limits), before + after[..n]).ledger, Run(Fresh(limits), events).ledger, s);
    }
  }
}
