/**
 * Every step of the delivery protocol keeps its invariant, and what follows for whole runs:
 * a 204 is never refunded, a 503 always is, and the ledger invariant holds throughout.
 */
module DeliverySafety {
  import opened Prelude
  import opened LedgerTables
  import opened LedgerTransactions
  import opened LedgerAdmission
  import opened LedgerInvariant
  import opened LedgerRecovery
  import opened LedgerReconciliation
  import opened LedgerAdmissionInvariant
  import opened LedgerOpening
  import opened LedgerFrames
  import opened LedgerSteps
  import opened Delivery

  // The rest of the service.

  lemma ServeKeeps(y: System, op: Service, now: nat)
    requires SystemInv(y) && y.today == DayOf(now)
    ensures SystemInv(Today(y, now, Serve(op)))
  {
    if y.status == Serving {
      ServiceKeepsInv(y.ledger, y.limits, op, now);
      ServiceKeepsCharges(y.ledger, y.limits, op, now);
      ServiceAddsNoRows(y.ledger, y.limits, op, now);
      KeptFlows(y, Today(y, now, Serve(op)));
    }
  }

  // Settlement.

  lemma SettleStepKeeps(y: System, s: nat, token: nat, actual: nat, env: SettleEnv, now: nat)
    requires SystemInv(y) && y.today == DayOf(now)
    ensures SystemInv(Today(y, now, DoSettle(s, token, actual, env)))
  {
    var z := Today(y, now, DoSettle(s, token, actual, env));
    if y.status == Serving && Settle(y.ledger, y.limits, s, token, actual, now, env).result.Ok? {
      SettleKeepsInv(y.ledger, y.limits, s, token, actual, now, env);
      SettleKeeps(y.ledger, y.limits, s, token, actual, now, env);
      SettledFlows(y, z, s, actual, now);
    }
  }

  /** A session that was receiving has no exchange yet; all others keep theirs. */
  lemma SettledFlows(y: System, z: System, s: nat, actual: nat, now: nat)
    requires SystemInv(y) && s < |y.ledger.uploads| && y.ledger.uploads[s].state == Receiving
    requires z.flows == y.flows + [Flow(Receipt(s, y.ledger.uploads[s].identity, DayOf(now), actual), Holding)]
    requires z.ledger == Settled(y.ledger, s, actual, now, z.ledger.budget)
    requires z.running == y.running && z.succeeded == y.succeeded
    requires AllKept(y.ledger, z.ledger) && RowsOk(z.ledger, z.today) && RowsOk(y.ledger, y.today)
    ensures FlowsMatch(z)
  {
    NotYetSettled(y, s);
    OneMoreFlow(y, z, s);
    forall f: nat | f < |z.flows| ensures FlowOk(z, f) {
      if f < |y.flows| {
        KeptFlow(y, z, f);
      } else {
        NewFlow(y, z, s, actual, now);
      }
    }
  }

  /** Every exchange belongs to a session that was settled. */
  lemma NotYetSettled(y: System, s: nat)
    requires SystemInv(y) && s < |y.ledger.uploads| && y.ledger.uploads[s].state == Receiving
    requires RowsOk(y.ledger, y.today)
    ensures forall f :: 0 <= f < |y.flows| ==> y.flows[f].receipt.session != s
  {
    assert RowOk(y.ledger, s, y.today);
    forall f | 0 <= f < |y.flows| ensures y.flows[f].receipt.session != s {
      assert FlowOk(y, f);
    }
  }

  lemma OneMoreFlow(y: System, z: System, s: nat)
    requires FlowsMatch(y) && |z.flows| == |y.flows| + 1 && z.flows[..|y.flows|] == y.flows
    requires z.flows[|y.flows|].receipt.session == s
    requires forall k :: k in z.ledger.settlements ==> k in y.ledger.settlements || k == s
    ensures forall k :: k in z.ledger.settlements ==> HasFlow(z, k)
  {
    forall k | k in z.ledger.settlements ensures HasFlow(z, k) {
      if k != s {
        assert HasFlow(y, k);
        var f :| 0 <= f < |y.flows| && y.flows[f].receipt.session == k;
        assert z.flows[..|y.flows|][f] == z.flows[f];
      }
    }
  }

  /** The exchange a settlement opens. */
  lemma NewFlow(y: System, z: System, s: nat, actual: nat, now: nat)
    requires SystemInv(y) && s < |y.ledger.uploads|
    requires z.flows == y.flows + [Flow(Receipt(s, y.ledger.uploads[s].identity, DayOf(now), actual), Holding)]
    requires z.ledger == Settled(y.ledger, s, actual, now, z.ledger.budget)
    requires z.running == y.running && z.succeeded == y.succeeded
    ensures FlowOk(z, |y.flows|)
  {
    assert RowOk(y.ledger, s, y.today);
    assert BeginJob(|y.flows|).flow == MarkJob(|y.flows|).flow == AbortJob(|y.flows|).flow == |y.flows|;
  }

  // The exchange.

  /** A phase change without a storage step. */
  lemma PhaseStep(y: System, z: System, f: nat)
    requires SystemInv(y) && y.status == Serving && f < |y.flows| == |z.flows|
    requires z == y.(flows := z.flows, running := z.running)
    requires z.flows[f].receipt == y.flows[f].receipt
    requires forall g :: 0 <= g < |y.flows| && g != f ==> z.flows[g] == y.flows[g]
    requires forall job: Job :: job in z.running ==> job in y.running || job.flow == f
    requires forall job: Job :: job.flow != f ==> (job in z.running <==> job in y.running)
    requires FlowOk(z, f)
    ensures SystemInv(z)
  {
    OneFlow(y, z, f);
  }

  /** Before a job is submitted: the receipt is dropped, handed over or used to begin. */
  lemma EarlyStepKeeps(y: System, action: Action)
    requires SystemInv(y)
    requires action.DropReceipt? || action.HandOver? || action.SubmitBegin? || action.Cancel?
    ensures SystemInv(ExchangeStep(y, action))
  {
    var f, z := action.flow, ExchangeStep(y, action);
    if z != y {
      assert FlowOk(y, f);
      PhaseStep(y, z, f);
    }
  }

  /** The answer of a job is seen. */
  lemma SeenStepKeeps(y: System, action: Action)
    requires SystemInv(y) && (action.SeeBegun? || action.SeeMarked? || action.SeeAborted?)
    ensures SystemInv(ExchangeStep(y, action))
  {
    var f, z := action.flow, ExchangeStep(y, action);
    if z != y {
      assert FlowOk(y, f);
      assert RowOk(y.ledger, y.flows[f].receipt.session, y.today);
      PhaseStep(y, z, f);
    }
  }

  /** Waiting for a job ends without its answer. */
  lemma GiveUpKeeps(y: System, f: nat)
    requires SystemInv(y)
    ensures SystemInv(ExchangeStep(y, GiveUp(f)))
  {
    var z := ExchangeStep(y, GiveUp(f));
    if z != y {
      assert FlowOk(y, f);
      PhaseStep(y, z, f);
    }
  }

  lemma CompensateKeeps(y: System, f: nat, token: nat)
    requires SystemInv(y)
    ensures SystemInv(ExchangeStep(y, Compensate(f, token)))
  {
    var z := ExchangeStep(y, Compensate(f, token));
    if At(y, f, Holding) || At(y, f, Reverting) {
      var receipt := y.flows[f].receipt;
      assert FlowOk(y, f);
      assert RowOk(y.ledger, receipt.session, y.today);
      CompensateLateKeepsInv(y.ledger, y.limits, receipt.session, token, receipt, y.today);
      CompensationTouchesOne(y.ledger, receipt.session, token, receipt);
      RevertedFlow(y, f, token);
      OneFlow(y, z, f);
    }
  }

  /** What a compensation leaves of a settled session. */
  ghost predicate TakenBack(l: Ledger, next: Ledger, s: nat) {
    && s < |l.uploads| && IsSettled(next, s) && next.chargedOn == l.chargedOn
    && (next.uploads[s].actual == l.uploads[s].actual || next.uploads[s].actual.None?)
    && (s in next.settlements ==> s in l.settlements && next.settlements[s] == l.settlements[s])
    && (next.uploads[s].actual.Some? ==> next == l)
  }

  lemma CompensationTakesBack(l: Ledger, s: nat, token: nat, receipt: Receipt)
    requires IsSettled(l, s)
    ensures TakenBack(l, CompensateLate(l, s, token, receipt).after, s)
  {
  }

  lemma TakenBackFlow(y: System, f: nat, next: Ledger)
    requires f < |y.flows| && FlowOk(y, f) && (At(y, f, Holding) || At(y, f, Reverting))
    requires IsSettled(y.ledger, y.flows[f].receipt.session)
    requires TakenBack(y.ledger, next, y.flows[f].receipt.session)
    ensures FlowOk(Goes(y, f, Reverting).(ledger := next), f)
  {
  }

  lemma RevertedFlow(y: System, f: nat, token: nat)
    requires SystemInv(y) && (At(y, f, Holding) || At(y, f, Reverting))
    ensures FlowOk(ExchangeStep(y, Compensate(f, token)), f)
    ensures var l, z := y.ledger, ExchangeStep(y, Compensate(f, token)).ledger;
            y.flows[f].receipt.session in z.settlements ==> y.flows[f].receipt.session in l.settlements
  {
    var receipt := y.flows[f].receipt;
    assert FlowOk(y, f);
    CompensationTakesBack(y.ledger, receipt.session, token, receipt);
    TakenBackFlow(y, f, CompensateLate(y.ledger, receipt.session, token, receipt).after);
  }

  lemma AckDeliveredKeeps(y: System, f: nat, fileError: Option<LimitError>)
    requires SystemInv(y)
    ensures SystemInv(ExchangeStep(y, AckDelivered(f, fileError)))
  {
    var z := ExchangeStep(y, AckDelivered(f, fileError));
    if z != y {
      var s := y.flows[f].receipt.session;
      AcknowledgeKeepsInv(y.ledger, y.limits, s, fileError, y.today);
      DeliveryTouchesOne(y.ledger, s, f, fileError);
      AckedFlow(y, f, fileError);
      OneFlow(y, z, f);
    }
  }

  /** The exchange whose answer has been acknowledged. */
  lemma AckedFlow(y: System, f: nat, fileError: Option<LimitError>)
    requires SystemInv(y)
    ensures var z := ExchangeStep(y, AckDelivered(f, fileError)); z != y ==> FlowOk(y, f) && FlowOk(z, f)
  {
    if At(y, f, Sent204) {
      assert FlowOk(y, f);
    }
  }

  // Storage jobs.

  lemma RunBeginKeeps(y: System, f: nat, z: System)
    requires SystemInv(y) && y.status == Serving && BeginJob(f) in y.running
    requires var step := BeginDelivery(y.ledger, y.flows[f].receipt.session, f);
             z == y.(ledger := step.after, running := y.running - {BeginJob(f)},
                     succeeded := if step.result.Ok? then y.succeeded + {BeginJob(f)} else y.succeeded)
    ensures SystemInv(z)
  {
    assert BeginJob(f).flow == f;
    var s := y.flows[f].receipt.session;
    assert FlowOk(y, f);
    BeginDeliveryKeepsInv(y.ledger, y.limits, s, f, y.today);
    DeliveryTouchesOne(y.ledger, s, f, None);
    OneFlow(y, z, f);
  }

  lemma RunMarkKeeps(y: System, f: nat, fileError: Option<LimitError>, z: System)
    requires SystemInv(y) && y.status == Serving && MarkJob(f) in y.running
    requires var step := MarkDelivery(y.ledger, y.flows[f].receipt.session, f, fileError);
             z == y.(ledger := step.after, running := y.running - {MarkJob(f)},
                     succeeded := if step.result.Ok? then y.succeeded + {MarkJob(f)} else y.succeeded)
    ensures SystemInv(z)
  {
    assert MarkJob(f).flow == f;
    var s := y.flows[f].receipt.session;
    assert FlowOk(y, f);
    MarkDeliveryKeepsInv(y.ledger, y.limits, s, f, fileError, y.today);
    DeliveryTouchesOne(y.ledger, s, f, fileError);
    OneFlow(y, z, f);
  }

  lemma RunAbortKeeps(y: System, f: nat, lateAtStart: bool, lateAtCommit: bool, z: System)
    requires SystemInv(y) && y.status == Serving && AbortJob(f) in y.running
    requires var step := AbortDelivery(y.ledger, y.flows[f].receipt.session, f, lateAtStart, lateAtCommit);
             z == y.(ledger := step.after, running := y.running - {AbortJob(f)},
                     succeeded := if step.result.Ok? then y.succeeded + {AbortJob(f)} else y.succeeded)
    ensures SystemInv(z)
  {
    assert AbortJob(f).flow == f;
    var s := y.flows[f].receipt.session;
    assert FlowOk(y, f);
    AbortOutcome(y.ledger, y.limits, s, f, lateAtStart, lateAtCommit, y.today);
    AbortTouchesOne(y.ledger, y.limits, s, f, lateAtStart, lateAtCommit, y.today);
    AbortFailureChangesNothing(y.ledger, s, f, lateAtStart, lateAtCommit);
    OneFlow(y, z, f);
  }

  lemma AbortFailureChangesNothing(l: Ledger, s: nat, attempt: nat, lateAtStart: bool, lateAtCommit: bool)
    ensures var step := AbortDelivery(l, s, attempt, lateAtStart, lateAtCommit);
            step.result.Err? ==> step.after == l
  {
  }

  lemma RunJobKeeps(y: System, job: Job, fileError: Option<LimitError>, lateAtStart: bool, lateAtCommit: bool)
    requires SystemInv(y)
    ensures SystemInv(ExchangeStep(y, RunJob(job, fileError, lateAtStart, lateAtCommit)))
  {
    var z := ExchangeStep(y, RunJob(job, fileError, lateAtStart, lateAtCommit));
    if y.status == Serving && job in y.running && job.flow < |y.flows| {
      match job
      case BeginJob(f) => RunBeginKeeps(y, f, z);
      case MarkJob(f) => RunMarkKeeps(y, f, fileError, z);
      case AbortJob(f) => RunAbortKeeps(y, f, lateAtStart, lateAtCommit, z);
    }
  }

  lemma LoseJobKeeps(y: System, job: Job)
    requires SystemInv(y)
    ensures SystemInv(ExchangeStep(y, LoseJob(job)))
  {
    var z := ExchangeStep(y, LoseJob(job));
    forall f: nat | f < |z.flows| ensures FlowOk(z, f) {
      assert FlowOk(y, f);
    }
    forall s | s in z.ledger.settlements ensures HasFlow(z, s) {
      assert HasFlow(y, s);
    }
  }

  // Acknowledgement outside an exchange, crash and restart.

  lemma AckStepKeeps(y: System, s: nat, fileError: Option<LimitError>, includeAmbiguous: bool)
    requires SystemInv(y) && y.status == if includeAmbiguous then Starting else Serving
    ensures SystemInv(AckStep(y, s, fileError, includeAmbiguous))
  {
    var z := AckStep(y, s, fileError, includeAmbiguous);
    if z != y {
      assert HasFlow(y, s);
      var f :| 0 <= f < |y.flows| && y.flows[f].receipt.session == s;
      assert FlowOk(y, f);
      AcknowledgeKeepsInv(y.ledger, y.limits, s, fileError, y.today);
      DeliveryTouchesOne(y.ledger, s, f, fileError);
      assert y.flows[f].phase == y.flows[f].phase.Orphaned();
      OneFlow(y, z, f);
    }
  }

  lemma CrashKeeps(y: System)
    requires SystemInv(y)
    ensures SystemInv(y.(status := Down, flows := Orphans(y.flows), running := {}, succeeded := {}))
  {
    var z := y.(status := Down, flows := Orphans(y.flows), running := {}, succeeded := {});
    forall f: nat | f < |z.flows| ensures FlowOk(z, f) {
      assert FlowOk(y, f);
    }
    forall s | s in z.ledger.settlements ensures HasFlow(z, s) {
      assert HasFlow(y, s);
      var f :| 0 <= f < |y.flows| && y.flows[f].receipt.session == s;
      assert z.flows[f].receipt.session == s;
    }
  }

  /** The two batches of a start-up, on a database whose budget is not trusted. */
  lemma StartupKeeps(l: Ledger, middle: Ledger, next: Ledger, day: nat, rows: seq<nat>, gone: set<nat>)
    requires Stored(l, day)
    requires RowsGivenBack(Rebudgeted(l), Rebudgeted(middle), rows)
    requires ExpiredTo(middle, next, gone) && AllActive(middle, gone)
    ensures AllKept(l, next)
    ensures forall s :: s in next.settlements ==> s in l.settlements
  {
    StoredIsInv(l, day);
    var l', middle', next' := Rebudgeted(l), Rebudgeted(middle), Rebudgeted(next);
    RefundsKeep(l', AmpleLimits(l), day, middle', rows, next', gone);
    forall s: nat ensures Kept(l, next, s) {
      assert Kept(l', next', s);
    }
    forall s | s in next.settlements ensures s in l.settlements {
      assert Lookup(middle'.settlements, s) == if s in rows && Pending(l', s) then None else Lookup(l'.settlements, s);
    }
  }

  /** Opening a stored database keeps the charges of settled sessions and adds no settlement row. */
  lemma OpenKeepsCharges(l: Ledger, limits: Limits, secrets: seq<nat>, now: nat, files: FileAnswers)
    requires Stored(l, DayOf(now)) && Open(l, limits, secrets, now, files).result.Ok?
    ensures AllKept(l, Open(l, limits, secrets, now, files).after)
    ensures forall s :: s in Open(l, limits, secrets, now, files).after.settlements ==> s in l.settlements
  {
    OpenCommits(l, limits, secrets, now, files);
    var middle := Recover(l, None, MAX_STARTUP_SETTLEMENT_RECOVERIES, true, None).after;
    OpenRecovers(l, DayOf(now));
    OpenExpires(middle, DayOf(now), now);
    var next := ExpireAbandoned(middle, now, {}).after;
    StartupKeeps(l, middle, next, DayOf(now), DueRows(l.settlements, None, None, |l.uploads|), AbandonedSet(middle, now, {}));
    SameButBudget(l, next, Open(l, limits, secrets, now, files).after);
  }

  lemma SameButBudget(l: Ledger, next: Ledger, after: Ledger)
    requires AllKept(l, next) && after == next.(budget := after.budget)
    ensures AllKept(l, after)
  {
    forall s: nat ensures Kept(l, after, s) {
      assert Kept(l, next, s);
    }
  }

  lemma ReopenKeeps(y: System, limits: Limits, secrets: seq<nat>, files: FileAnswers, now: nat)
    requires SystemInv(y) && y.today == DayOf(now)
    ensures SystemInv(Today(y, now, Reopen(limits, secrets, files)))
  {
    var z := Today(y, now, Reopen(limits, secrets, files));
    if y.status == Down && Open(y.ledger, limits, secrets, now, files).result.Ok? {
      OpenOutcome(y.ledger, limits, secrets, now, files);
      OpenKeepsCharges(y.ledger, limits, secrets, now, files);
      KeptFlows(y, z);
    }
  }

  // Runs.

  lemma StoredRollover(l: Ledger, today: nat, day: nat)
    requires Stored(l, today) && today <= day
    ensures Stored(l, day)
  {
    forall s: nat | s < |l.uploads| ensures RowOk(l, s, day) {
      assert RowOk(l, s, today);
    }
  }

  lemma TomorrowKeeps(y: System, day: nat)
    requires SystemInv(y) && y.today <= day
    ensures SystemInv(y.(today := day))
  {
    var z := y.(today := day);
    if y.status == Down {
      StoredRollover(y.ledger, y.today, day);
    } else {
      DayRollover(y.ledger, y.limits, y.today, day);
    }
    forall f: nat | f < |z.flows| ensures FlowOk(z, f) {
      assert FlowOk(y, f);
    }
    forall s | s in z.ledger.settlements ensures HasFlow(z, s) {
      assert HasFlow(y, s);
    }
  }

  lemma ExchangeKeeps(y: System, action: Action)
    requires SystemInv(y)
    ensures SystemInv(ExchangeStep(y, action))
  {
    match action
    case Compensate(f, token) => CompensateKeeps(y, f, token);
    case RunJob(job, fileError, lateAtStart, lateAtCommit) => RunJobKeeps(y, job, fileError, lateAtStart, lateAtCommit);
    case LoseJob(job) => LoseJobKeeps(y, job);
    case AckDelivered(f, fileError) => AckDeliveredKeeps(y, f, fileError);
    case SeeBegun(_) => SeenStepKeeps(y, action);
    case SeeMarked(_) => SeenStepKeeps(y, action);
    case SeeAborted(_) => SeenStepKeeps(y, action);
    case GiveUp(f) => GiveUpKeeps(y, f);
    case _ =>
      if action.DropReceipt? || action.HandOver? || action.SubmitBegin? || action.Cancel? {
        EarlyStepKeeps(y, action);
      }
  }

  lemma ListenKeeps(y: System, now: nat)
    requires SystemInv(y)
    ensures SystemInv(Today(y, now, Listen))
  {
    var z := Today(y, now, Listen);
    forall f: nat | f < |z.flows| ensures FlowOk(z, f) {
      assert FlowOk(y, f);
    }
    forall s | s in z.ledger.settlements ensures HasFlow(z, s) {
      assert HasFlow(y, s);
    }
  }

  lemma AckPeriodicKeeps(y: System, now: nat, s: nat, fileError: Option<LimitError>)
    requires SystemInv(y)
    ensures SystemInv(Today(y, now, AckPeriodic(s, fileError)))
  {
    if y.status == Serving {
      AckStepKeeps(y, s, fileError, false);
    }
  }

  lemma AckAtStartKeeps(y: System, now: nat, s: nat, fileError: Option<LimitError>)
    requires SystemInv(y)
    ensures SystemInv(Today(y, now, AckAtStart(s, fileError)))
  {
    if y.status == Starting {
      AckStepKeeps(y, s, fileError, true);
    }
  }

  /** The steps that look at the clock. */
  lemma ClockStepKeeps(y: System, now: nat, action: Action)
    requires SystemInv(y) && y.today == DayOf(now) && (action.Serve? || action.DoSettle? || action.Reopen?)
    ensures SystemInv(Today(y, now, action))
  {
    match action
    case Serve(op) => ServeKeeps(y, op, now);
    case DoSettle(s, token, actual, env) => SettleStepKeeps(y, s, token, actual, env, now);
    case Reopen(limits, secrets, files) => ReopenKeeps(y, limits, secrets, files, now);
  }

  lemma StepKeeps(y: System, now: nat, action: Action)
    requires SystemInv(y) && y.today == DayOf(now)
    ensures SystemInv(Today(y, now, action))
  {
    if action.Serve? || action.DoSettle? || action.Reopen? {
      ClockStepKeeps(y, now, action);
    } else {
      match action
      case AckPeriodic(s, fileError) => AckPeriodicKeeps(y, now, s, fileError);
      case AckAtStart(s, fileError) => AckAtStartKeeps(y, now, s, fileError);
      case Crash => CrashKeeps(y);
      case Listen => ListenKeeps(y, now);
      case _ => ExchangeKeeps(y, action);
    }
  }

  /** Every reachable system, after any events whatever, satisfies the invariant. */
  lemma {:induction false} RunKeeps(y: System, events: seq<Event>)
    requires SystemInv(y)
    ensures SystemInv(Run(y, events))
    decreases |events|
  {
    if events != [] {
      var n := |events| - 1;
      RunKeeps(y, events[..n]);
      var middle, event := Run(y, events[..n]), events[n];
      if middle.today <= DayOf(event.now) {
        TomorrowKeeps(middle, DayOf(event.now));
        StepKeeps(middle.(today := DayOf(event.now)), event.now, event.action);
      }
    }
  }

  lemma FreshInv(limits: Limits)
    requires limits.Valid()
    ensures SystemInv(Fresh(limits))
  {
  }
}
