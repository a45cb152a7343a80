/**
 * What the delivery protocol promises over whole runs: any sequence of events, with jobs that
 * commit late, lost results, crashes and restarts.
 */
module DeliveryOutcome {
  import opened Prelude
  import opened LedgerTables
  import opened LedgerTransactions
  import opened LedgerAdmission
  import opened LedgerInvariant
  import opened LedgerRecovery
  import opened LedgerReconciliation
  import opened LedgerAdmissionInvariant
  import opened LedgerOpening
  import opened LedgerFrames
  import opened LedgerSteps
  import opened LedgerAccess
  import opened Delivery
  import opened DeliverySafety

  /** The client of exchange f was told its upload is stored. */
  predicate Told204(y: System, f: nat) {
    f < |y.flows| && (y.flows[f].phase == Sent204 || y.flows[f].phase == Acknowledged)
  }

  /** The client of exchange f was told its upload failed. */
  predicate Told503(y: System, f: nat) {
    f < |y.flows| && y.flows[f].phase == Sent503
  }

  /** The tables of every reachable running system agree with each other and respect the limits. */
  lemma ReachableTablesAgree(limits: Limits, events: seq<Event>)
    requires limits.Valid()
    ensures var y := Run(Fresh(limits), events);
            && ChargesOk(y.ledger)
            && (y.status != Down ==> BudgetOk(y.ledger, y.limits) && QuotaOk(y.ledger, y.limits, y.today))
            && RowsOk(y.ledger, y.today)
  {
    FreshInv(limits);
    RunKeeps(Fresh(limits), events);
  }

  /** In every reachable serving system a session settles whenever its own row and the file allow it. */
  lemma ReachableSettlementSucceeds(limits: Limits, events: seq<Event>, s: nat, actual: nat, now: nat)
    requires limits.Valid()
    requires var y := Run(Fresh(limits), events);
             && y.status == Serving && y.today <= DayOf(now)
             && s < |y.ledger.uploads| && y.ledger.uploads[s].state == Receiving
             && actual <= y.ledger.uploads[s].reserved && actual <= y.limits.maxFileBytes
    ensures var y := Run(Fresh(limits), events);
            Settle(y.ledger, y.limits, s, y.ledger.uploads[s].token, actual, now, SettleEnv(None, None, false)).result.Ok?
  {
    FreshInv(limits);
    RunKeeps(Fresh(limits), events);
    var y := Run(Fresh(limits), events);
    DayRollover(y.ledger, y.limits, y.today, DayOf(now));
    SettleOutcome(y.ledger, y.limits, s, y.ledger.uploads[s].token, actual, now, SettleEnv(None, None, false));
  }

  /**
   * Start-up recovery from every reachable state, a crash at any point included: it is refused only for more
   * than 128 rows, completes if and only if every zero-byte refund finds its usage row, and without pending
   * zero-byte charges refunds every pending row, keeps every marked one, and done again changes nothing.
   */
  lemma ReachableRecovery(limits: Limits, events: seq<Event>)
    requires limits.Valid()
    ensures var l := Run(Fresh(limits), events).ledger;
            var rows := DueRows(l.settlements, None, None, |l.uploads|);
            var step := Recover(l, None, MAX_STARTUP_SETTLEMENT_RECOVERIES, true, None);
            if |rows| > MAX_STARTUP_SETTLEMENT_RECOVERIES then step.result == Err(PendingSettlementRecoveryLimit)
            else
              && (step.result.Ok? <==> ZeroRefundsCovered(l, rows))
              && ((forall s :: s in l.settlements && Pending(l, s) ==> l.settlements[s].actual > 0) ==>
                    && step.result.Ok?
                    && (forall s: nat :: Lookup(step.after.settlements, s)
                          == if Pending(l, s) then None else Lookup(l.settlements, s))
                    && Recover(step.after, None, MAX_STARTUP_SETTLEMENT_RECOVERIES, true, None) == Step(Ok(0), step.after))
  {
    FreshInv(limits);
    RunKeeps(Fresh(limits), events);
    var y := Run(Fresh(limits), events);
    if y.status != Down {
      InvIsStored(y.ledger, y.limits, y.today);
    }
    StartupRecovery(y.ledger, y.today);
    if |DueRows(y.ledger.settlements, None, None, |y.ledger.uploads|)| <= MAX_STARTUP_SETTLEMENT_RECOVERIES
       && forall s :: s in y.ledger.settlements && Pending(y.ledger, s) ==> y.ledger.settlements[s].actual > 0 {
      StartupRecoveryIsTotal(y.ledger, y.today);
    }
  }

  /** Answers are final and receipts do not change. */
  predicate AnswersStand(y: System, z: System) {
    && |y.flows| <= |z.flows|
    && forall f: nat :: f < |y.flows| ==>
         && z.flows[f].receipt == y.flows[f].receipt
         && (Told204(y, f) ==> Told204(z, f))
         && (Told503(y, f) ==> Told503(z, f))
  }

  lemma ExchangeAnswersStand(y: System, action: Action)
    ensures AnswersStand(y, ExchangeStep(y, action))
  {
  }

  lemma DoAnswersStand(y: System, event: Event)
    ensures AnswersStand(y, Do(y, event))
  {
    var z := y.(today := DayOf(event.now));
    match event.action
    case Serve(op) =>
    case DoSettle(s, token, actual, env) =>
    case AckPeriodic(s, fileError) =>
    case Crash =>
    case Reopen(limits, secrets, files) =>
    case AckAtStart(s, fileError) =>
    case Listen =>
    case _ => ExchangeAnswersStand(z, event.action);
  }

  lemma {:induction false} RunAnswersStand(y: System, events: seq<Event>)
    ensures AnswersStand(y, Run(y, events))
    decreases |events|
  {
    if events != [] {
      RunAnswersStand(y, events[..|events| - 1]);
      DoAnswersStand(Run(y, events[..|events| - 1]), events[|events| - 1]);
    }
  }

  lemma RunLast(y: System, events: seq<Event>)
    requires events != []
    ensures Run(y, events) == Do(Run(y, events[..|events| - 1]), events[|events| - 1])
  {
  }

  lemma {:induction false} RunSplit(y: System, first: seq<Event>, second: seq<Event>)
    ensures Run(y, first + second) == Run(Run(y, first), second)
    decreases |second|
  {
    if second == [] {
      assert first + second == first;
    } else {
      var all, shorter := first + second, second[..|second| - 1];
      RunSplit(y, first, shorter);
      RunLast(y, all);
      RunLast(Run(y, first), second);
      assert all[..|all| - 1] == first + shorter && all[|all| - 1] == second[|second| - 1];
    }
  }

  /** What holds of an exchange in any system that satisfies the invariant. */
  lemma AnswersAreTrue(y: System, f: nat)
    requires SystemInv(y) && f < |y.flows|
    ensures var receipt := y.flows[f].receipt;
            && receipt.session < |y.ledger.uploads| == |y.ledger.chargedOn|
            && (Told204(y, f) ==>
                  && y.ledger.uploads[receipt.session].actual == Some(receipt.actual)
                  && y.ledger.chargedOn[receipt.session] == receipt.day
                  && (receipt.session in y.ledger.settlements ==> y.ledger.uploads[receipt.session].state == Uploaded))
            && (Told503(y, f) ==> Compensated(y.ledger, receipt.session))
  {
    assert FlowOk(y, f);
    assert RowOk(y.ledger, y.flows[f].receipt.session, y.today);
  }

  /**
   * After a 204 the charge is kept for ever: whatever happens later, the session still carries the
   * bytes and the day it was settled with, and until the delivery is acknowledged it cannot be expired.
   */
  lemma Charge204IsKept(limits: Limits, before: seq<Event>, after: seq<Event>, f: nat)
    requires limits.Valid() && Told204(Run(Fresh(limits), before), f)
    ensures var y, z := Run(Fresh(limits), before), Run(Fresh(limits), before + after);
            var receipt := y.flows[f].receipt;
            var s := receipt.session;
            && Told204(z, f)
            && z.flows[f].receipt == receipt
            && s < |z.ledger.uploads| == |z.ledger.chargedOn|
            && z.ledger.uploads[s].actual == Some(receipt.actual)
            && z.ledger.chargedOn[s] == receipt.day
            && (s in z.ledger.settlements ==>
                  && z.ledger.uploads[s].state == Uploaded
                  && Expire(z.ledger, s, z.ledger.uploads[s].token).result == Err(InvalidTransition))
  {
    FreshInv(limits);
    RunKeeps(Fresh(limits), before + after);
    RunSplit(Fresh(limits), before, after);
    RunAnswersStand(Run(Fresh(limits), before), after);
    var z := Run(Fresh(limits), before + after);
    AnswersAreTrue(z, f);
    assert FlowOk(z, f);
  }

  /**
   * After a 503 the charge is gone for ever: the session stays expired without bytes and without a
   * settlement row, and no marker, late or not, can commit any more.
   */
  lemma Refund503Stands(limits: Limits, before: seq<Event>, after: seq<Event>, f: nat)
    requires limits.Valid() && Told503(Run(Fresh(limits), before), f)
    ensures var y, z := Run(Fresh(limits), before), Run(Fresh(limits), before + after);
            var s := y.flows[f].receipt.session;
            && Told503(z, f)
            && Compensated(z.ledger, s)
            && forall attempt, fileError :: MarkDelivery(z.ledger, s, attempt, fileError).result == Err(InvalidTransition)
  {
    FreshInv(limits);
    RunKeeps(Fresh(limits), before + after);
    RunSplit(Fresh(limits), before, after);
    RunAnswersStand(Run(Fresh(limits), before), after);
    AnswersAreTrue(Run(Fresh(limits), before + after), f);
  }

  /** No session is ever told both, and no session is settled by two exchanges. */
  lemma AnswersAreConsistent(limits: Limits, events: seq<Event>, f: nat, g: nat)
    requires limits.Valid()
    requires f < |Run(Fresh(limits), events).flows| && g < |Run(Fresh(limits), events).flows|
    requires var y := Run(Fresh(limits), events); y.flows[f].receipt.session == y.flows[g].receipt.session
    ensures f == g
  {
    FreshInv(limits);
    RunKeeps(Fresh(limits), events);
  }

  // Expired and rejected sessions stay so.

  predicate TerminalStays(l: Ledger, next: Ledger) {
    && |l.uploads| <= |next.uploads|
    && forall s: nat :: s < |l.uploads| && l.uploads[s].state.IsTerminal() ==> next.uploads[s].state == l.uploads[s].state
  }

  lemma KeptIsTerminalStays(l: Ledger, next: Ledger)
    requires AllKept(l, next) && |l.chargedOn| == |l.uploads|
    ensures TerminalStays(l, next)
  {
    assert Kept(l, next, 0);
    forall s: nat | s < |l.uploads| && l.uploads[s].state.IsTerminal() ensures next.uploads[s].state == l.uploads[s].state {
      assert Kept(l, next, s);
    }
  }

  lemma JobTerminalStays(y: System, job: Job, fileError: Option<LimitError>, lateAtStart: bool, lateAtCommit: bool)
    requires SystemInv(y) && y.status == Serving && job.flow < |y.flows|
    ensures TerminalStays(y.ledger, JobStep(y, job, fileError, lateAtStart, lateAtCommit).after)
  {
    var l, s := y.ledger, y.flows[job.flow].receipt.session;
    match job
    case BeginJob(f) =>
    case MarkJob(f) =>
    case AbortJob(f) =>
      assert FlowOk(y, f);
      assert RowOk(l, s, y.today);
      AbortOutcome(l, y.limits, s, f, lateAtStart, lateAtCommit, y.today);
      AbortTouchesOne(l, y.limits, s, f, lateAtStart, lateAtCommit, y.today);
      var next := AbortDelivery(l, s, f, lateAtStart, lateAtCommit).after;
      forall k: nat | k < |l.uploads| && l.uploads[k].state.IsTerminal() ensures next.uploads[k].state == l.uploads[k].state {
        if k != s { assert Untouched(l, next, k); }
      }
  }

  lemma CompensationTerminalStays(l: Ledger, s: nat, token: nat, receipt: Receipt)
    ensures TerminalStays(l, CompensateLate(l, s, token, receipt).after)
  {
  }

  lemma AcknowledgeTerminalStays(l: Ledger, s: nat, fileError: Option<LimitError>)
    ensures TerminalStays(l, Acknowledge(l, s, fileError).after)
  {
  }

  lemma SettleTerminalStays(l: Ledger, limits: Limits, s: nat, token: nat, actual: nat, now: nat, env: SettleEnv)
    ensures TerminalStays(l, Settle(l, limits, s, token, actual, now, env).after)
  {
  }

  lemma ExchangeTerminalStays(y: System, action: Action)
    requires SystemInv(y)
    ensures TerminalStays(y.ledger, ExchangeStep(y, action).ledger)
  {
    match action
    case Compensate(f, token) =>
      if f < |y.flows| {
        CompensationTerminalStays(y.ledger, y.flows[f].receipt.session, token, y.flows[f].receipt);
      }
    case RunJob(job, fileError, lateAtStart, lateAtCommit) =>
      if y.status == Serving && job.flow < |y.flows| {
        JobTerminalStays(y, job, fileError, lateAtStart, lateAtCommit);
      }
    case AckDelivered(f, fileError) =>
      if f < |y.flows| {
        AcknowledgeTerminalStays(y.ledger, y.flows[f].receipt.session, fileError);
      }
    case _ =>
  }

  lemma ServiceTerminalStays(l: Ledger, limits: Limits, op: Service, now: nat)
    requires Inv(l, limits, DayOf(now))
    ensures TerminalStays(l, ServiceEffect(l, limits, op, now))
  {
    ServiceKeepsCharges(l, limits, op, now);
    KeptIsTerminalStays(l, ServiceEffect(l, limits, op, now));
  }

  lemma OpenTerminalStays(l: Ledger, limits: Limits, secrets: seq<nat>, now: nat, files: FileAnswers)
    requires Stored(l, DayOf(now))
    ensures TerminalStays(l, Open(l, limits, secrets, now, files).after)
  {
    var step := Open(l, limits, secrets, now, files);
    if step.result.Ok? {
      OpenKeepsCharges(l, limits, secrets, now, files);
      KeptIsTerminalStays(l, step.after);
    }
  }

  lemma AckTerminalStays(y: System, s: nat, fileError: Option<LimitError>, includeAmbiguous: bool)
    ensures TerminalStays(y.ledger, AckStep(y, s, fileError, includeAmbiguous).ledger)
  {
    AcknowledgeTerminalStays(y.ledger, s, fileError);
  }

  /** The steps that look at the clock. */
  lemma ClockTerminalStays(y: System, now: nat, action: Action)
    requires StatusOk(y) && y.today == DayOf(now) && (action.Serve? || action.DoSettle? || action.Reopen?)
    ensures TerminalStays(y.ledger, Today(y, now, action).ledger)
  {
    match action
    case Serve(op) => if y.status == Serving { ServiceTerminalStays(y.ledger, y.limits, op, now); }
    case DoSettle(s, token, actual, env) => SettleTerminalStays(y.ledger, y.limits, s, token, actual, now, env);
    case Reopen(limits, secrets, files) =>
      if y.status == Down { OpenTerminalStays(y.ledger, limits, secrets, now, files); }
  }

  lemma StepTerminalStays(y: System, now: nat, action: Action)
    requires SystemInv(y) && y.today == DayOf(now)
    ensures TerminalStays(y.ledger, Today(y, now, action).ledger)
  {
    if action.Serve? || action.DoSettle? || action.Reopen? {
      ClockTerminalStays(y, now, action);
    } else {
      match action
      case AckPeriodic(s, fileError) => AckTerminalStays(y, s, fileError, false);
      case AckAtStart(s, fileError) => AckTerminalStays(y, s, fileError, true);
      case Crash =>
      case Listen =>
      case _ => ExchangeTerminalStays(y, action);
    }
  }

  /** Expired and Rejected are absorbing, in every run. */
  lemma {:induction false} TerminalIsAbsorbing(y: System, events: seq<Event>)
    requires SystemInv(y)
    ensures TerminalStays(y.ledger, Run(y, events).ledger)
    decreases |events|
  {
    if events != [] {
      var n := |events| - 1;
      TerminalIsAbsorbing(y, events[..n]);
      RunKeeps(y, events[..n]);
      var middle, event := Run(y, events[..n]), events[n];
      if middle.today <= DayOf(event.now) {
        TomorrowKeeps(middle, DayOf(event.now));
        StepTerminalStays(middle.(today := DayOf(event.now)), event.now, event.action);
      }
    }
  }

  // What the end of a session takes away.

  lemma JobAccess(y: System, job: Job, fileError: Option<LimitError>, lateAtStart: bool, lateAtCommit: bool)
    requires AccessOk(y.ledger) && job.flow < |y.flows|
    ensures AccessOk(JobStep(y, job, fileError, lateAtStart, lateAtCommit).after)
  {
    var s := y.flows[job.flow].receipt.session;
    match job
    case BeginJob(f) => DeliveryAccess(y.ledger, s, f, fileError);
    case MarkJob(f) => DeliveryAccess(y.ledger, s, f, fileError);
    case AbortJob(f) => AbortAccess(y.ledger, s, f, lateAtStart, lateAtCommit);
  }

  lemma ExchangeAccess(y: System, action: Action)
    requires AccessOk(y.ledger)
    ensures AccessOk(ExchangeStep(y, action).ledger)
  {
    match action
    case Compensate(f, token) =>
      if f < |y.flows| {
        CompensateAccess(y.ledger, y.flows[f].receipt.session, token, y.flows[f].receipt);
      }
    case RunJob(job, fileError, lateAtStart, lateAtCommit) =>
      if job.flow < |y.flows| {
        JobAccess(y, job, fileError, lateAtStart, lateAtCommit);
      }
    case AckDelivered(f, fileError) =>
      if f < |y.flows| {
        DeliveryAccess(y.ledger, y.flows[f].receipt.session, f, fileError);
      }
    case _ =>
  }

  lemma StepAccess(y: System, now: nat, action: Action)
    requires AccessOk(y.ledger)
    ensures AccessOk(Today(y, now, action).ledger)
  {
    match action
    case Serve(op) => ServiceAccess(y.ledger, y.limits, op, now);
    case DoSettle(s, token, actual, env) => SettleAccess(y.ledger, y.limits, s, token, actual, now, env);
    case Reopen(limits, secrets, files) => OpenAccess(y.ledger, limits, secrets, now, files);
    case AckPeriodic(s, fileError) => DeliveryAccess(y.ledger, s, 0, fileError);
    case AckAtStart(s, fileError) => DeliveryAccess(y.ledger, s, 0, fileError);
    case Crash =>
    case Listen =>
    case _ => ExchangeAccess(y, action);
  }

  /** In every run only receiving or rejected sessions have a lease, and the capability of every expired session is dead. */
  lemma {:induction false} AccessEndsWithTheSession(y: System, events: seq<Event>)
    requires AccessOk(y.ledger)
    ensures AccessOk(Run(y, events).ledger)
    decreases |events|
  {
    if events != [] {
      var n := |events| - 1;
      AccessEndsWithTheSession(y, events[..n]);
      var middle, event := Run(y, events[..n]), events[n];
      if middle.today <= DayOf(event.now) {
        StepAccess(middle.(today := DayOf(event.now)), event.now, event.action);
      }
    }
  }
}
