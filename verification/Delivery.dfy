/**
 * Delivery of a settled upload as a concurrent protocol: the upload worker's receipt, the HTTP
 * exchange that begins, marks or aborts a delivery attempt, storage jobs that may commit after
 * their caller has given up, periodic reconciliation, crashes and restarts.
 */
module Delivery {
  import opened Prelude
  import opened LedgerTables
  import opened LedgerTransactions
  import opened LedgerAdmission
  import opened LedgerInvariant
  import opened LedgerAdmissionInvariant
  import opened LedgerFrames
  import opened LedgerSteps

  /**
   * Where the exchange of one settled upload stands. The worker holds the receipt until it hands
   * the result over or starts reverting; the exchange ends by answering 204 or 503, or silently.
   */
  datatype Phase =
    | Holding | Reverting | Candidate | Beginning | Marking | Aborting
    | Silent | Sent204 | Acknowledged | Sent503
  {
    /** What is left of an exchange when its process dies. */
    function Orphaned(): Phase {
      if this == Sent204 || this == Acknowledged || this == Sent503 then this else Silent
    }
  }

  /** One exchange; its number is its attempt id. */
  datatype Flow = Flow(receipt: Receipt, phase: Phase)

  /** A storage operation handed to a blocking worker; it may run after its caller stopped waiting. */
  datatype Job = BeginJob(flow: nat) | MarkJob(flow: nat) | AbortJob(flow: nat)

  datatype Status = Down | Starting | Serving

  datatype System = System(
    ledger: Ledger,
    limits: Limits,
    today: nat,
    status: Status,
    flows: seq<Flow>,
    running: set<Job>,
    succeeded: set<Job>)

  datatype Action =
    | Serve(service: Service)
    | DoSettle(session: nat, token: nat, actual: nat, env: SettleEnv)
    | Compensate(flow: nat, token: nat)
    | DropReceipt(flow: nat)
    | HandOver(flow: nat)
    | SubmitBegin(flow: nat)
    | SeeBegun(flow: nat)
    | SeeMarked(flow: nat)
    | SeeAborted(flow: nat)
    | GiveUp(flow: nat)
    | Cancel(flow: nat)
    | RunJob(job: Job, fileError: Option<LimitError>, lateAtStart: bool, lateAtCommit: bool)
    | LoseJob(job: Job)
    | AckDelivered(flow: nat, fileError: Option<LimitError>)
    | AckPeriodic(session: nat, fileError: Option<LimitError>)
    | Crash
    | Reopen(limits: Limits, secrets: seq<nat>, files: FileAnswers)
    | AckAtStart(session: nat, fileError: Option<LimitError>)
    | Listen

  datatype Event = Event(now: nat, action: Action)

  /** Flow f of a serving system stands in the given phase. */
  predicate At(y: System, f: nat, phase: Phase) {
    y.status == Serving && f < |y.flows| && y.flows[f].phase == phase
  }

  function Goes(y: System, f: nat, phase: Phase): System
    requires f < |y.flows|
  {
    y.(flows := y.flows[f := y.flows[f].(phase := phase)])
  }

  function JobStep(y: System, job: Job, fileError: Option<LimitError>, lateAtStart: bool, lateAtCommit: bool): Step<()>
    requires job.flow < |y.flows|
  {
    var s := y.flows[job.flow].receipt.session;
    match job
    case BeginJob(f) => BeginDelivery(y.ledger, s, f)
    case MarkJob(f) => MarkDelivery(y.ledger, s, f, fileError)
    case AbortJob(f) => AbortDelivery(y.ledger, s, f, lateAtStart, lateAtCommit)
  }

  /** The steps of the worker that settles and of the exchange that follows it. */
  function ExchangeStep(y: System, action: Action): System {
    match action
    case Compensate(f, token) =>
      if At(y, f, Holding) || At(y, f, Reverting)
      then Goes(y, f, Reverting).(
             ledger := CompensateLate(y.ledger, y.flows[f].receipt.session, token, y.flows[f].receipt).after)
      else y
    case DropReceipt(f) => if At(y, f, Holding) || At(y, f, Reverting) then Goes(y, f, Silent) else y
    case HandOver(f) => if At(y, f, Holding) then Goes(y, f, Candidate) else y
    case SubmitBegin(f) =>
      if At(y, f, Candidate) then Goes(y, f, Beginning).(running := y.running + {BeginJob(f)}) else y
    case SeeBegun(f) =>
      if At(y, f, Beginning) && BeginJob(f) in y.succeeded
      then Goes(y, f, Marking).(running := y.running + {MarkJob(f)}) else y
    case SeeMarked(f) => if At(y, f, Marking) && MarkJob(f) in y.succeeded then Goes(y, f, Sent204) else y
    case SeeAborted(f) => if At(y, f, Aborting) && AbortJob(f) in y.succeeded then Goes(y, f, Sent503) else y
    case GiveUp(f) =>
      if At(y, f, Beginning) || At(y, f, Aborting) then Goes(y, f, Silent)
      else if At(y, f, Marking) then Goes(y, f, Aborting).(running := y.running + {AbortJob(f)})
      else y
    case Cancel(f) =>
      if At(y, f, Candidate) || At(y, f, Beginning) || At(y, f, Marking) || At(y, f, Aborting)
      then Goes(y, f, Silent) else y
    case RunJob(job, fileError, lateAtStart, lateAtCommit) =>
      if y.status != Serving || job !in y.running || job.flow >= |y.flows| then y
      else
        var step := JobStep(y, job, fileError, lateAtStart, lateAtCommit);
        y.(ledger := step.after, running := y.running - {job},
           succeeded := if step.result.Ok? then y.succeeded + {job} else y.succeeded)
    case LoseJob(job) => y.(running := y.running - {job})
    case AckDelivered(f, fileError) =>
      if !At(y, f, Sent204) then y
      else
        var step := Acknowledge(y.ledger, y.flows[f].receipt.session, fileError);
        if step.result.Ok? then Goes(y, f, Acknowledged).(ledger := step.after) else y
    case _ => y
  }

  /** `acknowledge_delivery_possible_settlements` for one row, at start-up including attempts a crash interrupted. */
  function AckStep(y: System, s: nat, fileError: Option<LimitError>, includeAmbiguous: bool): System {
    if s in y.ledger.settlements && y.ledger.settlements[s].possible
       && (includeAmbiguous || y.ledger.settlements[s].attempt.None?)
    then y.(ledger := Acknowledge(y.ledger, s, fileError).after)
    else y
  }

  function Orphans(flows: seq<Flow>): seq<Flow> {
    seq(|flows|, f requires 0 <= f < |flows| => flows[f].(phase := flows[f].phase.Orphaned()))
  }

  function Today(y: System, now: nat, action: Action): System {
    match action
    case Serve(op) =>
      if y.status == Serving then y.(ledger := ServiceEffect(y.ledger, y.limits, op, now)) else y
    case DoSettle(s, token, actual, env) =>
      if y.status != Serving then y
      else
        var step := Settle(y.ledger, y.limits, s, token, actual, now, env);
        if step.result.Ok?
        then y.(ledger := step.after, flows := y.flows + [Flow(step.result.value, Holding)]) else y
    case AckPeriodic(s, fileError) => if y.status == Serving then AckStep(y, s, fileError, false) else y
    case Crash => y.(status := Down, flows := Orphans(y.flows), running := {}, succeeded := {})
    case Reopen(limits, secrets, files) =>
      var step := Open(y.ledger, limits, secrets, now, files);
      if y.status == Down && step.result.Ok?
      then y.(ledger := step.after, limits := limits, status := Starting) else y
    case AckAtStart(s, fileError) => if y.status == Starting then AckStep(y, s, fileError, true) else y
    case Listen => if y.status == Starting then y.(status := Serving) else y
    case _ => ExchangeStep(y, action)
  }

  /** One event; the day never goes back. */
  function Do(y: System, event: Event): System {
    if DayOf(event.now) < y.today then y else Today(y.(today := DayOf(event.now)), event.now, event.action)
  }

  function Run(y: System, events: seq<Event>): System {
    if events == [] then y else Do(Run(y, events[..|events| - 1]), events[|events| - 1])
  }

  function Fresh(limits: Limits): System {
    System(EMPTY_LEDGER, limits, 0, Serving, [], {}, {})
  }

  // The invariant.

  /** What the phase of flow f says about its settlement row and its charge. */
  predicate PhaseOk(y: System, f: nat)
    requires f < |y.flows| && IsSettled(y.ledger, y.flows[f].receipt.session)
  {
    var l, s := y.ledger, y.flows[f].receipt.session;
    var charged := l.uploads[s].actual.Some?;
    var jobs := y.running + y.succeeded;
    match y.flows[f].phase
    case Holding => Unstarted(y, f, s, charged)
    case Reverting => Unstarted(y, f, s, charged)
    case Candidate => Unstarted(y, f, s, charged)
    case Beginning => MarkJob(f) !in jobs && AbortJob(f) !in jobs
    case Marking => AbortJob(f) !in jobs && (MarkJob(f) in y.succeeded ==> DeliveryPossible(l, s))
    case Aborting => AbortJob(f) in y.succeeded ==> Compensated(l, s)
    case Silent => true
    case Sent204 => AbortJob(f) !in jobs && charged && (s in l.settlements ==> l.settlements[s].possible)
    case Acknowledged => AbortJob(f) !in jobs && charged && s !in l.settlements
    case Sent503 => Compensated(l, s)
  }

  /** No delivery attempt has been claimed, and the charge is still pending or given back. */
  predicate Unstarted(y: System, f: nat, s: nat, charged: bool) {
    && BeginJob(f) !in y.running + y.succeeded
    && MarkJob(f) !in y.running + y.succeeded
    && AbortJob(f) !in y.running + y.succeeded
    && (s in y.ledger.settlements ==> y.ledger.settlements[s].attempt.None?)
    && (charged ==> s in y.ledger.settlements)
  }

  predicate FlowOk(y: System, f: nat)
    requires f < |y.flows|
  {
    var l, receipt := y.ledger, y.flows[f].receipt;
    var s := receipt.session;
    && IsSettled(l, s) && s < |l.chargedOn|
    && (l.uploads[s].actual.Some? ==> l.uploads[s].actual == Some(receipt.actual) && l.chargedOn[s] == receipt.day)
    && (s in l.settlements ==> l.settlements[s].attempt == None || l.settlements[s].attempt == Some(f))
    && (DeliveryPossible(l, s) ==> l.settlements[s].attempt == Some(f))
    && PhaseOk(y, f)
  }

  predicate HasFlow(y: System, s: nat) {
    exists f :: 0 <= f < |y.flows| && y.flows[f].receipt.session == s
  }

  /** Each session has at most one exchange, and each settlement row has one. */
  ghost predicate FlowsMatch(y: System) {
    && (forall f, g :: 0 <= f < g < |y.flows| ==> y.flows[f].receipt.session != y.flows[g].receipt.session)
    && (forall s :: s in y.ledger.settlements ==> HasFlow(y, s))
    && (forall f: nat :: f < |y.flows| ==> FlowOk(y, f))
  }

  ghost predicate StatusOk(y: System) {
    && (y.status == Down ==> Stored(y.ledger, y.today))
    && (y.status != Down ==> y.limits.Valid() && Inv(y.ledger, y.limits, y.today))
    && (y.status != Serving ==>
          y.running == {} && y.succeeded == {}
          && forall f :: 0 <= f < |y.flows| ==> y.flows[f].phase == y.flows[f].phase.Orphaned())
  }

  /** Jobs belong to exchanges that exist. */
  ghost predicate JobsHaveFlows(y: System) {
    forall job: Job :: job in y.running || job in y.succeeded ==> job.flow < |y.flows|
  }

  ghost predicate SystemInv(y: System) {
    StatusOk(y) && FlowsMatch(y) && JobsHaveFlows(y)
  }

  // Steps that leave the flows alone.

  /** A ledger step that keeps settled sessions keeps every flow. */
  lemma KeptFlows(y: System, z: System)
    requires FlowsMatch(y) && AllKept(y.ledger, z.ledger)
    requires z.flows == y.flows && z.running == y.running && z.succeeded == y.succeeded
    requires forall s :: s in z.ledger.settlements ==> s in y.ledger.settlements
    requires RowsOk(z.ledger, z.today)
    ensures FlowsMatch(z)
  {
    forall s | s in z.ledger.settlements ensures HasFlow(z, s) {
      assert HasFlow(y, s);
      var f :| 0 <= f < |y.flows| && y.flows[f].receipt.session == s;
      assert z.flows[f].receipt.session == s;
    }
    forall f: nat | f < |z.flows| ensures FlowOk(z, f) {
      KeptFlow(y, z, f);
    }
  }

  lemma KeptFlow(y: System, z: System, f: nat)
    requires f < |y.flows| <= |z.flows| && y.flows[f] == z.flows[f] && FlowOk(y, f)
    requires Kept(y.ledger, z.ledger, y.flows[f].receipt.session)
    requires z.running == y.running && z.succeeded == y.succeeded
    requires RowsOk(z.ledger, z.today)
    ensures FlowOk(z, f)
  {
    var s := y.flows[f].receipt.session;
    assert RowOk(z.ledger, s, z.today);
  }

  /** A step that touches one flow and its session keeps the others. */
  lemma OneFlow(y: System, z: System, f: nat)
    requires FlowsMatch(y) && f < |y.flows| == |z.flows|
    requires OnlyTouches(y.ledger, z.ledger, y.flows[f].receipt.session)
    requires z.flows[f].receipt == y.flows[f].receipt
    requires forall g :: 0 <= g < |y.flows| && g != f ==> z.flows[g] == y.flows[g]
    requires forall job: Job :: job.flow != f ==>
               (job in z.running <==> job in y.running) && (job in z.succeeded <==> job in y.succeeded)
    requires y.flows[f].receipt.session in z.ledger.settlements ==> y.flows[f].receipt.session in y.ledger.settlements
    requires FlowOk(z, f)
    ensures FlowsMatch(z)
  {
    var s := y.flows[f].receipt.session;
    forall k: nat | k in z.ledger.settlements ensures HasFlow(z, k) {
      assert k != s ==> Untouched(y.ledger, z.ledger, k);
      assert HasFlow(y, k);
      var g :| 0 <= g < |y.flows| && y.flows[g].receipt.session == k;
      assert z.flows[g].receipt.session == k;
    }
    forall g: nat | g < |z.flows| ensures FlowOk(z, g) {
      if g != f {
        OtherFlow(y, z, g);
      }
    }
  }

  lemma OtherFlow(y: System, z: System, g: nat)
    requires g < |y.flows| == |z.flows| && z.flows[g] == y.flows[g] && FlowOk(y, g)
    requires Untouched(y.ledger, z.ledger, y.flows[g].receipt.session)
    requires forall job: Job :: job.flow == g ==>
               (job in z.running <==> job in y.running) && (job in z.succeeded <==> job in y.succeeded)
    ensures FlowOk(z, g)
  {
    var s := y.flows[g].receipt.session;
    assert Lookup(z.ledger.settlements, s) == Lookup(y.ledger.settlements, s);
    assert BeginJob(g).flow == g && MarkJob(g).flow == g && AbortJob(g).flow == g;
  }
}
